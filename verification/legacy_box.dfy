/** The arithmetic box resolvers of the older backend (backend/box_indices.py;
    backend/misc_funcs.py repeats the butterfly, cross and flower ones
    verbatim).  Each `match row` arm that leaves a local unassigned makes the
    final read raise UnboundLocalError. */
module LegacyBox {
  import opened Common
  import opened Shapes

  /** calculate_butterfly: total, no guards. */
  function ButterflyBox(row: nat, col: nat): int {
    col / 3 + (row / 3) * 4
  }

  /** calculate_cross: rows 0-5 and 15-20 assign x and y only for columns
      6-14; rows beyond 20 match no arm.  `int(x)` is read first, so the
      error names x. */
  function CrossBox(row: nat, col: nat): Result<int> {
    if row <= 5 then
      if 6 <= col <= 14 then Ok((col - 6) / 3 + (row / 3) * 3) else Err(Unbound("x"))
    else if row <= 14 then Ok(col / 3 + 7 * (row / 3) - 8)
    else if row <= 20 then
      if 6 <= col <= 14 then Ok((col - 6) / 3 + (row / 3) * 3 + 12) else Err(Unbound("x"))
    else Err(Unbound("x"))
  }

  /** calculate_flower: the outer bands assign `box` only for columns 3-11. */
  function FlowerBox(row: nat, col: nat): Result<int> {
    if row <= 2 then
      if 3 <= col <= 11 then Ok((col - 3) / 3) else Err(Unbound("box"))
    else if row <= 11 then Ok(col / 3 + (row / 3) * 5 - 2)
    else if row <= 14 then
      if 3 <= col <= 11 then Ok((col - 3) / 3 + 18) else Err(Unbound("box"))
    else Err(Unbound("box"))
  }

  /** calculate_gattai: no column guards at all. */
  function GattaiBox(row: nat, col: nat): Result<int> {
    if row <= 2 then Ok((col - 3) / 3)
    else if row <= 5 then Ok((col - 3) / 3 + 3)
    else if row <= 11 then Ok(col / 3 + 7 + ((row - 6) / 3) * 5)
    else if row <= 14 then Ok(col / 3 + 17)
    else Err(Unbound("box"))
  }

  /** calculate_kazaguruma as written: rows 3-8 add 3, and 6 more from
      row 6 on; rows 12-17 add 22, and 6 more from row 15 on. */
  function KazagurumaBox(row: nat, col: nat): Result<int> {
    if row <= 2 then Ok((col - 3) / 3)
    else if row <= 8 then Ok(col / 3 + 3 + (if row >= 6 then 6 else 0))
    else if row <= 11 then Ok(col / 3 + 15)
    else if row <= 17 then Ok(col / 3 + 22 + (if row >= 15 then 6 else 0))
    else if row <= 20 then Ok(col / 3 + 31)
    else Err(Unbound("box"))
  }

  /** The butterfly formula is the generator's table on the whole 12x12
      board, so each of its 16 ids is one 3x3 block of 9 cells. */
  lemma ButterflyAgrees(row: nat, col: nat, b: int)
    requires row < 12 && col < 12 && 0 <= b < 16
    ensures 0 <= ButterflyBox(row, col) < 16
    ensures ButterflyBox(row, col) == Table(Butterfly, row, col)
    ensures ButterflyBox(row, col) == b <==> (row / 3, col / 3) == BlockOf(Butterfly, b)
  {
    TableInRange(Butterfly, row, col);
    CellsOfBox(Butterfly, b, row, col);
  }

  /** Inside the 21x21 square the cross resolver succeeds exactly on the
      drawn cells, where it agrees with the generator's table (ids in
      [0, 33)); elsewhere it raises on the unbound x. */
  lemma CrossAgrees(row: nat, col: nat)
    requires row < 21 && col < 21
    ensures CrossBox(row, col).Ok? <==> InFootprint(Cross, row, col)
    ensures InFootprint(Cross, row, col) ==>
              CrossBox(row, col) == Ok(Table(Cross, row, col)) &&
              0 <= CrossBox(row, col).value < 33
    ensures !InFootprint(Cross, row, col) ==> CrossBox(row, col) == Err(Unbound("x"))
  {
    if InFootprint(Cross, row, col) {
      TableInRange(Cross, row, col);
    }
  }

  /** The same for the flower resolver, with ids in [0, 21) and the error
      on the unbound `box`. */
  lemma FlowerAgrees(row: nat, col: nat)
    requires row < 15 && col < 15
    ensures FlowerBox(row, col).Ok? <==> InFootprint(Flower, row, col)
    ensures InFootprint(Flower, row, col) ==>
              FlowerBox(row, col) == Ok(Table(Flower, row, col)) &&
              0 <= FlowerBox(row, col).value < 21
    ensures !InFootprint(Flower, row, col) ==> FlowerBox(row, col) == Err(Unbound("box"))
  {
    if InFootprint(Flower, row, col) {
      TableInRange(Flower, row, col);
    }
  }

  /** The Gattai-3 resolver agrees with the generator on the whole 15x15
      square, so drawn cells get ids in [0, 20).  It never fails, so the
      undrawn cells silently get ids too: -1 at rows 0-2, columns 0-2; the
      id of a drawn block at rows 0-2, columns 12-14 (that of rows 3-5,
      columns 3-5) and at rows 3-5, columns 0-2 (that of rows 0-2,
      columns 9-11); and ids 20 and 21, beyond the board's boxes, at rows
      12-14, columns 9-14. */
  lemma GattaiAgrees(row: nat, col: nat)
    requires row < 15 && col < 15
    ensures GattaiBox(row, col).Ok?
    ensures GattaiBox(row, col) == Ok(Table(Gattai, row, col))
    ensures InFootprint(Gattai, row, col) ==> 0 <= GattaiBox(row, col).value < 20
    ensures row <= 2 && col <= 2 ==> !InFootprint(Gattai, row, col) && GattaiBox(row, col) == Ok(-1)
    ensures row <= 2 && 12 <= col ==>
              !InFootprint(Gattai, row, col) && InFootprint(Gattai, 3, col - 9) &&
              GattaiBox(row, col) == GattaiBox(3, col - 9) == Ok(3)
    ensures 3 <= row <= 5 && col <= 2 ==>
              !InFootprint(Gattai, row, col) && InFootprint(Gattai, 0, col + 9) &&
              GattaiBox(row, col) == GattaiBox(0, col + 9) == Ok(2)
    ensures 12 <= row && 9 <= col ==>
              !InFootprint(Gattai, row, col) && GattaiBox(row, col).value >= TotalBoxes(Gattai) &&
              GattaiBox(row, col) == Ok(if col <= 11 then 20 else 21)
  {
    if InFootprint(Gattai, row, col) {
      TableInRange(Gattai, row, col);
    }
  }

  /** The Kazaguruma resolver as written agrees with the generator except
      on rows 3-8, where it is one higher. */
  lemma KazagurumaOffByOne(row: nat, col: nat)
    requires row < 21
    ensures KazagurumaBox(row, col).Ok?
    ensures 3 <= row <= 8 ==> KazagurumaBox(row, col).value == Table(Kazaguruma, row, col) + 1
    ensures !(3 <= row <= 8) ==> KazagurumaBox(row, col).value == Table(Kazaguruma, row, col)
  {
  }

  /** The resulting collision: drawn cells (6, 18) and (9, 0) lie in
      different blocks yet both get id 15, and (6, 18) then joins the
      region whose square is rows 9-17, columns 0-8, which does not hold
      it.  The generator gives (6, 18) id 14. */
  lemma KazagurumaCollision()
    ensures InFootprint(Kazaguruma, 6, 18) && InFootprint(Kazaguruma, 9, 0)
    ensures KazagurumaBox(6, 18) == Ok(15) && KazagurumaBox(9, 0) == Ok(15)
    ensures (6 / 3, 18 / 3) != (9 / 3, 0 / 3)
    ensures 15 in Regions(Kazaguruma)[3].ids && !InSquare(Regions(Kazaguruma)[3], 6, 18)
    ensures Table(Kazaguruma, 6, 18) == 14 && Table(Kazaguruma, 9, 0) == 15
  {
    KazagurumaOffByOne(6, 18);
    KazagurumaOffByOne(9, 0);
  }
}
