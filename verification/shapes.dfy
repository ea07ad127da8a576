/** The composite ("multidoku") boards: their box-id tables (the
    generate_*_table functions, which stand for the lookup tables the
    resolvers read), the cells each board draws, and the overlapping 9x9
    regions the clause builders select by box id. */
module Shapes {
  import opened Common

  datatype Shape = Butterfly | Cross | Flower | Gattai | Kazaguruma | Samurai | Sohei

  /** Side length of the bounding square (the `dim` of each builder). */
  function Side(s: Shape): nat {
    match s
    case Butterfly => 12
    case Flower => 15
    case Gattai => 15
    case _ => 21
  }

  /** Number of 3x3 boxes (the builders' `total_boxes`). */
  function TotalBoxes(s: Shape): nat {
    match s
    case Butterfly => 16
    case Cross => 33
    case Flower => 21
    case Gattai => 20
    case Kazaguruma => 37
    case Samurai => 41
    case Sohei => 32
  }

  /** The generator's entry for (row, col), written band by band. */
  function Table(s: Shape, row: nat, col: nat): int {
    match s
    case Butterfly => col / 3 + (row / 3) * 4
    case Cross =>
      var r3 := row / 3;
      if r3 <= 1 then (col - 6) / 3 + r3 * 3
      else if r3 <= 4 then col / 3 + 7 * r3 - 8
      else (col - 6) / 3 + r3 * 3 + 12
    case Flower =>
      if row <= 2 then (col - 3) / 3
      else if row <= 11 then col / 3 + (row / 3) * 5 - 2
      else (col - 3) / 3 + 18
    case Gattai =>
      if row <= 2 then (col - 3) / 3
      else if row <= 5 then (col - 3) / 3 + 3
      else if row <= 11 then col / 3 + 7 + ((row - 6) / 3) * 5
      else col / 3 + 17
    case Kazaguruma =>
      if row <= 2 then (col - 3) / 3
      else if row <= 5 then col / 3 + 2
      else if row <= 8 then col / 3 + 8
      else if row <= 11 then col / 3 + 15
      else if row <= 14 then col / 3 + 22
      else if row <= 17 then col / 3 + 28
      else col / 3 + 31
    case Samurai =>
      if row <= 2 then (if col <= 11 then col / 3 else col / 3 - 1)
      else if row <= 5 then (if col <= 11 then col / 3 + 6 else col / 3 + 5)
      else if row <= 8 then col / 3 + 12
      else if row <= 11 then col / 3 + 17
      else if row <= 14 then col / 3 + 22
      else if row <= 17 then (if col <= 11 then col / 3 + 29 else col / 3 + 28)
      else (if col <= 11 then col / 3 + 35 else col / 3 + 34)
    case Sohei =>
      if row <= 2 then col / 3 - 2
      else if row <= 5 then col / 3 + 1
      else if row <= 8 then col / 3 + 6
      else if row <= 11 then (if col <= 11 then col / 3 + 13 else col / 3 + 12)
      else if row <= 14 then col / 3 + 19
      else if row <= 17 then col / 3 + 24
      else col / 3 + 27
  }

  /** The cells the board's grid creates. */
  predicate InFootprint(s: Shape, row: nat, col: nat) {
    match s
    case Butterfly => row < 12 && col < 12
    case Cross => row < 21 && col < 21 && (6 <= row <= 14 || 6 <= col <= 14)
    case Flower => row < 15 && col < 15 && (3 <= row <= 11 || 3 <= col <= 11)
    case Gattai =>
      || (row <= 2 && 3 <= col <= 11)
      || (3 <= row <= 5 && 3 <= col <= 14)
      || (6 <= row <= 11 && col <= 14)
      || (12 <= row <= 14 && col <= 8)
    case Kazaguruma =>
      || (row <= 2 && 3 <= col <= 11)
      || (3 <= row <= 8 && 3 <= col <= 20)
      || (9 <= row <= 11 && col <= 20)
      || (12 <= row <= 17 && col <= 17)
      || (18 <= row <= 20 && 9 <= col <= 17)
    case Samurai =>
      || ((row <= 5 || 15 <= row <= 20) && (col <= 8 || 12 <= col <= 20))
      || ((6 <= row <= 8 || 12 <= row <= 14) && col <= 20)
      || (9 <= row <= 11 && 6 <= col <= 14)
    case Sohei =>
      || ((row <= 5 || 15 <= row <= 20) && 6 <= col <= 14)
      || ((6 <= row <= 8 || 12 <= row <= 14) && col <= 20)
      || (9 <= row <= 11 && (col <= 8 || 12 <= col <= 20))
  }

  /** calculate_<shape>(row, col): a dictionary lookup keyed (row, col)
      over range(side) x range(side); any other key is a KeyError.  Every
      drawn cell gets an id among the board's boxes. */
  function Lookup(s: Shape, row: nat, col: nat): (r: Result<int>)
    ensures r.Err? <==> !(row < Side(s) && col < Side(s))
    ensures r.Err? ==> r.error == KeyMissing
    ensures InFootprint(s, row, col) ==> r.Ok? && 0 <= r.value < TotalBoxes(s)
  {
    if !(row < Side(s) && col < Side(s)) then Err(KeyMissing)
    else if InFootprint(s, row, col) then
      TableInRange(s, row, col);
      Ok(Table(s, row, col))
    else Ok(Table(s, row, col))
  }

  /** Block coordinates: the 3x3 block (row / 3, col / 3). */
  function BlockTable(s: Shape, br: nat, bc: nat): int {
    match s
    case Butterfly => bc + 4 * br
    case Cross =>
      if br <= 1 then bc - 2 + 3 * br
      else if br <= 4 then bc + 7 * br - 8
      else bc - 2 + 3 * br + 12
    case Flower =>
      if br == 0 then bc - 1
      else if br <= 3 then bc + 5 * br - 2
      else bc + 17
    case Gattai =>
      if br == 0 then bc - 1
      else if br == 1 then bc + 2
      else if br <= 3 then bc + 7 + (br - 2) * 5
      else bc + 17
    case Kazaguruma =>
      if br == 0 then bc - 1
      else if br == 1 then bc + 2
      else if br == 2 then bc + 8
      else if br == 3 then bc + 15
      else if br == 4 then bc + 22
      else if br == 5 then bc + 28
      else bc + 31
    case Samurai =>
      if br == 0 then (if bc <= 3 then bc else bc - 1)
      else if br == 1 then (if bc <= 3 then bc + 6 else bc + 5)
      else if br == 2 then bc + 12
      else if br == 3 then bc + 17
      else if br == 4 then bc + 22
      else if br == 5 then (if bc <= 3 then bc + 29 else bc + 28)
      else (if bc <= 3 then bc + 35 else bc + 34)
    case Sohei =>
      if br == 0 then bc - 2
      else if br == 1 then bc + 1
      else if br == 2 then bc + 6
      else if br == 3 then (if bc <= 3 then bc + 13 else bc + 12)
      else if br == 4 then bc + 19
      else if br == 5 then bc + 24
      else bc + 27
  }

  /** The drawn blocks. */
  predicate BlockInFootprint(s: Shape, br: nat, bc: nat) {
    match s
    case Butterfly => br < 4 && bc < 4
    case Cross => br < 7 && bc < 7 && (2 <= br <= 4 || 2 <= bc <= 4)
    case Flower => br < 5 && bc < 5 && (1 <= br <= 3 || 1 <= bc <= 3)
    case Gattai =>
      || (br == 0 && 1 <= bc <= 3)
      || (br == 1 && 1 <= bc <= 4)
      || (2 <= br <= 3 && bc <= 4)
      || (br == 4 && bc <= 2)
    case Kazaguruma =>
      || (br == 0 && 1 <= bc <= 3)
      || (1 <= br <= 2 && 1 <= bc <= 6)
      || (br == 3 && bc <= 6)
      || (4 <= br <= 5 && bc <= 5)
      || (br == 6 && 3 <= bc <= 5)
    case Samurai =>
      || ((br <= 1 || 5 <= br <= 6) && (bc <= 2 || 4 <= bc <= 6))
      || ((br == 2 || br == 4) && bc <= 6)
      || (br == 3 && 2 <= bc <= 4)
    case Sohei =>
      || ((br <= 1 || 5 <= br <= 6) && 2 <= bc <= 4)
      || ((br == 2 || br == 4) && bc <= 6)
      || (br == 3 && (bc <= 2 || 4 <= bc <= 6))
  }

  /** The table entry depends on the cell only through its 3x3 block, and
      the footprint is a union of whole blocks. */
  lemma TableByBlock(s: Shape, row: nat, col: nat)
    ensures Table(s, row, col) == BlockTable(s, row / 3, col / 3)
    ensures InFootprint(s, row, col) <==> BlockInFootprint(s, row / 3, col / 3)
  {
    assert (col - 3) / 3 == col / 3 - 1;
    assert (col - 6) / 3 == col / 3 - 2;
  }

  /** The block each box id names (the inverse of BlockTable on drawn
      blocks). */
  function BlockOf(s: Shape, b: int): (nat, nat)
    requires 0 <= b < TotalBoxes(s)
  {
    match s
    case Butterfly => (b / 4, b % 4)
    case Cross =>
      if b < 6 then (b / 3, b % 3 + 2)
      else if b < 27 then ((b - 6) / 7 + 2, (b - 6) % 7)
      else ((b - 27) / 3 + 5, (b - 27) % 3 + 2)
    case Flower =>
      if b < 3 then (0, b + 1)
      else if b < 18 then ((b - 3) / 5 + 1, (b - 3) % 5)
      else (4, b - 17)
    case Gattai =>
      if b < 3 then (0, b + 1)
      else if b < 7 then (1, b - 2)
      else if b < 17 then ((b - 7) / 5 + 2, (b - 7) % 5)
      else (4, b - 17)
    case Kazaguruma =>
      if b < 3 then (0, b + 1)
      else if b < 9 then (1, b - 2)
      else if b < 15 then (2, b - 8)
      else if b < 22 then (3, b - 15)
      else if b < 28 then (4, b - 22)
      else if b < 34 then (5, b - 28)
      else (6, b - 31)
    case Samurai =>
      if b < 3 then (0, b)
      else if b < 6 then (0, b + 1)
      else if b < 9 then (1, b - 6)
      else if b < 12 then (1, b - 5)
      else if b < 19 then (2, b - 12)
      else if b < 22 then (3, b - 17)
      else if b < 29 then (4, b - 22)
      else if b < 32 then (5, b - 29)
      else if b < 35 then (5, b - 28)
      else if b < 38 then (6, b - 35)
      else (6, b - 34)
    case Sohei =>
      if b < 3 then (0, b + 2)
      else if b < 6 then (1, b - 1)
      else if b < 13 then (2, b - 6)
      else if b < 16 then (3, b - 13)
      else if b < 19 then (3, b - 12)
      else if b < 26 then (4, b - 19)
      else if b < 29 then (5, b - 24)
      else (6, b - 27)
  }

  /** Every id names a drawn block, and that block carries the id.  The
      BlockOfInverse<Shape> lemmas below are the same fact for one board
      each; the verifier settles each by evaluation, and splitting by shape
      keeps each proof obligation small. */
  lemma BlockOfIsInverse(s: Shape, b: int)
    requires 0 <= b < TotalBoxes(s)
    ensures BlockInFootprint(s, BlockOf(s, b).0, BlockOf(s, b).1)
    ensures BlockTable(s, BlockOf(s, b).0, BlockOf(s, b).1) == b
  {
    match s
    case Butterfly => BlockOfInverseButterfly(b);
    case Cross => BlockOfInverseCross(b);
    case Flower => BlockOfInverseFlower(b);
    case Gattai => BlockOfInverseGattai(b);
    case Kazaguruma => BlockOfInverseKazaguruma(b);
    case Samurai => BlockOfInverseSamurai(b);
    case Sohei => BlockOfInverseSohei(b);
  }

  lemma BlockOfInverseButterfly(b: int)
    requires 0 <= b < TotalBoxes(Butterfly)
    ensures BlockInFootprint(Butterfly, BlockOf(Butterfly, b).0, BlockOf(Butterfly, b).1)
    ensures BlockTable(Butterfly, BlockOf(Butterfly, b).0, BlockOf(Butterfly, b).1) == b
  {
  }

  lemma BlockOfInverseCross(b: int)
    requires 0 <= b < TotalBoxes(Cross)
    ensures BlockInFootprint(Cross, BlockOf(Cross, b).0, BlockOf(Cross, b).1)
    ensures BlockTable(Cross, BlockOf(Cross, b).0, BlockOf(Cross, b).1) == b
  {
  }

  lemma BlockOfInverseFlower(b: int)
    requires 0 <= b < TotalBoxes(Flower)
    ensures BlockInFootprint(Flower, BlockOf(Flower, b).0, BlockOf(Flower, b).1)
    ensures BlockTable(Flower, BlockOf(Flower, b).0, BlockOf(Flower, b).1) == b
  {
  }

  lemma BlockOfInverseGattai(b: int)
    requires 0 <= b < TotalBoxes(Gattai)
    ensures BlockInFootprint(Gattai, BlockOf(Gattai, b).0, BlockOf(Gattai, b).1)
    ensures BlockTable(Gattai, BlockOf(Gattai, b).0, BlockOf(Gattai, b).1) == b
  {
  }

  lemma BlockOfInverseKazaguruma(b: int)
    requires 0 <= b < TotalBoxes(Kazaguruma)
    ensures BlockInFootprint(Kazaguruma, BlockOf(Kazaguruma, b).0, BlockOf(Kazaguruma, b).1)
    ensures BlockTable(Kazaguruma, BlockOf(Kazaguruma, b).0, BlockOf(Kazaguruma, b).1) == b
  {
  }

  lemma BlockOfInverseSamurai(b: int)
    requires 0 <= b < TotalBoxes(Samurai)
    ensures BlockInFootprint(Samurai, BlockOf(Samurai, b).0, BlockOf(Samurai, b).1)
    ensures BlockTable(Samurai, BlockOf(Samurai, b).0, BlockOf(Samurai, b).1) == b
  {
  }

  lemma BlockOfInverseSohei(b: int)
    requires 0 <= b < TotalBoxes(Sohei)
    ensures BlockInFootprint(Sohei, BlockOf(Sohei, b).0, BlockOf(Sohei, b).1)
    ensures BlockTable(Sohei, BlockOf(Sohei, b).0, BlockOf(Sohei, b).1) == b
  {
  }

  /** Every drawn block carries an id in range, and BlockOf recovers the
      block from it: ids and drawn blocks are in one-to-one
      correspondence.  As above, one BlockTableInverse<Shape> lemma per
      board keeps each obligation small. */
  lemma BlockTableIsInverse(s: Shape, br: nat, bc: nat)
    requires BlockInFootprint(s, br, bc)
    ensures 0 <= BlockTable(s, br, bc) < TotalBoxes(s)
    ensures BlockOf(s, BlockTable(s, br, bc)) == (br, bc)
  {
    match s
    case Butterfly => BlockTableInverseButterfly(br, bc);
    case Cross => BlockTableInverseCross(br, bc);
    case Flower => BlockTableInverseFlower(br, bc);
    case Gattai => BlockTableInverseGattai(br, bc);
    case Kazaguruma => BlockTableInverseKazaguruma(br, bc);
    case Samurai => BlockTableInverseSamurai(br, bc);
    case Sohei => BlockTableInverseSohei(br, bc);
  }

  lemma BlockTableInverseButterfly(br: nat, bc: nat)
    requires BlockInFootprint(Butterfly, br, bc)
    ensures 0 <= BlockTable(Butterfly, br, bc) < TotalBoxes(Butterfly)
    ensures BlockOf(Butterfly, BlockTable(Butterfly, br, bc)) == (br, bc)
  {
  }

  lemma BlockTableInverseCross(br: nat, bc: nat)
    requires BlockInFootprint(Cross, br, bc)
    ensures 0 <= BlockTable(Cross, br, bc) < TotalBoxes(Cross)
    ensures BlockOf(Cross, BlockTable(Cross, br, bc)) == (br, bc)
  {
  }

  lemma BlockTableInverseFlower(br: nat, bc: nat)
    requires BlockInFootprint(Flower, br, bc)
    ensures 0 <= BlockTable(Flower, br, bc) < TotalBoxes(Flower)
    ensures BlockOf(Flower, BlockTable(Flower, br, bc)) == (br, bc)
  {
  }

  lemma BlockTableInverseGattai(br: nat, bc: nat)
    requires BlockInFootprint(Gattai, br, bc)
    ensures 0 <= BlockTable(Gattai, br, bc) < TotalBoxes(Gattai)
    ensures BlockOf(Gattai, BlockTable(Gattai, br, bc)) == (br, bc)
  {
  }

  lemma BlockTableInverseKazaguruma(br: nat, bc: nat)
    requires BlockInFootprint(Kazaguruma, br, bc)
    ensures 0 <= BlockTable(Kazaguruma, br, bc) < TotalBoxes(Kazaguruma)
    ensures BlockOf(Kazaguruma, BlockTable(Kazaguruma, br, bc)) == (br, bc)
  {
  }

  lemma BlockTableInverseSamurai(br: nat, bc: nat)
    requires BlockInFootprint(Samurai, br, bc)
    ensures 0 <= BlockTable(Samurai, br, bc) < TotalBoxes(Samurai)
    ensures BlockOf(Samurai, BlockTable(Samurai, br, bc)) == (br, bc)
  {
  }

  lemma BlockTableInverseSohei(br: nat, bc: nat)
    requires BlockInFootprint(Sohei, br, bc)
    ensures 0 <= BlockTable(Sohei, br, bc) < TotalBoxes(Sohei)
    ensures BlockOf(Sohei, BlockTable(Sohei, br, bc)) == (br, bc)
  {
  }

  lemma BlockBijection(s: Shape, br: nat, bc: nat, b: int)
    requires 0 <= b < TotalBoxes(s)
    ensures BlockInFootprint(s, br, bc) ==>
              (BlockTable(s, br, bc) == b <==> (br, bc) == BlockOf(s, b))
  {
    BlockOfIsInverse(s, b);
    if BlockInFootprint(s, br, bc) {
      BlockTableIsInverse(s, br, bc);
    }
  }

  /** Every drawn cell's id is one of the board's boxes. */
  lemma TableInRange(s: Shape, row: nat, col: nat)
    requires InFootprint(s, row, col)
    ensures 0 <= Table(s, row, col) < TotalBoxes(s)
  {
    TableByBlock(s, row, col);
    BlockTableIsInverse(s, row / 3, col / 3);
  }

  /** Each box id names exactly one 3x3 block of drawn cells: a cell is
      drawn with id b iff it lies in block BlockOf(s, b). */
  lemma CellsOfBox(s: Shape, b: int, row: nat, col: nat)
    requires 0 <= b < TotalBoxes(s)
    ensures InFootprint(s, row, col) && Table(s, row, col) == b <==>
              (row / 3, col / 3) == BlockOf(s, b)
  {
    TableByBlock(s, row, col);
    BlockBijection(s, row / 3, col / 3, b);
  }

  /** Two drawn cells share an id iff they share a 3x3 block. */
  lemma SameBoxSameBlock(s: Shape, r1: nat, c1: nat, r2: nat, c2: nat)
    requires InFootprint(s, r1, c1) && InFootprint(s, r2, c2)
    ensures Table(s, r1, c1) == Table(s, r2, c2) <==> r1 / 3 == r2 / 3 && c1 / 3 == c2 / 3
  {
    TableInRange(s, r1, c1);
    CellsOfBox(s, Table(s, r1, c1), r1, c1);
    CellsOfBox(s, Table(s, r1, c1), r2, c2);
  }

  /** Inside the Sohei bounding square, the undrawn cells of rows 9-11,
      columns 9-11, take id 16, the id of the drawn block at columns
      12-14: the footprint has to be excluded there. */
  lemma SoheiHoleCollides(row: nat, col: nat)
    requires 9 <= row <= 11 && 9 <= col <= 11
    ensures !InFootprint(Sohei, row, col)
    ensures Table(Sohei, row, col) == 16 == Table(Sohei, row, col + 3)
    ensures InFootprint(Sohei, row, col + 3)
  {
  }

  /** A 9x9 sub-board of a composite puzzle: the last column and row it
      covers and the ids of its nine boxes. */
  datatype Region = Region(maxCol: nat, maxRow: nat, ids: seq<int>)

  /** The regions each builder creates, in builder order. */
  function Regions(s: Shape): seq<Region> {
    match s
    case Butterfly => ButterflyRegions()
    case Cross => CrossRegions()
    case Flower => FlowerRegions()
    case Gattai => GattaiRegions()
    case Kazaguruma => KazagurumaRegions()
    case Samurai => SamuraiRegions()
    case Sohei => SoheiRegions()
  }

  function ButterflyRegions(): seq<Region> {
    [ Region(8, 8, [0, 1, 2, 4, 5, 6, 8, 9, 10]),
      Region(11, 8, [1, 2, 3, 5, 6, 7, 9, 10, 11]),
      Region(8, 11, [4, 5, 6, 8, 9, 10, 12, 13, 14]),
      Region(11, 11, [5, 6, 7, 9, 10, 11, 13, 14, 15])]
  }

  function CrossRegions(): seq<Region> {
    [ Region(14, 8, [0, 1, 2, 3, 4, 5, 8, 9, 10]),
      Region(8, 14, [6, 7, 8, 13, 14, 15, 20, 21, 22]),
      Region(14, 14, [8, 9, 10, 15, 16, 17, 22, 23, 24]),
      Region(20, 14, [10, 11, 12, 17, 18, 19, 24, 25, 26]),
      Region(14, 20, [22, 23, 24, 27, 28, 29, 30, 31, 32])]
  }

  function FlowerRegions(): seq<Region> {
    [ Region(11, 8, [0, 1, 2, 4, 5, 6, 9, 10, 11]),
      Region(8, 11, [3, 4, 5, 8, 9, 10, 13, 14, 15]),
      Region(11, 11, [4, 5, 6, 9, 10, 11, 14, 15, 16]),
      Region(14, 11, [5, 6, 7, 10, 11, 12, 15, 16, 17]),
      Region(11, 14, [9, 10, 11, 14, 15, 16, 18, 19, 20])]
  }

  function GattaiRegions(): seq<Region> {
    [ Region(11, 8, [0, 1, 2, 3, 4, 5, 8, 9, 10]),
      Region(14, 11, [4, 5, 6, 9, 10, 11, 14, 15, 16]),
      Region(8, 14, [7, 8, 9, 12, 13, 14, 17, 18, 19])]
  }

  function KazagurumaRegions(): seq<Region> {
    [ Region(11, 8, [0, 1, 2, 3, 4, 5, 9, 10, 11]),
      Region(20, 11, [6, 7, 8, 12, 13, 14, 19, 20, 21]),
      Region(14, 14, [10, 11, 12, 17, 18, 19, 24, 25, 26]),
      Region(8, 17, [15, 16, 17, 22, 23, 24, 28, 29, 30]),
      Region(17, 20, [25, 26, 27, 31, 32, 33, 34, 35, 36])]
  }

  function SamuraiRegions(): seq<Region> {
    [ Region(8, 8, [0, 1, 2, 6, 7, 8, 12, 13, 14]),
      Region(20, 8, [3, 4, 5, 9, 10, 11, 16, 17, 18]),
      Region(14, 14, [14, 15, 16, 19, 20, 21, 24, 25, 26]),
      Region(8, 20, [22, 23, 24, 29, 30, 31, 35, 36, 37]),
      Region(20, 20, [26, 27, 28, 32, 33, 34, 38, 39, 40])]
  }

  function SoheiRegions(): seq<Region> {
    [ Region(14, 8, [0, 1, 2, 3, 4, 5, 8, 9, 10]),
      Region(8, 14, [6, 7, 8, 13, 14, 15, 19, 20, 21]),
      Region(20, 14, [10, 11, 12, 16, 17, 18, 23, 24, 25]),
      Region(14, 20, [21, 22, 23, 26, 27, 28, 29, 30, 31])]
  }

  /** The cells of the 9x9 square ending at (maxRow, maxCol). */
  predicate InSquare(g: Region, row: nat, col: nat) {
    g.maxRow - 8 <= row <= g.maxRow && g.maxCol - 8 <= col <= g.maxCol
  }

  /** A region is well formed when its corner lies on block boundaries
      and its j-th id names the j-th block, in row-major order, of the
      3x3-block square that ends at the corner. */
  predicate SquareRegion(s: Shape, g: Region) {
    && g.maxRow >= 8 && g.maxCol >= 8
    && g.maxRow % 3 == 2 && g.maxCol % 3 == 2
    && |g.ids| == 9
    && forall j :: 0 <= j < 9 ==> IdNamesBlock(s, g, j)
  }

  /** The j-th id of the region names the j-th block of its square. */
  predicate IdNamesBlock(s: Shape, g: Region, j: nat)
    requires |g.ids| == 9 && j < 9
  {
    0 <= g.ids[j] < TotalBoxes(s) && BlockOf(s, g.ids[j]) == (g.maxRow / 3 - 2 + j / 3, g.maxCol / 3 - 2 + j % 3)
  }

  /** The region check written out id by id, so that it evaluates on
      literal regions. */
  predicate RegionChecks(s: Shape, g: Region) {
    && g.maxRow >= 8 && g.maxCol >= 8
    && g.maxRow % 3 == 2 && g.maxCol % 3 == 2
    && |g.ids| == 9
    && IdNamesBlock(s, g, 0) && IdNamesBlock(s, g, 1) && IdNamesBlock(s, g, 2)
    && IdNamesBlock(s, g, 3) && IdNamesBlock(s, g, 4) && IdNamesBlock(s, g, 5)
    && IdNamesBlock(s, g, 6) && IdNamesBlock(s, g, 7) && IdNamesBlock(s, g, 8)
  }

  lemma RegionChecksSquare(s: Shape, g: Region)
    requires RegionChecks(s, g)
    ensures SquareRegion(s, g)
  {
    forall j | 0 <= j < 9
      ensures IdNamesBlock(s, g, j)
    {
      assert j in {0, 1, 2, 3, 4, 5, 6, 7, 8};
    }
  }

  /** Every builder region is a drawn 9x9 square.  The proof goes board by
      board (RegionsSquare<Shape>) and region by region (<Shape>Square<k>):
      each one-line lemma checks a single literal region by evaluation, and
      keeping them separate keeps each obligation within the solver's
      budget. */
  lemma RegionsAreSquares(s: Shape, k: nat)
    requires k < |Regions(s)|
    ensures SquareRegion(s, Regions(s)[k])
  {
    match s
    case Butterfly => RegionsSquareButterfly(k);
    case Cross => RegionsSquareCross(k);
    case Flower => RegionsSquareFlower(k);
    case Gattai => RegionsSquareGattai(k);
    case Kazaguruma => RegionsSquareKazaguruma(k);
    case Samurai => RegionsSquareSamurai(k);
    case Sohei => RegionsSquareSohei(k);
  }

  lemma RegionsSquareButterfly(k: nat)
    requires k < |Regions(Butterfly)|
    ensures SquareRegion(Butterfly, Regions(Butterfly)[k])
  {
    if k == 0 { ButterflySquare0();
    } else if k == 1 { ButterflySquare1();
    } else if k == 2 { ButterflySquare2();
    } else { ButterflySquare3();
    }
  }

  lemma ButterflySquare0() ensures SquareRegion(Butterfly, Regions(Butterfly)[0]) { RegionChecksSquare(Butterfly, Regions(Butterfly)[0]); }
  lemma ButterflySquare1() ensures SquareRegion(Butterfly, Regions(Butterfly)[1]) { RegionChecksSquare(Butterfly, Regions(Butterfly)[1]); }
  lemma ButterflySquare2() ensures SquareRegion(Butterfly, Regions(Butterfly)[2]) { RegionChecksSquare(Butterfly, Regions(Butterfly)[2]); }
  lemma ButterflySquare3() ensures SquareRegion(Butterfly, Regions(Butterfly)[3]) { RegionChecksSquare(Butterfly, Regions(Butterfly)[3]); }

  lemma RegionsSquareCross(k: nat)
    requires k < |Regions(Cross)|
    ensures SquareRegion(Cross, Regions(Cross)[k])
  {
    if k == 0 { CrossSquare0();
    } else if k == 1 { CrossSquare1();
    } else if k == 2 { CrossSquare2();
    } else if k == 3 { CrossSquare3();
    } else { CrossSquare4();
    }
  }

  lemma CrossSquare0() ensures SquareRegion(Cross, Regions(Cross)[0]) { RegionChecksSquare(Cross, Regions(Cross)[0]); }
  lemma CrossSquare1() ensures SquareRegion(Cross, Regions(Cross)[1]) { RegionChecksSquare(Cross, Regions(Cross)[1]); }
  lemma CrossSquare2() ensures SquareRegion(Cross, Regions(Cross)[2]) { RegionChecksSquare(Cross, Regions(Cross)[2]); }
  lemma CrossSquare3() ensures SquareRegion(Cross, Regions(Cross)[3]) { RegionChecksSquare(Cross, Regions(Cross)[3]); }
  lemma CrossSquare4() ensures SquareRegion(Cross, Regions(Cross)[4]) { RegionChecksSquare(Cross, Regions(Cross)[4]); }

  lemma RegionsSquareFlower(k: nat)
    requires k < |Regions(Flower)|
    ensures SquareRegion(Flower, Regions(Flower)[k])
  {
    if k == 0 { FlowerSquare0();
    } else if k == 1 { FlowerSquare1();
    } else if k == 2 { FlowerSquare2();
    } else if k == 3 { FlowerSquare3();
    } else { FlowerSquare4();
    }
  }

  lemma FlowerSquare0() ensures SquareRegion(Flower, Regions(Flower)[0]) { RegionChecksSquare(Flower, Regions(Flower)[0]); }
  lemma FlowerSquare1() ensures SquareRegion(Flower, Regions(Flower)[1]) { RegionChecksSquare(Flower, Regions(Flower)[1]); }
  lemma FlowerSquare2() ensures SquareRegion(Flower, Regions(Flower)[2]) { RegionChecksSquare(Flower, Regions(Flower)[2]); }
  lemma FlowerSquare3() ensures SquareRegion(Flower, Regions(Flower)[3]) { RegionChecksSquare(Flower, Regions(Flower)[3]); }
  lemma FlowerSquare4() ensures SquareRegion(Flower, Regions(Flower)[4]) { RegionChecksSquare(Flower, Regions(Flower)[4]); }

  lemma RegionsSquareGattai(k: nat)
    requires k < |Regions(Gattai)|
    ensures SquareRegion(Gattai, Regions(Gattai)[k])
  {
    if k == 0 { GattaiSquare0();
    } else if k == 1 { GattaiSquare1();
    } else { GattaiSquare2();
    }
  }

  lemma GattaiSquare0() ensures SquareRegion(Gattai, Regions(Gattai)[0]) { RegionChecksSquare(Gattai, Regions(Gattai)[0]); }
  lemma GattaiSquare1() ensures SquareRegion(Gattai, Regions(Gattai)[1]) { RegionChecksSquare(Gattai, Regions(Gattai)[1]); }
  lemma GattaiSquare2() ensures SquareRegion(Gattai, Regions(Gattai)[2]) { RegionChecksSquare(Gattai, Regions(Gattai)[2]); }

  lemma RegionsSquareKazaguruma(k: nat)
    requires k < |Regions(Kazaguruma)|
    ensures SquareRegion(Kazaguruma, Regions(Kazaguruma)[k])
  {
    if k == 0 { KazagurumaSquare0();
    } else if k == 1 { KazagurumaSquare1();
    } else if k == 2 { KazagurumaSquare2();
    } else if k == 3 { KazagurumaSquare3();
    } else { KazagurumaSquare4();
    }
  }

  lemma KazagurumaSquare0() ensures SquareRegion(Kazaguruma, Regions(Kazaguruma)[0]) { RegionChecksSquare(Kazaguruma, Regions(Kazaguruma)[0]); }
  lemma KazagurumaSquare1() ensures SquareRegion(Kazaguruma, Regions(Kazaguruma)[1]) { RegionChecksSquare(Kazaguruma, Regions(Kazaguruma)[1]); }
  lemma KazagurumaSquare2() ensures SquareRegion(Kazaguruma, Regions(Kazaguruma)[2]) { RegionChecksSquare(Kazaguruma, Regions(Kazaguruma)[2]); }
  lemma KazagurumaSquare3() ensures SquareRegion(Kazaguruma, Regions(Kazaguruma)[3]) { RegionChecksSquare(Kazaguruma, Regions(Kazaguruma)[3]); }
  lemma KazagurumaSquare4() ensures SquareRegion(Kazaguruma, Regions(Kazaguruma)[4]) { RegionChecksSquare(Kazaguruma, Regions(Kazaguruma)[4]); }

  lemma RegionsSquareSamurai(k: nat)
    requires k < |Regions(Samurai)|
    ensures SquareRegion(Samurai, Regions(Samurai)[k])
  {
    if k == 0 { SamuraiSquare0();
    } else if k == 1 { SamuraiSquare1();
    } else if k == 2 { SamuraiSquare2();
    } else if k == 3 { SamuraiSquare3();
    } else { SamuraiSquare4();
    }
  }

  lemma SamuraiSquare0() ensures SquareRegion(Samurai, Regions(Samurai)[0]) { RegionChecksSquare(Samurai, Regions(Samurai)[0]); }
  lemma SamuraiSquare1() ensures SquareRegion(Samurai, Regions(Samurai)[1]) { RegionChecksSquare(Samurai, Regions(Samurai)[1]); }
  lemma SamuraiSquare2() ensures SquareRegion(Samurai, Regions(Samurai)[2]) { RegionChecksSquare(Samurai, Regions(Samurai)[2]); }
  lemma SamuraiSquare3() ensures SquareRegion(Samurai, Regions(Samurai)[3]) { RegionChecksSquare(Samurai, Regions(Samurai)[3]); }
  lemma SamuraiSquare4() ensures SquareRegion(Samurai, Regions(Samurai)[4]) { RegionChecksSquare(Samurai, Regions(Samurai)[4]); }

  lemma RegionsSquareSohei(k: nat)
    requires k < |Regions(Sohei)|
    ensures SquareRegion(Sohei, Regions(Sohei)[k])
  {
    if k == 0 { SoheiSquare0();
    } else if k == 1 { SoheiSquare1();
    } else if k == 2 { SoheiSquare2();
    } else { SoheiSquare3();
    }
  }

  lemma SoheiSquare0() ensures SquareRegion(Sohei, Regions(Sohei)[0]) { RegionChecksSquare(Sohei, Regions(Sohei)[0]); }
  lemma SoheiSquare1() ensures SquareRegion(Sohei, Regions(Sohei)[1]) { RegionChecksSquare(Sohei, Regions(Sohei)[1]); }
  lemma SoheiSquare2() ensures SquareRegion(Sohei, Regions(Sohei)[2]) { RegionChecksSquare(Sohei, Regions(Sohei)[2]); }
  lemma SoheiSquare3() ensures SquareRegion(Sohei, Regions(Sohei)[3]) { RegionChecksSquare(Sohei, Regions(Sohei)[3]); }

  /** A region's box list selects exactly the drawn cells of the 9x9
      square that ends at its (maxRow, maxCol), and that whole square is
      drawn. */
  lemma RegionIsSquare(s: Shape, k: nat, row: nat, col: nat)
    requires k < |Regions(s)|
    ensures var g := Regions(s)[k];
            (InFootprint(s, row, col) && Table(s, row, col) in g.ids) <==> InSquare(g, row, col)
  {
    var g := Regions(s)[k];
    RegionsAreSquares(s, k);
    TableByBlock(s, row, col);
    RegionBlocks(s, g, row / 3, col / 3);
  }

  /** The block-level form: in a well-formed region, a block is drawn and
      listed iff it is one of the square's nine blocks. */
  lemma RegionBlocks(s: Shape, g: Region, br: nat, bc: nat)
    requires SquareRegion(s, g)
    ensures var r0, c0 := g.maxRow / 3 - 2, g.maxCol / 3 - 2;
            (BlockInFootprint(s, br, bc) && BlockTable(s, br, bc) in g.ids) <==>
              (r0 <= br <= r0 + 2 && c0 <= bc <= c0 + 2)
  {
    var r0, c0 := g.maxRow / 3 - 2, g.maxCol / 3 - 2;
    if r0 <= br <= r0 + 2 && c0 <= bc <= c0 + 2 {
      var j := 3 * (br - r0) + (bc - c0);
      assert j / 3 == br - r0 && j % 3 == bc - c0;
      assert IdNamesBlock(s, g, j);
      BlockOfIsInverse(s, g.ids[j]);
    }
    if BlockInFootprint(s, br, bc) && BlockTable(s, br, bc) in g.ids {
      var j :| 0 <= j < 9 && g.ids[j] == BlockTable(s, br, bc);
      assert IdNamesBlock(s, g, j);
      BlockTableIsInverse(s, br, bc);
    }
  }

  /** The multidoku menu entry naming each shape; Tripledoku, Twodoku and
      anything else name none. */
  function ShapeOf(subtype: string): Option<Shape> {
    if subtype == "Butterfly Sudoku" then Some(Butterfly)
    else if subtype == "Cross Sudoku" then Some(Cross)
    else if subtype == "Flower Sudoku" then Some(Flower)
    else if subtype == "Gattai-3" then Some(Gattai)
    else if subtype == "Kazaguruma" then Some(Kazaguruma)
    else if subtype == "Samurai Sudoku" then Some(Samurai)
    else if subtype == "Sohei Sudoku" then Some(Sohei)
    else None
  }
}
