/** The clause compiler: "at least one value per cell" clauses, unit clauses
    for clues, and the pairwise "not both" exclusions along rows, columns
    and boxes (SubPuzzle's methods, and the free functions of the older
    backend, which take the same bounds as parameters). */
module Constraints {
  import opened Common
  import opened Codec

  /** [-lit(value at (r1, c1)), -lit(value at (r2, c2))]: the two cells do
      not both hold `value`. */
  function Exclusion(value: nat, dim: int, r1: nat, c1: nat, r2: nat, c2: nat): Clause {
    [-(Literal(value, r1, c1, dim) as int), -(Literal(value, r2, c2, dim) as int)]
  }

  /** One exclusion per value 1..maxNum, in increasing value order. */
  function Exclusions(maxNum: nat, dim: int, r1: nat, c1: nat, r2: nat, c2: nat): (cs: Clauses)
    ensures |cs| == maxNum
    ensures forall i :: 0 <= i < maxNum ==> cs[i] == Exclusion(i + 1, dim, r1, c1, r2, c2)
  {
    if maxNum == 0 then []
    else Exclusions(maxNum - 1, dim, r1, c1, r2, c2) + [Exclusion(maxNum, dim, r1, c1, r2, c2)]
  }

  lemma ExclusionsMembers(maxNum: nat, dim: int, r1: nat, c1: nat, r2: nat, c2: nat, cl: Clause)
    ensures cl in Exclusions(maxNum, dim, r1, c1, r2, c2) <==>
              exists value :: 1 <= value <= maxNum && cl == Exclusion(value, dim, r1, c1, r2, c2)
  {
    var cs := Exclusions(maxNum, dim, r1, c1, r2, c2);
    if cl in cs {
      var i :| 0 <= i < |cs| && cs[i] == cl;
      assert cl == Exclusion(i + 1, dim, r1, c1, r2, c2);
    }
    if exists value :: 1 <= value <= maxNum && cl == Exclusion(value, dim, r1, c1, r2, c2) {
      var value :| 1 <= value <= maxNum && cl == Exclusion(value, dim, r1, c1, r2, c2);
      assert cs[value - 1] == cl;
    }
  }

  /** A variable the model decides: it lists the literal or its negation
      (the solver reports every variable one way or the other). */
  ghost predicate Decides(m: Model, lit: int) {
    lit in m || -lit in m
  }

  /** Under a consistent model an exclusion holds iff the two cells do not
      both take the value (the "if" needs the model to decide both). */
  lemma ExclusionMeaning(m: Model, value: nat, dim: int, r1: nat, c1: nat, r2: nat, c2: nat)
    requires Consistent(m) && value >= 1
    ensures var a, b := Literal(value, r1, c1, dim), Literal(value, r2, c2, dim);
            && (SatisfiesClause(m, Exclusion(value, dim, r1, c1, r2, c2)) ==> !(Holds(m, a) && Holds(m, b)))
            && (Decides(m, a) && Decides(m, b) && !(Holds(m, a) && Holds(m, b)) ==>
                  SatisfiesClause(m, Exclusion(value, dim, r1, c1, r2, c2)))
  {
    var a, b := Literal(value, r1, c1, dim), Literal(value, r2, c2, dim);
    var cl := Exclusion(value, dim, r1, c1, r2, c2);
    if Decides(m, a) && Decides(m, b) && !(Holds(m, a) && Holds(m, b)) {
      if a !in m {
        assert Holds(m, cl[0]);
      } else {
        assert Holds(m, cl[1]);
      }
    }
  }

  /** Row clauses pair a cell with the later cells of its row; column
      clauses with the later cells of its column. */
  datatype Axis = AlongRow | AlongColumn

  /** The coordinate that runs along the axis. */
  function Pos(v: SudokuVar, axis: Axis): nat {
    if axis == AlongRow then v.col else v.row
  }

  /** The cell at position i on v's line. */
  function PartnerRow(v: SudokuVar, axis: Axis, i: nat): nat {
    if axis == AlongRow then v.row else i
  }

  function PartnerCol(v: SudokuVar, axis: Axis, i: nat): nat {
    if axis == AlongRow then i else v.col
  }

  /** The exclusions between v and positions from..maxLine of its line. */
  function LinePairs(v: SudokuVar, axis: Axis, dim: int, maxNum: nat, from: nat, maxLine: nat): Clauses
    decreases maxLine + 1 - from
  {
    if from > maxLine then []
    else
      Exclusions(maxNum, dim, v.row, v.col, PartnerRow(v, axis, from), PartnerCol(v, axis, from))
      + LinePairs(v, axis, dim, maxNum, from + 1, maxLine)
  }

  /** make_row_clauses (axis AlongRow, maxLine = max_col) and
      make_column_clauses (axis AlongColumn, maxLine = max_row): for each
      var in order, for each later position up to and including maxLine,
      one exclusion per value. */
  function LineClauses(vars: seq<SudokuVar>, axis: Axis, dim: int, maxNum: nat, maxLine: nat): Clauses
  {
    if vars == [] then []
    else
      LinePairs(vars[0], axis, dim, maxNum, Pos(vars[0], axis) + 1, maxLine)
      + LineClauses(vars[1..], axis, dim, maxNum, maxLine)
  }

  /** How many later positions up to maxLine a var has on its line. */
  function Gap(v: SudokuVar, axis: Axis, maxLine: nat): nat {
    if Pos(v, axis) < maxLine then maxLine - Pos(v, axis) else 0
  }

  function Gaps(vars: seq<SudokuVar>, axis: Axis, maxLine: nat): nat {
    if vars == [] then 0 else Gap(vars[0], axis, maxLine) + Gaps(vars[1..], axis, maxLine)
  }

  lemma {:induction false} LinePairsCount(v: SudokuVar, axis: Axis, dim: int, maxNum: nat, from: nat, maxLine: nat)
    ensures |LinePairs(v, axis, dim, maxNum, from, maxLine)| ==
              (if from > maxLine then 0 else maxLine + 1 - from) * maxNum
    decreases maxLine + 1 - from
  {
    if from <= maxLine {
      var n: nat := maxLine + 1 - from;
      var rest := LinePairs(v, axis, dim, maxNum, from + 1, maxLine);
      LinePairsCount(v, axis, dim, maxNum, from + 1, maxLine);
      assert |rest| == (n - 1) * maxNum;
      assert |Exclusions(maxNum, dim, v.row, v.col, PartnerRow(v, axis, from), PartnerCol(v, axis, from))| == maxNum;
      Distribute(n - 1, 1, maxNum);
    }
  }

  /** The number of row (or column) clauses: the sum over the vars of
      max(0, maxLine - position) times maxNum. */
  lemma {:induction false} LineClausesCount(vars: seq<SudokuVar>, axis: Axis, dim: int, maxNum: nat, maxLine: nat)
    ensures |LineClauses(vars, axis, dim, maxNum, maxLine)| == Gaps(vars, axis, maxLine) * maxNum
  {
    if vars != [] {
      var v := vars[0];
      var head := LinePairs(v, axis, dim, maxNum, Pos(v, axis) + 1, maxLine);
      var tail := LineClauses(vars[1..], axis, dim, maxNum, maxLine);
      var g, gs := Gap(v, axis, maxLine), Gaps(vars[1..], axis, maxLine);
      LinePairsCount(v, axis, dim, maxNum, Pos(v, axis) + 1, maxLine);
      assert (if Pos(v, axis) + 1 > maxLine then 0 else maxLine + 1 - (Pos(v, axis) + 1)) == g;
      LineClausesCount(vars[1..], axis, dim, maxNum, maxLine);
      assert |head + tail| == g * maxNum + gs * maxNum;
      Distribute(g, gs, maxNum);
    }
  }

  lemma Distribute(a: nat, b: nat, c: nat)
    ensures (a + b) * c == a * c + b * c
  {
  }

  /** The clauses a line builder may emit: for some var, some later
      position i up to maxLine, and some value 1..maxNum, the exclusion of
      that value between the var's cell and cell i of its line. */
  ghost predicate LineMember(vars: seq<SudokuVar>, axis: Axis, dim: int, maxNum: nat, maxLine: nat, cl: Clause) {
    exists k, i: nat, value ::
      0 <= k < |vars| && Pos(vars[k], axis) < i <= maxLine && 1 <= value <= maxNum &&
      cl == Exclusion(value, dim, vars[k].row, vars[k].col, PartnerRow(vars[k], axis, i), PartnerCol(vars[k], axis, i))
  }

  lemma {:induction false} LinePairsMembers(v: SudokuVar, axis: Axis, dim: int, maxNum: nat, from: nat, maxLine: nat, cl: Clause)
    ensures cl in LinePairs(v, axis, dim, maxNum, from, maxLine) <==>
              exists i: nat, value :: from <= i <= maxLine && 1 <= value <= maxNum &&
                cl == Exclusion(value, dim, v.row, v.col, PartnerRow(v, axis, i), PartnerCol(v, axis, i))
    decreases maxLine + 1 - from
  {
    if from <= maxLine {
      ExclusionsMembers(maxNum, dim, v.row, v.col, PartnerRow(v, axis, from), PartnerCol(v, axis, from), cl);
      LinePairsMembers(v, axis, dim, maxNum, from + 1, maxLine, cl);
      if exists i: nat, value :: from <= i <= maxLine && 1 <= value <= maxNum &&
           cl == Exclusion(value, dim, v.row, v.col, PartnerRow(v, axis, i), PartnerCol(v, axis, i)) {
        var i: nat, value :| from <= i <= maxLine && 1 <= value <= maxNum &&
           cl == Exclusion(value, dim, v.row, v.col, PartnerRow(v, axis, i), PartnerCol(v, axis, i));
        if i > from {
          assert from + 1 <= i <= maxLine;
        }
      }
    }
  }

  lemma {:induction false} LineClausesSound(vars: seq<SudokuVar>, axis: Axis, dim: int, maxNum: nat, maxLine: nat, cl: Clause)
    returns (k: nat, i: nat, value: nat)
    requires cl in LineClauses(vars, axis, dim, maxNum, maxLine)
    ensures k < |vars| && Pos(vars[k], axis) < i <= maxLine && 1 <= value <= maxNum
    ensures cl == Exclusion(value, dim, vars[k].row, vars[k].col, PartnerRow(vars[k], axis, i), PartnerCol(vars[k], axis, i))
  {
    var v := vars[0];
    if cl in LinePairs(v, axis, dim, maxNum, Pos(v, axis) + 1, maxLine) {
      LinePairsMembers(v, axis, dim, maxNum, Pos(v, axis) + 1, maxLine, cl);
      k := 0;
      i, value :| Pos(v, axis) + 1 <= i <= maxLine && 1 <= value <= maxNum &&
        cl == Exclusion(value, dim, v.row, v.col, PartnerRow(v, axis, i), PartnerCol(v, axis, i));
    } else {
      var k';
      k', i, value := LineClausesSound(vars[1..], axis, dim, maxNum, maxLine, cl);
      k := k' + 1;
      assert vars[1..][k'] == vars[k];
    }
  }

  lemma {:induction false} LineClausesComplete(vars: seq<SudokuVar>, axis: Axis, dim: int, maxNum: nat, maxLine: nat, k: nat, i: nat, value: nat)
    requires k < |vars| && Pos(vars[k], axis) < i <= maxLine && 1 <= value <= maxNum
    ensures Exclusion(value, dim, vars[k].row, vars[k].col, PartnerRow(vars[k], axis, i), PartnerCol(vars[k], axis, i))
              in LineClauses(vars, axis, dim, maxNum, maxLine)
  {
    var v := vars[k];
    var cl := Exclusion(value, dim, v.row, v.col, PartnerRow(v, axis, i), PartnerCol(v, axis, i));
    if k == 0 {
      LinePairsMembers(v, axis, dim, maxNum, Pos(v, axis) + 1, maxLine, cl);
    } else {
      assert vars[1..][k - 1] == v;
      LineClausesComplete(vars[1..], axis, dim, maxNum, maxLine, k - 1, i, value);
    }
  }

  /** Exactly the LineMember clauses are emitted. */
  lemma LineClausesMembers(vars: seq<SudokuVar>, axis: Axis, dim: int, maxNum: nat, maxLine: nat, cl: Clause)
    ensures cl in LineClauses(vars, axis, dim, maxNum, maxLine) <==> LineMember(vars, axis, dim, maxNum, maxLine, cl)
  {
    if cl in LineClauses(vars, axis, dim, maxNum, maxLine) {
      var k, i, value := LineClausesSound(vars, axis, dim, maxNum, maxLine, cl);
    }
    if LineMember(vars, axis, dim, maxNum, maxLine, cl) {
      var k, i: nat, value :| 0 <= k < |vars| && Pos(vars[k], axis) < i <= maxLine && 1 <= value <= maxNum &&
        cl == Exclusion(value, dim, vars[k].row, vars[k].col, PartnerRow(vars[k], axis, i), PartnerCol(vars[k], axis, i));
      LineClausesComplete(vars, axis, dim, maxNum, maxLine, k, i, value);
    }
  }

  /** A consistent model of the line clauses never puts the same value
      twice on a line of a var, up to maxLine. */
  lemma LineExclusive(m: Model, vars: seq<SudokuVar>, axis: Axis, dim: int, maxNum: nat, maxLine: nat,
                      k: nat, i: nat, value: nat)
    requires Consistent(m) && SatisfiesAll(m, LineClauses(vars, axis, dim, maxNum, maxLine))
    requires k < |vars| && Pos(vars[k], axis) < i <= maxLine && 1 <= value <= maxNum
    ensures !(Holds(m, Literal(value, vars[k].row, vars[k].col, dim)) &&
              Holds(m, Literal(value, PartnerRow(vars[k], axis, i), PartnerCol(vars[k], axis, i), dim)))
  {
    var v := vars[k];
    var cs := LineClauses(vars, axis, dim, maxNum, maxLine);
    LineClausesComplete(vars, axis, dim, maxNum, maxLine, k, i, value);
    var cl := Exclusion(value, dim, v.row, v.col, PartnerRow(v, axis, i), PartnerCol(v, axis, i));
    var n :| 0 <= n < |cs| && cs[n] == cl;
    assert SatisfiesClause(m, cl);
    ExclusionMeaning(m, value, dim, v.row, v.col, PartnerRow(v, axis, i), PartnerCol(v, axis, i));
  }

  /** The bucket `boxes[box]` names in a Python list of `total` buckets:
      a negative index counts from the end; anything outside
      [-total, total) is an IndexError. */
  function Bucket(box: int, total: nat): (b: Option<nat>)
    ensures b.Some? <==> -(total as int) <= box < total
    ensures b.Some? ==> b.value < total && (b.value == box || b.value == box + total)
  {
    if 0 <= box < total then Some(box)
    else if -(total as int) <= box < 0 then Some(box + total)
    else None
  }

  predicate AllBucketed(vars: seq<SudokuVar>, total: nat) {
    forall k :: 0 <= k < |vars| ==> Bucket(vars[k].box, total).Some?
  }

  predicate SameBox(u: SudokuVar, v: SudokuVar, total: nat) {
    Bucket(u.box, total).Some? && Bucket(u.box, total) == Bucket(v.box, total)
  }

  /** The vars of `earlier` that sit in v's bucket, in order. */
  function BucketMates(earlier: seq<SudokuVar>, v: SudokuVar, total: nat): seq<SudokuVar> {
    if earlier == [] then []
    else
      var rest := BucketMates(earlier[..|earlier| - 1], v, total);
      if SameBox(earlier[|earlier| - 1], v, total) then rest + [earlier[|earlier| - 1]] else rest
  }

  /** The exclusions between each of `mates`, in order, and v. */
  function ExclusionsWith(mates: seq<SudokuVar>, v: SudokuVar, dim: int, maxNum: nat): Clauses {
    if mates == [] then []
    else
      var u := mates[|mates| - 1];
      ExclusionsWith(mates[..|mates| - 1], v, dim, maxNum) + Exclusions(maxNum, dim, u.row, u.col, v.row, v.col)
  }

  /** The box clauses of the first n vars, written from the specification:
      for each var in turn, its exclusions with each earlier var of the same
      bucket. */
  function BoxPairs(vars: seq<SudokuVar>, dim: int, maxNum: nat, total: nat): Clauses {
    if vars == [] then []
    else
      var v := vars[|vars| - 1];
      var earlier := vars[..|vars| - 1];
      BoxPairs(earlier, dim, maxNum, total) + ExclusionsWith(BucketMates(earlier, v, total), v, dim, maxNum)
  }

  /** make_box_clauses, as a value: an IndexError if some var's box does
      not index the bucket list, else BoxPairs. */
  function BoxClauses(vars: seq<SudokuVar>, dim: int, maxNum: nat, total: nat): Result<Clauses> {
    if AllBucketed(vars, total) then Ok(BoxPairs(vars, dim, maxNum, total)) else Err(IndexOut)
  }

  /** The bucket list after the first k vars: bucket b holds, in order,
      the vars so far whose box indexes b. */
  function BucketsAfter(vars: seq<SudokuVar>, total: nat): seq<seq<SudokuVar>> {
    seq(total, (b: nat) => Filter(vars, b, total))
  }

  function Filter(vars: seq<SudokuVar>, b: nat, total: nat): seq<SudokuVar> {
    if vars == [] then []
    else
      var rest := Filter(vars[..|vars| - 1], b, total);
      if Bucket(vars[|vars| - 1].box, total) == Some(b) then rest + [vars[|vars| - 1]] else rest
  }

  lemma {:induction false} FilterIsMates(earlier: seq<SudokuVar>, v: SudokuVar, total: nat, b: nat)
    requires Bucket(v.box, total) == Some(b)
    ensures Filter(earlier, b, total) == BucketMates(earlier, v, total)
  {
    if earlier != [] {
      FilterIsMates(earlier[..|earlier| - 1], v, total, b);
    }
  }

  /** make_box_clauses as the loop it is: a list of `total` buckets, and
      for each var, exclusions with every var already in its bucket before
      it is appended there.  It computes BoxClauses. */
  method MakeBoxClauses(vars: seq<SudokuVar>, dim: int, maxNum: nat, total: nat) returns (r: Result<Clauses>)
    ensures r == BoxClauses(vars, dim, maxNum, total)
  {
    var boxes: seq<seq<SudokuVar>> := seq(total, _ => []);
    var clauses: Clauses := [];
    var k := 0;
    while k < |vars|
      invariant 0 <= k <= |vars|
      invariant AllBucketed(vars[..k], total)
      invariant |boxes| == total
      invariant forall b :: 0 <= b < total ==> boxes[b] == Filter(vars[..k], b, total)
      invariant clauses == BoxPairs(vars[..k], dim, maxNum, total)
    {
      var v := vars[k];
      var slot := Bucket(v.box, total);
      if slot.None? {
        assert !AllBucketed(vars, total) by { assert !Bucket(vars[k].box, total).Some?; }
        return Err(IndexOut);
      }
      var b := slot.value;
      var mates := boxes[b];
      var j := 0;
      var added: Clauses := [];
      while j < |mates|
        invariant 0 <= j <= |mates|
        invariant added == ExclusionsWith(mates[..j], v, dim, maxNum)
      {
        var u := mates[j];
        assert mates[..j + 1][..j] == mates[..j];
        added := added + Exclusions(maxNum, dim, u.row, u.col, v.row, v.col);
        j := j + 1;
      }
      assert mates[..j] == mates;
      assert vars[..k + 1][..k] == vars[..k];
      FilterIsMates(vars[..k], v, total, b);
      clauses := clauses + added;
      boxes := boxes[b := boxes[b] + [v]];
      k := k + 1;
      forall b' | 0 <= b' < total
        ensures boxes[b'] == Filter(vars[..k], b', total)
      {
      }
    }
    assert vars[..k] == vars;
    return Ok(clauses);
  }

  /** The clauses a box builder may emit: for some earlier var j and later
      var k in the same bucket and some value, the exclusion of that value
      with the earlier var's literal first. */
  ghost predicate BoxMember(vars: seq<SudokuVar>, dim: int, maxNum: nat, total: nat, cl: Clause) {
    exists j, k, value ::
      0 <= j < k < |vars| && SameBox(vars[j], vars[k], total) && 1 <= value <= maxNum &&
      cl == Exclusion(value, dim, vars[j].row, vars[j].col, vars[k].row, vars[k].col)
  }

  lemma {:induction false} ExclusionsWithMembers(mates: seq<SudokuVar>, v: SudokuVar, dim: int, maxNum: nat, cl: Clause)
    ensures cl in ExclusionsWith(mates, v, dim, maxNum) <==>
              exists j, value :: 0 <= j < |mates| && 1 <= value <= maxNum &&
                cl == Exclusion(value, dim, mates[j].row, mates[j].col, v.row, v.col)
  {
    if mates != [] {
      var init, u := mates[..|mates| - 1], mates[|mates| - 1];
      ExclusionsWithMembers(init, v, dim, maxNum, cl);
      ExclusionsMembers(maxNum, dim, u.row, u.col, v.row, v.col, cl);
      if exists j, value :: 0 <= j < |mates| && 1 <= value <= maxNum &&
           cl == Exclusion(value, dim, mates[j].row, mates[j].col, v.row, v.col) {
        var j, value :| 0 <= j < |mates| && 1 <= value <= maxNum &&
           cl == Exclusion(value, dim, mates[j].row, mates[j].col, v.row, v.col);
        if j < |mates| - 1 {
          assert init[j] == mates[j];
        }
      }
      if exists j, value :: 0 <= j < |init| && 1 <= value <= maxNum &&
           cl == Exclusion(value, dim, init[j].row, init[j].col, v.row, v.col) {
        var j, value :| 0 <= j < |init| && 1 <= value <= maxNum &&
           cl == Exclusion(value, dim, init[j].row, init[j].col, v.row, v.col);
        assert init[j] == mates[j];
      }
    }
  }

  lemma {:induction false} BucketMatesMembers(earlier: seq<SudokuVar>, v: SudokuVar, total: nat, u: SudokuVar)
    ensures u in BucketMates(earlier, v, total) <==> u in earlier && SameBox(u, v, total)
  {
    if earlier != [] {
      var init := earlier[..|earlier| - 1];
      BucketMatesMembers(init, v, total, u);
      assert earlier == init + [earlier[|earlier| - 1]];
    }
  }

  lemma {:induction false} BoxPairsSound(vars: seq<SudokuVar>, dim: int, maxNum: nat, total: nat, cl: Clause)
    returns (j: nat, k: nat, value: nat)
    requires cl in BoxPairs(vars, dim, maxNum, total)
    ensures j < k < |vars| && SameBox(vars[j], vars[k], total) && 1 <= value <= maxNum
    ensures cl == Exclusion(value, dim, vars[j].row, vars[j].col, vars[k].row, vars[k].col)
  {
    var n := |vars| - 1;
    var v, earlier := vars[n], vars[..n];
    var mates := BucketMates(earlier, v, total);
    if cl in BoxPairs(earlier, dim, maxNum, total) {
      j, k, value := BoxPairsSound(earlier, dim, maxNum, total, cl);
      assert vars[j] == earlier[j] && vars[k] == earlier[k];
    } else {
      ExclusionsWithMembers(mates, v, dim, maxNum, cl);
      var m, value' :| 0 <= m < |mates| && 1 <= value' <= maxNum &&
        cl == Exclusion(value', dim, mates[m].row, mates[m].col, v.row, v.col);
      value := value';
      BucketMatesMembers(earlier, v, total, mates[m]);
      j :| j < n && earlier[j] == mates[m];
      k := n;
    }
  }

  lemma {:induction false} BoxPairsComplete(vars: seq<SudokuVar>, dim: int, maxNum: nat, total: nat, j: nat, k: nat, value: nat)
    requires j < k < |vars| && SameBox(vars[j], vars[k], total) && 1 <= value <= maxNum
    ensures Exclusion(value, dim, vars[j].row, vars[j].col, vars[k].row, vars[k].col) in BoxPairs(vars, dim, maxNum, total)
  {
    var n := |vars| - 1;
    var v, earlier := vars[n], vars[..n];
    var cl := Exclusion(value, dim, vars[j].row, vars[j].col, vars[k].row, vars[k].col);
    if k < n {
      assert earlier[j] == vars[j] && earlier[k] == vars[k];
      BoxPairsComplete(earlier, dim, maxNum, total, j, k, value);
    } else {
      var mates := BucketMates(earlier, v, total);
      assert vars[j] == earlier[j];
      BucketMatesMembers(earlier, v, total, vars[j]);
      var m :| 0 <= m < |mates| && mates[m] == vars[j];
      ExclusionsWithMembers(mates, v, dim, maxNum, cl);
    }
  }

  /** Exactly the BoxMember clauses are emitted: no exclusion crosses two
      buckets, and each same-bucket pair gets one per value. */
  lemma BoxPairsMembers(vars: seq<SudokuVar>, dim: int, maxNum: nat, total: nat, cl: Clause)
    ensures cl in BoxPairs(vars, dim, maxNum, total) <==> BoxMember(vars, dim, maxNum, total, cl)
  {
    if cl in BoxPairs(vars, dim, maxNum, total) {
      var j, k, value := BoxPairsSound(vars, dim, maxNum, total, cl);
    }
    if BoxMember(vars, dim, maxNum, total, cl) {
      var j, k, value :| 0 <= j < k < |vars| && SameBox(vars[j], vars[k], total) && 1 <= value <= maxNum &&
        cl == Exclusion(value, dim, vars[j].row, vars[j].col, vars[k].row, vars[k].col);
      BoxPairsComplete(vars, dim, maxNum, total, j, k, value);
    }
  }

  /** The number of indices j < n whose var shares a bucket with vars[k]. */
  function SameCount(vars: seq<SudokuVar>, k: nat, n: nat, total: nat): nat
    requires n <= k < |vars|
  {
    if n == 0 then 0
    else SameCount(vars, k, n - 1, total) + (if SameBox(vars[n - 1], vars[k], total) then 1 else 0)
  }

  /** The number of index pairs j < k < n whose vars share a bucket. */
  function SamePairs(vars: seq<SudokuVar>, n: nat, total: nat): nat
    requires n <= |vars|
  {
    if n == 0 then 0 else SamePairs(vars, n - 1, total) + SameCount(vars, n - 1, n - 1, total)
  }

  lemma {:induction false} BucketMatesCount(vars: seq<SudokuVar>, k: nat, n: nat, total: nat)
    requires n <= k < |vars|
    ensures |BucketMates(vars[..n], vars[k], total)| == SameCount(vars, k, n, total)
  {
    if n > 0 {
      assert vars[..n][..n - 1] == vars[..n - 1];
      assert vars[..n][n - 1] == vars[n - 1];
      BucketMatesCount(vars, k, n - 1, total);
    }
  }

  lemma {:induction false} ExclusionsWithCount(mates: seq<SudokuVar>, v: SudokuVar, dim: int, maxNum: nat)
    ensures |ExclusionsWith(mates, v, dim, maxNum)| == |mates| * maxNum
  {
    if mates != [] {
      ExclusionsWithCount(mates[..|mates| - 1], v, dim, maxNum);
      Distribute(|mates| - 1, 1, maxNum);
    }
  }

  lemma {:induction false} BoxPairsPrefixCount(vars: seq<SudokuVar>, dim: int, maxNum: nat, total: nat, n: nat)
    requires n <= |vars|
    ensures |BoxPairs(vars[..n], dim, maxNum, total)| == SamePairs(vars, n, total) * maxNum
  {
    if n > 0 {
      var prefix := vars[..n];
      assert prefix[..n - 1] == vars[..n - 1];
      assert prefix[n - 1] == vars[n - 1];
      BoxPairsPrefixCount(vars, dim, maxNum, total, n - 1);
      BucketMatesCount(vars, n - 1, n - 1, total);
      ExclusionsWithCount(BucketMates(vars[..n - 1], vars[n - 1], total), vars[n - 1], dim, maxNum);
      Distribute(SamePairs(vars, n - 1, total), SameCount(vars, n - 1, n - 1, total), maxNum);
    }
  }

  /** The box clauses number exactly maxNum per pair of vars that share a
      bucket: one clause per value, none for any other pair. */
  lemma BoxPairsCount(vars: seq<SudokuVar>, dim: int, maxNum: nat, total: nat)
    ensures |BoxPairs(vars, dim, maxNum, total)| == SamePairs(vars, |vars|, total) * maxNum
  {
    BoxPairsPrefixCount(vars, dim, maxNum, total, |vars|);
    assert vars[..|vars|] == vars;
  }

  /** A consistent model of the box clauses never gives two vars of the
      same bucket the same value. */
  lemma BoxExclusive(m: Model, vars: seq<SudokuVar>, dim: int, maxNum: nat, total: nat, j: nat, k: nat, value: nat)
    requires Consistent(m) && SatisfiesAll(m, BoxPairs(vars, dim, maxNum, total))
    requires j < k < |vars| && SameBox(vars[j], vars[k], total) && 1 <= value <= maxNum
    ensures !(Holds(m, Literal(value, vars[j].row, vars[j].col, dim)) &&
              Holds(m, Literal(value, vars[k].row, vars[k].col, dim)))
  {
    var cs := BoxPairs(vars, dim, maxNum, total);
    BoxPairsComplete(vars, dim, maxNum, total, j, k, value);
    var cl := Exclusion(value, dim, vars[j].row, vars[j].col, vars[k].row, vars[k].col);
    var n :| 0 <= n < |cs| && cs[n] == cl;
    assert SatisfiesClause(m, cl);
    ExclusionMeaning(m, value, dim, vars[j].row, vars[j].col, vars[k].row, vars[k].col);
  }

  /** make_cell_clauses: for each var in order, the clause of its literals
      for values 1..maxNum in increasing order. */
  function CellClauses(vars: seq<SudokuVar>, dim: int, maxNum: nat): (cs: Clauses)
    ensures |cs| == |vars|
    ensures forall k :: 0 <= k < |vars| ==> |cs[k]| == maxNum
  {
    seq(|vars|, k requires 0 <= k < |vars| => seq(maxNum, i requires 0 <= i < maxNum => Literal(i + 1, vars[k].row, vars[k].col, dim)))
  }

  /** A cell clause lists exactly its cell's candidate literals, all
      positive, in increasing order; each decodes to its value and cell.
      A model satisfies it iff it gives the cell some value 1..maxNum. */
  lemma CellClauseMeaning(vars: seq<SudokuVar>, dim: int, maxNum: nat, k: nat, m: Model)
    requires k < |vars|
    requires Encodable(maxNum, vars[k].row, vars[k].col, dim)
    ensures var cl := CellClauses(vars, dim, maxNum)[k];
            && (forall i :: 0 <= i < maxNum ==>
                  cl[i] >= 1 && Unpack(cl[i], dim) == Triple(i + 1, vars[k].row, vars[k].col))
            && (forall i, j :: 0 <= i < j < maxNum ==> cl[i] < cl[j])
            && (SatisfiesClause(m, cl) <==>
                  exists value :: 1 <= value <= maxNum && Holds(m, Literal(value, vars[k].row, vars[k].col, dim)))
  {
    var v := vars[k];
    var cl := CellClauses(vars, dim, maxNum)[k];
    forall i | 0 <= i < maxNum
      ensures cl[i] >= 1 && Unpack(cl[i], dim) == Triple(i + 1, v.row, v.col)
    {
      UnpackLiteral(i + 1, v.row, v.col, dim);
    }
    forall i, j | 0 <= i < j < maxNum
      ensures cl[i] < cl[j]
    {
      LiteralArithmetic(i + 1, v.row, v.col, dim);
      LiteralArithmetic(j + 1, v.row, v.col, dim);
    }
    if SatisfiesClause(m, cl) {
      var i :| 0 <= i < |cl| && Holds(m, cl[i]);
      assert Holds(m, Literal(i + 1, v.row, v.col, dim));
    }
    if exists value :: 1 <= value <= maxNum && Holds(m, Literal(value, v.row, v.col, dim)) {
      var value :| 1 <= value <= maxNum && Holds(m, Literal(value, v.row, v.col, dim));
      assert cl[value - 1] == Literal(value, v.row, v.col, dim);
    }
  }

  /** make_known_value_clauses: one unit clause per clue, in input order. */
  function KnownValueClauses(vars: seq<SudokuVar>, dim: int): (cs: Clauses)
    ensures |cs| == |vars|
    ensures forall k :: 0 <= k < |vars| ==> |cs[k]| == 1
  {
    seq(|vars|, k requires 0 <= k < |vars| => [Literal(vars[k].value, vars[k].row, vars[k].col, dim)])
  }

  /** A model satisfies the clue clauses iff it makes every clue's literal
      true, and each clue's literal decodes back to the clue. */
  lemma KnownValueMeaning(vars: seq<SudokuVar>, dim: int, m: Model)
    ensures SatisfiesAll(m, KnownValueClauses(vars, dim)) <==>
              forall k :: 0 <= k < |vars| ==> Holds(m, Literal(vars[k].value, vars[k].row, vars[k].col, dim))
    ensures forall k :: 0 <= k < |vars| && Encodable(vars[k].value, vars[k].row, vars[k].col, dim) ==>
              Unpack(KnownValueClauses(vars, dim)[k][0], dim) == Triple(vars[k].value, vars[k].row, vars[k].col)
  {
    var cs := KnownValueClauses(vars, dim);
    if SatisfiesAll(m, cs) {
      forall k | 0 <= k < |vars|
        ensures Holds(m, Literal(vars[k].value, vars[k].row, vars[k].col, dim))
      {
        assert SatisfiesClause(m, cs[k]);
      }
    }
    if forall k :: 0 <= k < |vars| ==> Holds(m, Literal(vars[k].value, vars[k].row, vars[k].col, dim)) {
      forall k | 0 <= k < |vars|
        ensures SatisfiesClause(m, cs[k])
      {
        assert Holds(m, cs[k][0]);
      }
    }
    forall k | 0 <= k < |vars| && Encodable(vars[k].value, vars[k].row, vars[k].col, dim)
      ensures Unpack(cs[k][0], dim) == Triple(vars[k].value, vars[k].row, vars[k].col)
    {
      UnpackLiteral(vars[k].value, vars[k].row, vars[k].col, dim);
    }
  }

  /** SubPuzzle: a 9x9 (or whole-board) region and the vars it holds. */
  datatype SubPuzzle = SubPuzzle(dim: nat, maxNum: nat, maxCol: nat, maxRow: nat, totalBoxes: nat, vars: seq<SudokuVar>)

  /** SubPuzzle.get_clauses: row ++ column ++ box clauses; the box part's
      IndexError propagates. */
  function GetClauses(p: SubPuzzle): (r: Result<Clauses>)
    ensures r.Ok? <==> AllBucketed(p.vars, p.totalBoxes)
    ensures r.Err? ==> r.error == IndexOut
  {
    match BoxClauses(p.vars, p.dim, p.maxNum, p.totalBoxes)
    case Err(e) => Err(e)
    case Ok(boxes) =>
      Ok(LineClauses(p.vars, AlongRow, p.dim, p.maxNum, p.maxCol)
         + LineClauses(p.vars, AlongColumn, p.dim, p.maxNum, p.maxRow)
         + boxes)
  }

  /** What a region contributes: row exclusions up to maxCol, column
      exclusions up to maxRow, and same-bucket exclusions, and nothing
      else. */
  lemma SubPuzzleMembers(p: SubPuzzle, cl: Clause)
    requires AllBucketed(p.vars, p.totalBoxes)
    ensures cl in GetClauses(p).value <==>
              || LineMember(p.vars, AlongRow, p.dim, p.maxNum, p.maxCol, cl)
              || LineMember(p.vars, AlongColumn, p.dim, p.maxNum, p.maxRow, cl)
              || BoxMember(p.vars, p.dim, p.maxNum, p.totalBoxes, cl)
  {
    LineClausesMembers(p.vars, AlongRow, p.dim, p.maxNum, p.maxCol, cl);
    LineClausesMembers(p.vars, AlongColumn, p.dim, p.maxNum, p.maxRow, cl);
    BoxPairsMembers(p.vars, p.dim, p.maxNum, p.totalBoxes, cl);
  }
}
