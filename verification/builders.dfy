/** The per-puzzle clause builders.  A standard board is one SubPuzzle
    covering the whole grid; a multidoku is a list of 9x9 regions, each
    receiving the vars whose box id is in its list.  The newer builders
    emit cells, then each region's rows, columns and boxes in turn; the
    older backend emits cells, then every region's rows, then every
    region's columns, then every region's boxes. */
module Builders {
  import opened Common
  import opened Codec
  import opened Constraints
  import opened Shapes
  import opened StandardBox

  /** The vars whose box id is listed in `ids`, in input order. */
  function Members(vars: seq<SudokuVar>, ids: seq<int>): (r: seq<SudokuVar>)
    ensures |r| <= |vars|
    ensures forall u :: u in r <==> u in vars && u.box in ids
  {
    if vars == [] then []
    else (if vars[0].box in ids then [vars[0]] else []) + Members(vars[1..], ids)
  }

  /** Filtering keeps input order: the members of a concatenation are the
      members of its parts in turn.  With MembersCons (a single var is kept
      exactly when its box is listed) this fixes Members(vars, ids) for
      every input, so the earlier of two members comes first in each
      clause. */
  lemma {:induction false} MembersAppend(a: seq<SudokuVar>, b: seq<SudokuVar>, ids: seq<int>)
    ensures Members(a + b, ids) == Members(a, ids) + Members(b, ids)
  {
    if a == [] {
      assert a + b == b;
    } else {
      var t, h := a[1..], if a[0].box in ids then [a[0]] else [];
      assert a == [a[0]] + t;
      assert a + b == [a[0]] + (t + b);
      calc {
        Members(a + b, ids);
        == { MembersCons(a[0], t + b, ids); }
        h + Members(t + b, ids);
        == { MembersAppend(t, b, ids); }
        h + (Members(t, ids) + Members(b, ids));
        == { MembersCons(a[0], t, ids); }
        Members(a, ids) + Members(b, ids);
      }
    }
  }

  lemma MembersCons(v: SudokuVar, t: seq<SudokuVar>, ids: seq<int>)
    ensures Members([v], ids) == (if v.box in ids then [v] else [])
    ensures Members([v] + t, ids) == (if v.box in ids then [v] else []) + Members(t, ids)
  {
    assert ([v] + t)[1..] == t;
  }

  /** A region's SubPuzzle: a 9-value Sudoku on the board of shape s. */
  function RegionPuzzle(s: Shape, g: Region, vars: seq<SudokuVar>): SubPuzzle {
    SubPuzzle(Side(s), 9, g.maxCol, g.maxRow, TotalBoxes(s), Members(vars, g.ids))
  }

  /** Each region's get_clauses in turn, concatenated; the first failure
      is raised. */
  function RegionsClauses(s: Shape, regions: seq<Region>, vars: seq<SudokuVar>): Result<Clauses> {
    if regions == [] then Ok([])
    else
      match GetClauses(RegionPuzzle(s, regions[0], vars))
      case Err(e) => Err(e)
      case Ok(cs) =>
        match RegionsClauses(s, regions[1..], vars)
        case Err(e) => Err(e)
        case Ok(rest) => Ok(cs + rest)
  }

  /** make_butterfly_clauses, make_cross_clauses, ... make_sohei_clauses:
      the cell clauses of every var (values 1-9), then the regions. */
  function MultidokuClauses(s: Shape, vars: seq<SudokuVar>): Result<Clauses> {
    match RegionsClauses(s, Regions(s), vars)
    case Err(e) => Err(e)
    case Ok(cs) => Ok(CellClauses(vars, Side(s), 9) + cs)
  }

  predicate IdsInRange(s: Shape, regions: seq<Region>) {
    forall k, j :: 0 <= k < |regions| && 0 <= j < |regions[k].ids| ==> 0 <= regions[k].ids[j] < TotalBoxes(s)
  }

  /** Every region names valid box ids, since each names the blocks of
      its square. */
  lemma RegionIdsInRange(s: Shape)
    ensures IdsInRange(s, Regions(s))
  {
    forall k, j | 0 <= k < |Regions(s)| && 0 <= j < |Regions(s)[k].ids|
      ensures 0 <= Regions(s)[k].ids[j] < TotalBoxes(s)
    {
      RegionsAreSquares(s, k);
      assert IdNamesBlock(s, Regions(s)[k], j);
    }
  }

  lemma MembersBucketed(vars: seq<SudokuVar>, ids: seq<int>, total: nat)
    requires forall j :: 0 <= j < |ids| ==> 0 <= ids[j] < total
    ensures AllBucketed(Members(vars, ids), total)
  {
    var r := Members(vars, ids);
    forall k | 0 <= k < |r|
      ensures Bucket(r[k].box, total).Some?
    {
      assert r[k] in r;
    }
  }

  lemma {:induction false} RegionsClausesOk(s: Shape, regions: seq<Region>, vars: seq<SudokuVar>)
    requires IdsInRange(s, regions)
    ensures RegionsClauses(s, regions, vars).Ok?
  {
    if regions != [] {
      MembersBucketed(vars, regions[0].ids, TotalBoxes(s));
      assert IdsInRange(s, regions[1..]) by {
        forall k, j | 0 <= k < |regions[1..]| && 0 <= j < |regions[1..][k].ids|
          ensures 0 <= regions[1..][k].ids[j] < TotalBoxes(s)
        {
          assert regions[1..][k] == regions[k + 1];
        }
      }
      RegionsClausesOk(s, regions[1..], vars);
    }
  }

  /** Every region list holds valid box ids and members are filtered by
      those lists, so the multidoku builders never raise. */
  lemma MultidokuOk(s: Shape, vars: seq<SudokuVar>)
    ensures MultidokuClauses(s, vars).Ok?
  {
    RegionIdsInRange(s);
    RegionsClausesOk(s, Regions(s), vars);
  }

  /** The clauses one region contributes. */
  ghost predicate RegionMember(s: Shape, g: Region, vars: seq<SudokuVar>, cl: Clause) {
    var ms := Members(vars, g.ids);
    || LineMember(ms, AlongRow, Side(s), 9, g.maxCol, cl)
    || LineMember(ms, AlongColumn, Side(s), 9, g.maxRow, cl)
    || BoxMember(ms, Side(s), 9, TotalBoxes(s), cl)
  }

  lemma {:induction false} RegionsClausesMembers(s: Shape, regions: seq<Region>, vars: seq<SudokuVar>, cl: Clause)
    requires IdsInRange(s, regions)
    ensures RegionsClauses(s, regions, vars).Ok?
    ensures cl in RegionsClauses(s, regions, vars).value <==>
              exists k :: 0 <= k < |regions| && RegionMember(s, regions[k], vars, cl)
  {
    RegionsClausesOk(s, regions, vars);
    if regions != [] {
      var g := regions[0];
      MembersBucketed(vars, g.ids, TotalBoxes(s));
      SubPuzzleMembers(RegionPuzzle(s, g, vars), cl);
      assert IdsInRange(s, regions[1..]) by {
        forall k, j | 0 <= k < |regions[1..]| && 0 <= j < |regions[1..][k].ids|
          ensures 0 <= regions[1..][k].ids[j] < TotalBoxes(s)
        {
          assert regions[1..][k] == regions[k + 1];
        }
      }
      RegionsClausesMembers(s, regions[1..], vars, cl);
      if exists k :: 0 <= k < |regions| && RegionMember(s, regions[k], vars, cl) {
        var k :| 0 <= k < |regions| && RegionMember(s, regions[k], vars, cl);
        if k > 0 {
          assert regions[1..][k - 1] == regions[k];
        }
      }
      if exists k :: 0 <= k < |regions[1..]| && RegionMember(s, regions[1..][k], vars, cl) {
        var k :| 0 <= k < |regions[1..]| && RegionMember(s, regions[1..][k], vars, cl);
        assert regions[1..][k] == regions[k + 1];
      }
    }
  }

  /** A multidoku's clauses are exactly its vars' cell clauses and what
      its regions contribute. */
  lemma MultidokuMembers(s: Shape, vars: seq<SudokuVar>, cl: Clause)
    ensures MultidokuClauses(s, vars).Ok?
    ensures cl in MultidokuClauses(s, vars).value <==>
              || cl in CellClauses(vars, Side(s), 9)
              || exists k :: 0 <= k < |Regions(s)| && RegionMember(s, Regions(s)[k], vars, cl)
  {
    RegionIdsInRange(s);
    RegionsClausesMembers(s, Regions(s), vars, cl);
  }

  /** Each var sits on a drawn cell and carries the generator's box id, as
      the vars the page builds do. */
  ghost predicate WellPlaced(s: Shape, vars: seq<SudokuVar>) {
    forall u :: u in vars ==> InFootprint(s, u.row, u.col) && u.box == Table(s, u.row, u.col)
  }

  /** Filtering by box ids selects exactly the vars inside the region's
      9x9 square. */
  lemma RegionMembersAreSquare(s: Shape, k: nat, vars: seq<SudokuVar>, u: SudokuVar)
    requires k < |Regions(s)| && WellPlaced(s, vars)
    ensures u in Members(vars, Regions(s)[k].ids) <==> u in vars && InSquare(Regions(s)[k], u.row, u.col)
  {
    RegionIsSquare(s, k, u.row, u.col);
  }

  /** The older backend's grouping: every region's row clauses, then every
      region's column clauses, then every region's box clauses. */
  function RowsOf(s: Shape, regions: seq<Region>, vars: seq<SudokuVar>): Clauses {
    if regions == [] then []
    else LineClauses(Members(vars, regions[0].ids), AlongRow, Side(s), 9, regions[0].maxCol) + RowsOf(s, regions[1..], vars)
  }

  function ColsOf(s: Shape, regions: seq<Region>, vars: seq<SudokuVar>): Clauses {
    if regions == [] then []
    else LineClauses(Members(vars, regions[0].ids), AlongColumn, Side(s), 9, regions[0].maxRow) + ColsOf(s, regions[1..], vars)
  }

  function BoxesOf(s: Shape, regions: seq<Region>, vars: seq<SudokuVar>): Result<Clauses> {
    if regions == [] then Ok([])
    else
      match BoxClauses(Members(vars, regions[0].ids), Side(s), 9, TotalBoxes(s))
      case Err(e) => Err(e)
      case Ok(cs) =>
        match BoxesOf(s, regions[1..], vars)
        case Err(e) => Err(e)
        case Ok(rest) => Ok(cs + rest)
  }

  /** backend make_butterfly_clauses ... make_kazaguruma_clauses: cells,
      then all rows, all columns and all boxes. */
  function LegacyMultidokuClauses(s: Shape, vars: seq<SudokuVar>): Result<Clauses> {
    match BoxesOf(s, Regions(s), vars)
    case Err(e) => Err(e)
    case Ok(boxes) => Ok(CellClauses(vars, Side(s), 9) + RowsOf(s, Regions(s), vars) + ColsOf(s, Regions(s), vars) + boxes)
  }

  lemma {:induction false} RegroupRegions(s: Shape, regions: seq<Region>, vars: seq<SudokuVar>)
    ensures RegionsClauses(s, regions, vars).Ok? <==> BoxesOf(s, regions, vars).Ok?
    ensures RegionsClauses(s, regions, vars).Ok? ==>
              multiset(RegionsClauses(s, regions, vars).value) ==
              multiset(RowsOf(s, regions, vars)) + multiset(ColsOf(s, regions, vars)) + multiset(BoxesOf(s, regions, vars).value)
  {
    if regions != [] {
      RegroupRegions(s, regions[1..], vars);
    }
  }

  /** The two generations of multidoku builders agree up to clause order:
      both succeed, with the same multiset of clauses. */
  lemma LegacyMultidokuPermutation(s: Shape, vars: seq<SudokuVar>)
    ensures LegacyMultidokuClauses(s, vars).Ok? && MultidokuClauses(s, vars).Ok?
    ensures multiset(LegacyMultidokuClauses(s, vars).value) == multiset(MultidokuClauses(s, vars).value)
  {
    MultidokuOk(s, vars);
    LegacyRegroup(s, Regions(s), vars, CellClauses(vars, Side(s), 9));
  }

  /** The regrouping for any region list the current builder accepts,
      behind the same cell clauses. */
  lemma LegacyRegroup(s: Shape, regions: seq<Region>, vars: seq<SudokuVar>, cells: Clauses)
    requires RegionsClauses(s, regions, vars).Ok?
    ensures BoxesOf(s, regions, vars).Ok?
    ensures multiset(cells + RowsOf(s, regions, vars) + ColsOf(s, regions, vars) + BoxesOf(s, regions, vars).value) ==
            multiset(cells + RegionsClauses(s, regions, vars).value)
  {
    RegroupRegions(s, regions, vars);
  }

  /** make_standard_clauses: cell clauses with values 1..dim, then one
      SubPuzzle(dim, dim, dim, dim, dim) over all vars.  The older
      backend's copy emits the same sequence. */
  function StandardClauses(vars: seq<SudokuVar>, dim: nat): (r: Result<Clauses>)
    ensures r.Ok? <==> forall k :: 0 <= k < |vars| ==> -(dim as int) <= vars[k].box < dim
    ensures r.Err? ==> r.error == IndexOut
  {
    match GetClauses(SubPuzzle(dim, dim, dim, dim, dim, vars))
    case Err(e) => Err(e)
    case Ok(cs) => Ok(CellClauses(vars, dim, dim) + cs)
  }

  /** On a standard board whose vars carry calculate_standard's box ids,
      the builder succeeds. */
  lemma StandardBoardOk(vars: seq<SudokuVar>, dim: nat, ratio: string)
    requires StandardBoard(dim, ratio)
    requires forall k :: 0 <= k < |vars| ==>
               vars[k].row < dim && vars[k].col < dim &&
               CalculateStandard(dim, ratio, vars[k].col, vars[k].row) == Ok(vars[k].box)
    ensures StandardClauses(vars, dim).Ok?
  {
    forall k | 0 <= k < |vars|
      ensures -(dim as int) <= vars[k].box < dim
    {
      StandardBoxInRange(dim, ratio, vars[k].col, vars[k].row);
    }
  }

  /** The standard builder passes the dimension itself as the highest
      column and row index, so the row clauses of every var also exclude
      each value at column dim, one past the last column of the board. */
  lemma StandardExtraColumn(vars: seq<SudokuVar>, dim: nat, k: nat, value: nat)
    requires k < |vars| && vars[k].col < dim && 1 <= value <= dim
    requires forall j :: 0 <= j < |vars| ==> -(dim as int) <= vars[j].box < dim
    ensures Exclusion(value, dim, vars[k].row, vars[k].col, vars[k].row, dim) in StandardClauses(vars, dim).value
  {
    var p := SubPuzzle(dim, dim, dim, dim, dim, vars);
    var cl := Exclusion(value, dim, vars[k].row, vars[k].col, vars[k].row, dim);
    LineClausesComplete(vars, AlongRow, dim, dim, dim, k, dim, value);
    SubPuzzleMembers(p, cl);
    LineClausesMembers(vars, AlongRow, dim, dim, dim, cl);
  }
}
