/** get_solution: pick the clause builder from the puzzle's kind and
    subtype, prepend the clue clauses, hand everything to the SAT solver
    (a parameter here) and decode its model, or answer 0 when the solver
    finds none. */
module Solving {
  import opened Common
  import opened Codec
  import opened Constraints
  import opened Shapes
  import opened Builders
  import opened Decoder

  /** The `match puzzle.type` block: Ok(Some(cs)) when a branch assigns
      `puzzle_clauses`, Ok(None) when it passes.  The older backend has no
      Samurai or Sohei builder. */
  function PuzzleClauses(gen: Generation, p: Puzzle, allVars: seq<SudokuVar>): Result<Option<Clauses>> {
    if p.kind == "standard" then
      match StandardClauses(allVars, p.dimension)
      case Err(e) => Err(e)
      case Ok(cs) => Ok(Some(cs))
    else if p.kind == "multidoku" then
      match ShapeOf(p.subtype)
      case None => Ok(None)
      case Some(s) =>
        if gen == Current then
          match MultidokuClauses(s, allVars)
          case Err(e) => Err(e)
          case Ok(cs) => Ok(Some(cs))
        else if s == Samurai || s == Sohei then Ok(None)
        else
          match LegacyMultidokuClauses(s, allVars)
          case Err(e) => Err(e)
          case Ok(cs) => Ok(Some(cs))
    else Ok(None)
  }

  /** The builders only ever raise IndexError (a standard var whose box
      does not index the box list). */
  lemma PuzzleClausesError(gen: Generation, p: Puzzle, allVars: seq<SudokuVar>)
    ensures PuzzleClauses(gen, p, allVars).Err? ==>
              p.kind == "standard" && PuzzleClauses(gen, p, allVars).error == IndexOut
  {
    if p.kind != "standard" && p.kind == "multidoku" {
      match ShapeOf(p.subtype)
      case None =>
      case Some(s) =>
        if gen == Current {
          MultidokuOk(s, allVars);
        } else if !(s == Samurai || s == Sohei) {
          LegacyMultidokuPermutation(s, allVars);
        }
    }
  }

  /** known_value_clauses + puzzle_clauses; reading an unassigned
      `puzzle_clauses` raises UnboundLocalError. */
  function AllClauses(gen: Generation, known: seq<SudokuVar>, allVars: seq<SudokuVar>, p: Puzzle): (r: Result<Clauses>)
    ensures PuzzleClauses(gen, p, allVars) == Ok(None) <==> r == Err(Unbound("puzzle_clauses"))
    ensures r.Ok? ==> |r.value| >= |known| && r.value[..|known|] == KnownValueClauses(known, p.dimension)
    ensures PuzzleClauses(gen, p, allVars).Ok? && PuzzleClauses(gen, p, allVars).value.Some? ==>
              r.Ok? && r.value[|known|..] == PuzzleClauses(gen, p, allVars).value.value
    ensures PuzzleClauses(gen, p, allVars).Err? ==> r == Err(PuzzleClauses(gen, p, allVars).error)
  {
    match PuzzleClauses(gen, p, allVars)
    case Err(e) =>
      PuzzleClausesError(gen, p, allVars);
      Err(e)
    case Ok(None) => Err(Unbound("puzzle_clauses"))
    case Ok(Some(cs)) =>
      var kc := KnownValueClauses(known, p.dimension);
      assert (kc + cs)[..|known|] == kc;
      Ok(kc + cs)
  }

  /** What the SAT solver reports. */
  datatype SatResult = Sat(model: Model) | Unsat

  /** get_solution's result: the decoded cells, or 0 when unsatisfiable. */
  datatype Answer = Solved(cells: seq<SudokuVar>) | NoSolution

  function GetSolution(gen: Generation, known: seq<SudokuVar>, allVars: seq<SudokuVar>, p: Puzzle,
                       solver: Clauses -> SatResult): (r: Result<Answer>)
    ensures AllClauses(gen, known, allVars, p).Err? ==> r == Err(AllClauses(gen, known, allVars, p).error)
    ensures AllClauses(gen, known, allVars, p).Ok? && solver(AllClauses(gen, known, allVars, p).value) == Unsat ==>
              r == Ok(NoSolution)
  {
    match AllClauses(gen, known, allVars, p)
    case Err(e) => Err(e)
    case Ok(cs) =>
      match solver(cs)
      case Unsat => Ok(NoSolution)
      case Sat(m) =>
        match ModelToSudokuVar(m, gen, p)
        case Err(e) => Err(e)
        case Ok(cells) => Ok(Solved(cells))
  }

  /** When the solver's model lists exactly the literals of restorable
      cells, get_solution returns those cells. */
  lemma SolvedCells(gen: Generation, known: seq<SudokuVar>, allVars: seq<SudokuVar>, p: Puzzle,
                    solver: Clauses -> SatResult, cells: seq<SudokuVar>)
    requires AllClauses(gen, known, allVars, p).Ok?
    requires var m := solver(AllClauses(gen, known, allVars, p).value);
             m.Sat? && NonNegatives(m.model) == Literals(cells, p.dimension)
    requires forall k :: 0 <= k < |cells| ==> Restorable(gen, p, cells[k])
    ensures GetSolution(gen, known, allVars, p, solver) == Ok(Solved(cells))
  {
    var m := solver(AllClauses(gen, known, allVars, p).value).model;
    ModelRoundTrip(m, cells, gen, p);
  }

  /** Which boards build clauses: every standard board whose vars index
      the box list, every multidoku shape in the current engine, the five
      older shapes in the older backend; variants, Tripledoku and Twodoku
      raise on the unassigned `puzzle_clauses`. */
  lemma Dispatch(gen: Generation, known: seq<SudokuVar>, allVars: seq<SudokuVar>, p: Puzzle)
    ensures p.kind == "standard" ==>
              (AllClauses(gen, known, allVars, p).Ok? <==>
                 forall k :: 0 <= k < |allVars| ==> -(p.dimension as int) <= allVars[k].box < p.dimension)
    ensures p.kind == "multidoku" && ShapeOf(p.subtype).Some? ==>
              (AllClauses(gen, known, allVars, p).Ok? <==>
                 gen == Current || ShapeOf(p.subtype).value !in {Samurai, Sohei})
    ensures p.kind != "standard" && (p.kind != "multidoku" || ShapeOf(p.subtype).None?) ==>
              AllClauses(gen, known, allVars, p) == Err(Unbound("puzzle_clauses"))
  {
    if p.kind == "multidoku" && ShapeOf(p.subtype).Some? {
      var s := ShapeOf(p.subtype).value;
      MultidokuOk(s, allVars);
      LegacyMultidokuPermutation(s, allVars);
    }
  }

  lemma SatisfiesSubset(m: Model, big: Clauses, small: Clauses)
    requires SatisfiesAll(m, big)
    requires forall cl :: cl in small ==> cl in big
    ensures SatisfiesAll(m, small)
  {
    forall i | 0 <= i < |small|
      ensures SatisfiesClause(m, small[i])
    {
      assert small[i] in big;
      var j :| 0 <= j < |big| && big[j] == small[i];
    }
  }

  /** Any model satisfying a board's clauses makes every clue true. */
  lemma SolutionKeepsClues(gen: Generation, known: seq<SudokuVar>, allVars: seq<SudokuVar>, p: Puzzle, m: Model)
    requires AllClauses(gen, known, allVars, p).Ok?
    requires SatisfiesAll(m, AllClauses(gen, known, allVars, p).value)
    ensures forall k :: 0 <= k < |known| ==> Holds(m, Literal(known[k].value, known[k].row, known[k].col, p.dimension))
  {
    var cs := AllClauses(gen, known, allVars, p).value;
    var kc := KnownValueClauses(known, p.dimension);
    forall cl | cl in kc
      ensures cl in cs
    {
      var i :| 0 <= i < |kc| && kc[i] == cl;
      assert cs[i] == kc[i];
    }
    SatisfiesSubset(m, cs, kc);
    KnownValueMeaning(known, p.dimension, m);
  }

  /** In the current engine, a consistent model of a multidoku's clauses
      never repeats a value along a row of any region: for a var of the
      region and a later column up to the region's last, the two cells do
      not both hold the value. */
  lemma RegionRowsDistinct(known: seq<SudokuVar>, allVars: seq<SudokuVar>, p: Puzzle, s: Shape, m: Model,
                           r: nat, j: nat, c: nat, value: nat)
    requires p.kind == "multidoku" && ShapeOf(p.subtype) == Some(s)
    requires AllClauses(Current, known, allVars, p).Ok?
    requires Consistent(m) && SatisfiesAll(m, AllClauses(Current, known, allVars, p).value)
    requires r < |Regions(s)| && j < |Members(allVars, Regions(s)[r].ids)|
    requires Members(allVars, Regions(s)[r].ids)[j].col < c <= Regions(s)[r].maxCol && 1 <= value <= 9
    ensures var u := Members(allVars, Regions(s)[r].ids)[j];
            !(Holds(m, Literal(value, u.row, u.col, Side(s))) && Holds(m, Literal(value, u.row, c, Side(s))))
  {
    var g := Regions(s)[r];
    var ms := Members(allVars, g.ids);
    var cs := AllClauses(Current, known, allVars, p).value;
    var kc := KnownValueClauses(known, p.dimension);
    var mc := MultidokuClauses(s, allVars).value;
    assert cs == kc + mc;
    var lines := LineClauses(ms, AlongRow, Side(s), 9, g.maxCol);
    forall cl | cl in lines
      ensures cl in cs
    {
      LineClausesMembers(ms, AlongRow, Side(s), 9, g.maxCol, cl);
      assert RegionMember(s, g, allVars, cl);
      MultidokuMembers(s, allVars, cl);
    }
    SatisfiesSubset(m, cs, lines);
    LineExclusive(m, ms, AlongRow, Side(s), 9, g.maxCol, j, c, value);
  }

  /** The same down a column of any region: for a var of the region and
      a later row up to the region's last, the two cells do not both hold
      the value. */
  lemma RegionColumnsDistinct(known: seq<SudokuVar>, allVars: seq<SudokuVar>, p: Puzzle, s: Shape, m: Model,
                              r: nat, j: nat, row: nat, value: nat)
    requires p.kind == "multidoku" && ShapeOf(p.subtype) == Some(s)
    requires AllClauses(Current, known, allVars, p).Ok?
    requires Consistent(m) && SatisfiesAll(m, AllClauses(Current, known, allVars, p).value)
    requires r < |Regions(s)| && j < |Members(allVars, Regions(s)[r].ids)|
    requires Members(allVars, Regions(s)[r].ids)[j].row < row <= Regions(s)[r].maxRow && 1 <= value <= 9
    ensures var u := Members(allVars, Regions(s)[r].ids)[j];
            !(Holds(m, Literal(value, u.row, u.col, Side(s))) && Holds(m, Literal(value, row, u.col, Side(s))))
  {
    var g := Regions(s)[r];
    var ms := Members(allVars, g.ids);
    var cs := AllClauses(Current, known, allVars, p).value;
    var kc := KnownValueClauses(known, p.dimension);
    var mc := MultidokuClauses(s, allVars).value;
    assert cs == kc + mc;
    var lines := LineClauses(ms, AlongColumn, Side(s), 9, g.maxRow);
    forall cl | cl in lines
      ensures cl in cs
    {
      LineClausesMembers(ms, AlongColumn, Side(s), 9, g.maxRow, cl);
      assert RegionMember(s, g, allVars, cl);
      MultidokuMembers(s, allVars, cl);
    }
    SatisfiesSubset(m, cs, lines);
    LineExclusive(m, ms, AlongColumn, Side(s), 9, g.maxRow, j, row, value);
  }

  /** Likewise no two vars of one region that share a box hold the same
      value. */
  lemma RegionBoxesDistinct(known: seq<SudokuVar>, allVars: seq<SudokuVar>, p: Puzzle, s: Shape, m: Model,
                            r: nat, i: nat, j: nat, value: nat)
    requires p.kind == "multidoku" && ShapeOf(p.subtype) == Some(s)
    requires AllClauses(Current, known, allVars, p).Ok?
    requires Consistent(m) && SatisfiesAll(m, AllClauses(Current, known, allVars, p).value)
    requires r < |Regions(s)| && i < j < |Members(allVars, Regions(s)[r].ids)| && 1 <= value <= 9
    requires var ms := Members(allVars, Regions(s)[r].ids); SameBox(ms[i], ms[j], TotalBoxes(s))
    ensures var ms := Members(allVars, Regions(s)[r].ids);
            !(Holds(m, Literal(value, ms[i].row, ms[i].col, Side(s))) && Holds(m, Literal(value, ms[j].row, ms[j].col, Side(s))))
  {
    var g := Regions(s)[r];
    var ms := Members(allVars, g.ids);
    var cs := AllClauses(Current, known, allVars, p).value;
    var kc := KnownValueClauses(known, p.dimension);
    var mc := MultidokuClauses(s, allVars).value;
    assert cs == kc + mc;
    var boxes := BoxPairs(ms, Side(s), 9, TotalBoxes(s));
    forall cl | cl in boxes
      ensures cl in cs
    {
      BoxPairsMembers(ms, Side(s), 9, TotalBoxes(s), cl);
      assert RegionMember(s, g, allVars, cl);
      MultidokuMembers(s, allVars, cl);
    }
    SatisfiesSubset(m, cs, boxes);
    BoxExclusive(m, ms, Side(s), 9, TotalBoxes(s), i, j, value);
  }
}
