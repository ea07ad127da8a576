/** model_to_sudokuvar: drop the negative literals of a solver model, read
    each remaining literal's text back into value, row and column, and ask
    the active board's resolver for the box id.  The loop's locals persist
    across iterations, so a branch that assigns nothing leaves the previous
    entry's value or box in place, or raises UnboundLocalError on the
    first entry. */
module Decoder {
  import opened Common
  import opened Digits
  import opened Codec
  import opened StandardBox
  import opened Shapes
  import opened LegacyBox

  /** The entries of a model that are not negative, in order. */
  function NonNegatives(m: seq<int>): (r: seq<nat>)
    ensures |r| <= |m|
    ensures forall x :: x in r <==> x in m && x >= 0
  {
    if m == [] then []
    else
      var last := m[|m| - 1];
      NonNegatives(m[..|m| - 1]) + (if last >= 0 then [last as nat] else [])
  }

  /** The in-place removal loop: pop each negative entry, otherwise step
      past it.  It leaves exactly NonNegatives of the input. */
  method RemoveNegated(solution: seq<int>) returns (kept: seq<int>)
    ensures kept == NonNegatives(solution)
  {
    kept := solution;
    var i := 0;
    ghost var seen := 0;
    while i < |kept|
      invariant 0 <= i <= |kept| && 0 <= seen <= |solution|
      invariant kept[..i] == NonNegatives(solution[..seen])
      invariant kept[i..] == solution[seen..]
      decreases |kept| - i
    {
      assert solution[..seen + 1][..seen] == solution[..seen];
      assert solution[seen] == kept[i];
      if kept[i] < 0 {
        assert kept[i + 1..] == kept[i..][1..];
        kept := kept[..i] + kept[i + 1..];
        assert kept[i..] == solution[seen + 1..];
      } else {
        assert kept[..i + 1] == kept[..i] + [kept[i]];
        i := i + 1;
      }
      seen := seen + 1;
    }
    assert solution[..seen] == solution;
  }

  /** Which copy of the engine decodes: the current one resolves multidoku
      boxes from the generator's tables, the older backend from its
      arithmetic resolvers. */
  datatype Generation = Current | Legacy

  function Lift(r: Result<int>): Result<Option<int>> {
    match r
    case Err(e) => Err(e)
    case Ok(b) => Ok(Some(b))
  }

  /** The older backend's resolvers; Samurai and Sohei have none there. */
  function LegacyResolve(s: Shape, row: nat, col: nat): Result<Option<int>> {
    match s
    case Butterfly => Ok(Some(ButterflyBox(row, col)))
    case Cross => Lift(CrossBox(row, col))
    case Flower => Lift(FlowerBox(row, col))
    case Gattai => Lift(GattaiBox(row, col))
    case Kazaguruma => Lift(KazagurumaBox(row, col))
    case Samurai => Ok(None)
    case Sohei => Ok(None)
  }

  /** The `match puzzle.type` block: Ok(Some(b)) when a branch assigns
      `box`, Ok(None) when it passes (Tripledoku, Twodoku, every variant,
      an unknown kind). */
  function Resolve(gen: Generation, p: Puzzle, row: nat, col: nat): Result<Option<int>> {
    if p.kind == "standard" then Lift(CalculateStandard(p.dimension, p.ratio, col, row))
    else if p.kind == "multidoku" then
      match ShapeOf(p.subtype)
      case None => Ok(None)
      case Some(s) => if gen == Current then Lift(Lookup(s, row, col)) else LegacyResolve(s, row, col)
    else Ok(None)
  }

  /** The loop's `value` and `box` locals as the next entry finds them. */
  datatype Locals = Locals(value: Option<nat>, box: Option<int>)

  /** The conversion loop over the kept entries.  SudokuVar(value, row,
      col, box) reads `value` before `box`, so an unbound value is
      reported first. */
  function DecodeItems(items: seq<nat>, gen: Generation, p: Puzzle, locals: Locals): Result<seq<SudokuVar>> {
    if items == [] then Ok([])
    else
      match ParseItem(items[0], p.dimension, locals.value)
      case Err(e) => Err(e)
      case Ok(f) =>
        match Resolve(gen, p, f.row, f.col)
        case Err(e) => Err(e)
        case Ok(resolved) =>
          var box := if resolved.Some? then resolved else locals.box;
          if f.value.None? then Err(Unbound("value"))
          else if box.None? then Err(Unbound("box"))
          else
            match DecodeItems(items[1..], gen, p, Locals(f.value, box))
            case Err(e) => Err(e)
            case Ok(rest) => Ok([SudokuVar(f.value.value, f.row, f.col, box.value)] + rest)
  }

  /** model_to_sudokuvar. */
  function ModelToSudokuVar(solution: seq<int>, gen: Generation, p: Puzzle): Result<seq<SudokuVar>> {
    DecodeItems(NonNegatives(solution), gen, p, Locals(None, None))
  }

  /** The positive literals of a list of cells, in order. */
  function Literals(vars: seq<SudokuVar>, dim: int): (lits: seq<nat>)
    ensures |lits| == |vars|
    ensures forall k :: 0 <= k < |vars| ==> lits[k] == Literal(vars[k].value, vars[k].row, vars[k].col, dim)
  {
    if vars == [] then [] else [Literal(vars[0].value, vars[0].row, vars[0].col, dim)] + Literals(vars[1..], dim)
  }

  /** A cell the decoder can restore: its triple is encodable on the board
      and the resolver assigns it exactly its box. */
  predicate Restorable(gen: Generation, p: Puzzle, v: SudokuVar) {
    Encodable(v.value, v.row, v.col, p.dimension) && Resolve(gen, p, v.row, v.col) == Ok(Some(v.box))
  }

  /** Decoding the literals of restorable cells gives the cells back,
      whatever the loop's locals held before. */
  lemma {:induction false} DecodeRoundTrip(vars: seq<SudokuVar>, gen: Generation, p: Puzzle, locals: Locals)
    requires forall k :: 0 <= k < |vars| ==> Restorable(gen, p, vars[k])
    ensures DecodeItems(Literals(vars, p.dimension), gen, p, locals) == Ok(vars)
  {
    if vars != [] {
      var v := vars[0];
      var lits := Literals(vars, p.dimension);
      UnpackLiteral(v.value, v.row, v.col, p.dimension);
      ParseItemLiteral(lits[0], p.dimension, locals.value);
      assert lits[1..] == Literals(vars[1..], p.dimension);
      DecodeRoundTrip(vars[1..], gen, p, Locals(Some(v.value), Some(v.box)));
      assert [SudokuVar(v.value, v.row, v.col, v.box)] + vars[1..] == vars;
    }
  }

  /** A model whose true literals are exactly those of restorable cells,
      in order, decodes to those cells: the negative entries are ignored. */
  lemma ModelRoundTrip(solution: seq<int>, vars: seq<SudokuVar>, gen: Generation, p: Puzzle)
    requires NonNegatives(solution) == Literals(vars, p.dimension)
    requires forall k :: 0 <= k < |vars| ==> Restorable(gen, p, vars[k])
    ensures ModelToSudokuVar(solution, gen, p) == Ok(vars)
  {
    DecodeRoundTrip(vars, gen, p, Locals(None, None));
  }

  /** On a multidoku board every drawn cell resolves to the generator's
      box id, so a drawn, encodable cell carrying it is restorable. */
  lemma MultidokuRestorable(p: Puzzle, s: Shape, v: SudokuVar)
    requires p.kind == "multidoku" && ShapeOf(p.subtype) == Some(s)
    requires InFootprint(s, v.row, v.col) && v.box == Table(s, v.row, v.col)
    requires Encodable(v.value, v.row, v.col, p.dimension)
    ensures Restorable(Current, p, v)
  {
  }

  /** On a standard board every cell resolves to calculate_standard's id. */
  lemma StandardRestorable(p: Puzzle, v: SudokuVar)
    requires p.kind == "standard" && StandardBoard(p.dimension, p.ratio)
    requires v.row < p.dimension && v.col < p.dimension
    requires Encodable(v.value, v.row, v.col, p.dimension)
    requires CalculateStandard(p.dimension, p.ratio, v.col, v.row) == Ok(v.box)
    ensures Restorable(Current, p, v)
    ensures Restorable(Legacy, p, v)
  {
  }

  /** Where no branch assigns `box` (variants, Tripledoku, Twodoku, and in
      the older backend Samurai and Sohei), the first entry that parses
      raises UnboundLocalError on `box`. */
  lemma UnassignedBoxFails(items: seq<nat>, gen: Generation, p: Puzzle)
    requires |items| >= 1
    requires Resolve(gen, p, 0, 0) == Ok(None) && p.kind != "standard"
    requires p.kind == "multidoku" ==> ShapeOf(p.subtype).None? || (gen == Legacy && ShapeOf(p.subtype) in {Some(Samurai), Some(Sohei)})
    requires ParseItem(items[0], p.dimension, None).Ok? && ParseItem(items[0], p.dimension, None).value.value.Some?
    ensures DecodeItems(items, gen, p, Locals(None, None)) == Err(Unbound("box"))
  {
  }

  /** An instance of Codec.ParseItemStale: on a large board 10000 (value 1
      at (0, 0)) then 9999 decodes the second entry as value 1 at row 99,
      column 99. */
  lemma StaleValue()
    ensures ParseItem(10000, 12, None) == Ok(Fields(Some(1), 0, 0))
    ensures ParseItem(9999, 12, Some(1)) == Ok(Fields(Some(1), 99, 99))
  {
    ParseItemLiteral(10000, 12, None);
    ParseItemStale(9999, 12, Some(1));
    assert Decimal(9999) == "9999" by {
      assert Decimal(9) == "9";
      assert Decimal(99) == "99";
      assert Decimal(999) == "999";
    }
    var t := Decimal(9999);
    assert t[2..] == "99" && t[0..2] == "99";
    assert Parse("99") == 99 by { assert "99"[..1] == "9"; }
  }
}
