/** Shared value types of the Sudoku-to-CNF engine: the cell record, the
    puzzle descriptor, the Python run-time errors the engine can raise, and
    the CNF vocabulary. */
module Common {

  /** A Python exception raised by the engine.  `Unbound` is an
      UnboundLocalError on the named local variable; `KeyMissing` a KeyError
      on a lookup table; `IndexOut` an IndexError on a list or string;
      `BadInt` a ValueError from `int("")`; `DivByZero` a ZeroDivisionError. */
  datatype Error =
    | Unbound(name: string)
    | KeyMissing
    | IndexOut
    | BadInt
    | DivByZero

  datatype Result<+T> = Ok(value: T) | Err(error: Error)

  datatype Option<+T> = None | Some(value: T)

  /** One cell of a puzzle (SudokuVar).  `value` is 0 for a blank cell in
      pre-solve input; rows and columns are zero-based.  `box` is whatever
      id the active variant's resolver gave the cell. */
  datatype SudokuVar = SudokuVar(value: nat, row: nat, col: nat, box: int)

  /** The fields of the puzzle page the engine reads: `kind` is the page's
      `type` ("standard", "multidoku", "variants"), `subtype` the menu entry,
      `ratio` is "square", "wide" or "tall" for standard boards. */
  datatype Puzzle = Puzzle(kind: string, subtype: string, dimension: nat, ratio: string)

  /** A CNF clause (disjunction of signed literals) and a clause list. */
  type Clause = seq<int>
  type Clauses = seq<Clause>

  /** A solver model: the signed literals it reports. */
  type Model = seq<int>

  /** A literal holds in a model when the model lists it. */
  predicate Holds(m: Model, lit: int) {
    lit in m
  }

  /** A clause is satisfied when one of its literals holds. */
  predicate SatisfiesClause(m: Model, clause: Clause) {
    exists k :: 0 <= k < |clause| && Holds(m, clause[k])
  }

  ghost predicate SatisfiesAll(m: Model, clauses: Clauses) {
    forall i :: 0 <= i < |clauses| ==> SatisfiesClause(m, clauses[i])
  }

  /** No variable is reported both true and false. */
  ghost predicate Consistent(m: Model) {
    forall x :: x in m ==> -x !in m
  }
}
