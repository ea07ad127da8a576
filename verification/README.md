# solvd Sudoku engine: a Dafny model

solvd solves Sudoku puzzles by compiling them to CNF and handing the clauses
to a SAT solver. This project models that engine and proves properties of the
model. There are two generations of the engine:

- `solvd/sudoku/solving/solution.py` with `solvd/sudoku/common/box_indices.py`
  is the current one. Its multidoku box ids come from lookup tables, which are
  produced by `solvd/sudoku/common/table_generator.py`.
- `backend/sudoku_solving.py` with `backend/box_indices.py` is the older one.
  It resolves multidoku box ids with arithmetic.

The model has these parts:

- **Common** (`common.dfy`). The cell record (`SudokuVar`), the puzzle
  descriptor, and the Python exceptions the engine can raise, written as
  `Result` errors. It also holds the CNF vocabulary: clauses, models and
  satisfaction.
- **Digits** (`digits.dfy`). Decimal text and `int()` of digit strings.
- **Codec** (`codec.dfy`). Every cell/value pair becomes one integer literal.
  Its decimal text is `str(value)` followed by the row field and then the
  column field. On boards of dimension 10 or more, each field is zero-padded to
  two digits. `Codec.Literal` computes the literal arithmetically, and
  `Codec.LiteralIsText` proves it equals `int()` of the concatenated text.
  `Codec.ParseItem` is the decoder's slicing of `str(item)`, including its
  error and stale-value paths.
- **Constraints** (`constraints.dfy`). The clause families:
  - the known-value clauses (one per clue);
  - the cell clauses ("some value per cell");
  - the `SubPuzzle` clauses: row, column and box "at most once". The box
    clauses index Python's bucket list, where a negative box id wraps around.
- **StandardBox** (`standard_box.dfy`). `calculate_standard` and its two size
  helpers.
- **Shapes** (`shapes.dfy`). The seven composite ("multidoku") boards:
  - the generator's box-id table of each;
  - the cells each board draws;
  - the dictionary lookup the current resolver performs;
  - the 9x9 regions each builder creates, with their box-id lists.
- **LegacyBox** (`legacy_box.dfy`). The older backend's arithmetic resolvers,
  compared against the generator's tables.
- **Builders** (`builders.dfy`). The standard builder and the multidoku
  builders of both generations.
- **Decoder** (`decoder.dfy`). `model_to_sudokuvar`. Its loop locals survive
  from one entry to the next, so the stale-value and UnboundLocalError
  behaviour is modelled explicitly.
- **Solving** (`solving.dfy`). `get_solution`. The SAT solver is a function
  parameter.

`Decoder.Generation` (`Current` or `Legacy`) selects which engine a member
describes.

## Model

| member | source | states |
|---|---|---|
| Codec.AttrToStr | solvd/sudoku/solving/solution.py:517-531 | The field text is all digits and reads back as the attribute. A one-digit attribute is one character on small boards and is zero-padded to two on boards of dimension 10 or more; a two-digit attribute is two characters. |
| Codec.VarCoordsToStr | solvd/sudoku/solving/solution.py:501-514 | The row field followed by the column field reads as 10*row+col (two digits) on small boards and as 100*row+col (four digits) on large ones. |
| Codec.LiteralIsText | solvd/sudoku/solving/solution.py:471-473 | The arithmetic literal equals int(str(value) + var_coords_to_str(...)), the integer the clause builders emit. |
| Codec.LiteralArithmetic | solvd/sudoku/solving/solution.py:494-496 | The concatenated literal is 100*value+10*row+col on small boards and 10000*value+100*row+col on large ones, when the fields fit. |
| Codec.UnpackLiteral | solvd/sudoku/solving/solution.py:554-567 | For every encodable triple (value 1-9 and fields 0-9 on small boards; value 1-99 and fields 0-99 on large ones), the literal lies in the literal range and positional reading gives the triple back. |
| Codec.LiteralUnpack | solvd/sudoku/solving/solution.py:554-567 | Conversely, every literal in range is the encoding of the encodable triple it reads as, so the codec is a bijection. |
| Codec.LiteralInjective | solvd/sudoku/solving/solution.py:494-496 | Two encodable triples with the same literal are the same triple, so no two cell/value pairs share a SAT variable. |
| Codec.ParseItemLiteral | solvd/sudoku/solving/solution.py:556-567 | Slicing str(item) with item[0], item[1], item[2] on small boards, or item[0:2] or item[0], item[-4:-2], item[-2:] on large ones, recovers the positional fields of every in-range literal, whatever value an earlier entry left behind. |
| Codec.ParseItemStale | solvd/sudoku/solving/solution.py:561-567 | On boards of dimension 10 or more, an entry below 100 raises ValueError from int("") on its empty row text. Every other entry whose text is not five or six characters parses, and keeps the value the previous entry left (none before the first). |
| Constraints.Exclusions | solvd/sudoku/solving/solution.py:143-147 | There is one clause per value 1..max_num, in order; clause i forbids value i+1 at both cells. |
| Constraints.ExclusionsMembers | solvd/sudoku/solving/solution.py:143-147 | A clause is among the exclusions exactly when it forbids some value in 1..max_num at both cells. |
| Constraints.ExclusionMeaning | solvd/sudoku/solving/solution.py:146 | In a consistent model, a satisfied clause [-a, -b] means a and b do not both hold; when the model decides both literals, the converse holds too. |
| Constraints.LineClausesCount | solvd/sudoku/solving/solution.py:131-167 | The row (column) clauses number max_num per pair of a var and a later column (row) up to max_col (max_row). |
| Constraints.LineClausesMembers | solvd/sudoku/solving/solution.py:131-167 | A clause is a row (column) clause exactly when it excludes some value 1..max_num at a var and at a strictly later column (row) of the same row (column), up to max_col (max_row). |
| Constraints.LineExclusive | solvd/sudoku/solving/solution.py:131-167 | A consistent model satisfying the row (column) clauses never gives a var's value to a later cell of its line. |
| Constraints.Bucket | solvd/sudoku/solving/solution.py:176-178 | Indexing the list of total_boxes buckets succeeds exactly for ids in [-total, total); a negative id wraps to id+total. |
| Constraints.MakeBoxClauses | solvd/sudoku/solving/solution.py:169-188 | The bucket loop yields the clause list BoxClauses defines: an IndexError when any var's box id is outside [-total, total), otherwise every earlier same-bucket partner paired with each var, value by value. |
| Constraints.BoxPairsMembers | solvd/sudoku/solving/solution.py:169-188 | A clause is a box clause exactly when it excludes some value 1..max_num at two vars of the same bucket, the earlier var first. |
| Constraints.BoxPairsCount | solvd/sudoku/solving/solution.py:169-188 | The box clauses number exactly max_num per index pair j < k whose vars share a bucket. |
| Constraints.BoxExclusive | solvd/sudoku/solving/solution.py:169-188 | A consistent model satisfying the box clauses never gives two vars of one box the same value. |
| Constraints.CellClauses | solvd/sudoku/solving/solution.py:477-498 | One clause per var, each with max_num literals. |
| Constraints.CellClauseMeaning | solvd/sudoku/solving/solution.py:491-497 | A var's cell clause lists the literals of values 1..max_num at its cell in increasing order, and is satisfied iff some value holds there. |
| Constraints.KnownValueClauses | solvd/sudoku/solving/solution.py:457-474 | One unit clause per clue. |
| Constraints.KnownValueMeaning | solvd/sudoku/solving/solution.py:469-474 | A model satisfies the clue clauses iff every clue's literal holds; each unit literal reads back as its clue. |
| Constraints.GetClauses | solvd/sudoku/solving/solution.py:190-200 | The SubPuzzle's clauses exist iff every var's box id indexes the bucket list; the only failure is an IndexError. |
| Constraints.SubPuzzleMembers | solvd/sudoku/solving/solution.py:190-200 | A SubPuzzle clause is exactly a row, column or box clause of its vars. |
| StandardBox.SquareBoxSize | solvd/sudoku/common/box_indices.py:36-45 | The box side of a square board is the integer square root: s*s <= dimension < (s+1)^2. |
| StandardBox.SquareBoxSizeExact | solvd/sudoku/common/box_indices.py:36-45 | On a perfect square the root is exact. |
| StandardBox.BoxSizes | solvd/sudoku/common/box_indices.py:48-62 | The short side is 3 exactly on 12-boards, otherwise 2. Short times long is the dimension on even dimensions and one less on odd ones. |
| StandardBox.CalculateStandard | solvd/sudoku/common/box_indices.py:9-33 | An unknown ratio raises UnboundLocalError on x. The resolver fails exactly for an unknown ratio, a square board of dimension 0, or a wide/tall board of dimension below 2 (division by zero). |
| StandardBox.BoxShapeValues | solvd/sudoku/common/box_indices.py:20-31 | On the offered boards the box is 2x2, 3x3 or 4x4 (square), or 2x3, 2x4, 2x5, 3x4 (wide) and their transposes (tall), and height times width is the dimension. |
| StandardBox.StandardBoxInRange | solvd/sudoku/common/box_indices.py:9-33 | On the offered boards every cell's box id lies in [0, dimension). |
| StandardBox.StandardBoxIsBlock | solvd/sudoku/common/box_indices.py:9-33 | On the offered boards a cell gets id b iff it lies in the block at block-row b / h and block-column b % h, where h is the box height, so ids and blocks correspond one to one. |
| Shapes.Lookup | solvd/sudoku/common/box_indices.py:65-153 | The lookup fails (KeyError) exactly outside the side-by-side square, and every drawn cell gets an id among the board's total_boxes. |
| Shapes.TableInRange | solvd/sudoku/common/table_generator.py:2-127 | Every drawn cell's table id is in [0, total_boxes). |
| Shapes.CellsOfBox | solvd/sudoku/common/table_generator.py:2-127 | Each box id names exactly one 3x3 block of drawn cells. |
| Shapes.SameBoxSameBlock | solvd/sudoku/common/table_generator.py:2-127 | Two drawn cells share an id iff they share a 3x3 block, on all seven boards. |
| Shapes.BlockBijection | solvd/sudoku/common/table_generator.py:2-127 | Between drawn blocks and box ids, the table and BlockOf are mutually inverse. |
| Shapes.SoheiHoleCollides | solvd/sudoku/common/table_generator.py:106-127 | The undrawn centre block of the Sohei square gets the id of the drawn block to its right, so the footprint must be excluded there. |
| Shapes.RegionsAreSquares | solvd/sudoku/solving/solution.py:221-454 | Each builder's region lists the nine ids of the blocks of the 9x9 square ending at its (max_row, max_col), in block order, and that square is drawn. |
| Shapes.RegionIsSquare | solvd/sudoku/solving/solution.py:235-243 | Selecting drawn cells by a region's id list selects exactly the cells of its 9x9 square. |
| LegacyBox.ButterflyAgrees | backend/box_indices.py:64-76 | The older butterfly formula equals the generator's table on the 12x12 board, with ids in [0, 16) naming one block each. |
| LegacyBox.CrossAgrees | backend/box_indices.py:79-102 | The older cross resolver succeeds exactly on drawn cells, agrees with the table there, and raises UnboundLocalError on x elsewhere in the square. |
| LegacyBox.FlowerAgrees | backend/box_indices.py:105-126 | The same for the flower resolver, whose error names box. |
| LegacyBox.GattaiAgrees | backend/box_indices.py:129-150 | The older Gattai-3 resolver never fails and equals the generator's table on the whole 15x15 square, so drawn cells get ids in [0, 20). The undrawn cells get ids too: -1 at rows 0-2, columns 0-2. At rows 0-2, columns 12-14 they get 3, the id of the drawn block at rows 3-5, columns 3-5; at rows 3-5, columns 0-2 they get 2, the id of the drawn block at rows 0-2, columns 9-11. At rows 12-14, columns 9-14 they get 20 or 21, beyond the board's boxes. |
| LegacyBox.KazagurumaOffByOne | backend/box_indices.py:163-178 | The older Kazaguruma resolver is one above the generator's table on rows 3-8 and equal to it elsewhere. |
| LegacyBox.KazagurumaCollision | backend/box_indices.py:166-171 | Drawn cells (6, 18) and (9, 0) lie in different blocks yet both get id 15, and (6, 18) is then drawn into a region whose square does not hold it. |
| Builders.Members | solvd/sudoku/solving/solution.py:235-243 | A region's members are exactly the vars whose box id is in its list. |
| Builders.MembersAppend | solvd/sudoku/solving/solution.py:235-243 | Filtering keeps input order: the members of a concatenation are the members of its parts in turn. |
| Builders.MembersCons | solvd/sudoku/solving/solution.py:235-243 | A single var is kept exactly when its box id is listed, ahead of the members of the vars after it. |
| Builders.MultidokuOk | solvd/sudoku/solving/solution.py:221-454 | The current multidoku builders never raise, whatever the vars' box ids. |
| Builders.MultidokuMembers | solvd/sudoku/solving/solution.py:221-454 | A multidoku clause is exactly a cell clause or a row, column or box clause of one of its regions. |
| Builders.RegionMembersAreSquare | solvd/sudoku/solving/solution.py:235-243 | For vars on drawn cells carrying the generator's ids, a region's members are exactly the vars inside its 9x9 square. |
| Builders.LegacyMultidokuPermutation | backend/sudoku_solving.py:126-346 | The older builders (all rows, then all columns, then all boxes) produce the same multiset of clauses as the current per-region builders. |
| Builders.StandardClauses | solvd/sudoku/solving/solution.py:203-218 | The standard builder succeeds iff every box id indexes the dim buckets; failure is an IndexError. |
| Builders.StandardBoardOk | solvd/sudoku/solving/solution.py:203-218 | On the offered boards, with calculate_standard's ids, the standard builder succeeds. |
| Builders.StandardExtraColumn | solvd/sudoku/solving/solution.py:216 | Because max_col is dim, each var's row clauses also exclude its values at column dim, one past the board. |
| Decoder.NonNegatives | solvd/sudoku/solving/solution.py:546-552 | The kept entries are exactly the model's non-negative ones. |
| Decoder.RemoveNegated | solvd/sudoku/solving/solution.py:546-552 | The in-place pop loop leaves the non-negative entries in order. |
| Decoder.DecodeRoundTrip | solvd/sudoku/solving/solution.py:553-637 | Decoding the literals of restorable cells gives those cells back, whatever the loop's locals held. |
| Decoder.ModelRoundTrip | solvd/sudoku/solving/solution.py:534-637 | A model whose non-negative entries are the literals of restorable cells decodes to exactly those cells. |
| Decoder.MultidokuRestorable | solvd/sudoku/solving/solution.py:571-586 | On a multidoku board, an encodable drawn cell that carries the table id is restorable. |
| Decoder.StandardRestorable | solvd/sudoku/solving/solution.py:569-570 | On a standard board, an encodable cell carrying calculate_standard's id is restorable by both engines. |
| Decoder.UnassignedBoxFails | solvd/sudoku/solving/solution.py:587-635 | Where no branch assigns box (variants, Tripledoku, Twodoku, and Samurai and Sohei in the older backend), the first parsed entry that assigns a value raises UnboundLocalError on box. |
| Decoder.StaleValue | solvd/sudoku/solving/solution.py:561-567 | An instance of the stale value: on a 12-board, 10000 then 9999 decodes the second entry as value 1 at (99, 99). |
| Solving.AllClauses | solvd/sudoku/solving/solution.py:92-93 | The clause list is the clue clauses followed by the builder's clauses, and a builder error is passed on unchanged. Reading an unassigned puzzle_clauses raises UnboundLocalError. |
| Solving.PuzzleClausesError | solvd/sudoku/solving/solution.py:25-91 | Only the standard builder can raise, and only IndexError. |
| Solving.GetSolution | solvd/sudoku/solving/solution.py:10-101 | Clause-building errors propagate, and an unsatisfiable clause set yields 0. |
| Solving.SolvedCells | solvd/sudoku/solving/solution.py:97-99 | When the solver's model lists exactly the literals of restorable cells, get_solution returns those cells. |
| Solving.Dispatch | solvd/sudoku/solving/solution.py:25-91 | Standard boards build iff every box id indexes the buckets. Multidoku shapes build in the current engine and, in the older one, all but Samurai and Sohei. Every other board raises on puzzle_clauses. |
| Solving.SolutionKeepsClues | solvd/sudoku/solving/solution.py:92-99 | Any model of the clauses makes every clue true. |
| Solving.RegionRowsDistinct | solvd/sudoku/solving/solution.py:221-454 | In a consistent model of a multidoku's clauses, no value repeats along a row of any region. |
| Solving.RegionColumnsDistinct | solvd/sudoku/solving/solution.py:221-454 | In a consistent model of a multidoku's clauses, no value repeats down a column of any region. |
| Solving.RegionBoxesDistinct | solvd/sudoku/solving/solution.py:221-454 | In such a model no two vars of a region that share a box hold the same value. |

The older backend's copies agree with the current engine in these places:

- `backend/sudoku_solving.py` has the same clue, cell, row, column, box,
  coordinate and decoding code as the current engine. Only the SubPuzzle
  class differs: the older file splits it into module-level functions.
- `backend/box_indices.py:8-61` and `backend/misc_funcs.py:11-64` are textual
  copies of `calculate_standard` and its helpers. The
  `src/backend/misc_funcs.py:4-31` variant takes the dimension and ratio
  directly and is also the same function.
- `backend/misc_funcs.py:67-129` (`calculate_butterfly_box_index`,
  `calculate_cross_box_index`, `calculate_flower_box_index`) is a copy of
  `backend/box_indices.py:62-126`, so the `LegacyBox` members cover it too.

The rows above therefore cite the current file once. Where the generations
differ, the model takes a `Generation` argument.

## Left out

- The UI, theming, the controllers and the application entry points are left
  out. They build the `SudokuVar` lists and the puzzle descriptor, and are
  modelled only as the inputs those values arrive as.
- The pysat Glucose3 solver is a function parameter of `Solving.GetSolution`.
  No property of SAT solving itself is modelled.
- `math.sqrt` is modelled by `StandardBox.SquareBoxSize` as the exact integer
  square root. The floating-point rounding of `int(math.sqrt(n))` is not
  modelled. It agrees with the integer root for every dimension the page
  offers.
- `solvd/sudoku/common/box_lookup_tables.py` is not part of this model. The
  current resolvers are modelled as lookups into the generator functions of
  `solvd/sudoku/common/table_generator.py`, which produce those tables.
- `write_lookup_file` (file output) is left out.
- `calculate_tripledoku` and `calculate_twodoku` are bodiless stubs that
  nothing calls. They are left out.
- The page creates no grid and sets no dimension for Samurai and Sohei.
  The Samurai footprint follows the Samurai grid class of
  `solvd/sudoku/ui/grids.py`. No grid class draws the Sohei board, so its
  footprint (`Shapes.InFootprint`, Sohei case) is reconstructed from the
  regions `make_sohei_clauses` creates. The puzzle's dimension is an input of
  the model, as the page would have to supply it.
- `tests.py` and the other test scaffolding are left out.
- Decoder.RemoveNegated: the source pops the negative entries from the
  solver's own list in place. The model returns the filtered sequence
  instead. No caller can tell the difference, because `get_solution` never
  reads that list again.
- Constraints.ExclusionMeaning: the converse direction (both literals
  decided and not both true implies the clause holds) needs the model to
  decide both literals. A solver's full model does; the model states this as
  a premise instead.
- Decoder.DecodeRoundTrip: proved only for cells whose triple is encodable,
  meaning values and coordinates that fit the fixed-width fields. Beyond that
  the source's slicing is not an inverse. `Codec.ParseItemStale` states
  what such entries decode to on large boards, and `Decoder.StaleValue` is
  one instance.

## Findings

| source | as written | input that shows it | evidently intended | confidence | as-written member | corrected member |
|---|---|---|---|---|---|---|
| backend/box_indices.py:166-169 | On rows 3-8 the older Kazaguruma resolver adds 3 (plus 6 from row 6), one more than the generator's +2 and +8. Drawn cells in different blocks then share an id. | cells (6, 18) and (9, 0): both resolve to 15, and the generator gives (6, 18) id 14 | the generator's table, in which two drawn cells share an id iff they share a 3x3 block | not executed | LegacyBox.KazagurumaCollision | Shapes.SameBoxSameBlock |
