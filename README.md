# SudokuThings board layer in Dafny

This project models the candidate and geometry layer of the SudokuThings
solver, `src/board.rs`, and proves what that layer promises.

- **Candidate masks.** `DigitOptions` holds the candidates of a cell as a
  `u16` bit mask: bit d-1 marks digit d. Its operations are `check`, `count`,
  `new`, `exclude` and `subtract_options`. The free function `available` is
  also covered.
- **Board geometry.** Cells are numbered 0 to 80 in row-major order. `xy` and
  `idx` convert between an index and a 1-based (column, row) pair. `row_xy`,
  `col_xy`, `box_xy` and the three `*_from_idx` helpers read a unit number off
  a coordinate or an index.
- **Selectors.** `SudokuBoard` has three selectors: `get_row`, `get_col` and
  `get_box`. Each fills an array of nine optional references to the cells of
  one unit. `get_col` and `get_box` are driven by the tables `COL_COORDS`,
  `BOX_OFFSETS` and `BOX_COORDS`.

Modules, one per part of the program:

- `Primitives` (primitives.dfy): the `u8`/`u16` ranges, the casts
  `as i8` and `as u8`, `Option`, and `Outcome` (a value, or a panic).
- `Bits` (bits.dfy): `>>`, `<<`, `&`, `|`, `!` and `count_ones`, spelled out
  on natural numbers, together with the facts about single bits.
- `Candidates` (candidates.dfy): `DigitOptions` as a datatype with its
  operations. `subtract_options` and `available` are methods with their loops.
- `CandidateProperties` (candidate_properties.dfy): the set-of-digits
  properties and the unit tests of `test_things`.
- `Geometry` (geometry.dfy): the coordinate helpers and the tables. It also
  gives independent reference formulas for the cells of each row, column and
  box, and proves that rows, columns and boxes each partition the board.
- `Board` (board.dfy): `SudokuBoard` and its selectors. Each selector is a
  method that fills a local nine-element array in a loop.

Modelling conventions:

- A mask is read as the set `Members(o)` of the 1-based positions of its set
  bits. "Holds digit d" means d is in `Members(o)`.
- Two kinds of panic are treated differently:
  - Arithmetic overflow only panics in a debug build. This covers a shift by a
    negative amount or by 16 or more, and `i8`, `u8` or `u16` arithmetic that
    leaves its type. These cases become preconditions (`ShiftOk`,
    `IdxInRange`, the `SumFold` result being `Some`, and the `u8` sum of
    `BoxXy`).
  - Indexing out of bounds panics in every build. It is modelled as the
    `Panic` outcome.
- A reference `&self.options[k]` is modelled by the cell index k.
- Nothing in this layer reads the clock, the network or the file system.

## Model

| member | source | states |
|---|---|---|
| Primitives.AsI8 | src/board.rs:8 | `as i8` on an unsigned value lands in the `i8` range; it keeps values below 128 and maps 128..255 to v - 256 |
| Primitives.AsI8Wraps | src/board.rs:8 | `as i8` keeps the value modulo 256 |
| Primitives.I8AsU8 | src/board.rs:109 | `as u8` on an `i8` value keeps non-negative values and adds 256 to negative ones |
| Bits.Shr | src/board.rs:8 | `x >> k` as k halvings; AndOne and Check state that `(x >> k) & 1` reads bit k |
| Bits.And | src/board.rs:20 | `a & b` (also the `& 1` of `check`, line 8); AndBit states that each bit of the result is the AND of the operands' bits, AndBound that it does not exceed a |
| Bits.Not16 | src/board.rs:20 | `!b` on `u16`; NotBit states that it flips each of the 16 bits |
| Bits.CountOnes | src/board.rs:11 | `count_ones`; CountOnesIsCard states that it is the number of set positions |
| Bits.CountOnesIsCard | src/board.rs:10-12 | `count_ones` of a `u16` is the number of its set bit positions |
| Bits.NotBit | src/board.rs:20 | `!` on a `u16` flips each of its 16 bits |
| Bits.OnesAddPow | src/board.rs:15-16 | adding `1 << j` to a value whose bit j is clear adds exactly position j + 1 |
| Bits.OnesOrPow | src/board.rs:15-16 | OR-ing `1 << j` into a value adds exactly position j + 1 |
| Candidates.DigitOptions | src/board.rs:1-4 | the mask struct, one `u16` field; MembersDetermine states that a mask is fixed by its candidates |
| Candidates.ShiftOf | src/board.rs:8 | the shift amount `digit as i8 - 1`; DigitShift states that it is digit - 1 for digits 1 to 16 |
| Candidates.ShiftOk | src/board.rs:8 | the shift amount lies in 0..15, the condition under which a debug build does not panic; DigitShift states that every digit 1 to 16 meets it |
| Candidates.Power | src/board.rs:15 | the closure `\|x\| 1 << (x as i8 - 1)`, below 2^16; Powers collects it per digit and SumFoldStep adds it to the fold |
| Candidates.DigitShift | src/board.rs:8 | for a digit 1 to 16, the shift `digit as i8 - 1` is valid and equals digit - 1 |
| Candidates.DigitOptions.Check | src/board.rs:7-9 | `check(digit)` holds iff position `digit as i8 - 1` + 1 is a candidate of the mask |
| Candidates.DigitOptions.Count | src/board.rs:10-12 | `count()` is the number of candidates of the mask |
| Candidates.Powers | src/board.rs:15 | the powers `1 << (x as i8 - 1)`, one per digit, each a `u16`; SumFoldStep and SumFoldDistinct state what their sum is |
| Candidates.SumFold | src/board.rs:16 | the `u16` fold by `+`, `None` on overflow; SumFoldDistinct proves it never overflows on distinct digits 1 to 9 and yields exactly their set |
| Candidates.DigitOptions.New | src/board.rs:14-18 | `new`: NewDistinct states its contract (for distinct digits: a digit set, `count() == \|ds\|`, `check(d)` iff d is given) and NewRepeatedDigit what a repeat does |
| Candidates.DigitOptions.NewUnion | src/board.rs:14-18 | the intended `new`: NewUnionMembers and NewUnionChecks state its contract (exactly the digits given, repeats included) |
| Candidates.DigitOptions.Exclude | src/board.rs:19-21 | the candidates of `a.exclude(b)` are those of a minus those of b, and its count is at most a's |
| Candidates.DigitOptions.SubtractOptions | src/board.rs:22-30 | panics iff the slice has fewer than 9 entries; otherwise the result's candidates are self's minus the single candidates of entries 1 to 8 that hold exactly one |
| Candidates.ExcludeSingletons | src/board.rs:23-29 | the loop over entries lo..hi-1 removes exactly the candidates of the entries that hold one candidate |
| Candidates.Available | src/board.rs:33-41 | as written, `available` returns the empty mask (`opts == 0`) for every input |
| Candidates.AvailableIntended | src/board.rs:33-41 | the same loop over entries 1 to 8, started from all nine digits: the result is the digits that none of those entries pins as its single candidate |
| Candidates.FullMembers | src/board.rs:33-41 | the mask 0x1FF holds exactly the digits 1 to 9, the start the intended `available` uses |
| Candidates.EmptyMembers | src/board.rs:34 | the mask 0 has no candidates |
| Candidates.MembersDetermine | src/board.rs:1-4 | two masks with the same candidates are the same mask |
| CandidateProperties.CheckIsMember | src/board.rs:7-9 | for d in 1..9, `check(d)` holds iff d is a candidate |
| CandidateProperties.CheckedDigits | src/board.rs:7-12 | on a digit set, the digits 1 to 9 that `check` accepts are exactly its candidates |
| CandidateProperties.CountIsDigitCount | src/board.rs:7-12 | on a digit set, `count()` is the number of digits 1 to 9 that `check` accepts |
| CandidateProperties.ExcludeTwice | src/board.rs:19-21 | `a.exclude(b).exclude(b) == a.exclude(b)` |
| CandidateProperties.DistinctCard | src/board.rs:14-18 | distinct digits form a set of the same size as the list |
| CandidateProperties.SumFoldDistinct | src/board.rs:15-16 | the `u16` sum of the powers of distinct digits not yet in the accumulator never overflows, stays below 512 and adds exactly those digits |
| CandidateProperties.NewDistinctMembers | src/board.rs:14-18 | for distinct digits 1 to 9, `new` does not overflow and its candidates are exactly the digits given |
| CandidateProperties.NewDistinct | src/board.rs:7-18 | for distinct digits, `new(ds)` is a digit set, `count()` is the number of digits, and `check(d)` holds iff d is in ds |
| CandidateProperties.NewRepeatedDigit | src/board.rs:14-18 | `new([1, 1])` does not overflow and equals `DigitOptions { opts: 2 }`, whose only candidate is 2, not 1 |
| CandidateProperties.NewUnionMembers | src/board.rs:14-18 | the intended `new` has as candidates exactly the digits given, repeats included |
| CandidateProperties.NewUnionChecks | src/board.rs:7-18 | the intended `new` is a digit set on digits 1 to 9, and `check(d)` holds iff d was given |
| CandidateProperties.NewUnionRepeatedDigit | src/board.rs:14-18 | the intended `new([1, 1])` has the single candidate 1 |
| CandidateProperties.SingletonMembersAt | src/board.rs:23-29 | a digit is removed iff some entry in the range holds it as its only candidate |
| CandidateProperties.SingletonMembersFrame | src/board.rs:23-29 | what the loop removes depends only on the entries in its range |
| CandidateProperties.SubtractIgnoresEntryZero | src/board.rs:24 | changing entry 0 of the slice never changes what `subtract_options` removes |
| CandidateProperties.NoSingletons | src/board.rs:23-29 | entries that do not hold exactly one candidate remove nothing |
| CandidateProperties.AvailableOnEmptyCells | src/board.rs:33-41 | on nine empty cells the intended `available` gives all nine digits, where the code gives the empty mask |
| CandidateProperties.TestCheckThree | src/board.rs:115-119 | the mask 3 accepts 1 and 2 and rejects 3 |
| CandidateProperties.TestNew | src/board.rs:121-129 | `new([1, 2, 5, 9])` accepts, among 1 to 9, exactly 1, 2, 5 and 9 |
| Geometry.RowXy | src/board.rs:85-87 | `row_xy`: RowColFromIdx and UnitCellCoordinates state that on `xy` of a cell it gives the 1-based row |
| Geometry.ColXy | src/board.rs:88-90 | `col_xy`: RowColFromIdx and UnitCellCoordinates state that on `xy` of a cell it gives the 1-based column |
| Geometry.BoxXy | src/board.rs:91-93 | `box_xy`: BoxFromIdxBound and BoxFromIdxDisagrees show it is wrong on 1-based pairs, BoxFromIdxIntendedIsBoxOf that it names a cell's box on 0-based pairs |
| Geometry.IdxInRange | src/board.rs:108 | the `i8` arithmetic of `idx` stays in range, the condition under which a debug build does not panic; IdxOfCoordinates and IdxOfXy state that 1-based coordinates meet it |
| Geometry.Xy | src/board.rs:104-106 | `xy`: IdxOfXy and XyOfIdx state that it inverts `idx` on the board, giving 1-based coordinates |
| Geometry.Idx | src/board.rs:107-110 | `idx`: IdxOfCoordinates, IdxOfXy and XyOfIdx state that it is the row-major index and inverts `xy` |
| Geometry.RowFromIdx | src/board.rs:95-97 | `row_from_idx`: RowColFromIdx states that it is i/9 + 1, in 1..9 |
| Geometry.ColFromIdx | src/board.rs:98-100 | `col_from_idx`: RowColFromIdx states that it is i%9 + 1, in 1..9 |
| Geometry.BoxFromIdx | src/board.rs:101-103 | `box_from_idx` as written: BoxFromIdxBound and BoxFromIdxDisagrees state that it reaches 12 and disagrees with `get_box` |
| Geometry.BoxFromIdxIntended | src/board.rs:101-103 | the intended `box_from_idx`: BoxFromIdxIntendedIsBoxOf states that it is the box `get_box` puts the cell in, below 9 |
| Geometry.IdxOfCoordinates | src/board.rs:107-110 | on 1-based coordinates the `i8` arithmetic stays in range and `idx(x, y)` is the row-major index 9(y-1) + (x-1), below 81 |
| Geometry.IdxOfXy | src/board.rs:104-110 | for every index 0 to 80, `xy` gives 1-based coordinates and `idx(xy(i)) == i` |
| Geometry.XyOfIdx | src/board.rs:104-110 | for 1-based coordinates, `xy(idx(x, y)) == (x, y)` |
| Geometry.TestIdx | src/board.rs:132-139 | `idx(1,1) = 0`, `idx(1,2) = 9`, `idx(5,1) = 4`, `idx(9,9) = 80` and `idx(xy(33)) = 33` |
| Geometry.RowColFromIdx | src/board.rs:85-106 | on the board, `row_from_idx(i) = i/9 + 1` and `col_from_idx(i) = i%9 + 1`, both in 1..9, and `idx` of them gives i back |
| Geometry.BoxFromIdxBound | src/board.rs:91-106 | `box_from_idx` is at most 12 on the board and reaches 12 at cell 80 |
| Geometry.BoxFromIdxDisagrees | src/board.rs:72-106 | cell 2 is cell 2 of box 0, yet `box_from_idx(2)` is 1 |
| Geometry.BoxFromIdxIntendedIsBoxOf | src/board.rs:91-103 | `box_xy` on the 0-based coordinates of a cell names the box `get_box` puts it in |
| Geometry.BoxCoords | src/board.rs:51 | `BOX_COORDS`: BoxCoordTable states that entry i is the offset of position i inside a box |
| Geometry.BoxOffsets | src/board.rs:52 | `BOX_OFFSETS`: BoxOffsetTable states that entry b is the top-left cell of box b |
| Geometry.ColCoords | src/board.rs:53 | `COL_COORDS`: ColTable states that entry i is the offset of row i in a column |
| Geometry.ColTable | src/board.rs:53 | `COL_COORDS[i] + c` is cell i of column c |
| Geometry.BoxOffsetTable | src/board.rs:52 | `BOX_OFFSETS[b]` is the top-left cell of box b |
| Geometry.BoxCoordTable | src/board.rs:51 | `BOX_COORDS[i]` is the offset of position i inside a box |
| Geometry.BoxTable | src/board.rs:51-52 | `BOX_OFFSETS[b] + BOX_COORDS[i]` is cell i of box b |
| Geometry.BoxCellInjective | src/board.rs:51-52 | box cells lie in 0..80, and distinct (box, position) pairs give distinct cells |
| Geometry.BoxCellInverse | src/board.rs:51-52 | the box and position of a box cell can be read back from its index |
| Geometry.BoxesCover | src/board.rs:51-52 | every cell 0 to 80 is a box cell, so the nine boxes partition the board |
| Geometry.RowsAndColumnsCover | src/board.rs:53 | every cell is a cell of its row and of its column |
| Geometry.UnitCellCoordinates | src/board.rs:85-103 | the cells of row n and of column n carry 1-based row or column n + 1 under `row_from_idx` and `col_from_idx` |
| Geometry.UnitCellsDistinct | src/board.rs:51-79 | the nine cells of a row, column or box are distinct cells of the board |
| Geometry.UnitMembership | src/board.rs:51-79 | a cell is one of the nine cells of unit n iff it lies in unit n |
| Board.SudokuBoard | src/board.rs:45-49 | the board: 81 candidate masks, 81 placed flags and 81 digits, the lengths kept by the field types |
| Board.SudokuBoard.GetRow | src/board.rs:56-63 | as written, `get_row` panics for every row number |
| Board.SudokuBoard.GetRowIntended | src/board.rs:56-63 | with the loop bounded to 0..9, it succeeds iff num < 9 and selects cell 9num + i at position i |
| Board.SudokuBoard.GetCol | src/board.rs:64-71 | succeeds iff num < 9 and selects cell 9i + num at position i |
| Board.SudokuBoard.GetBox | src/board.rs:72-79 | panics iff num > 8, and otherwise selects cell i of box num at position i; the cell lookups never panic |
| Board.BoxInBounds | src/board.rs:76-77 | the cell index `get_box` looks up is always on the board |
| Board.SelectionIsUnit | src/board.rs:56-79 | a selection holds nine distinct cells of the board, and holds a cell iff the cell lies in that unit |

## Left out

- The higher-level `Board`, `Solver`, `solve`, `work_one_box` and `from_str`
  are not part of this model. `src/server.rs` and `src/main.rs` call them,
  but their source is not among the files modelled.
- `src/server.rs` is HTTP routing, body reading, CORS headers and JSON. It is
  I/O and concurrency over library calls.
- `src/main.rs` is the process entry point and printing.
- `src/consts.rs` is preset puzzle data.
- The React front end `sudoku-app/` is user interface code, with its own box
  numbering for display.
- `placed` and `board_state` of `SudokuBoard` are fields only: no modelled
  operation reads them.
- The preconditions `ShiftOk`, `IdxInRange`, `SumFold(..).Some?` and the
  `u8` bound on `Geometry.BoxXy` cover debug builds, where overflowing
  arithmetic panics.
  The release-build behaviour is not modelled: there, a shift amount is masked
  to its low four bits and sums wrap around.
- Board.SudokuBoard.GetRow, GetCol and GetBox return indices rather than
  references. Aliasing between the returned references is therefore not
  modelled; the indices determine it.
- Candidates.DigitOptions.SubtractOptions: a slice shorter than 9 is modelled
  as a panic. The real call may exclude some entries first, but that work is
  lost when it panics.

## Findings

| source | as written | input that shows it | evidently intended | confidence | as-written member | corrected member |
|---|---|---|---|---|---|---|
| src/board.rs:59-61 | `for i in 0..` has no upper bound, so the tenth step writes `pointers[9]` (or reads past cell 80 first) | any row number, e.g. `get_row(0)` | loop over `0..9`, selecting cells 9num .. 9num+8 | not executed; high | Board.SudokuBoard.GetRow | Board.SudokuBoard.GetRowIntended |
| src/board.rs:101-106 | `box_from_idx` feeds the 1-based pair of `xy` into the 0-based formula of `box_xy` | `box_from_idx(2)` is 1, though cell 2 is in box 0; `box_from_idx(80)` is 12 | `box_xy` of the 0-based (column, row), matching `get_box` | not executed; high | Geometry.BoxFromIdxDisagrees | Geometry.BoxFromIdxIntendedIsBoxOf |
| src/board.rs:34-39 | `available` starts from the empty mask and only removes candidates | nine empty cells: the result is 0, not all nine digits | start from all nine digits, 0x1FF, and remove the pinned ones; the loop over entries 1 to 8 is kept as written, as in `subtract_options` | not executed; medium | Candidates.Available | Candidates.AvailableIntended |
| src/board.rs:15-16 | `new` adds the powers instead of OR-ing them, so a repeated digit carries into the next bit | `new(vec![1, 1])` has opts 2, so it holds digit 2 rather than 1 | the union of the digits, `acc \| x` | not executed; medium | CandidateProperties.NewRepeatedDigit | CandidateProperties.NewUnionChecks |
