/** The index and coordinate helpers of src/board.rs and the tables that
    drive the cell selectors.  Cell indices run 0 to 80 in row-major order;
    `xy` and `idx` use 1-based (column, row) pairs. */
module Geometry {
  import opened Primitives

  /** `BOX_COORDS`: the offsets of the nine cells of a box from its top-left cell. */
  const BoxCoords: seq<int> := [0, 1, 2, 9, 10, 11, 18, 19, 20]

  /** `BOX_OFFSETS`: the top-left cell of each box. */
  const BoxOffsets: seq<int> := [0, 3, 6, 27, 30, 33, 54, 57, 60]

  /** `COL_COORDS`: the offsets of the nine cells of a column from its top cell. */
  const ColCoords: seq<int> := [0, 9, 18, 27, 36, 45, 54, 63, 72]

  // Reference geometry: the cells of each unit, 0-based

  /** Cell i of row r. */
  function RowCell(r: int, i: int): int {
    9 * r + i
  }

  /** Cell i of column c. */
  function ColCell(c: int, i: int): int {
    9 * i + c
  }

  /** Cell i of box b, boxes and the cells inside them both numbered
      left to right, top to bottom. */
  function BoxCell(b: int, i: int): int {
    9 * (3 * (b / 3) + i / 3) + 3 * (b % 3) + i % 3
  }

  /** The box that holds cell k. */
  function BoxOf(k: nat): nat {
    3 * (k / 27) + (k % 9) / 3
  }

  /** The position of cell k inside its box. */
  function PosInBox(k: nat): nat {
    3 * ((k / 9) % 3) + k % 3
  }

  // Division facts by the constants 3, 9 and 27. They are stated apart, and
  // called with the index spelled out, so that the proofs below stay small
  // and steady for the solver; they are not results of their own.

  /** Division by 9 of a row-major index splits it into row and column. */
  lemma DivNine(k: int, q: int, r: int)
    requires k == 9 * q + r && 0 <= r < 9
    ensures k / 9 == q && k % 9 == r
  {
  }

  /** Division by 3 splits a coordinate into its band and its place in the band. */
  lemma DivThree(k: int, q: int, r: int)
    requires k == 3 * q + r && 0 <= r < 3
    ensures k / 3 == q && k % 3 == r
  {
  }

  /** Division by 27 of a row-major index gives the band of its row. */
  lemma DivTwentySeven(k: int, q: int, r: int)
    requires k == 27 * q + r && 0 <= r < 27
    ensures k / 27 == q
  {
  }

  // The coordinate helpers of src/board.rs

  /** `row_xy` */
  function RowXy(c: (U8, U8)): U8 {
    c.1
  }

  /** `col_xy` */
  function ColXy(c: (U8, U8)): U8 {
    c.0
  }

  /** `box_xy`; a debug build panics when the `u8` sum exceeds 255. */
  function BoxXy(c: (U8, U8)): U8
    requires 3 * (c.1 / 3) + c.0 / 3 < 0x100
  {
    3 * (c.1 / 3) + c.0 / 3
  }

  /** `xy`: the 1-based (column, row) of an index. */
  function Xy(idx: U8): (U8, U8) {
    ((idx % 9) + 1, (idx / 9) + 1)
  }

  /** `row_from_idx` */
  function RowFromIdx(idx: U8): U8 {
    RowXy(Xy(idx))
  }

  /** `col_from_idx` */
  function ColFromIdx(idx: U8): U8 {
    ColXy(Xy(idx))
  }

  /** `box_from_idx`: `box_xy` applied to the 1-based pair of `xy`. */
  function BoxFromIdx(idx: U8): U8 {
    BoxXy(Xy(idx))
  }

  /** `box_from_idx` as evidently intended: `box_xy` applied to the 0-based
      (column, row) of the index. */
  function BoxFromIdxIntended(idx: U8): U8 {
    BoxXy((idx % 9, idx / 9))
  }

  /** The `i8` arithmetic of `idx` stays in range (a debug build panics otherwise). */
  predicate IdxInRange(x: U8, y: U8) {
    InI8(AsI8(y) - 1) && InI8(9 * (AsI8(y) - 1)) && InI8(AsI8(x) - 1)
    && InI8(9 * (AsI8(y) - 1) + (AsI8(x) - 1))
  }

  /** `idx`: `(9 * (y as i8 - 1) + (x as i8 - 1)) as u8`. */
  function Idx(x: U8, y: U8): U8
    requires IdxInRange(x, y)
  {
    I8AsU8(9 * (AsI8(y) - 1) + (AsI8(x) - 1))
  }

  // Properties of the coordinate helpers

  /** On 1-based coordinates, `idx` is the row-major index. */
  lemma IdxOfCoordinates(x: U8, y: U8)
    requires 1 <= x <= 9 && 1 <= y <= 9
    ensures IdxInRange(x, y)
    ensures Idx(x, y) == 9 * (y - 1) + (x - 1) && Idx(x, y) < 81
  {
  }

  /** `idx(xy(i)) == i` on the board. */
  lemma IdxOfXy(i: U8)
    requires i < 81
    ensures 1 <= Xy(i).0 <= 9 && 1 <= Xy(i).1 <= 9
    ensures IdxInRange(Xy(i).0, Xy(i).1) && Idx(Xy(i).0, Xy(i).1) == i
  {
    IdxOfCoordinates(Xy(i).0, Xy(i).1);
  }

  /** `xy(idx(x, y)) == (x, y)` on 1-based coordinates. */
  lemma XyOfIdx(x: U8, y: U8)
    requires 1 <= x <= 9 && 1 <= y <= 9
    ensures IdxInRange(x, y) && Xy(Idx(x, y)) == (x, y)
  {
    IdxOfCoordinates(x, y);
    var k := Idx(x, y);
    DivNine(k, y - 1, x - 1);
    assert k % 9 == x - 1 && k / 9 == y - 1;
  }

  /** The unit test `test_idx`. */
  lemma TestIdx()
    ensures IdxInRange(1, 1) && Idx(1, 1) == 0
    ensures IdxInRange(1, 2) && Idx(1, 2) == 9
    ensures IdxInRange(5, 1) && Idx(5, 1) == 4
    ensures IdxInRange(9, 9) && Idx(9, 9) == 80
    ensures IdxInRange(Xy(33).0, Xy(33).1) && Idx(Xy(33).0, Xy(33).1) == 33
  {
    IdxOfXy(33);
  }

  /** On the board, `row_from_idx` and `col_from_idx` give the 1-based row
      and column, and `idx` of them gives the index back. */
  lemma RowColFromIdx(i: U8)
    requires i < 81
    ensures RowFromIdx(i) == i / 9 + 1 && 1 <= RowFromIdx(i) <= 9
    ensures ColFromIdx(i) == i % 9 + 1 && 1 <= ColFromIdx(i) <= 9
    ensures IdxInRange(ColFromIdx(i), RowFromIdx(i)) && Idx(ColFromIdx(i), RowFromIdx(i)) == i
  {
    IdxOfXy(i);
  }

  /** `box_from_idx` reaches 12 at the last cell, out of the box range 0 to 8. */
  lemma BoxFromIdxBound(i: U8)
    requires i < 81
    ensures BoxFromIdx(i) <= 12
    ensures BoxFromIdx(80) == 12
  {
  }

  /** `box_from_idx` disagrees with `get_box`: cell 2 is cell 2 of box 0,
      yet `box_from_idx(2)` is 1. */
  lemma BoxFromIdxDisagrees()
    ensures BoxCell(0, 2) == 2 && BoxFromIdx(2) == 1
  {
  }

  // Properties of the unit tables and the reference geometry

  /** `COL_COORDS[i] + num` is cell i of column num. */
  lemma ColTable(c: int, i: int)
    requires 0 <= i < 9
    ensures ColCoords[i] + c == ColCell(c, i)
  {
  }

  /** `BOX_OFFSETS[b]` is the top-left cell of box b. */
  lemma BoxOffsetTable(b: int)
    requires 0 <= b < 9
    ensures BoxOffsets[b] == 27 * (b / 3) + 3 * (b % 3)
  {
  }

  /** `BOX_COORDS[i]` is the offset of position i inside a box. */
  lemma BoxCoordTable(i: int)
    requires 0 <= i < 9
    ensures BoxCoords[i] == 9 * (i / 3) + i % 3
  {
  }

  /** `BOX_OFFSETS[num] + BOX_COORDS[i]` is cell i of box num. */
  lemma BoxTable(b: int, i: int)
    requires 0 <= b < 9 && 0 <= i < 9
    ensures BoxOffsets[b] + BoxCoords[i] == BoxCell(b, i)
  {
    BoxOffsetTable(b);
    BoxCoordTable(i);
  }

  /** The cells of a box lie on the board, and distinct (box, position)
      pairs give distinct cells. */
  lemma BoxCellInjective(b: int, i: int, b': int, i': int)
    requires 0 <= b < 9 && 0 <= i < 9 && 0 <= b' < 9 && 0 <= i' < 9
    ensures 0 <= BoxCell(b, i) < 81
    ensures BoxCell(b, i) == BoxCell(b', i') ==> b == b' && i == i'
  {
    BoxCellInverse(b, i);
    BoxCellInverse(b', i');
  }

  /** `BoxOf` and `PosInBox` recover the box and position of a box cell. */
  lemma BoxCellInverse(b: int, i: int)
    requires 0 <= b < 9 && 0 <= i < 9
    ensures 0 <= BoxCell(b, i) < 81
    ensures BoxOf(BoxCell(b, i)) == b && PosInBox(BoxCell(b, i)) == i
  {
    SplitThree(b);
    SplitThree(i);
    var band, cb, rr, cc := b / 3, b % 3, i / 3, i % 3;
    BoxCellOfParts(b, i, band, cb, rr, cc);
    var k := BoxCell(b, i);
    var row, col := 3 * band + rr, 3 * cb + cc;
    DivNine(k, row, col);
    DivTwentySeven(k, band, 9 * rr + col);
    DivThree(col, cb, cc);
    DivThree(row, band, rr);
    DivThree(k, 3 * row + cb, cc);
  }

  /** Every cell of the board is a box cell: the nine boxes cover 0..80,
      and with BoxCellInjective they partition it. */
  lemma BoxesCover(k: nat)
    requires k < 81
    ensures BoxOf(k) < 9 && PosInBox(k) < 9
    ensures BoxCell(BoxOf(k), PosInBox(k)) == k
  {
    var row, col := k / 9, k % 9;
    SplitNine(k);
    SplitThree(row);
    SplitThree(col);
    var band, cb := row / 3, col / 3;
    BandOfIndex(k);
    DivThree(k, 3 * row + cb, col % 3);
    assert row < 9 && band < 3 && cb < 3;
    var b, p := 3 * band + cb, 3 * (row % 3) + col % 3;
    assert BoxOf(k) == b && PosInBox(k) == p;
    BoxCellOfParts(b, p, band, cb, row % 3, col % 3);
  }

  /** Cell `3 * rr + cc` of box `3 * band + cb`. */
  lemma BoxCellOfParts(b: int, p: int, band: int, cb: int, rr: int, cc: int)
    requires b == 3 * band + cb && p == 3 * rr + cc
    requires 0 <= cb < 3 && 0 <= rr < 3 && 0 <= cc < 3
    ensures BoxCell(b, p) == 27 * band + 9 * rr + 3 * cb + cc
  {
    DivThree(b, band, cb);
    DivThree(p, rr, cc);
    BoxCellParts(b, p);
  }

  /** Cell i of box b in terms of the bands and places of b and i. */
  lemma BoxCellParts(b: int, i: int)
    ensures BoxCell(b, i) == 27 * (b / 3) + 9 * (i / 3) + 3 * (b % 3) + i % 3
  {
  }

  // More division facts, stated apart for the same reason.

  /** An index is nine times its row plus its column. */
  lemma SplitNine(k: nat)
    ensures k == 9 * (k / 9) + k % 9 && 0 <= k % 9 < 9
  {
  }

  /** A coordinate is three times its band plus its place in the band. */
  lemma SplitThree(c: nat)
    ensures c == 3 * (c / 3) + c % 3 && 0 <= c % 3 < 3
  {
  }

  /** The band of an index, `k / 27`, is the band of its row. */
  lemma BandOfIndex(k: nat)
    ensures k / 27 == (k / 9) / 3
  {
    var row, col := k / 9, k % 9;
    SplitNine(k);
    SplitThree(row);
    DivTwentySeven(k, row / 3, 9 * (row % 3) + col);
  }

  /** Rows and columns partition the board the same way. */
  lemma RowsAndColumnsCover(k: nat)
    requires k < 81
    ensures RowCell(k / 9, k % 9) == k && ColCell(k % 9, k / 9) == k
  {
  }

  /** The cells of row r and column c carry the 1-based coordinates r + 1
      and c + 1. */
  lemma UnitCellCoordinates(n: int, i: int)
    requires 0 <= n < 9 && 0 <= i < 9
    ensures RowFromIdx(RowCell(n, i)) == n + 1 && ColFromIdx(RowCell(n, i)) == i + 1
    ensures ColFromIdx(ColCell(n, i)) == n + 1 && RowFromIdx(ColCell(n, i)) == i + 1
  {
    RowColFromIdx(RowCell(n, i));
    RowColFromIdx(ColCell(n, i));
  }

  /** The intended `box_from_idx` names the box `get_box` puts a cell in. */
  lemma BoxFromIdxIntendedIsBoxOf(k: U8)
    requires k < 81
    ensures BoxFromIdxIntended(k) == BoxOf(k) && BoxFromIdxIntended(k) < 9
  {
    assert (k / 9) / 3 == k / 27;
  }

  // The three kinds of unit as one family

  datatype Unit = Row | Col | Box

  /** Cell i of unit number n of the given kind. */
  function UnitCell(u: Unit, n: int, i: int): int {
    match u
    case Row => RowCell(n, i)
    case Col => ColCell(n, i)
    case Box => BoxCell(n, i)
  }

  /** Cell k lies in unit number n of the given kind. */
  predicate InUnit(u: Unit, n: int, k: nat) {
    match u
    case Row => k / 9 == n
    case Col => k % 9 == n
    case Box => BoxOf(k) == n
  }

  /** The nine cells of a unit are distinct cells of the board. */
  lemma UnitCellsDistinct(u: Unit, n: int, i: int, j: int)
    requires 0 <= n < 9 && 0 <= i < 9 && 0 <= j < 9
    ensures 0 <= UnitCell(u, n, i) < 81
    ensures i != j ==> UnitCell(u, n, i) != UnitCell(u, n, j)
  {
    match u
    case Row =>
    case Col =>
    case Box => BoxCellInjective(n, i, n, j);
  }

  /** A cell of the board is one of the nine cells of unit n exactly when it
      lies in that unit; each cell therefore belongs to exactly one row, one
      column and one box. */
  lemma UnitMembership(u: Unit, n: int, k: nat)
    requires 0 <= n < 9 && k < 81
    ensures InUnit(u, n, k) <==> exists i :: 0 <= i < 9 && UnitCell(u, n, i) == k
  {
    SplitNine(k);
    match u
    case Row =>
      if InUnit(u, n, k) {
        assert UnitCell(u, n, k % 9) == k;
      }
      forall i | 0 <= i < 9 && UnitCell(u, n, i) == k
        ensures InUnit(u, n, k)
      {
        DivNine(k, n, i);
      }
    case Col =>
      if InUnit(u, n, k) {
        assert UnitCell(u, n, k / 9) == k;
      }
      forall i | 0 <= i < 9 && UnitCell(u, n, i) == k
        ensures InUnit(u, n, k)
      {
        DivNine(k, i, n);
      }
    case Box =>
      BoxesCover(k);
      if InUnit(u, n, k) {
        assert UnitCell(u, n, PosInBox(k)) == k;
      }
      forall i | 0 <= i < 9 && UnitCell(u, n, i) == k
        ensures InUnit(u, n, k)
      {
        BoxCellInverse(n, i);
      }
  }
}
