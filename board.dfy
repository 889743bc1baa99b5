/** `SudokuBoard` of src/board.rs and its row, column and box selectors.
    A selector returns nine optional references into `options`; each
    reference is modelled by the index of the cell it points at. */
module Board {
  import opened Primitives
  import opened Candidates
  import opened Geometry

  type BoardOptions = s: seq<DigitOptions> | |s| == 81 witness seq(81, _ => DigitOptions(0))
  type BoardFlags = s: seq<bool> | |s| == 81 witness seq(81, _ => false)
  type BoardDigits = s: seq<U8> | |s| == 81 witness seq(81, _ => 0)

  /** The nine references of `s` point, in order, at the cells of unit n. */
  predicate Selects(s: seq<Option<nat>>, u: Unit, n: int) {
    |s| == 9 && forall i :: 0 <= i < 9 ==> s[i] == Some(UnitCell(u, n, i))
  }

  datatype SudokuBoard = SudokuBoard(options: BoardOptions, placed: BoardFlags, boardState: BoardDigits)
  {
    /** `get_row` as written: the loop has no upper bound, so it indexes
        `pointers[9]`, or a cell past the board first, and every call panics. */
    method GetRow(num: U8) returns (r: Outcome<seq<Option<nat>>>)
      ensures r == Panic
    {
      var pointers := new Option<nat>[9](_ => None);
      var offset := num * 9;
      var i := 0;
      while true
        invariant 0 <= i <= pointers.Length
        decreases pointers.Length - i
      {
        if i + offset >= |options| || i >= pointers.Length {
          return Panic;
        }
        pointers[i] := Some(i + offset);
        i := i + 1;
      }
    }

    /** `get_row` with the loop bounded by the nine cells of a row. */
    method GetRowIntended(num: U8) returns (r: Outcome<seq<Option<nat>>>)
      ensures r.Ok? <==> num < 9
      ensures r.Ok? ==> Selects(r.value, Row, num)
    {
      var pointers := new Option<nat>[9](_ => None);
      var offset := num * 9;
      for i := 0 to 9
        invariant forall j :: 0 <= j < i ==> pointers[j] == Some(RowCell(num, j))
        invariant num >= 9 ==> i == 0
      {
        if i + offset >= |options| {
          return Panic;
        }
        pointers[i] := Some(i + offset);
      }
      return Ok(pointers[..]);
    }

    /** `get_col`: the cells `COL_COORDS[i] + num`; a column number past 8
        runs off the board at the last entry and panics. */
    method GetCol(num: U8) returns (r: Outcome<seq<Option<nat>>>)
      ensures r.Ok? <==> num < 9
      ensures r.Ok? ==> Selects(r.value, Col, num)
    {
      var pointers := new Option<nat>[9](_ => None);
      var offset := num;
      for i := 0 to 9
        invariant forall j :: 0 <= j < i ==> pointers[j] == Some(ColCell(num, j))
        invariant num >= 9 ==> i <= 8
      {
        ColTable(offset, i);
        if ColCoords[i] + offset >= |options| {
          return Panic;
        }
        pointers[i] := Some(ColCoords[i] + offset);
      }
      return Ok(pointers[..]);
    }

    /** `get_box`: the cells `BOX_OFFSETS[num] + BOX_COORDS[i]`; a box number
        past 8 panics on the `BOX_OFFSETS` lookup, and the cell lookups never do. */
    method GetBox(num: U8) returns (r: Outcome<seq<Option<nat>>>)
      ensures r.Ok? <==> num < 9
      ensures r.Ok? ==> Selects(r.value, Box, num)
    {
      var pointers := new Option<nat>[9](_ => None);
      if num >= |BoxOffsets| {
        return Panic;
      }
      var offset := BoxOffsets[num];
      for i := 0 to 9
        invariant forall j :: 0 <= j < i ==> pointers[j] == Some(BoxCoords[j] + offset)
      {
        BoxInBounds(num, i);
        pointers[i] := Some(BoxCoords[i] + offset);
      }
      r := Ok(pointers[..]);
      forall j | 0 <= j < 9
        ensures r.value[j] == Some(BoxCell(num, j))
      {
        BoxTable(num, j);
      }
    }
  }

  /** The cell lookups of `get_box` stay on the board. */
  lemma BoxInBounds(b: int, i: int)
    requires 0 <= b < 9 && 0 <= i < 9
    ensures BoxCoords[i] + BoxOffsets[b] < 81
  {
    BoxTable(b, i);
    BoxCellInjective(b, i, b, i);
  }

  /** A selection of unit n holds nine distinct cells of the board, and
      holds a cell exactly when the cell lies in unit n. */
  lemma SelectionIsUnit(s: seq<Option<nat>>, u: Unit, n: int, k: nat)
    requires Selects(s, u, n) && 0 <= n < 9 && k < 81
    ensures forall i :: 0 <= i < 9 ==> s[i].Some? && s[i].value < 81
    ensures forall i, j :: 0 <= i < j < 9 ==> s[i] != s[j]
    ensures InUnit(u, n, k) <==> Some(k) in s
  {
    forall i | 0 <= i < 9
      ensures s[i].Some? && s[i].value < 81
    {
      UnitCellsDistinct(u, n, i, i);
    }
    forall i, j | 0 <= i < j < 9
      ensures s[i] != s[j]
    {
      UnitCellsDistinct(u, n, i, j);
    }
    UnitMembership(u, n, k);
    if Some(k) in s {
      var i :| 0 <= i < |s| && s[i] == Some(k);
      assert UnitCell(u, n, i) == k;
    }
  }
}
