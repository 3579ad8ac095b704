/**
  Bounded A1 ranges (`parse_range` in app/policies/workspace.py, `bounded_validation_range` and
  `resolve_source_range` in app/adapters/google_workspace/validation.py).
  Recognising the text of a range is left to the caller: `Local` is what the
  regular expressions find in it.
*/
module SheetRanges {
  import opened Wrappers
  import opened ColumnNames

  predicate IsColumn(s: string) {
    1 <= |s| <= 3 && IsLetters(s)
  }

  datatype RawLocal =
    | Unreadable
    | Single(column: string, row: nat)
    | Area(first: string, top: Option<nat>, last: string, bottom: Option<nat>)
  {
    predicate Valid() {
      match this
      case Unreadable => true
      case Single(column, row) => IsColumn(column) && row > 0
      case Area(first, top, last, bottom) =>
        IsColumn(first) && IsColumn(last) && (top.Some? ==> top.value > 0) && (bottom.Some? ==> bottom.value > 0)
    }
  }

  type Local = l: RawLocal | l.Valid() witness Unreadable

  datatype Rect = Rect(top: nat, bottom: nat, left: nat, right: nat) {
    /** A real rectangle of cells; rows and columns count from 1. */
    predicate Valid() {
      1 <= top <= bottom && 1 <= left <= right
    }

    function Width(): nat requires Valid() { right - left + 1 }
    function Height(): nat requires Valid() { bottom - top + 1 }
    function CellCount(): nat requires Valid() { Height() * Width() }

    predicate Contains(row: nat, column: nat) {
      top <= row <= bottom && left <= column <= right
    }
  }

  datatype Sheet = Sheet(id: nat, title: string, rows: nat, columns: nat) {
    predicate Holds(r: Rect) {
      r.bottom <= rows && r.right <= columns
    }
  }

  const RangeInvalid := "spreadsheet_range_invalid"
  const Unresolved := "validation_source_unresolved"

  /** `bounded_validation_range`: one cell stands for itself; an open range is refused. */
  function Bounded(local: Local, maxCells: nat): (r: Result<Rect, string>)
    ensures r.Ok? ==> r.value.Valid() && r.value.CellCount() <= maxCells
  {
    match local
    case Single(column, row) => Checked(Rect(row, row, Number(Upper(column)), Number(Upper(column))), maxCells)
    case Area(first, Some(top), last, Some(bottom)) =>
      Checked(Rect(top, bottom, Number(Upper(first)), Number(Upper(last))), maxCells)
    case _ => Err(RangeInvalid)
  }

  function Checked(r: Rect, maxCells: nat): Result<Rect, string> {
    if !r.Valid() then Err(RangeInvalid)
    else if r.CellCount() > maxCells then Err(RangeInvalid)
    else Ok(r)
  }

  function FirstTitled(sheets: seq<Sheet>, title: string): (r: Option<Sheet>)
    ensures r.Some? ==> r.value in sheets && r.value.title == title
    ensures r.None? ==> forall s | s in sheets :: s.title != title
  {
    if sheets == [] then None
    else if sheets[0].title == title then Some(sheets[0])
    else FirstTitled(sheets[1..], title)
  }

  /** An open end is filled in from the sheet's grid. */
  function Closed(local: Local, sheet: Sheet): RawLocal {
    match local
    case Area(first, top, last, bottom) =>
      Area(first, Some(top.UnwrapOr(1)), last, Some(bottom.UnwrapOr(sheet.rows)))
    case other => other
  }

  /** `resolve_source_range`: the sheet (the target's own when none is named) and the rectangle on it. */
  function ResolveSource(named: Option<string>, local: Local, title: string, sheets: seq<Sheet>, maxCells: nat)
    : (r: Result<(Sheet, Rect), string>)
  {
    match FirstTitled(sheets, named.UnwrapOr(title))
    case None => Err(Unresolved)
    case Some(sheet) =>
      var closed := Closed(local, sheet);
      if !closed.Valid() then Err(RangeInvalid)
      else
        match Bounded(closed, maxCells)
        case Err(code) => Err(code)
        case Ok(rect) => if sheet.Holds(rect) then Ok((sheet, rect)) else Err(Unresolved)
  }

  lemma NumberIsPositive(column: string)
    requires IsColumn(column)
    ensures 1 <= Number(Upper(column)) <= 18278
  {
    ThreeLetters(Upper(column));
  }

  /** Column names of a range are the letters of columns 1 to 18278, in either case. */
  lemma ColumnAnswer(s: string)
    requires IsLetters(s)
    ensures IsColumn(s) <==> 1 <= Number(Upper(s)) <= 18278
  {
    ThreeLetters(Upper(s));
  }

  /** What is resolved lies on the named sheet, within its grid and within the budget. */
  lemma ResolvedFits(named: Option<string>, local: Local, title: string, sheets: seq<Sheet>, maxCells: nat)
    requires ResolveSource(named, local, title, sheets, maxCells).Ok?
    ensures var (sheet, rect) := ResolveSource(named, local, title, sheets, maxCells).value;
            && sheet in sheets && sheet.title == named.UnwrapOr(title)
            && rect.Valid() && 1 <= rect.CellCount() <= maxCells
            && forall row: nat, column: nat | rect.Contains(row, column) ::
                 1 <= row <= sheet.rows && 1 <= column <= sheet.columns
  {
    var (sheet, rect) := ResolveSource(named, local, title, sheets, maxCells).value;
    CountIsPositive(rect);
  }

  lemma CountIsPositive(r: Rect)
    requires r.Valid()
    ensures r.CellCount() >= 1
  {
    assert r.Height() * r.Width() >= 1 * r.Width() by { assert (r.Height() - 1) * r.Width() >= 0; }
  }

  /**
    An open column range is all of those columns or an error, never less: it
    resolves exactly when the columns are on the grid, in order, and their every
    row is within the budget.
  */
  lemma OpenColumnsAreWhole(named: Option<string>, first: string, last: string, title: string, sheets: seq<Sheet>,
                            maxCells: nat)
    requires IsColumn(first) && IsColumn(last)
    ensures var left, right := Number(Upper(first)), Number(Upper(last));
            var r := ResolveSource(named, Area(first, None, last, None), title, sheets, maxCells);
            match FirstTitled(sheets, named.UnwrapOr(title))
            case None => r == Err(Unresolved)
            case Some(sheet) =>
              if 0 < sheet.rows && left <= right <= sheet.columns && sheet.rows * (right - left + 1) <= maxCells
              then r == Ok((sheet, Rect(1, sheet.rows, left, right)))
              else r.Err?
  {
    NumberIsPositive(first);
    NumberIsPositive(last);
    hide Number, Upper, FirstTitled, IsLetters;
    var found := FirstTitled(sheets, named.UnwrapOr(title));
    if found.Some? {
      ClosedAnswer(Area(first, None, last, None), found.value, maxCells);
      hide Bounded, Closed;
    }
  }

  // ---- which cells a range names ----

  /** The column a letter name stands for, in either case. */
  function ColumnOf(name: string): nat
    requires IsColumn(name)
  {
    Number(Upper(name))
  }

  /** The first and last row of a range; an open start is row 1, an open end is the last row of the grid. */
  function FirstRow(local: Local): nat
    requires !local.Unreadable?
  {
    match local
    case Single(_, row) => row
    case Area(_, top, _, _) => if top.Some? then top.value else 1
  }

  function LastRow(local: Local, rows: nat): nat
    requires !local.Unreadable?
  {
    match local
    case Single(_, row) => row
    case Area(_, _, _, bottom) => if bottom.Some? then bottom.value else rows
  }

  function FirstColumn(local: Local): nat
    requires !local.Unreadable?
  {
    ColumnOf(if local.Single? then local.column else local.first)
  }

  function LastColumn(local: Local): nat
    requires !local.Unreadable?
  {
    ColumnOf(if local.Single? then local.column else local.last)
  }

  predicate IsOpen(local: Local) {
    local.Area? && (local.top.None? || local.bottom.None?)
  }

  /** On a grid of `rows` rows, the cell in this row and column is one of the range's. */
  predicate Names(local: Local, rows: nat, row: nat, column: nat) {
    && !local.Unreadable?
    && FirstRow(local) <= row <= LastRow(local, rows) && FirstColumn(local) <= column <= LastColumn(local)
  }

  /** The ends are in order, and between them are at most so many cells. */
  predicate IsInOrder(local: Local, rows: nat, maxCells: nat) {
    && !local.Unreadable?
    && IsRoomFor(FirstRow(local), LastRow(local, rows), FirstColumn(local), LastColumn(local), maxCells)
  }

  lemma CheckedAnswer(r: Rect, maxCells: nat)
    requires r.top >= 1 && r.left >= 1
    ensures match Checked(r, maxCells)
            case Ok(rect) => rect == r && IsRoomFor(r.top, r.bottom, r.left, r.right, maxCells)
            case Err(code) => code == RangeInvalid && !IsRoomFor(r.top, r.bottom, r.left, r.right, maxCells)
  {}

  predicate IsRoomFor(top: nat, bottom: nat, left: nat, right: nat, maxCells: nat) {
    top <= bottom && left <= right && (bottom - top + 1) * (right - left + 1) <= maxCells
  }

  /** A bounded range is exactly the cells it names, and refused exactly if it is open, out of order or too big. */
  lemma BoundedAnswer(local: Local, rows: nat, maxCells: nat)
    ensures match Bounded(local, maxCells)
            case Ok(rect) =>
              && !IsOpen(local) && IsInOrder(local, rows, maxCells)
              && forall row, column :: rect.Contains(row, column) <==> Names(local, rows, row, column)
            case Err(code) => code == RangeInvalid && (IsOpen(local) || !IsInOrder(local, rows, maxCells))
  {
    if !local.Unreadable? {
      NumberIsPositive(if local.Single? then local.column else local.first);
      NumberIsPositive(if local.Single? then local.column else local.last);
      hide Number, Upper, IsLetters, Checked, IsRoomFor;
      CheckedAnswer(Rect(FirstRow(local), LastRow(local, rows), FirstColumn(local), LastColumn(local)), maxCells);
    }
  }

  lemma BoundedCorners(range: Local, maxCells: nat)
    requires Bounded(range, maxCells).Ok?
    ensures !range.Unreadable?
    ensures Bounded(range, maxCells).value ==
              Rect(FirstRow(range), LastRow(range, 0), FirstColumn(range), LastColumn(range))
  {
    hide Number, Upper;
  }

  /** One cell is that cell: row and column as written. */
  lemma SingleCell(column: string, row: nat, maxCells: nat)
    requires IsColumn(column) && row > 0 && maxCells > 0
    ensures Bounded(Single(column, row), maxCells) == Ok(Rect(row, row, ColumnOf(column), ColumnOf(column)))
  {
    NumberIsPositive(column);
  }

  /**
    A source is exactly the cells it names on its sheet, each open end filled in
    on its own, or refused: no such sheet, not a range of at most so many cells, or
    beyond the grid.
  */
  lemma SourceAnswer(named: Option<string>, local: Local, title: string, sheets: seq<Sheet>, maxCells: nat)
    ensures var r := ResolveSource(named, local, title, sheets, maxCells);
            match FirstTitled(sheets, named.UnwrapOr(title))
            case None => r == Err(Unresolved)
            case Some(sheet) =>
              if !IsInOrder(local, sheet.rows, maxCells) then r == Err(RangeInvalid)
              else if LastRow(local, sheet.rows) > sheet.rows || LastColumn(local) > sheet.columns
              then r == Err(Unresolved)
              else
                && r.Ok? && r.value.0 == sheet
                && forall row, column :: r.value.1.Contains(row, column) <==> Names(local, sheet.rows, row, column)
  {
    hide Number, Upper, IsLetters;
    var found := FirstTitled(sheets, named.UnwrapOr(title));
    if found.Some? {
      ClosedAnswer(local, found.value, maxCells);
    }
  }

  lemma ClosedAnswer(local: Local, sheet: Sheet, maxCells: nat)
    ensures var closed := Closed(local, sheet);
            if !IsInOrder(local, sheet.rows, maxCells)
            then !closed.Valid() || Bounded(closed, maxCells) == Err(RangeInvalid)
            else
              && closed.Valid()
              && Bounded(closed, maxCells) ==
                   Ok(Rect(FirstRow(local), LastRow(local, sheet.rows), FirstColumn(local), LastColumn(local)))
  {
    if !local.Unreadable? {
      NumberIsPositive(if local.Single? then local.column else local.first);
      NumberIsPositive(if local.Single? then local.column else local.last);
      hide Number, Upper, IsLetters, Checked, IsRoomFor;
      CheckedAnswer(Rect(FirstRow(local), LastRow(local, sheet.rows), FirstColumn(local), LastColumn(local)), maxCells);
      RoomHasAnEnd(FirstRow(local), LastRow(local, sheet.rows), FirstColumn(local), LastColumn(local), maxCells);
    }
  }

  lemma RoomHasAnEnd(top: nat, bottom: nat, left: nat, right: nat, maxCells: nat)
    ensures IsRoomFor(top, bottom, left, right, maxCells) ==> top <= bottom
  {}

  /** The first sheet of that title. */
  lemma {:induction false} FirstTitledIsFirst(sheets: seq<Sheet>, title: string)
    ensures var r := FirstTitled(sheets, title);
            r.Some? ==> exists i :: 0 <= i < |sheets| && sheets[i] == r.value && title !in TitlesBefore(sheets, i)
  {
    if sheets != [] {
      if sheets[0].title == title {
        assert sheets[0] == FirstTitled(sheets, title).value && TitlesBefore(sheets, 0) == {};
      } else {
        FirstTitledIsFirst(sheets[1..], title);
        if FirstTitled(sheets[1..], title).Some? {
          var i :| 0 <= i < |sheets[1..]| && sheets[1..][i] == FirstTitled(sheets, title).value
                   && title !in TitlesBefore(sheets[1..], i);
          assert forall k | 0 < k < i + 1 :: sheets[k].title == sheets[1..][k - 1].title;
          assert sheets[i + 1] == FirstTitled(sheets, title).value && title !in TitlesBefore(sheets, i + 1);
        }
      }
    }
  }

  ghost function TitlesBefore(sheets: seq<Sheet>, n: nat): set<string>
    requires n <= |sheets|
  {
    set k | 0 <= k < n :: sheets[k].title
  }
}
