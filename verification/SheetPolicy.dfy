/** Admission of a spreadsheet batch (app/policies/workspace.py, `SpreadsheetMutationPolicy`). */
module SheetPolicy {
  import opened Wrappers
  import opened SheetRanges

  const MaxOperations := 50
  const MaxDimensionChange := 1000
  const MaxTabMutations := 10

  type Code = string
  type Ref = string

  /** A range as its grammar reads it: the sheet it names, if any, and the rest. */
  datatype A1 = A1(sheet: Option<string>, local: Local)

  datatype Axis = Rows | Columns

  datatype Operation =
    | SetValues(ref: Ref, range: A1, rows: seq<seq<string>>)
    | AppendRows(ref: Ref, range: A1, rows: seq<seq<string>>)
    | ClearRange(ref: Ref, range: A1)
    | FormatRange(ref: Ref, range: A1)
    | CreateSheet(title: string)
    | RenameSheet(ref: Ref, title: string)
    | DeleteSheet(ref: Ref)
    | Insert(ref: Ref, axis: Axis, start: nat, count: nat)
    | Delete(ref: Ref, axis: Axis, start: nat, count: nat)
  {
    predicate HasRange() { SetValues? || AppendRows? || ClearRange? || FormatRange? }
    predicate Writes() { SetValues? || AppendRows? }
    predicate ChangesTabs() { CreateSheet? || RenameSheet? || DeleteSheet? }
  }

  /**
    What the policy is given: the spreadsheet as it was inspected, the sheet each
    reference names (several may name one), the cell limit and Python's casefold.
  */
  datatype Context = Context(
    sheets: map<nat, Sheet>,
    refs: map<Ref, nat>,
    maxCells: nat,
    fold: string -> string)
  {
    ghost predicate Valid() {
      forall r | r in refs :: refs[r] in sheets
    }

    function Titles(): set<string> {
      set id | id in sheets :: sheets[id].title
    }

    function SheetOf(r: Ref): Sheet
      requires Valid() && r in refs
    {
      sheets[refs[r]]
    }

    predicate Clashes(titles: set<string>, title: string) {
      exists t | t in titles :: fold(t) == fold(title)
    }
  }

  /** The policy's running account of a batch. */
  datatype Plan = Plan(titles: set<string>, deleted: set<Ref>, written: nat, tabs: nat)

  /** A local bounded range; one that names a sheet is refused. */
  function LocalRange(range: A1, maxCells: nat): (r: Result<Rect, Code>)
    ensures r.Ok? ==> r.value.Valid() && r.value.CellCount() <= maxCells
  {
    if range.local.Single? then Err(RangeInvalid)
    else
      match Bounded(range.local, maxCells)
      case Err(code) => Err(code)
      case Ok(rect) => if range.sheet.UnwrapOr("") != "" then Err(RangeInvalid) else Ok(rect)
  }

  predicate IsMatrix(rows: seq<seq<string>>) {
    rows != [] && rows[0] != [] && forall i | 0 <= i < |rows| :: |rows[i]| == |rows[0]|
  }

  /** The values fit the range: append may go below it, set may not. */
  function CheckValues(op: Operation, rect: Rect): Result<nat, Code>
    requires op.Writes() && rect.Valid()
  {
    if !IsMatrix(op.rows) then Err("spreadsheet_values_invalid")
    else if op.SetValues? && |op.rows| > rect.Height() then Err("spreadsheet_values_invalid")
    else if |op.rows[0]| > rect.Width() then Err("spreadsheet_values_invalid")
    else Ok(|op.rows| * |op.rows[0]|)
  }

  function CheckRange(op: Operation, maxCells: nat): Result<nat, Code>
    requires op.HasRange()
  {
    match LocalRange(op.range, maxCells)
    case Err(code) => Err(code)
    case Ok(rect) => if op.Writes() then CheckValues(op, rect) else Ok(0)
  }

  function CheckTabs(c: Context, plan: Plan, op: Operation): Result<Plan, Code>
    requires c.Valid() && op.ChangesTabs() && (!op.CreateSheet? ==> op.ref in c.refs)
  {
    var counted := plan.(tabs := plan.tabs + 1);
    match op
    case CreateSheet(title) =>
      if c.Clashes(plan.titles, title) then Err("spreadsheet_sheet_title_duplicate")
      else Ok(counted.(titles := plan.titles + {title}))
    case RenameSheet(ref, title) =>
      var others := plan.titles - {c.SheetOf(ref).title};
      if c.Clashes(others, title) then Err("spreadsheet_sheet_title_duplicate")
      else Ok(counted.(titles := others + {title}))
    case DeleteSheet(ref) =>
      var deleted := plan.deleted + {ref};
      if |c.Titles()| - |deleted| < 1 then Err("spreadsheet_last_sheet_protected")
      else Ok(counted.(deleted := deleted))
  }

  function CheckDimension(c: Context, op: Operation): Option<Code>
    requires c.Valid() && (op.Insert? || op.Delete?) && op.ref in c.refs
  {
    var sheet := c.SheetOf(op.ref);
    var current := if op.axis == Rows then sheet.rows else sheet.columns;
    if op.count > MaxDimensionChange then Some("spreadsheet_dimension_limit_exceeded")
    else if op.Delete? && op.start + op.count > current then Some("spreadsheet_dimension_invalid")
    else if op.Insert? && op.start > current then Some("spreadsheet_dimension_invalid")
    else None
  }

  /** One operation, checked in the order of the source: its range, its sheet, the rest. */
  function Check(c: Context, plan: Plan, op: Operation): Result<Plan, Code>
    requires c.Valid()
  {
    match if op.HasRange() then CheckRange(op, c.maxCells) else Ok(0)
    case Err(code) => Err(code)
    case Ok(written) =>
      if !op.CreateSheet? && op.ref !in c.refs then Err("spreadsheet_sheet_reference_invalid")
      else if op.ChangesTabs() then CheckTabs(c, plan, op)
      else if op.HasRange() then Ok(plan.(written := plan.written + written))
      else
        match CheckDimension(c, op)
        case Some(code) => Err(code)
        case None => Ok(plan)
  }

  /** The plan after `ops`, or the code of the first operation refused. */
  function Planned(c: Context, ops: seq<Operation>): Result<Plan, Code>
    requires c.Valid()
  {
    if ops == [] then Ok(Plan(c.Titles(), {}, 0, 0))
    else
      match Planned(c, ops[..|ops| - 1])
      case Err(code) => Err(code)
      case Ok(plan) => Check(c, plan, ops[|ops| - 1])
  }

  predicate IsPlanned(c: Context, ops: seq<Operation>)
    requires c.Valid()
  {
    Planned(c, ops).Ok?
  }

  /** The batch is admitted. */
  predicate Admits(c: Context, ops: seq<Operation>)
    requires c.Valid()
  {
    && 1 <= |ops| <= MaxOperations
    && IsPlanned(c, ops)
    && Planned(c, ops).value.written <= c.maxCells
    && Planned(c, ops).value.tabs <= MaxTabMutations
  }

  lemma {:induction false} PrefixIsPlanned(c: Context, ops: seq<Operation>, n: nat)
    requires c.Valid() && n <= |ops|
    ensures Planned(c, ops).Ok? ==> Planned(c, ops[..n]).Ok?
    ensures Planned(c, ops[..n]).Err? ==> Planned(c, ops) == Planned(c, ops[..n])
    decreases |ops|
  {
    if n < |ops| {
      PrefixIsPlanned(c, ops[..|ops| - 1], n);
      assert ops[..|ops| - 1][..n] == ops[..n];
    } else {
      assert ops[..n] == ops;
    }
  }

  /** The loop of the policy: the first refusal, or the limits on the whole batch. */
  method ValidateOperations(c: Context, ops: seq<Operation>) returns (refused: Option<Code>)
    requires c.Valid()
    ensures refused.None? <==> Admits(c, ops)
    ensures !(1 <= |ops| <= 50) ==> refused == Some("spreadsheet_operations_invalid")
    ensures 1 <= |ops| <= 50 && !IsPlanned(c, ops) ==> refused == Some(Planned(c, ops).error)
    ensures 1 <= |ops| <= 50 && IsPlanned(c, ops) && refused.Some? ==>
              refused.value == (if Planned(c, ops).value.written > c.maxCells then "spreadsheet_cell_limit_exceeded"
                                else "spreadsheet_tab_limit_exceeded")
  {
    if ops == [] || |ops| > MaxOperations {
      return Some("spreadsheet_operations_invalid");
    }
    var plan := Plan(c.Titles(), {}, 0, 0);
    for i := 0 to |ops|
      invariant Planned(c, ops[..i]) == Ok(plan)
    {
      assert ops[..i + 1][..i] == ops[..i];
      PrefixIsPlanned(c, ops, i + 1);
      match Check(c, plan, ops[i])
      case Err(code) => return Some(code);
      case Ok(next) => plan := next;
    }
    assert ops[..|ops|] == ops;
    if plan.written > c.maxCells {
      return Some("spreadsheet_cell_limit_exceeded");
    }
    if plan.tabs > MaxTabMutations {
      return Some("spreadsheet_tab_limit_exceeded");
    }
    return None;
  }

  /** Cells an operation writes. */
  ghost function CellsOf(op: Operation): nat {
    if op.SetValues? || op.AppendRows? then Sum(op.rows) else 0
  }

  ghost function Sum(rows: seq<seq<string>>): nat {
    if rows == [] then 0 else Sum(rows[..|rows| - 1]) + |rows[|rows| - 1]|
  }

  ghost function CellsOfAll(ops: seq<Operation>): nat {
    if ops == [] then 0 else CellsOfAll(ops[..|ops| - 1]) + CellsOf(ops[|ops| - 1])
  }

  ghost function TabChanges(ops: seq<Operation>): nat {
    if ops == [] then 0 else TabChanges(ops[..|ops| - 1]) + if IsTabChange(ops[|ops| - 1]) then 1 else 0
  }

  ghost predicate IsTabChange(op: Operation) {
    op.CreateSheet? || op.RenameSheet? || op.DeleteSheet?
  }

  lemma {:induction false} MatrixSum(rows: seq<seq<string>>, width: nat)
    requires forall i | 0 <= i < |rows| :: |rows[i]| == width
    ensures Sum(rows) == |rows| * width
  {
    if rows != [] {
      MatrixSum(rows[..|rows| - 1], width);
      assert (|rows| - 1) * width + width == |rows| * width;
    }
  }

  lemma {:induction false} PlanCounts(c: Context, ops: seq<Operation>)
    requires c.Valid() && IsPlanned(c, ops)
    ensures Planned(c, ops).value.written == CellsOfAll(ops)
    ensures Planned(c, ops).value.tabs == TabChanges(ops)
  {
    if ops != [] {
      var op := ops[|ops| - 1];
      PlanCounts(c, ops[..|ops| - 1]);
      if op.Writes() && IsMatrix(op.rows) {
        MatrixSum(op.rows, |op.rows[0]|);
      }
    }
  }

  /** A batch none of whose operations is refused is admitted exactly within the limits on the whole. */
  lemma AdmittedIsBounded(c: Context, ops: seq<Operation>)
    requires c.Valid()
    ensures Admits(c, ops) <==>
            && 1 <= |ops| <= 50 && IsPlanned(c, ops)
            && CellsOfAll(ops) <= c.maxCells && TabChanges(ops) <= 10
  {
    if IsPlanned(c, ops) {
      PlanCounts(c, ops);
    }
  }

  // ---- what each check asks for ----

  /** A bounded range in order and within the budget that names no sheet. */
  ghost predicate IsLocalArea(range: A1, maxCells: nat) {
    && (range.sheet == None || range.sheet == Some(""))
    && range.local.Area? && !IsOpen(range.local) && IsInOrder(range.local, 0, maxCells)
  }

  /** At least one row, all of one width that is not zero. */
  ghost predicate AreRows(rows: seq<seq<string>>, width: nat) {
    |rows| > 0 && width > 0 && forall i | 0 <= i < |rows| :: |rows[i]| == width
  }

  /** The values fit the columns of their range, and, unless they are appended, its rows. */
  ghost predicate ValuesFit(op: Operation)
    requires (op.SetValues? || op.AppendRows?) && op.range.local.Area?
  {
    var local := op.range.local;
    exists width ::
      && AreRows(op.rows, width) && FirstColumn(local) + width <= LastColumn(local) + 1
      && (op.SetValues? ==> FirstRow(local) + |op.rows| <= LastRow(local, 0) + 1)
  }

  lemma ValuesAnswer(op: Operation, rect: Rect)
    requires op.Writes() && op.range.local.Area? && rect.Valid()
    requires var local := op.range.local;
             rect == Rect(FirstRow(local), LastRow(local, 0), FirstColumn(local), LastColumn(local))
    ensures match CheckValues(op, rect)
            case Ok(cells) => ValuesFit(op) && cells == Sum(op.rows)
            case Err(code) => !ValuesFit(op) && code == "spreadsheet_values_invalid"
  {
    hide FirstRow, LastRow, FirstColumn, LastColumn;
    assert IsMatrix(op.rows) <==> op.rows != [] && AreRows(op.rows, |op.rows[0]|);
    if IsMatrix(op.rows) {
      MatrixSum(op.rows, |op.rows[0]|);
    }
  }

  lemma LocalAnswer(range: A1, maxCells: nat)
    ensures match LocalRange(range, maxCells)
            case Ok(rect) =>
              && IsLocalArea(range, maxCells)
              && rect == Rect(FirstRow(range.local), LastRow(range.local, 0), FirstColumn(range.local),
                              LastColumn(range.local))
            case Err(code) => code == RangeInvalid && !IsLocalArea(range, maxCells)
  {
    hide IsInOrder, Bounded, FirstRow, LastRow, FirstColumn, LastColumn;
    BoundedAnswer(range.local, 0, maxCells);
    if Bounded(range.local, maxCells).Ok? {
      BoundedCorners(range.local, maxCells);
    }
  }

  lemma RangeAnswer(op: Operation, maxCells: nat)
    requires op.HasRange()
    ensures match CheckRange(op, maxCells)
            case Ok(cells) =>
              && IsLocalArea(op.range, maxCells) && (op.Writes() ==> ValuesFit(op))
              && cells == if op.Writes() then Sum(op.rows) else 0
            case Err(code) =>
              if !IsLocalArea(op.range, maxCells) then code == RangeInvalid
              else code == "spreadsheet_values_invalid" && op.Writes() && !ValuesFit(op)
  {
    hide LocalRange, CheckValues, ValuesFit, IsInOrder, FirstRow, LastRow, FirstColumn, LastColumn, Sum;
    LocalAnswer(op.range, maxCells);
    var local := LocalRange(op.range, maxCells);
    if local.Ok? && op.Writes() {
      ValuesAnswer(op, local.value);
    }
  }

  /** Rows or columns: how many the sheet has of what an operation inserts or deletes. */
  ghost predicate HasSo(c: Context, op: Operation, many: nat)
    requires c.Valid() && (op.Insert? || op.Delete?) && op.ref in c.refs
  {
    match op.axis
    case Rows => many == c.sheets[c.refs[op.ref]].rows
    case Columns => many == c.sheets[c.refs[op.ref]].columns
  }

  /** A deletion lies within its sheet, an insertion starts in it or right behind, and neither is too large. */
  lemma DimensionAnswer(c: Context, op: Operation, many: nat)
    requires c.Valid() && (op.Insert? || op.Delete?) && op.ref in c.refs && HasSo(c, op, many)
    ensures match CheckDimension(c, op)
            case None =>
              op.count <= 1000 && (op.Delete? ==> op.start + op.count <= many) && (op.Insert? ==> op.start <= many)
            case Some(code) =>
              if op.count > 1000 then code == "spreadsheet_dimension_limit_exceeded"
              else
                && code == "spreadsheet_dimension_invalid"
                && ((op.Delete? && op.start + op.count > many) || (op.Insert? && op.start > many))
  {}

  /** Some title of these says the same as `title`, but for case. */
  ghost predicate IsTaken(c: Context, titles: set<string>, title: string) {
    exists t :: t in titles && c.fold(t) == c.fold(title)
  }

  /** Titles are compared without regard to case, and the last sheet stays. */
  lemma TabsAnswer(c: Context, plan: Plan, op: Operation)
    requires c.Valid() && op.ChangesTabs() && (!op.CreateSheet? ==> op.ref in c.refs)
    ensures var r := CheckTabs(c, plan, op);
            match op
            case CreateSheet(title) =>
              if IsTaken(c, plan.titles, title) then r == Err("spreadsheet_sheet_title_duplicate")
              else r == Ok(Plan(plan.titles + {title}, plan.deleted, plan.written, plan.tabs + 1))
            case RenameSheet(ref, title) =>
              var others := plan.titles - {c.sheets[c.refs[ref]].title};
              if IsTaken(c, others, title) then r == Err("spreadsheet_sheet_title_duplicate")
              else r == Ok(Plan(others + {title}, plan.deleted, plan.written, plan.tabs + 1))
            case DeleteSheet(ref) =>
              if |plan.deleted + {ref}| >= |c.Titles()| then r == Err("spreadsheet_last_sheet_protected")
              else r == Ok(Plan(plan.titles, plan.deleted + {ref}, plan.written, plan.tabs + 1))
  {}

  /**
    Each operation of an admitted batch: a sheet the policy knows, values that fit, rows
    and columns that are there.
  */
  ghost predicate IsWellAimed(c: Context, op: Operation)
    requires c.Valid()
  {
    && (!op.CreateSheet? ==> op.ref in c.refs)
    && (op.ClearRange? || op.FormatRange? ==> IsLocalArea(op.range, c.maxCells))
    && (op.SetValues? || op.AppendRows? ==> IsLocalArea(op.range, c.maxCells) && ValuesFit(op))
    && (op.Insert? || op.Delete? ==>
          && op.count <= 1000
          && exists many :: HasSo(c, op, many)
                            && (op.Delete? ==> op.start + op.count <= many) && (op.Insert? ==> op.start <= many))
  }

  lemma CheckedIsWellAimed(c: Context, plan: Plan, op: Operation)
    requires c.Valid() && Check(c, plan, op).Ok?
    ensures IsWellAimed(c, op)
  {
    if op.HasRange() {
      RangeAnswer(op, c.maxCells);
    }
    if op.Insert? || op.Delete? {
      var sheet := c.sheets[c.refs[op.ref]];
      var many := match op.axis case Rows => sheet.rows case Columns => sheet.columns;
      DimensionAnswer(c, op, many);
      assert HasSo(c, op, many);
    }
  }

  lemma AdmittedIsWellAimed(c: Context, ops: seq<Operation>, i: nat)
    requires c.Valid() && Admits(c, ops) && i < |ops|
    ensures IsWellAimed(c, ops[i])
  {
    PrefixIsPlanned(c, ops, i + 1);
    assert ops[..i + 1][..i] == ops[..i];
    CheckedIsWellAimed(c, Planned(c, ops[..i]).value, ops[i]);
  }

  /** And nothing else is refused but for tabs: what is well aimed passes, with as many cells as it has values. */
  lemma WellAimedPasses(c: Context, plan: Plan, op: Operation)
    requires c.Valid() && IsWellAimed(c, op) && !(op.CreateSheet? || op.RenameSheet? || op.DeleteSheet?)
    ensures Check(c, plan, op).Ok?
    ensures op.SetValues? || op.AppendRows? ==>
              Check(c, plan, op).value == plan.(written := plan.written + Sum(op.rows))
    ensures !(op.SetValues? || op.AppendRows?) ==> Check(c, plan, op).value == plan
  {
    if op.HasRange() {
      RangeAnswer(op, c.maxCells);
    } else {
      var sheet := c.sheets[c.refs[op.ref]];
      DimensionAnswer(c, op, match op.axis case Rows => sheet.rows case Columns => sheet.columns);
    }
  }
}
