/** Inspecting data validation cell by cell (app/adapters/google_workspace/validation.py, `inspect_cells`). */
module CellValidation {
  import opened Wrappers
  import opened ColumnNames
  import opened SheetRanges

  const MaxSources := 50

  type Code = string

  datatype Criterion = OneOfList | OneOfRange | OtherCriterion(name: string)

  datatype Rule = Rule(criterion: Criterion, operands: seq<string>, strict: bool, help: Option<string>) {
    /** The source expression, empty unless there is exactly one. */
    function Expression(): string {
      if |operands| == 1 then operands[0] else ""
    }
  }

  datatype Position = Position(row: nat, column: nat)
  type Rules = map<Position, Rule>

  datatype Domain = NoRule | NotEnumerated | Listed(values: seq<string>) | FromSource(index: nat, resolved: bool)

  datatype Cell = Cell(name: string, rule: Option<Rule>, domain: Domain)

  datatype Value = Null | Text(text: string) | Number(n: int) {
    predicate Counts() {
      this != Null && this != Text("")
    }
  }

  /** Refused before reading, read without success, or read. */
  datatype Outcome =
    | Refused(code: Code)
    | Unread(sheet: Sheet, rect: Rect, code: Code)
    | Resolved(sheet: Sheet, rect: Rect, values: seq<Value>)
  {
    ghost predicate Valid() {
      !Refused? ==> rect.Valid()
    }

    ghost function Spent(): nat
      requires Valid()
    {
      if Refused? then 0 else rect.CellCount()
    }
  }

  datatype Source = Source(expression: string, outcome: Outcome)

  /** Each element of `s` once, where it is first seen. */
  function FirstSeen<T(==)>(s: seq<T>): seq<T> {
    if s == [] then [] else Noted(FirstSeen(s[..|s| - 1]), s[|s| - 1])
  }

  function Noted<T(==)>(seen: seq<T>, x: T): seq<T> {
    if x in seen then seen else seen + [x]
  }

  function Row(values: seq<Value>): seq<Value> {
    if values == [] then []
    else Row(values[..|values| - 1]) + if values[|values| - 1].Counts() then [values[|values| - 1]] else []
  }

  /** The non-empty values of a range, in reading order. */
  function Values(rows: seq<seq<Value>>): seq<Value> {
    if rows == [] then [] else Values(rows[..|rows| - 1]) + Row(rows[|rows| - 1])
  }

  /**
    What surrounds the inspection: the budget, the sheet inspected, what the range
    grammar says of an expression, and what the provider answers the k-th time
    it is asked for the structure, or asked to read for the k-th source.
  */
  datatype Provider = Provider(
    maxCells: nat,
    title: string,
    parse: string -> (Option<string>, Local),
    structure: nat -> Result<seq<Sheet>, Code>,
    read: (nat, Rect) -> Result<seq<seq<Value>>, Code>)
  {
    /** The structure as the k-th source sees it: asked for again until it is known. */
    function Structure(k: nat): Result<seq<Sheet>, Code> {
      if k > 0 && Structure(k - 1).Ok? then Structure(k - 1) else structure(k)
    }

    function Locate(k: nat, expression: string, remaining: nat): (r: Result<(Sheet, Rect), Code>)
      ensures r.Ok? ==> r.value.1.Valid() && r.value.1.CellCount() <= remaining && k < MaxSources
    {
      if k >= MaxSources then Err("validation_source_limit")
      else
        match Structure(k)
        case Err(code) => Err(code)
        case Ok(sheets) =>
          var (named, local) := parse(expression);
          ResolveSource(named, local, title, sheets, remaining)
    }

    function Attempt(k: nat, expression: string, remaining: nat): (o: Outcome)
      ensures o.Valid() && o.Spent() <= remaining && (k >= MaxSources ==> o.Refused?)
    {
      match Locate(k, expression, remaining)
      case Err(code) => Refused(code)
      case Ok((sheet, rect)) =>
        match read(k, rect)
        case Err(code) => Unread(sheet, rect, code)
        case Ok(rows) => Resolved(sheet, rect, FirstSeen(Values(rows)))
    }

    /** The budget left after these expressions, in this order. */
    ghost function Remaining(seen: seq<string>): nat {
      if seen == [] then maxCells
      else
        var earlier, k := seen[..|seen| - 1], |seen| - 1;
        Remaining(earlier) - Attempt(k, seen[k], Remaining(earlier)).Spent()
    }

    ghost function Sources(seen: seq<string>): (sources: seq<Source>)
      ensures |sources| == |seen|
    {
      if seen == [] then []
      else
        var earlier, k := seen[..|seen| - 1], |seen| - 1;
        Sources(earlier) + [Source(seen[k], Attempt(k, seen[k], Remaining(earlier)))]
    }
  }

  /** The locals of the inspection that outlive one cell. */
  datatype Ledger =
    Ledger(sources: seq<Source>, cache: map<string, nat>, structure: Option<seq<Sheet>>, remaining: nat) {
    ghost predicate Valid(env: Provider, seen: seq<string>) {
      && sources == env.Sources(seen)
      && remaining == env.Remaining(seen)
      && KnowsStructure(env)
      && Caches(seen)
    }

    ghost predicate KnowsStructure(env: Provider) {
      var k := |sources|;
      k < MaxSources ==>
        structure == if k > 0 && env.Structure(k - 1).Ok? then Some(env.Structure(k - 1).value) else None
    }

    ghost predicate Caches(seen: seq<string>) {
      && (forall e :: e in cache <==> e in seen)
      && forall e | e in cache :: cache[e] < |seen| && seen[cache[e]] == e
    }

    lemma OneMoreCached(seen: seq<string>, expression: string)
      requires Caches(seen) && expression !in seen
      ensures this.(cache := cache[expression := |seen|]).Caches(seen + [expression])
    {
      var now := seen + [expression];
      assert now[|seen|] == expression;
      assert forall e :: e in now <==> e in seen || e == expression;
    }
  }

  method CountingValues(row: seq<Value>, before: seq<Value>, ghost all: seq<Value>) returns (resolved: seq<Value>)
    requires before == FirstSeen(all)
    ensures resolved == FirstSeen(all + Row(row))
  {
    resolved := before;
    assert all + Row([]) == all;
    for i := 0 to |row|
      invariant resolved == FirstSeen(all + Row(row[..i]))
    {
      ghost var next := row[..i + 1];
      assert next[..i] == row[..i];
      if row[i].Counts() {
        assert all + Row(next) == (all + Row(row[..i])) + [row[i]];
        if row[i] !in resolved {
          resolved := resolved + [row[i]];
        }
      } else {
        assert Row(next) == Row(row[..i]);
      }
    }
    assert row[..|row|] == row;
  }

  method DistinctValues(rows: seq<seq<Value>>) returns (resolved: seq<Value>)
    ensures resolved == FirstSeen(Values(rows))
  {
    resolved := [];
    for i := 0 to |rows|
      invariant resolved == FirstSeen(Values(rows[..i]))
    {
      resolved := CountingValues(rows[i], resolved, Values(rows[..i]));
      assert rows[..i + 1][..i] == rows[..i];
    }
    assert rows[..|rows|] == rows;
  }

  /** Resolve one expression not seen before: everything inside the source's `try`. */
  method Resolve(env: Provider, expression: string, ledger: Ledger, ghost seen: seq<string>)
    returns (outcome: Outcome, structure: Option<seq<Sheet>>, remaining: nat)
    requires ledger.Valid(env, seen)
    ensures outcome == env.Attempt(|seen|, expression, ledger.remaining)
    ensures remaining == ledger.remaining - outcome.Spent()
    ensures var after := ledger.(structure := structure, sources := ledger.sources + [Source(expression, outcome)]);
            after.KnowsStructure(env)
  {
    var k := |ledger.sources|;
    structure, remaining := ledger.structure, ledger.remaining;
    if k >= MaxSources {
      return Refused("validation_source_limit"), structure, remaining;
    }
    if structure.None? {
      match env.structure(k)
      case Err(code) => return Refused(code), structure, remaining;
      case Ok(sheets) => structure := Some(sheets);
    }
    var (named, local) := env.parse(expression);
    match ResolveSource(named, local, env.title, structure.value, remaining)
    case Err(code) => outcome := Refused(code);
    case Ok((sheet, rect)) =>
      remaining := remaining - rect.CellCount();
      match env.read(k, rect)
      case Err(code) => outcome := Unread(sheet, rect, code);
      case Ok(rows) =>
        var values := DistinctValues(rows);
        outcome := Resolved(sheet, rect, values);
  }

  method AddSource(env: Provider, expression: string, before: Ledger, ghost seen: seq<string>) returns (ledger: Ledger)
    requires before.Valid(env, seen) && expression !in seen
    ensures ledger.Valid(env, seen + [expression])
    ensures before.sources <= ledger.sources
  {
    var outcome, structure, remaining := Resolve(env, expression, before, seen);
    var cache := before.cache[expression := |before.sources|];
    ledger := Ledger(before.sources + [Source(expression, outcome)], cache, structure, remaining);
    OneMoreSource(env, seen, expression);
    before.OneMoreCached(seen, expression);
  }

  /** The source entry of an expression: the cached one, or a new one. */
  method IndexOf(env: Provider, expression: string, before: Ledger, ghost seen: seq<string>)
    returns (ledger: Ledger, index: nat)
    requires before.Valid(env, seen)
    ensures ledger.Valid(env, Noted(seen, expression))
    ensures before.sources <= ledger.sources
    ensures index < |ledger.sources| && ledger.sources[index].expression == expression
  {
    ledger := before;
    if expression !in ledger.cache {
      ledger := AddSource(env, expression, ledger, seen);
    }
    index := ledger.cache[expression];
    ExpressionsOfSources(env, Noted(seen, expression), index);
  }

  lemma OneMoreSource(env: Provider, seen: seq<string>, expression: string)
    ensures var outcome := env.Attempt(|seen|, expression, env.Remaining(seen));
            && env.Sources(seen + [expression]) == env.Sources(seen) + [Source(expression, outcome)]
            && env.Remaining(seen + [expression]) == env.Remaining(seen) - outcome.Spent()
  {
    assert (seen + [expression])[..|seen|] == seen;
  }

  lemma {:induction false} ExpressionsOfSources(env: Provider, seen: seq<string>, i: nat)
    requires i < |seen|
    ensures env.Sources(seen)[i].expression == seen[i]
  {
    if i < |seen| - 1 {
      ExpressionsOfSources(env, seen[..|seen| - 1], i);
    }
  }

  function RuleAt(rules: Rules, p: Position): Option<Rule> {
    if p in rules then Some(rules[p]) else None
  }

  function IsRange(rule: Option<Rule>): bool {
    rule.Some? && rule.value.criterion == OneOfRange
  }

  /** The source expressions at these positions, in order. */
  ghost function Expressions(rules: Rules, positions: seq<Position>): seq<string> {
    if positions == [] then []
    else
      var rule := RuleAt(rules, positions[|positions| - 1]);
      Expressions(rules, positions[..|positions| - 1]) + if IsRange(rule) then [rule.value.Expression()] else []
  }

  function CellAddress(p: Position): string {
    Name(p.column) + Decimal(p.row)
  }

  function Decimal(n: nat): string {
    (if n < 10 then "" else Decimal(n / 10)) + ['0' + (n % 10) as char]
  }

  /** A source is named by the one operand; with none or several it is empty. */
  predicate IsSourceText(operands: seq<string>, text: string) {
    if |operands| == 1 then text == operands[0] else text == ""
  }

  /** The entry for a position says what its rule is and, for a source, how that source turned out. */
  ghost predicate Describes(cell: Cell, rules: Rules, p: Position, sources: seq<Source>) {
    && cell.name == CellAddress(p)
    && cell.rule == RuleAt(rules, p)
    && match cell.rule
       case None => cell.domain == NoRule
       case Some(rule) =>
         match rule.criterion
         case OneOfList => cell.domain == Listed(rule.operands)
         case OneOfRange =>
           && cell.domain.FromSource? && cell.domain.index < |sources|
           && IsSourceText(rule.operands, sources[cell.domain.index].expression)
           && cell.domain.resolved == sources[cell.domain.index].outcome.Resolved?
         case OtherCriterion(_) => cell.domain == NotEnumerated
  }

  ghost predicate DescribeAll(cells: seq<Cell>, rules: Rules, positions: seq<Position>, sources: seq<Source>) {
    |cells| == |positions| && forall i | 0 <= i < |cells| :: Describes(cells[i], rules, positions[i], sources)
  }

  /** Where the inspection stands after these positions. */
  ghost predicate Covers(env: Provider, rules: Rules, done: seq<Position>, cells: seq<Cell>, ledger: Ledger) {
    && ledger.Valid(env, FirstSeen(Expressions(rules, done)))
    && DescribeAll(cells, rules, done, ledger.sources)
  }

  /** Entries stay right as sources are added. */
  lemma OneMoreCell(cells: seq<Cell>, rules: Rules, positions: seq<Position>, before: seq<Source>, cell: Cell,
                    p: Position, sources: seq<Source>)
    requires DescribeAll(cells, rules, positions, before) && before <= sources && Describes(cell, rules, p, sources)
    ensures DescribeAll(cells + [cell], rules, positions + [p], sources)
  {}

  method Inspect(env: Provider, rules: Rules, p: Position, before: Ledger, ghost done: seq<Position>)
    returns (cell: Cell, ledger: Ledger)
    requires before.Valid(env, FirstSeen(Expressions(rules, done)))
    ensures ledger.Valid(env, FirstSeen(Expressions(rules, done + [p])))
    ensures before.sources <= ledger.sources
    ensures Describes(cell, rules, p, ledger.sources)
  {
    OneMoreExpression(rules, done, p);
    var name := CellName(p);
    ledger := before;
    match RuleAt(rules, p)
    case None => cell := Cell(name, None, NoRule);
    case Some(rule) =>
      match rule.criterion
      case OneOfList => cell := Cell(name, Some(rule), Listed(rule.operands));
      case OneOfRange =>
        var index;
        ledger, index := IndexOf(env, rule.Expression(), ledger, FirstSeen(Expressions(rules, done)));
        cell := Cell(name, Some(rule), FromSource(index, ledger.sources[index].outcome.Resolved?));
      case OtherCriterion(_) => cell := Cell(name, Some(rule), NotEnumerated);
  }

  method CellName(p: Position) returns (name: string)
    ensures name == CellAddress(p)
  {
    var column := ColumnName(p.column);
    name := column + Decimal(p.row);
  }

  lemma OneMoreExpression(rules: Rules, done: seq<Position>, p: Position)
    ensures var rule, seen := RuleAt(rules, p), FirstSeen(Expressions(rules, done));
            FirstSeen(Expressions(rules, done + [p])) ==
              if IsRange(rule) then Noted(seen, rule.value.Expression()) else seen
  {
    assert (done + [p])[..|done|] == done;
    var rule, expressions := RuleAt(rules, p), Expressions(rules, done);
    if IsRange(rule) {
      assert (expressions + [rule.value.Expression()])[..|expressions|] == expressions;
    } else {
      assert expressions + [] == expressions;
    }
  }

  /** Columns left..end - 1 of a row. */
  ghost function RowPositions(row: nat, left: nat, end: nat): seq<Position>
    requires left <= end
  {
    if left == end then [] else RowPositions(row, left, end - 1) + [Position(row, end - 1)]
  }

  /** Rows top..end - 1 of a rectangle, row by row. */
  ghost function RowMajor(rect: Rect, end: nat): seq<Position>
    requires rect.Valid() && rect.top <= end
  {
    if rect.top == end then []
    else RowMajor(rect, end - 1) + RowPositions(end - 1, rect.left, rect.right + 1)
  }

  ghost function Positions(rect: Rect): seq<Position>
    requires rect.Valid()
  {
    RowMajor(rect, rect.bottom + 1)
  }

  method InspectNext(env: Provider, rules: Rules, p: Position, before: seq<Cell>, start: Ledger,
                     ghost done: seq<Position>)
    returns (cells: seq<Cell>, ledger: Ledger)
    requires Covers(env, rules, done, before, start)
    ensures Covers(env, rules, done + [p], cells, ledger)
  {
    var cell;
    cell, ledger := Inspect(env, rules, p, start, done);
    OneMoreCell(before, rules, done, start.sources, cell, p, ledger.sources);
    cells := before + [cell];
  }

  lemma OneMoreInRow(done: seq<Position>, row: nat, left: nat, c: nat)
    requires left <= c
    ensures done + RowPositions(row, left, c + 1) == done + RowPositions(row, left, c) + [Position(row, c)]
  {}

  method InspectRow(env: Provider, rules: Rules, row: nat, left: nat, right: nat,
                    before: seq<Cell>, start: Ledger, ghost done: seq<Position>)
    returns (cells: seq<Cell>, ledger: Ledger, ghost now: seq<Position>)
    requires left <= right && Covers(env, rules, done, before, start)
    ensures now == done + RowPositions(row, left, right + 1) && Covers(env, rules, now, cells, ledger)
  {
    cells, ledger, now := before, start, done;
    for c := left to right + 1
      invariant now == done + RowPositions(row, left, c)
      invariant Covers(env, rules, now, cells, ledger)
    {
      cells, ledger := InspectNext(env, rules, Position(row, c), cells, ledger, now);
      now := now + [Position(row, c)];
      OneMoreInRow(done, row, left, c);
    }
  }

  /** The rows before `r` are inspected. */
  ghost predicate UpToRow(env: Provider, rules: Rules, rect: Rect, r: nat, cells: seq<Cell>, ledger: Ledger) {
    rect.Valid() && rect.top <= r && Covers(env, rules, RowMajor(rect, r), cells, ledger)
  }

  lemma NothingInspected(env: Provider, rules: Rules, rect: Rect)
    requires rect.Valid()
    ensures UpToRow(env, rules, rect, rect.top, [], Ledger([], map[], None, env.maxCells))
  {}

  method InspectNextRow(env: Provider, rules: Rules, rect: Rect, r: nat, before: seq<Cell>, start: Ledger)
    returns (cells: seq<Cell>, ledger: Ledger)
    requires UpToRow(env, rules, rect, r, before, start)
    ensures UpToRow(env, rules, rect, r + 1, cells, ledger)
  {
    ghost var now;
    cells, ledger, now := InspectRow(env, rules, r, rect.left, rect.right, before, start, RowMajor(rect, r));
    assert now == RowMajor(rect, r + 1);
  }

  method InspectRect(env: Provider, rules: Rules, rect: Rect) returns (cells: seq<Cell>, ledger: Ledger)
    requires rect.Valid()
    ensures UpToRow(env, rules, rect, rect.bottom + 1, cells, ledger)
  {
    hide UpToRow;
    cells, ledger := [], Ledger([], map[], None, env.maxCells);
    NothingInspected(env, rules, rect);
    for r := rect.top to rect.bottom + 1
      invariant UpToRow(env, rules, rect, r, cells, ledger)
    {
      cells, ledger := InspectNextRow(env, rules, rect, r, cells, ledger);
    }
  }

  /** The provider's answer: the sheets that the range touched, each with its data. */
  datatype Target = Target(sheet: Sheet, blocks: seq<Block>)

  /** A block of grid data; positions count from 0, as the provider counts. */
  datatype Block = Block(startRow: nat, startColumn: nat, rows: seq<seq<Option<Rule>>>) {
    function At(p: Position): Option<Rule> {
      if startRow < p.row <= startRow + |rows| && startColumn < p.column <= startColumn + |rows[p.row - startRow - 1]|
      then rows[p.row - startRow - 1][p.column - startColumn - 1]
      else None
    }
  }

  /** The rule of a cell: that of the last block that has one. */
  function RuleIn(blocks: seq<Block>, p: Position): Option<Rule> {
    if blocks == [] then None
    else
      var last := blocks[|blocks| - 1].At(p);
      if last.Some? then last else RuleIn(blocks[..|blocks| - 1], p)
  }

  /** `rules` has what these blocks have, later blocks winning. */
  ghost predicate Collects(rules: Rules, blocks: seq<Block>) {
    forall p :: RuleAt(rules, p) == RuleIn(blocks, p)
  }

  /** Row `i` of a block, up to column `n`. */
  ghost predicate CollectsRow(before: Rules, rules: Rules, block: Block, i: nat, n: nat) {
    forall p: Position ::
      RuleAt(rules, p) ==
        if p.row == block.startRow + i + 1 && p.column <= block.startColumn + n && block.At(p).Some?
        then block.At(p) else RuleAt(before, p)
  }

  method CollectRow(before: Rules, block: Block, i: nat) returns (rules: Rules)
    requires i < |block.rows|
    ensures CollectsRow(before, rules, block, i, |block.rows[i]|)
  {
    rules := before;
    var row := block.rows[i];
    for n := 0 to |row|
      invariant CollectsRow(before, rules, block, i, n)
    {
      var p := Position(block.startRow + i + 1, block.startColumn + n + 1);
      if row[n].Some? {
        rules := rules[p := row[n].value];
      }
    }
  }

  /** The first `n` rows of a block. */
  ghost predicate CollectsRows(before: Rules, rules: Rules, block: Block, n: nat) {
    forall p: Position ::
      RuleAt(rules, p) ==
        if p.row <= block.startRow + n && block.At(p).Some? then block.At(p) else RuleAt(before, p)
  }

  method CollectBlock(before: Rules, block: Block) returns (rules: Rules)
    ensures CollectsRows(before, rules, block, |block.rows|)
  {
    rules := before;
    for i := 0 to |block.rows|
      invariant CollectsRows(before, rules, block, i)
    {
      rules := CollectRow(rules, block, i);
    }
  }

  method CollectRules(blocks: seq<Block>) returns (rules: Rules)
    ensures Collects(rules, blocks)
  {
    rules := map[];
    for i := 0 to |blocks|
      invariant Collects(rules, blocks[..i])
    {
      rules := CollectBlock(rules, blocks[i]);
      assert blocks[..i + 1][..i] == blocks[..i];
    }
    assert blocks[..|blocks|] == blocks;
  }

  datatype Report = Report(range: Rect, sheet: Sheet, cells: seq<Cell>, sources: seq<Source>)

  /** Why the target itself may be refused. */
  function TargetRect(env: Provider, range: Local, targets: seq<Target>): (r: Result<Rect, Code>)
    ensures r.Ok? ==> r.value.Valid() && r.value.CellCount() <= env.maxCells && |targets| == 1
  {
    match Bounded(range, env.maxCells)
    case Err(code) => Err(code)
    case Ok(rect) =>
      if |targets| != 1 then Err("validation_target_unresolved")
      else if !targets[0].sheet.Holds(rect) then Err(RangeInvalid)
      else Ok(rect)
  }

  /** The range is bounded, in order and within the budget. */
  predicate IsReadable(env: Provider, range: Local) {
    !IsOpen(range) && IsInOrder(range, 0, env.maxCells)
  }

  predicate IsOnGrid(range: Local, sheet: Sheet)
    requires !range.Unreadable?
  {
    LastRow(range, 0) <= sheet.rows && LastColumn(range) <= sheet.columns
  }

  /** The target is exactly the cells its range names, or refused for one of these reasons. */
  lemma TargetAnswer(env: Provider, range: Local, targets: seq<Target>)
    ensures match TargetRect(env, range, targets)
            case Ok(rect) =>
              && IsReadable(env, range) && |targets| == 1 && IsOnGrid(range, targets[0].sheet)
              && forall row, column :: rect.Contains(row, column) <==> Names(range, 0, row, column)
            case Err(code) =>
              if !IsReadable(env, range) then code == RangeInvalid
              else if |targets| != 1 then code == "validation_target_unresolved"
              else code == RangeInvalid && !IsOnGrid(range, targets[0].sheet)
  {
    hide Bounded, IsInOrder, FirstRow, FirstColumn;
    BoundedAnswer(range, 0, env.maxCells);
    if Bounded(range, env.maxCells).Ok? {
      BoundedCorners(range, env.maxCells);
    }
  }

  /**
    The whole inspection: one entry per cell of the rectangle, row by row, and
    one source per distinct expression, in the order they are first met.
  */
  method InspectCells(env: Provider, range: Local, targets: seq<Target>) returns (r: Result<Report, Code>)
    ensures r.Ok? == TargetRect(env, range, targets).Ok?
    ensures r.Err? ==> r == Err(TargetRect(env, range, targets).error)
    ensures match r
            case Ok(_) => IsReadable(env, range) && |targets| == 1 && IsOnGrid(range, targets[0].sheet)
            case Err(code) =>
              if !IsReadable(env, range) then code == RangeInvalid
              else if |targets| != 1 then code == "validation_target_unresolved"
              else code == RangeInvalid && !IsOnGrid(range, targets[0].sheet)
    ensures r.Ok? ==>
      var report, rect := r.value, TargetRect(env, range, targets).value;
      && report.range == rect && report.sheet == targets[0].sheet
      && (forall row, column :: rect.Contains(row, column) <==> Names(range, 0, row, column))
      && exists rules: Rules ::
           && Collects(rules, targets[0].blocks)
           && DescribeAll(report.cells, rules, Positions(rect), report.sources)
           && report.sources == env.Sources(FirstSeen(Expressions(rules, Positions(rect))))
  {
    TargetAnswer(env, range, targets);
    match TargetRect(env, range, targets)
    case Err(code) => r := Err(code);
    case Ok(rect) =>
      var rules := CollectRules(targets[0].blocks);
      var cells, ledger := InspectRect(env, rules, rect);
      r := Ok(Report(rect, targets[0].sheet, cells, ledger.sources));
  }

  /** Rows are laid out one after another. */
  lemma {:induction false} RowAt(row: nat, left: nat, end: nat, k: nat)
    requires left <= end
    ensures |RowPositions(row, left, end)| == end - left
    ensures k < end - left ==> RowPositions(row, left, end)[k] == Position(row, left + k)
  {
    if left < end {
      RowAt(row, left, end - 1, k);
      if k == end - 1 - left {
        RowAt(row, left, end - 1, 0);
      }
    }
  }

  lemma {:induction false} RowMajorAt(rect: Rect, end: nat, row: nat, column: nat)
    requires rect.Valid() && rect.top <= end
    ensures |RowMajor(rect, end)| == (end - rect.top) * rect.Width()
    ensures rect.Contains(row, column) && row < end ==>
      var k := (row - rect.top) * rect.Width() + column - rect.left;
      0 <= k < |RowMajor(rect, end)| && RowMajor(rect, end)[k] == Position(row, column)
  {
    if rect.top < end {
      RowMajorAt(rect, end - 1, row, column);
      var last := RowPositions(end - 1, rect.left, rect.right + 1);
      RowAt(end - 1, rect.left, rect.right + 1, if column < rect.left then 0 else column - rect.left);
      assert (end - rect.top) * rect.Width() == (end - 1 - rect.top) * rect.Width() + |last|;
    }
  }

  /** One entry per cell, in row-major order: cell (row, column) is entry number (row - top) * width + column - left. */
  lemma OneEntryPerCell(rect: Rect, row: nat, column: nat)
    requires rect.Valid() && rect.Contains(row, column)
    ensures var k := (row - rect.top) * rect.Width() + column - rect.left;
            && |Positions(rect)| == rect.CellCount()
            && 0 <= k < |Positions(rect)| && Positions(rect)[k] == Position(row, column)
  {
    RowMajorAt(rect, rect.bottom + 1, row, column);
  }

  /** How many cells these sources have been read over, or tried to. */
  ghost function CellsRead(sources: seq<Source>): nat
    requires forall s | s in sources :: s.outcome.Valid()
  {
    if sources == [] then 0
    else CellsRead(sources[..|sources| - 1]) + sources[|sources| - 1].outcome.Spent()
  }

  /** The shared budget: reads never exceed it, and never more than 50 sources are read. */
  lemma {:induction false} ReadsAreBounded(env: Provider, seen: seq<string>)
    ensures forall s | s in env.Sources(seen) :: s.outcome.Valid()
    ensures CellsRead(env.Sources(seen)) == env.maxCells - env.Remaining(seen) <= env.maxCells
    ensures forall k | 50 <= k < |seen| :: env.Sources(seen)[k].outcome.Refused?
  {
    if seen != [] {
      var earlier, all := seen[..|seen| - 1], env.Sources(seen);
      ReadsAreBounded(env, earlier);
      assert all[..|all| - 1] == env.Sources(earlier);
    }
  }

  /** The values a source resolves to are drawn from all its non-empty values, and from nothing else. */
  lemma {:induction false} InRow(row: seq<Value>, v: Value)
    ensures v in Row(row) <==> v in row && v != Null && v != Text("")
  {
    if row != [] {
      InRow(row[..|row| - 1], v);
      assert row == row[..|row| - 1] + [row[|row| - 1]];
    }
  }

  lemma {:induction false} InValues(rows: seq<seq<Value>>, v: Value)
    ensures v in Values(rows) <==> v != Null && v != Text("") && exists i :: 0 <= i < |rows| && v in rows[i]
  {
    if rows != [] {
      var n := |rows| - 1;
      InValues(rows[..n], v);
      InRow(rows[n], v);
      assert forall i | 0 <= i < n :: rows[..n][i] == rows[i];
    }
  }

  ghost predicate Distinct<T(!new)>(s: seq<T>) {
    forall i, j | 0 <= i < j < |s| :: s[i] != s[j]
  }

  /** `FirstSeen` keeps each element once, at its first place. */
  lemma {:induction false} FirstSeenIsDistinct<T(!new)>(s: seq<T>)
    ensures Distinct(FirstSeen(s))
    ensures forall x :: x in FirstSeen(s) <==> x in s
  {
    if s != [] {
      FirstSeenIsDistinct(s[..|s| - 1]);
      assert s == s[..|s| - 1] + [s[|s| - 1]];
    }
  }

  /** What is seen first comes first: an element new after `n` places is the next one kept. */
  lemma {:induction false} FirstSeenGrows<T(!new)>(s: seq<T>, n: nat)
    requires n <= |s|
    ensures FirstSeen(s[..n]) <= FirstSeen(s)
    ensures n < |s| && s[n] !in s[..n] ==> FirstSeen(s[..n]) + [s[n]] <= FirstSeen(s)
  {
    if n < |s| {
      var shorter := s[..|s| - 1];
      assert shorter[..n] == s[..n];
      assert n == |shorter| ==> s[..n] == shorter;
      FirstSeenIsDistinct(shorter);
      if n < |shorter| {
        FirstSeenGrows(shorter, n);
      }
    } else {
      assert s[..n] == s;
    }
  }

  /** Entry `i` is for the expression seen `i`-th. */
  lemma EntriesFollow(env: Provider, seen: seq<string>)
    ensures |env.Sources(seen)| == |seen|
    ensures forall i | 0 <= i < |seen| :: env.Sources(seen)[i].expression == seen[i]
  {
    forall i: nat | i < |seen|
      ensures env.Sources(seen)[i].expression == seen[i]
    {
      ExpressionsOfSources(env, seen, i);
    }
  }

  /** An expression that occurs has a source entry, and the place of that entry is unique. */
  lemma EntryOf(env: Provider, expressions: seq<string>, e: string) returns (i: nat)
    requires e in expressions
    ensures i < |env.Sources(FirstSeen(expressions))| && env.Sources(FirstSeen(expressions))[i].expression == e
  {
    hide Provider.Sources, FirstSeen;
    var seen := FirstSeen(expressions);
    FirstSeenIsDistinct(expressions);
    EntriesFollow(env, seen);
    i :| 0 <= i < |seen| && seen[i] == e;
  }

  /** A source entry is for an expression that occurs. */
  lemma EntryIsOf(env: Provider, expressions: seq<string>, i: nat)
    requires i < |env.Sources(FirstSeen(expressions))|
    ensures env.Sources(FirstSeen(expressions))[i].expression in expressions
  {
    hide Provider.Sources, FirstSeen;
    var seen := FirstSeen(expressions);
    FirstSeenIsDistinct(expressions);
    EntriesFollow(env, seen);
    assert seen[i] in seen;
  }

  lemma EntriesDiffer(env: Provider, expressions: seq<string>, i: nat, j: nat)
    requires i < j < |env.Sources(FirstSeen(expressions))|
    ensures env.Sources(FirstSeen(expressions))[i].expression != env.Sources(FirstSeen(expressions))[j].expression
  {
    hide Provider.Sources, FirstSeen;
    FirstSeenIsDistinct(expressions);
    EntriesFollow(env, FirstSeen(expressions));
  }

  /** Every distinct source expression has exactly one source entry. */
  lemma OneSourcePerExpression(env: Provider, rules: Rules, rect: Rect, e: string)
    requires rect.Valid()
    ensures var expressions := Expressions(rules, Positions(rect));
            var sources := env.Sources(FirstSeen(expressions));
            && (e in expressions <==> exists i :: 0 <= i < |sources| && sources[i].expression == e)
            && forall i, j | 0 <= i < j < |sources| :: sources[i].expression != sources[j].expression
  {
    hide Provider.Sources, FirstSeen, Expressions, Positions;
    var expressions := Expressions(rules, Positions(rect));
    var sources := env.Sources(FirstSeen(expressions));
    if e in expressions {
      var i := EntryOf(env, expressions, e);
    }
    forall i | 0 <= i < |sources|
      ensures sources[i].expression in expressions
    {
      EntryIsOf(env, expressions, i);
    }
    forall i, j | 0 <= i < j < |sources|
      ensures sources[i].expression != sources[j].expression
    {
      EntriesDiffer(env, expressions, i, j);
    }
  }

  predicate IsDigit(c: char) {
    '0' <= c <= '9'
  }

  /** What a decimal numeral says. */
  function Read(s: string): nat {
    if s == "" then 0
    else
      var c := s[|s| - 1];
      10 * Read(s[..|s| - 1]) + if IsDigit(c) then (c - '0') as nat else 0
  }

  lemma LastDigit(n: nat)
    ensures var s, last := Decimal(n), '0' + (n % 10) as char;
            && s == (if n < 10 then "" else Decimal(n / 10)) + [last]
            && IsDigit(last) && (last - '0') as nat == n % 10 && (n % 10 > 0 ==> last != '0')
  {}

  lemma ReadOneMore(front: string, c: char)
    requires IsDigit(c)
    ensures Read(front + [c]) == 10 * Read(front) + (c - '0') as nat
  {
    assert (front + [c])[..|front|] == front;
  }

  /** A row is written in decimal, without leading zeros. */
  lemma {:induction false} DecimalAnswer(n: nat)
    ensures Read(Decimal(n)) == n && Decimal(n) != "" && forall i | 0 <= i < |Decimal(n)| :: IsDigit(Decimal(n)[i])
    ensures n > 0 ==> Decimal(n)[0] != '0'
  {
    LastDigit(n);
    hide Decimal, Read, IsDigit;
    var front, last := if n < 10 then "" else Decimal(n / 10), '0' + (n % 10) as char;
    ReadOneMore(front, last);
    if n >= 10 {
      DecimalAnswer(n / 10);
      assert (front + [last])[0] == front[0];
    } else {
      ReadNothing();
    }
  }

  lemma ReadNothing()
    ensures Read("") == 0
  {}

  /** Different cells have different addresses. */
  lemma AddressIsUnique(p: Position, q: Position)
    requires CellAddress(p) == CellAddress(q)
    ensures p == q
  {
    var a, b := Name(p.column), Name(q.column);
    DecimalAnswer(p.row);
    DecimalAnswer(q.row);
    hide Decimal, Name;
    LettersThenDigits(a, Decimal(p.row), b, Decimal(q.row));
    LettersThenDigits(b, Decimal(q.row), a, Decimal(p.row));
    assert a == (a + Decimal(p.row))[..|a|] && b == (b + Decimal(q.row))[..|b|];
    assert Decimal(p.row) == (a + Decimal(p.row))[|a|..] && Decimal(q.row) == (b + Decimal(q.row))[|b|..];
    NumberOfName(p.column);
    NumberOfName(q.column);
  }

  lemma LettersThenDigits(a: string, x: string, b: string, y: string)
    requires IsUpper(a) && IsUpper(b) && a + x == b + y
    requires x != "" && (forall i | 0 <= i < |x| :: IsDigit(x[i])) && forall i | 0 <= i < |y| :: IsDigit(y[i])
    ensures |a| >= |b|
  {
    assert (a + x)[|a|] == x[0];
    assert forall k | 0 <= k < |b| :: (b + y)[k] == b[k] >= 'A';
  }
}
