/**
  What an admitted batch does to the spreadsheet, operation by operation, and why
  admission keeps a sheet and distinct titles (app/policies/workspace.py).
*/
module SheetBatch {
  import opened Wrappers
  import opened SheetRanges
  import opened SheetPolicy

  /** Sheets there were before the batch, and sheets the batch creates, by the number of the operation. */
  datatype SheetId = Original(id: nat) | Created(operation: nat)

  /** The titles of the sheets there are. */
  type Tabs = map<SheetId, string>

  function Before(c: Context): Tabs {
    map id | id in c.sheets :: Original(id) := c.sheets[id].title
  }

  function Target(c: Context, ref: Ref): SheetId
    requires ref in c.refs
  {
    Original(c.refs[ref])
  }

  /** One operation; on a sheet that an earlier operation deleted it does nothing. */
  function Performed(c: Context, tabs: Tabs, op: Operation, k: nat): Tabs
    requires !op.CreateSheet? ==> op.ref in c.refs
  {
    match op
    case CreateSheet(title) => tabs[Created(k) := title]
    case RenameSheet(ref, title) => if Target(c, ref) in tabs then tabs[Target(c, ref) := title] else tabs
    case DeleteSheet(ref) => tabs - {Target(c, ref)}
    case _ => tabs
  }

  ghost predicate Refers(c: Context, ops: seq<Operation>) {
    forall i | 0 <= i < |ops| :: !ops[i].CreateSheet? ==> ops[i].ref in c.refs
  }

  /** The sheets after these operations. */
  function After(c: Context, ops: seq<Operation>): Tabs
    requires Refers(c, ops)
  {
    if ops == [] then Before(c)
    else Performed(c, After(c, ops[..|ops| - 1]), ops[|ops| - 1], |ops| - 1)
  }

  lemma {:induction false} PlannedRefers(c: Context, ops: seq<Operation>)
    requires c.Valid() && IsPlanned(c, ops)
    ensures Refers(c, ops)
  {
    if ops != [] {
      PlannedRefers(c, ops[..|ops| - 1]);
      assert forall i | 0 <= i < |ops| - 1 :: ops[i] == ops[..|ops| - 1][i];
    }
  }

  // ---- at least one original sheet ----

  ghost function DeletedIds(c: Context, refs: set<Ref>): set<nat> {
    set r | r in refs && r in c.refs :: c.refs[r]
  }

  lemma {:induction false} FewerIdsThanRefs(c: Context, refs: set<Ref>)
    ensures |DeletedIds(c, refs)| <= |refs|
  {
    if refs != {} {
      var r :| r in refs;
      FewerIdsThanRefs(c, refs - {r});
      var rest, all := DeletedIds(c, refs - {r}), DeletedIds(c, refs);
      if r in c.refs {
        assert all == rest + {c.refs[r]};
      } else {
        assert all == rest;
      }
    }
  }

  ghost function TitlesOf(sheets: map<nat, Sheet>, ids: set<nat>): set<string> {
    set id | id in ids && id in sheets :: sheets[id].title
  }

  lemma {:induction false} FewerTitlesThanSheets(sheets: map<nat, Sheet>, ids: set<nat>)
    ensures |TitlesOf(sheets, ids)| <= |ids|
  {
    if ids != {} {
      var id :| id in ids;
      FewerTitlesThanSheets(sheets, ids - {id});
      var others, all := TitlesOf(sheets, ids - {id}), TitlesOf(sheets, ids);
      if id in sheets {
        assert all == others + {sheets[id].title};
      } else {
        assert all == others;
      }
    }
  }

  lemma SubsetIsSmaller(a: set<nat>, b: set<nat>)
    requires a <= b
    ensures |a| <= |b|
  {
    assert b == a + (b - a);
  }

  /** What is deleted is exactly what the references deleted so far name. */
  lemma {:induction false} OriginalsLeft(c: Context, ops: seq<Operation>, id: nat)
    requires c.Valid() && IsPlanned(c, ops) && Refers(c, ops)
    ensures Original(id) in After(c, ops) <==> id in c.sheets && id !in DeletedIds(c, Planned(c, ops).value.deleted)
  {
    if ops != [] {
      var earlier := ops[..|ops| - 1];
      PlannedRefers(c, earlier);
      OriginalsLeft(c, earlier, id);
    }
  }

  lemma {:induction false} DeletedFewerThanTitles(c: Context, ops: seq<Operation>)
    requires c.Valid() && IsPlanned(c, ops) && c.sheets != map[]
    ensures |Planned(c, ops).value.deleted| < |c.Titles()|
  {
    if ops != [] {
      DeletedFewerThanTitles(c, ops[..|ops| - 1]);
    } else {
      var id :| id in c.sheets;
      assert c.sheets[id].title in c.Titles();
    }
  }

  /** After every prefix of an accepted batch an original sheet is still there. */
  lemma KeepsAnOriginal(c: Context, ops: seq<Operation>) returns (id: nat)
    requires c.Valid() && IsPlanned(c, ops) && Refers(c, ops) && c.sheets != map[]
    ensures id in c.sheets && Original(id) in After(c, ops)
  {
    var gone := DeletedIds(c, Planned(c, ops).value.deleted);
    DeletedFewerThanTitles(c, ops);
    FewerIdsThanRefs(c, Planned(c, ops).value.deleted);
    FewerTitlesThanSheets(c.sheets, c.sheets.Keys);
    assert c.Titles() == TitlesOf(c.sheets, c.sheets.Keys);
    if c.sheets.Keys <= gone {
      SubsetIsSmaller(c.sheets.Keys, gone);
      assert false;
    }
    id :| id in c.sheets.Keys && id !in gone;
    OriginalsLeft(c, ops, id);
  }

  // ---- distinct titles ----

  ghost predicate Apart(fold: string -> string, tabs: Tabs, a: SheetId, b: SheetId) {
    a in tabs && b in tabs && a != b ==> fold(tabs[a]) != fold(tabs[b])
  }

  /** Titles differ even when case is ignored. */
  ghost predicate Distinct(fold: string -> string, tabs: Tabs) {
    forall a, b :: Apart(fold, tabs, a, b)
  }

  ghost predicate SameOrApart(fold: string -> string, titles: set<string>, s: string, t: string) {
    s in titles && t in titles && fold(s) == fold(t) ==> s == t
  }

  ghost predicate FoldsApart(fold: string -> string, titles: set<string>) {
    forall s, t :: SameOrApart(fold, titles, s, t)
  }

  /** The plan names every sheet there is. */
  ghost predicate Covers(titles: set<string>, tabs: Tabs) {
    forall id | id in tabs :: tabs[id] in titles
  }

  /** A rename that takes its sheet's first title away from another sheet. */
  ghost predicate Steals(c: Context, tabs: Tabs, op: Operation)
    requires c.Valid()
  {
    op.RenameSheet? && op.ref in c.refs &&
    exists id | id in tabs :: id != Target(c, op.ref) && tabs[id] == c.SheetOf(op.ref).title
  }

  /** Where the plan and the spreadsheet agree, and titles are distinct. */
  ghost predicate InStep(c: Context, titles: set<string>, tabs: Tabs) {
    FoldsApart(c.fold, titles) && Covers(titles, tabs) && Distinct(c.fold, tabs)
  }

  lemma NewTitleFoldsApart(c: Context, titles: set<string>, fewer: set<string>, title: string)
    requires FoldsApart(c.fold, titles) && fewer <= titles && !c.Clashes(fewer, title)
    ensures FoldsApart(c.fold, fewer + {title})
  {
    forall s, t
      ensures SameOrApart(c.fold, fewer + {title}, s, t)
    {
      assert SameOrApart(c.fold, titles, s, t);
    }
  }

  /** Giving `id` a title that clashes with no title the others have. */
  lemma NewTitleIsDistinct(c: Context, tabs: Tabs, others: set<string>, id: SheetId, title: string)
    requires Distinct(c.fold, tabs) && !c.Clashes(others, title)
    requires forall other | other in tabs && other != id :: tabs[other] in others
    ensures Distinct(c.fold, tabs[id := title])
  {
    var now := tabs[id := title];
    forall a, b
      ensures Apart(c.fold, now, a, b)
    {
      assert Apart(c.fold, tabs, a, b);
    }
  }

  lemma CreateStaysInStep(c: Context, titles: set<string>, tabs: Tabs, title: string, k: nat)
    requires InStep(c, titles, tabs) && !c.Clashes(titles, title)
    ensures InStep(c, titles + {title}, tabs[Created(k) := title])
  {
    NewTitleFoldsApart(c, titles, titles, title);
    NewTitleIsDistinct(c, tabs, titles, Created(k), title);
  }

  lemma RenameStaysInStep(c: Context, titles: set<string>, tabs: Tabs, ref: Ref, title: string)
    requires c.Valid() && InStep(c, titles, tabs) && ref in c.refs && !Steals(c, tabs, RenameSheet(ref, title))
    requires !c.Clashes(titles - {c.SheetOf(ref).title}, title)
    ensures var others, id := titles - {c.SheetOf(ref).title}, Target(c, ref);
            InStep(c, others + {title}, if id in tabs then tabs[id := title] else tabs)
  {
    var others, id := titles - {c.SheetOf(ref).title}, Target(c, ref);
    NewTitleFoldsApart(c, titles, others, title);
    NewTitleIsDistinct(c, tabs, others, id, title);
  }

  lemma DeleteStaysInStep(c: Context, titles: set<string>, tabs: Tabs, id: SheetId)
    requires InStep(c, titles, tabs)
    ensures InStep(c, titles, tabs - {id})
  {
    forall a, b
      ensures Apart(c.fold, tabs - {id}, a, b)
    {
      assert Apart(c.fold, tabs, a, b);
    }
  }

  /** No rename so far has stolen a title. */
  ghost predicate NoneSteal(c: Context, ops: seq<Operation>)
    requires c.Valid() && Refers(c, ops)
  {
    ops == [] ||
    (var earlier := ops[..|ops| - 1];
     NoneSteal(c, earlier) && !Steals(c, After(c, earlier), ops[|ops| - 1]))
  }

  lemma StepStaysInStep(c: Context, plan: Plan, tabs: Tabs, op: Operation, k: nat)
    requires c.Valid() && InStep(c, plan.titles, tabs) && (!op.CreateSheet? ==> op.ref in c.refs)
    requires Check(c, plan, op).Ok? && !Steals(c, tabs, op)
    ensures InStep(c, Check(c, plan, op).value.titles, Performed(c, tabs, op, k))
  {
    match op
    case CreateSheet(title) => CreateStaysInStep(c, plan.titles, tabs, title, k);
    case RenameSheet(ref, title) => RenameStaysInStep(c, plan.titles, tabs, ref, title);
    case DeleteSheet(ref) => DeleteStaysInStep(c, plan.titles, tabs, Target(c, ref));
    case _ =>
  }

  /** As long as no rename steals a title, plan and spreadsheet stay in step. */
  lemma LastStep(c: Context, ops: seq<Operation>)
    returns (earlier: seq<Operation>, plan: Plan, tabs: Tabs, op: Operation)
    requires c.Valid() && ops != [] && IsPlanned(c, ops) && Refers(c, ops) && NoneSteal(c, ops)
    ensures |earlier| < |ops| && Refers(c, earlier) && NoneSteal(c, earlier)
    ensures Planned(c, earlier) == Ok(plan) && After(c, earlier) == tabs
    ensures (!op.CreateSheet? ==> op.ref in c.refs) && !Steals(c, tabs, op)
    ensures Planned(c, ops) == Check(c, plan, op) && After(c, ops) == Performed(c, tabs, op, |earlier|)
  {
    earlier, op := ops[..|ops| - 1], ops[|ops| - 1];
    plan, tabs := Planned(c, earlier).value, After(c, earlier);
  }

  lemma {:induction false} PlanStaysInStep(c: Context, ops: seq<Operation>)
    requires c.Valid() && IsPlanned(c, ops) && Refers(c, ops) && Distinct(c.fold, Before(c)) && NoneSteal(c, ops)
    ensures InStep(c, Planned(c, ops).value.titles, After(c, ops))
    decreases |ops|
  {
    if ops == [] {
      BeforeInStep(c);
    } else {
      var earlier, plan, tabs, op := LastStep(c, ops);
      PlanStaysInStep(c, earlier);
      StepStaysInStep(c, plan, tabs, op, |earlier|);
    }
  }

  lemma BeforeInStep(c: Context)
    requires Distinct(c.fold, Before(c))
    ensures InStep(c, c.Titles(), Before(c))
  {
    forall s, t
      ensures SameOrApart(c.fold, c.Titles(), s, t)
    {
      if s in c.Titles() && t in c.Titles() && c.fold(s) == c.fold(t) {
        var a :| a in c.sheets && c.sheets[a].title == s;
        var b :| b in c.sheets && c.sheets[b].title == t;
        assert Before(c)[Original(a)] == s && Before(c)[Original(b)] == t;
        assert Apart(c.fold, Before(c), Original(a), Original(b));
      }
    }
  }

  /** How often sheet `id` is renamed. */
  ghost function Renames(c: Context, ops: seq<Operation>, id: nat): nat
    requires Refers(c, ops)
  {
    if ops == [] then 0
    else
      var op := ops[|ops| - 1];
      Renames(c, ops[..|ops| - 1], id) + if op.RenameSheet? && c.refs[op.ref] == id then 1 else 0
  }

  /** Until a sheet is renamed its title stays planned, and nobody else has it. */
  ghost predicate Reserved(c: Context, titles: set<string>, tabs: Tabs, id: nat)
    requires id in c.sheets
  {
    var title := c.sheets[id].title;
    && title in titles
    && (Original(id) in tabs ==> tabs[Original(id)] == title)
    && forall other | other in tabs && other != Original(id) :: tabs[other] != title
  }

  lemma StepKeepsReserved(c: Context, plan: Plan, tabs: Tabs, op: Operation, k: nat, id: nat)
    requires c.Valid() && id in c.sheets && Reserved(c, plan.titles, tabs, id)
    requires Distinct(c.fold, Before(c))
    requires (!op.CreateSheet? ==> op.ref in c.refs) && Check(c, plan, op).Ok?
    requires !(op.RenameSheet? && c.refs[op.ref] == id)
    ensures Reserved(c, Check(c, plan, op).value.titles, Performed(c, tabs, op, k), id)
  {
    match op
    case RenameSheet(ref, title) =>
      assert Apart(c.fold, Before(c), Original(id), Target(c, ref));
    case _ =>
  }

  lemma {:induction false} ReservedUntilRenamed(c: Context, ops: seq<Operation>, id: nat)
    requires c.Valid() && IsPlanned(c, ops) && Refers(c, ops) && Distinct(c.fold, Before(c))
    requires id in c.sheets && Renames(c, ops, id) == 0
    ensures Reserved(c, Planned(c, ops).value.titles, After(c, ops), id)
  {
    if ops == [] {
      forall other | other in Before(c) && other != Original(id)
        ensures Before(c)[other] != c.sheets[id].title
      {
        assert Apart(c.fold, Before(c), other, Original(id));
      }
    } else {
      var earlier := ops[..|ops| - 1];
      ReservedUntilRenamed(c, earlier, id);
      StepKeepsReserved(c, Planned(c, earlier).value, After(c, earlier), ops[|ops| - 1], |ops| - 1, id);
    }
  }

  ghost predicate RenamedOnceAtMost(c: Context, ops: seq<Operation>)
    requires c.Valid() && Refers(c, ops)
  {
    forall id | id in c.sheets :: Renames(c, ops, id) <= 1
  }

  /** A sheet's first rename cannot steal. */
  lemma {:induction false} FirstRenamesDoNotSteal(c: Context, ops: seq<Operation>)
    requires c.Valid() && IsPlanned(c, ops) && Refers(c, ops) && Distinct(c.fold, Before(c))
    requires RenamedOnceAtMost(c, ops)
    ensures NoneSteal(c, ops)
  {
    if ops != [] {
      var earlier, op := ops[..|ops| - 1], ops[|ops| - 1];
      assert forall id | id in c.sheets :: Renames(c, earlier, id) <= Renames(c, ops, id);
      FirstRenamesDoNotSteal(c, earlier);
      if op.RenameSheet? {
        ReservedUntilRenamed(c, earlier, c.refs[op.ref]);
      }
    }
  }

  /** Titles distinct at the start stay distinct after every prefix if each sheet is renamed at most once. */
  lemma TitlesStayDistinct(c: Context, ops: seq<Operation>, n: nat)
    requires c.Valid() && IsPlanned(c, ops) && Refers(c, ops) && Distinct(c.fold, Before(c))
    requires RenamedOnceAtMost(c, ops)
    requires n <= |ops|
    ensures Distinct(c.fold, After(c, ops[..n]))
  {
    FirstRenamesDoNotSteal(c, ops);
    NoStealingBefore(c, ops, n);
    PrefixIsPlanned(c, ops, n);
    PlanStaysInStep(c, ops[..n]);
  }

  lemma {:induction false} NoStealingBefore(c: Context, ops: seq<Operation>, n: nat)
    requires c.Valid() && Refers(c, ops) && NoneSteal(c, ops) && n <= |ops|
    ensures NoneSteal(c, ops[..n])
    decreases |ops|
  {
    if n < |ops| {
      NoStealingBefore(c, ops[..|ops| - 1], n);
      assert ops[..|ops| - 1][..n] == ops[..n];
    } else {
      assert ops[..n] == ops;
    }
  }

  /** Exactly stealing puts plan and spreadsheet out of step. */
  lemma OutOfStepIffStealing(c: Context, plan: Plan, tabs: Tabs, op: Operation, k: nat)
    requires c.Valid() && InStep(c, plan.titles, tabs) && op.RenameSheet? && op.ref in c.refs
    requires Check(c, plan, op).Ok? && Target(c, op.ref) in tabs
    ensures InStep(c, Check(c, plan, op).value.titles, Performed(c, tabs, op, k)) <==> !Steals(c, tabs, op)
  {
    if Steals(c, tabs, op) {
      var id :| id in tabs && id != Target(c, op.ref) && tabs[id] == c.SheetOf(op.ref).title;
      var now := Performed(c, tabs, op, k);
      assert now[id] == tabs[id];
      if op.title == tabs[id] {
        assert !Apart(c.fold, now, id, Target(c, op.ref));
      }
    } else {
      RenameStaysInStep(c, plan.titles, tabs, op.ref, op.title);
    }
  }

  /**
    ... and then two sheets share a title at once, or after one more operation
    that the policy lets through: creating a sheet with the stolen title.
  */
  lemma StealingLetsTitlesClash(c: Context, plan: Plan, tabs: Tabs, op: Operation, k: nat)
    requires c.Valid() && InStep(c, plan.titles, tabs) && op.RenameSheet? && op.ref in c.refs
    requires Check(c, plan, op).Ok? && Target(c, op.ref) in tabs && Steals(c, tabs, op)
    requires forall i | i >= k :: Created(i) !in tabs
    ensures var planned, now, again :=
            Check(c, plan, op).value, Performed(c, tabs, op, k), CreateSheet(c.SheetOf(op.ref).title);
            || !Distinct(c.fold, now)
            || (Check(c, planned, again).Ok? && !Distinct(c.fold, Performed(c, now, again, k + 1)))
  {
    var stolen := c.SheetOf(op.ref).title;
    var id :| id in tabs && id != Target(c, op.ref) && tabs[id] == stolen;
    var now := Performed(c, tabs, op, k);
    var planned, again := Check(c, plan, op).value, Performed(c, now, CreateSheet(stolen), k + 1);
    if c.fold(op.title) == c.fold(stolen) {
      assert !Apart(c.fold, now, id, Target(c, op.ref));
    } else {
      assert !Apart(c.fold, again, id, Created(k + 1));
      forall t | t in planned.titles
        ensures c.fold(t) != c.fold(stolen)
      {
        assert SameOrApart(c.fold, plan.titles, t, stolen);
      }
    }
  }

  /** One sheet called A, and a casefold that knows A and a. */
  function OneSheet(): (c: Context)
    ensures c.Valid()
  {
    Context(map[7 := Sheet(7, "A", 100, 20)], map["ref" := 7], 1000, (s: string) => if s == "A" then "a" else s)
  }

  lemma OneMore(c: Context, ops: seq<Operation>, op: Operation)
    requires c.Valid() && Refers(c, ops) && (!op.CreateSheet? ==> op.ref in c.refs)
    ensures Refers(c, ops + [op])
    ensures After(c, ops + [op]) == Performed(c, After(c, ops), op, |ops|)
    ensures IsPlanned(c, ops) ==> Planned(c, ops + [op]) == Check(c, Planned(c, ops).value, op)
  {
    assert (ops + [op])[..|ops|] == ops;
  }

  lemma RenameFirst(c: Context, rename: Operation)
    requires c == OneSheet() && rename == RenameSheet("ref", "B")
    ensures Refers(c, [rename]) && Planned(c, [rename]) == Ok(Plan({"B"}, {}, 0, 1))
    ensures After(c, [rename]) == map[Original(7) := "B"]
  {
    var none: seq<Operation> := [];
    assert [rename] == none + [rename];
    assert c.refs["ref"] == 7 && c.sheets[7].title == "A";
    assert c.SheetOf("ref").title == "A";
    assert c.Titles() == {"A"};
    OneMore(c, none, rename);
    assert {"A"} - {"A"} + {"B"} == {"B"};
    assert Before(c) == map[Original(7) := "A"];
  }

  /** Rename A to B, then create another A: the policy's account is right so far. */
  lemma RenameThenCreate(c: Context, ops: seq<Operation>)
    requires c == OneSheet() && ops == [RenameSheet("ref", "B"), CreateSheet("A")]
    ensures Refers(c, ops) && Planned(c, ops) == Ok(Plan({"B", "A"}, {}, 0, 2))
    ensures After(c, ops) == map[Original(7) := "B", Created(1) := "A"]
  {
    var rename, create := RenameSheet("ref", "B"), CreateSheet("A");
    RenameFirst(c, rename);
    assert ops == [rename] + [create];
    OneMore(c, [rename], create);
    assert {"B"} + {"A"} == {"B", "A"};
  }

  /** The second rename gives up A, which the policy no longer takes to be in use. */
  lemma RenameAgain(c: Context, ops: seq<Operation>)
    requires c == OneSheet() && ops == [RenameSheet("ref", "B"), CreateSheet("A"), RenameSheet("ref", "a")]
    ensures Refers(c, ops) && Planned(c, ops) == Ok(Plan({"B", "a"}, {}, 0, 3))
    ensures After(c, ops) == map[Original(7) := "a", Created(1) := "A"]
  {
    var first, last := [RenameSheet("ref", "B"), CreateSheet("A")], RenameSheet("ref", "a");
    RenameThenCreate(c, first);
    assert ops == first + [last];
    OneMore(c, first, last);
    assert c.refs["ref"] == 7 && c.SheetOf("ref").title == "A";
    assert {"B", "A"} - {"A"} == {"B"} && {"B"} + {"a"} == {"B", "a"};
    assert After(c, first)[Original(7) := "a"] == map[Original(7) := "a", Created(1) := "A"];
  }

  /** Renaming the same sheet twice can end with titles that differ in case only. */
  lemma RenamedTwiceCanClash()
    ensures var c, ops := OneSheet(), [RenameSheet("ref", "B"), CreateSheet("A"), RenameSheet("ref", "a")];
            && Distinct(c.fold, Before(c)) && Refers(c, ops) && Admits(c, ops)
            && !Distinct(c.fold, After(c, ops))
  {
    var c, ops := OneSheet(), [RenameSheet("ref", "B"), CreateSheet("A"), RenameSheet("ref", "a")];
    forall a, b
      ensures Apart(c.fold, Before(c), a, b)
    {}
    RenameAgain(c, ops);
    hide Planned, After;
    assert !Apart(c.fold, After(c, ops), Original(7), Created(1));
  }

  // ---- which sheet a values call reaches ----

  /** The title sheet `id` goes by: that of its last rename, or its first. */
  ghost function TitleNow(c: Context, ops: seq<Operation>, id: nat): string
    requires c.Valid() && Refers(c, ops) && id in c.sheets
  {
    if ops == [] then c.sheets[id].title
    else
      var op := ops[|ops| - 1];
      if op.RenameSheet? && c.refs[op.ref] == id then op.title else TitleNow(c, ops[..|ops| - 1], id)
  }

  lemma {:induction false} LiveSheetHasTitle(c: Context, ops: seq<Operation>, id: nat)
    requires c.Valid() && Refers(c, ops) && id in c.sheets && Original(id) in After(c, ops)
    ensures After(c, ops)[Original(id)] == TitleNow(c, ops, id)
  {
    if ops != [] {
      LiveSheetHasTitle(c, ops[..|ops| - 1], id);
    }
  }

  lemma {:induction false} NeverRenamedKeepsTitle(c: Context, ops: seq<Operation>, id: nat)
    requires c.Valid() && Refers(c, ops) && id in c.sheets && Renames(c, ops, id) == 0
    ensures TitleNow(c, ops, id) == c.sheets[id].title
  {
    if ops != [] {
      NeverRenamedKeepsTitle(c, ops[..|ops| - 1], id);
    }
  }

  /** A values call names its sheet by the title it had before the batch; the provider looks that title up. */
  ghost predicate Reaches(c: Context, tabs: Tabs, ref: Ref, id: SheetId)
    requires c.Valid() && ref in c.refs
  {
    id in tabs && tabs[id] == c.SheetOf(ref).title
  }

  /**
    After `ops`, a values call reaches the sheet its reference names exactly when
    that sheet is still there under its first title, and then it reaches no other.
  */
  lemma ValuesCallReaches(c: Context, ops: seq<Operation>, ref: Ref)
    requires c.Valid() && Refers(c, ops) && Distinct(c.fold, After(c, ops)) && ref in c.refs
    ensures Reaches(c, After(c, ops), ref, Target(c, ref))
       <==> Target(c, ref) in After(c, ops) && TitleNow(c, ops, c.refs[ref]) == c.SheetOf(ref).title
    ensures Reaches(c, After(c, ops), ref, Target(c, ref)) ==>
              forall id | Reaches(c, After(c, ops), ref, id) :: id == Target(c, ref)
  {
    if Target(c, ref) in After(c, ops) {
      LiveSheetHasTitle(c, ops, c.refs[ref]);
      forall id | Reaches(c, After(c, ops), ref, id) && Reaches(c, After(c, ops), ref, Target(c, ref))
        ensures id == Target(c, ref)
      {
        assert Apart(c.fold, After(c, ops), id, Target(c, ref));
      }
    }
  }

  /**
    After `done`, a values call for `ref` reaches the sheet that `ref` names
    exactly if that sheet was not deleted and bears its first title, and then no other.
  */
  ghost predicate ReachesExactly(c: Context, done: seq<Operation>, ref: Ref)
    requires c.Valid() && Refers(c, done) && IsPlanned(c, done) && ref in c.refs
  {
    var tabs, sheet := After(c, done), c.refs[ref];
    && (Reaches(c, tabs, ref, Original(sheet)) <==>
          && sheet !in DeletedIds(c, Planned(c, done).value.deleted)
          && TitleNow(c, done, sheet) == c.sheets[sheet].title)
    && (Reaches(c, tabs, ref, Original(sheet)) ==> forall id | Reaches(c, tabs, ref, id) :: id == Original(sheet))
  }

  lemma ValuesReachExactly(c: Context, ops: seq<Operation>, n: nat, ref: Ref)
    requires c.Valid() && IsPlanned(c, ops) && Refers(c, ops) && Distinct(c.fold, Before(c))
    requires RenamedOnceAtMost(c, ops)
    requires n <= |ops| && ref in c.refs
    ensures Refers(c, ops[..n]) && IsPlanned(c, ops[..n]) && ReachesExactly(c, ops[..n], ref)
  {
    hide After, Distinct, Reaches, RenamedOnceAtMost, TitleNow, DeletedIds;
    TitlesStayDistinct(c, ops, n);
    PrefixIsPlanned(c, ops, n);
    PlannedRefers(c, ops[..n]);
    ValuesCallReaches(c, ops[..n], ref);
    OriginalsLeft(c, ops[..n], c.refs[ref]);
  }

  /** Values for a renamed sheet can end up on a new sheet. */
  lemma ValuesCanGoAstray()
    ensures var c, ops := OneSheet(), [RenameSheet("ref", "B"), CreateSheet("A")];
            && Refers(c, ops) && Admits(c, ops) && RenamedOnceAtMost(c, ops)
            && Reaches(c, After(c, ops), "ref", Created(1)) && !Reaches(c, After(c, ops), "ref", Target(c, "ref"))
  {
    var c, ops := OneSheet(), [RenameSheet("ref", "B"), CreateSheet("A")];
    RenameThenCreate(c, ops);
    assert ops[..1] == [RenameSheet("ref", "B")] && ops[..1][..0] == [];
    assert Renames(c, ops[..1], 7) == 1;
  }
}
