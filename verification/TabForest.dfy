/**
  The tabs of a Google Doc: the tree the provider keeps, the list the gateway
  inspects (app/adapters/google_workspace/docs.py, `_one_tab_structures`), and
  what the tab requests do to both.
*/
module TabForest {
  import opened Wrappers

  type Id = nat

  /** A list of sibling tabs, each with its child tabs. */
  datatype Forest = Empty | Tab(id: Id, title: string, children: Forest, rest: Forest)

  /** One inspected tab. */
  datatype Entry = Entry(id: Id, title: string, parent: Option<Id>)

  /** Depth first, parents before children. */
  function Entries(f: Forest, parent: Option<Id>): seq<Entry> {
    match f
    case Empty => []
    case Tab(id, title, children, rest) =>
      [Entry(id, title, parent)] + Entries(children, Some(id)) + Entries(rest, parent)
  }

  function Tabs(f: Forest): seq<Entry> {
    Entries(f, None)
  }

  predicate Has(f: Forest, id: Id) {
    f.Tab? && (f.id == id || Has(f.children, id) || Has(f.rest, id))
  }

  /** A number no tab has. */
  function FreshId(f: Forest): Id {
    match f
    case Empty => 0
    case Tab(id, _, children, rest) =>
      var least := if FreshId(children) > FreshId(rest) then FreshId(children) else FreshId(rest);
      if id >= least then id + 1 else least
  }

  // ---- what the provider does ----

  datatype Request =
    | Add(title: string, index: Option<nat>, under: Option<Id>)
    | Rename(id: Id, title: string)
    | Delete(id: Id)

  /** Put a tab among siblings, at `index` or at the end. */
  function Insert(f: Forest, index: Option<nat>, id: Id, title: string): Forest {
    if f.Empty? || index == Some(0) then Tab(id, title, Empty, f)
    else
      var next := if index.Some? then Some(index.value - 1) else None;
      f.(rest := Insert(f.rest, next, id, title))
  }

  function InsertUnder(f: Forest, parent: Id, index: Option<nat>, id: Id, title: string): Forest {
    match f
    case Empty => Empty
    case Tab(here, _, children, rest) =>
      if here == parent then f.(children := Insert(children, index, id, title))
      else if Has(children, parent) then f.(children := InsertUnder(children, parent, index, id, title))
      else f.(rest := InsertUnder(rest, parent, index, id, title))
  }

  function Renamed(f: Forest, id: Id, title: string): Forest {
    match f
    case Empty => Empty
    case Tab(here, was, children, rest) =>
      Tab(here, if here == id then title else was, Renamed(children, id, title), Renamed(rest, id, title))
  }

  /** A tab goes together with its child tabs. */
  function Deleted(f: Forest, id: Id): Forest {
    match f
    case Empty => Empty
    case Tab(here, title, children, rest) =>
      if here == id then Deleted(rest, id) else Tab(here, title, Deleted(children, id), Deleted(rest, id))
  }

  /** One request; it is refused when the tab it names is not there. */
  function Edited(f: Forest, r: Request): Option<Forest> {
    match r
    case Add(title, index, None) => Some(Insert(f, index, FreshId(f), title))
    case Add(title, index, Some(parent)) =>
      if Has(f, parent) then Some(InsertUnder(f, parent, index, FreshId(f), title)) else None
    case Rename(id, title) => if Has(f, id) then Some(Renamed(f, id, title)) else None
    case Delete(id) => if Has(f, id) then Some(Deleted(f, id)) else None
  }

  // ---- the same, on the inspected list ----

  predicate Listed(entries: seq<Entry>, id: Id) {
    exists i :: 0 <= i < |entries| && entries[i].id == id
  }

  lemma {:induction false} HasIsListed(f: Forest, parent: Option<Id>, id: Id)
    ensures Has(f, id) <==> Listed(Entries(f, parent), id)
  {
    if f.Tab? {
      HasIsListed(f.children, Some(f.id), id);
      HasIsListed(f.rest, parent, id);
      var first, a, b := [Entry(f.id, f.title, parent)], Entries(f.children, Some(f.id)), Entries(f.rest, parent);
      ListedInThree(first, a, b, id);
      assert first[0].id == f.id;
    }
  }

  lemma ListedInThree(a: seq<Entry>, b: seq<Entry>, c: seq<Entry>, id: Id)
    ensures Listed(a + b + c, id) <==> Listed(a, id) || Listed(b, id) || Listed(c, id)
  {
    var all := a + b + c;
    forall i | 0 <= i < |a|
      ensures all[i] == a[i]
    {}
    forall i | 0 <= i < |b|
      ensures all[|a| + i] == b[i]
    {}
    forall i | 0 <= i < |c|
      ensures all[|a| + |b| + i] == c[i]
    {}
  }

  lemma {:induction false} FreshIsNew(f: Forest, id: Id)
    requires Has(f, id)
    ensures id < FreshId(f)
  {
    if f.id != id {
      if Has(f.children, id) {
        FreshIsNew(f.children, id);
      } else {
        FreshIsNew(f.rest, id);
      }
    }
  }

  /** `after` is `before` with one entry more. */
  ghost predicate OneMore(before: seq<Entry>, after: seq<Entry>, e: Entry, at: nat) {
    at <= |before| && after == before[..at] + [e] + before[at..]
  }

  lemma OneMoreInside(x: seq<Entry>, before: seq<Entry>, y: seq<Entry>, after: seq<Entry>, e: Entry, at: nat)
    requires OneMore(before, after, e, at)
    ensures OneMore(x + before + y, x + after + y, e, |x| + at)
  {
    var all := x + before + y;
    assert all[..|x| + at] == x + before[..at] && all[|x| + at..] == before[at..] + y;
  }

  lemma {:induction false} InsertAddsOne(f: Forest, parent: Option<Id>, index: Option<nat>, id: Id, title: string)
    returns (at: nat)
    ensures OneMore(Entries(f, parent), Entries(Insert(f, index, id, title), parent), Entry(id, title, parent), at)
    decreases f
  {
    if f.Empty? || index == Some(0) {
      at := 0;
      var all := Entries(f, parent);
      assert all[..0] == [] && all[0..] == all;
      assert [Entry(id, title, parent)] + Entries(Empty, Some(id)) == [Entry(id, title, parent)];
    } else {
      var next := if index.Some? then Some(index.value - 1) else None;
      var k := InsertAddsOne(f.rest, parent, next, id, title);
      var x := [Entry(f.id, f.title, parent)] + Entries(f.children, Some(f.id));
      OneMoreInside(x, Entries(f.rest, parent), [], Entries(Insert(f.rest, next, id, title), parent),
                    Entry(id, title, parent), k);
      at := |x| + k;
      WithoutTail(x, Entries(f.rest, parent));
      WithoutTail(x, Entries(Insert(f.rest, next, id, title), parent));
    }
  }

  lemma WithoutTail(x: seq<Entry>, y: seq<Entry>)
    ensures x + y + [] == x + y
  {}

  lemma {:induction false} InsertUnderAddsOne(f: Forest, parent: Option<Id>, under: Id, index: Option<nat>, id: Id,
                                              title: string)
    returns (at: nat)
    requires Has(f, under)
    ensures OneMore(Entries(f, parent), Entries(InsertUnder(f, under, index, id, title), parent),
                    Entry(id, title, Some(under)), at)
    decreases f
  {
    hide OneMore;
    var first, e := [Entry(f.id, f.title, parent)], Entry(id, title, Some(under));
    var children, rest := Entries(f.children, Some(f.id)), Entries(f.rest, parent);
    if f.id == under {
      var k := InsertAddsOne(f.children, Some(f.id), index, id, title);
      OneMoreInside(first, children, rest, Entries(Insert(f.children, index, id, title), Some(f.id)), e, k);
      at := 1 + k;
    } else if Has(f.children, under) {
      var k := InsertUnderAddsOne(f.children, Some(f.id), under, index, id, title);
      OneMoreInside(first, children, rest, Entries(InsertUnder(f.children, under, index, id, title), Some(f.id)), e, k);
      at := 1 + k;
    } else {
      var k := InsertUnderAddsOne(f.rest, parent, under, index, id, title);
      var now := Entries(InsertUnder(f.rest, under, index, id, title), parent);
      OneMoreInside(first + children, rest, [], now, e, k);
      WithoutTail(first + children, rest);
      WithoutTail(first + children, now);
      at := 1 + |children| + k;
    }
  }

  /** Only the title of `id` changes. */
  function WithTitle(entries: seq<Entry>, id: Id, title: string): (r: seq<Entry>)
    ensures |r| == |entries|
    ensures forall i | 0 <= i < |r| :: r[i] == if entries[i].id == id then entries[i].(title := title) else entries[i]
  {
    seq(|entries|, i requires 0 <= i < |entries| =>
      if entries[i].id == id then entries[i].(title := title) else entries[i])
  }

  lemma {:induction false} RenameChangesOneTitle(f: Forest, parent: Option<Id>, id: Id, title: string)
    ensures Entries(Renamed(f, id, title), parent) == WithTitle(Entries(f, parent), id, title)
  {
    if f.Tab? {
      RenameChangesOneTitle(f.children, Some(f.id), id, title);
      RenameChangesOneTitle(f.rest, parent, id, title);
      WithTitleOfThree([Entry(f.id, f.title, parent)], Entries(f.children, Some(f.id)), Entries(f.rest, parent), id,
                       title);
    }
  }

  lemma WithTitleOfThree(a: seq<Entry>, b: seq<Entry>, c: seq<Entry>, id: Id, title: string)
    ensures WithTitle(a + b + c, id, title) ==
              WithTitle(a, id, title) + WithTitle(b, id, title) + WithTitle(c, id, title)
  {}

  /** The entries without those of `id`. */
  function Without(entries: seq<Entry>, id: Id): seq<Entry> {
    if entries == [] then []
    else
      var n := |entries| - 1;
      Without(entries[..n], id) + if entries[n].id == id then [] else [entries[n]]
  }

  lemma WithoutOneMore(entries: seq<Entry>, e: Entry, id: Id)
    ensures Without(entries + [e], id) == Without(entries, id) + if e.id == id then [] else [e]
  {
    assert (entries + [e])[..|entries|] == entries;
  }

  lemma Associates(a: seq<Entry>, b: seq<Entry>, c: seq<Entry>)
    ensures a + (b + c) == (a + b) + c
  {}

  lemma {:induction false} WithoutOfConcat(a: seq<Entry>, b: seq<Entry>, id: Id)
    ensures Without(a + b, id) == Without(a, id) + Without(b, id)
    decreases |b|
  {
    hide Without;
    if b == [] {
      assert a + b == a;
      WithoutNothing(id);
    } else {
      var front, last := b[..|b| - 1], b[|b| - 1];
      assert b == front + [last];
      WithoutOfConcat(a, front, id);
      WithoutOneMore(a + front, last, id);
      WithoutOneMore(front, last, id);
      Associates(a, front, [last]);
      Associates(Without(a, id), Without(front, id), if last.id == id then [] else [last]);
    }
  }

  lemma WithoutNothing(id: Id)
    ensures Without([], id) == []
  {}

  predicate IsChildless(entries: seq<Entry>, id: Id) {
    forall i | 0 <= i < |entries| :: entries[i].parent != Some(id)
  }

  /** Deleting a tab without children takes away its entry and nothing else. */
  lemma {:induction false} ChildlessGoesAlone(f: Forest, parent: Option<Id>, id: Id)
    requires IsChildless(Entries(f, parent), id)
    ensures Entries(Deleted(f, id), parent) == Without(Entries(f, parent), id)
  {
    if f.Tab? {
      var first, a, b := [Entry(f.id, f.title, parent)], Entries(f.children, Some(f.id)), Entries(f.rest, parent);
      ChildlessParts(first, a, b, id);
      ChildlessGoesAlone(f.children, Some(f.id), id);
      ChildlessGoesAlone(f.rest, parent, id);
      WithoutOfConcat(first + a, b, id);
      WithoutOfConcat(first, a, id);
      assert Without(first, id) == if f.id == id then [] else first by {
        assert first[..0] == [];
      }
      if f.id == id && f.children.Tab? {
        ChildIsListed(f.children, id);
      }
    }
  }

  lemma ChildlessParts(a: seq<Entry>, b: seq<Entry>, c: seq<Entry>, id: Id)
    requires IsChildless(a + b + c, id)
    ensures IsChildless(a, id) && IsChildless(b, id) && IsChildless(c, id)
  {
    var all := a + b + c;
    assert forall i | 0 <= i < |a| :: a[i] == all[i];
    assert forall i | 0 <= i < |b| :: b[i] == all[|a| + i];
    assert forall i | 0 <= i < |c| :: c[i] == all[|a| + |b| + i];
  }

  lemma ChildIsListed(children: Forest, id: Id)
    requires children.Tab?
    ensures !IsChildless(Entries(children, Some(id)), id)
  {
    assert Entries(children, Some(id))[0].parent == Some(id);
  }

  lemma {:induction false} InWithout(entries: seq<Entry>, id: Id, e: Entry)
    ensures e in Without(entries, id) <==> e in entries && e.id != id
  {
    if entries != [] {
      var n := |entries| - 1;
      InWithout(entries[..n], id, e);
      assert entries == entries[..n] + [entries[n]];
    }
  }

  /** A tab, deleted with its child tabs, leaves nothing that names it as parent. */
  lemma {:induction false} DeletedLeavesNoChild(f: Forest, parent: Option<Id>, id: Id)
    requires parent != Some(id)
    ensures IsChildless(Entries(Deleted(f, id), parent), id)
  {
    if f.Tab? {
      DeletedLeavesNoChild(f.rest, parent, id);
      if f.id != id {
        DeletedLeavesNoChild(f.children, Some(f.id), id);
        ChildlessWhole([Entry(f.id, f.title, parent)], Entries(Deleted(f.children, id), Some(f.id)),
                       Entries(Deleted(f.rest, id), parent), id);
      }
    }
  }

  lemma ChildlessWhole(a: seq<Entry>, b: seq<Entry>, c: seq<Entry>, id: Id)
    requires IsChildless(a, id) && IsChildless(b, id) && IsChildless(c, id)
    ensures IsChildless(a + b + c, id)
  {}

  /** Every entry but the outermost names a parent that stands before it. */
  ghost predicate ParentsComeFirst(entries: seq<Entry>, outer: Option<Id>) {
    forall i | 0 <= i < |entries| :: entries[i].parent == outer || NamedBefore(entries, i)
  }

  ghost predicate NamedBefore(entries: seq<Entry>, i: nat)
    requires i < |entries|
  {
    exists j :: 0 <= j < i && entries[i].parent == Some(entries[j].id)
  }

  /** A fact of every tree, whatever was checked: no inspected tab is an orphan. */
  lemma {:induction false} TreeListsParentsFirst(f: Forest, outer: Option<Id>)
    ensures ParentsComeFirst(Entries(f, outer), outer)
  {
    if f.Tab? {
      TreeListsParentsFirst(f.children, Some(f.id));
      TreeListsParentsFirst(f.rest, outer);
      var first, a, b := [Entry(f.id, f.title, outer)], Entries(f.children, Some(f.id)), Entries(f.rest, outer);
      forall i | 0 <= i < |first + a + b|
        ensures (first + a + b)[i].parent == outer || NamedBefore(first + a + b, i)
      {
        ParentFirstInThree(first, a, b, outer, i);
      }
    }
  }

  lemma ParentFirstInThree(first: seq<Entry>, a: seq<Entry>, b: seq<Entry>, outer: Option<Id>, i: nat)
    requires |first| == 1 && first[0].parent == outer && i < |first + a + b|
    requires ParentsComeFirst(a, Some(first[0].id)) && ParentsComeFirst(b, outer)
    ensures (first + a + b)[i].parent == outer || NamedBefore(first + a + b, i)
  {
    var all := first + a + b;
    assert all[0] == first[0];
    if 1 <= i < 1 + |a| {
      if NamedBefore(a, i - 1) {
        var j :| 0 <= j < i - 1 && a[i - 1].parent == Some(a[j].id);
        assert all[1 + j] == a[j];
      }
    } else if i > |a| {
      var k := i - 1 - |a|;
      if NamedBefore(b, k) {
        var j :| 0 <= j < k && b[k].parent == Some(b[j].id);
        assert all[1 + |a| + j] == b[j];
      }
    }
  }

  /**
    What the child check is for: a delete takes the one entry named exactly if
    that tab is childless; otherwise more goes.
  */
  lemma DeleteTakesOne(f: Forest, id: Id)
    requires DistinctIds(Tabs(f))
    ensures |Without(Tabs(f), id)| == |Tabs(f)| - if Listed(Tabs(f), id) then 1 else 0
    ensures Tabs(Deleted(f, id)) == Without(Tabs(f), id) <==> IsChildless(Tabs(f), id)
  {
    var entries := Tabs(f);
    WithoutTakesOne(entries, id);
    if IsChildless(entries, id) {
      ChildlessGoesAlone(f, None, id);
    } else {
      var i :| 0 <= i < |entries| && entries[i].parent == Some(id);
      TreeListsParentsFirst(f, None);
      assert NamedBefore(entries, i);
      InWithout(entries, id, entries[i]);
      DeletedLeavesNoChild(f, None, id);
    }
  }

  lemma {:induction false} WithoutTakesOne(entries: seq<Entry>, id: Id)
    requires DistinctIds(entries)
    ensures |Without(entries, id)| == |entries| - if Listed(entries, id) then 1 else 0
  {
    if entries != [] {
      var n := |entries| - 1;
      WithoutTakesOne(entries[..n], id);
      assert Listed(entries[..n], id) ==> Listed(entries, id);
      assert entries[n].id == id ==> Listed(entries, id);
    }
  }

  // ---- what the gateway is to keep ----

  predicate DistinctIds(entries: seq<Entry>) {
    forall i, j | 0 <= i < j < |entries| :: entries[i].id != entries[j].id
  }

  predicate DistinctTitles(fold: string -> string, entries: seq<Entry>) {
    forall i, j | 0 <= i < j < |entries| :: fold(entries[i].title) != fold(entries[j].title)
  }

  predicate Good(fold: string -> string, entries: seq<Entry>) {
    entries != [] && DistinctIds(entries) && DistinctTitles(fold, entries)
  }

  /** What the gateway checks on the list it inspected. */
  predicate TitleIsFree(fold: string -> string, entries: seq<Entry>, title: string, except: Option<Id>) {
    forall i | 0 <= i < |entries| :: except == Some(entries[i].id) || fold(entries[i].title) != fold(title)
  }

  predicate Permits(fold: string -> string, entries: seq<Entry>, r: Request) {
    match r
    case Add(title, _, under) =>
      TitleIsFree(fold, entries, title, None) && (under.Some? ==> Listed(entries, under.value))
    case Rename(id, title) => Listed(entries, id) && TitleIsFree(fold, entries, title, Some(id))
    case Delete(id) => Listed(entries, id) && |entries| > 1 && IsChildless(entries, id)
  }

  lemma OneMoreAt(before: seq<Entry>, after: seq<Entry>, e: Entry, at: nat)
    requires OneMore(before, after, e, at)
    ensures |after| == |before| + 1
    ensures forall i | 0 <= i < |after| ::
              after[i] == if i < at then before[i] else if i == at then e else before[i - 1]
  {}

  lemma AddKeepsDistinct(fold: string -> string, before: seq<Entry>, after: seq<Entry>, e: Entry, at: nat)
    requires DistinctIds(before) && DistinctTitles(fold, before) && OneMore(before, after, e, at)
    requires !Listed(before, e.id) && TitleIsFree(fold, before, e.title, None)
    ensures DistinctIds(after) && DistinctTitles(fold, after)
  {
    OneMoreAt(before, after, e, at);
    hide OneMore;
  }

  lemma AddKeepsGood(fold: string -> string, before: seq<Entry>, after: seq<Entry>, e: Entry, at: nat)
    requires Good(fold, before) && OneMore(before, after, e, at)
    requires !Listed(before, e.id) && TitleIsFree(fold, before, e.title, None)
    ensures Good(fold, after)
  {
    AddKeepsDistinct(fold, before, after, e, at);
    OneMoreAt(before, after, e, at);
  }

  lemma RenameKeepsGood(fold: string -> string, before: seq<Entry>, id: Id, title: string)
    requires Good(fold, before) && TitleIsFree(fold, before, title, Some(id))
    ensures Good(fold, WithTitle(before, id, title))
  {}

  lemma {:induction false} WithoutKeepsDistinct(fold: string -> string, entries: seq<Entry>, id: Id)
    requires DistinctIds(entries) && DistinctTitles(fold, entries)
    ensures DistinctIds(Without(entries, id)) && DistinctTitles(fold, Without(entries, id))
  {
    if entries != [] {
      var n := |entries| - 1;
      var fewer := entries[..n];
      WithoutKeepsDistinct(fold, fewer, id);
      forall e | e in Without(fewer, id)
        ensures e.id != entries[n].id && fold(e.title) != fold(entries[n].title)
      {
        InWithout(fewer, id, e);
      }
    }
  }

  lemma DeleteKeepsGood(fold: string -> string, before: seq<Entry>, id: Id)
    requires Good(fold, before) && |before| > 1
    ensures Good(fold, Without(before, id))
  {
    WithoutKeepsDistinct(fold, before, id);
    WithoutTakesOne(before, id);
  }

  /** The effect of a request on the inspected list: one entry more, one title changed, or one entry less. */
  ghost predicate Effect(before: seq<Entry>, after: seq<Entry>, r: Request, added: Id) {
    match r
    case Add(title, _, under) => exists at: nat :: OneMore(before, after, Entry(added, title, under), at)
    case Rename(id, title) => after == WithTitle(before, id, title)
    case Delete(id) => after == Without(before, id)
  }

  lemma EffectOfRequest(f: Forest, r: Request)
    requires Edited(f, r).Some? && (r.Delete? ==> IsChildless(Tabs(f), r.id))
    ensures Effect(Tabs(f), Tabs(Edited(f, r).value), r, FreshId(f))
  {
    match r
    case Add(title, index, None) => var at := InsertAddsOne(f, None, index, FreshId(f), title);
    case Add(title, index, Some(under)) => var at := InsertUnderAddsOne(f, None, under, index, FreshId(f), title);
    case Rename(id, title) => RenameChangesOneTitle(f, None, id, title);
    case Delete(id) => ChildlessGoesAlone(f, None, id);
  }

  /** A request permitted on the very list it is carried out on keeps what there is to keep. */
  lemma PermittedKeepsGood(f: Forest, r: Request, fold: string -> string)
    requires Permits(fold, Tabs(f), r) && Good(fold, Tabs(f))
    ensures Edited(f, r).Some?
    ensures Effect(Tabs(f), Tabs(Edited(f, r).value), r, FreshId(f))
    ensures Good(fold, Tabs(Edited(f, r).value))
  {
    PermittedIsCarriedOut(f, r, fold);
    EffectOfRequest(f, r);
    var before, after := Tabs(f), Tabs(Edited(f, r).value);
    match r
    case Add(title, _, under) =>
      var at: nat :| OneMore(before, after, Entry(FreshId(f), title, under), at);
      if Listed(before, FreshId(f)) {
        HasIsListed(f, None, FreshId(f));
        FreshIsNew(f, FreshId(f));
      }
      AddKeepsGood(fold, before, after, Entry(FreshId(f), title, under), at);
    case Rename(id, title) => RenameKeepsGood(fold, before, id, title);
    case Delete(id) => DeleteKeepsGood(fold, before, id);
  }

  lemma PermittedIsCarriedOut(f: Forest, r: Request, fold: string -> string)
    requires Permits(fold, Tabs(f), r)
    ensures Edited(f, r).Some?
  {
    match r
    case Add(_, _, under) => if under.Some? { HasIsListed(f, None, under.value); }
    case Rename(id, _) => HasIsListed(f, None, id);
    case Delete(id) => HasIsListed(f, None, id);
  }

  // ---- the checks refuse nothing that could be kept, and edits land where they are asked to ----

  lemma ClashIsSeen(fold: string -> string, before: seq<Entry>, after: seq<Entry>, e: Entry, at: nat)
    requires OneMore(before, after, e, at) && !TitleIsFree(fold, before, e.title, None)
    ensures !DistinctTitles(fold, after)
  {
    OneMoreAt(before, after, e, at);
    var i :| 0 <= i < |before| && fold(before[i].title) == fold(e.title);
    var k := if i < at then i else i + 1;
    assert after[k] == before[i] && after[at] == e;
  }

  lemma RenameClashIsSeen(fold: string -> string, before: seq<Entry>, id: Id, title: string)
    requires Listed(before, id) && !TitleIsFree(fold, before, title, Some(id))
    ensures !DistinctTitles(fold, WithTitle(before, id, title))
  {
    var after := WithTitle(before, id, title);
    var i :| 0 <= i < |before| && before[i].id != id && fold(before[i].title) == fold(title);
    var k :| 0 <= k < |before| && before[k].id == id;
    assert after[i].title == before[i].title && after[k].title == title;
  }

  /**
    On a good document the checks pass exactly if the request can be carried out,
    leaves the document good, and, for a delete, takes no other tab along.
  */
  lemma PermitsExactly(f: Forest, r: Request, fold: string -> string)
    requires Good(fold, Tabs(f))
    ensures Permits(fold, Tabs(f), r) <==>
            && Edited(f, r).Some? && Good(fold, Tabs(Edited(f, r).value))
            && (r.Delete? ==> Tabs(Edited(f, r).value) == Without(Tabs(f), r.id))
  {
    if r.Delete? {
      DeleteTakesOne(f, r.id);
    }
    if Permits(fold, Tabs(f), r) {
      PermittedKeepsGood(f, r, fold);
    } else if Edited(f, r).Some? {
      RefusedForAReason(f, r, fold);
    }
  }

  lemma RefusedForAReason(f: Forest, r: Request, fold: string -> string)
    requires Good(fold, Tabs(f)) && Edited(f, r).Some? && !Permits(fold, Tabs(f), r)
    ensures !Good(fold, Tabs(Edited(f, r).value)) || (r.Delete? && Tabs(Edited(f, r).value) != Without(Tabs(f), r.id))
  {
    var before, after := Tabs(f), Tabs(Edited(f, r).value);
    match r
    case Add(title, index, under) =>
      if under.Some? {
        HasIsListed(f, None, under.value);
      }
      EffectOfRequest(f, r);
      var at: nat :| OneMore(before, after, Entry(FreshId(f), title, under), at);
      ClashIsSeen(fold, before, after, Entry(FreshId(f), title, under), at);
    case Rename(id, title) =>
      HasIsListed(f, None, id);
      EffectOfRequest(f, r);
      RenameClashIsSeen(fold, before, id, title);
    case Delete(id) =>
      HasIsListed(f, None, id);
      DeleteTakesOne(f, id);
  }

  /** The ids of siblings, in order. */
  function Siblings(f: Forest): seq<Id> {
    if f.Empty? then [] else [f.id] + Siblings(f.rest)
  }

  /** A new tab stands at the index asked for, or last. */
  lemma {:induction false} InsertedAt(f: Forest, index: Option<nat>, id: Id, title: string)
    ensures var was := Siblings(f);
            var k := if index.Some? && index.value <= |was| then index.value else |was|;
            Siblings(Insert(f, index, id, title)) == was[..k] + [id] + was[k..]
    decreases f
  {
    if !f.Empty? && index != Some(0) {
      var next := if index.Some? then Some(index.value - 1) else None;
      InsertedAt(f.rest, next, id, title);
    }
  }

  /** The child tabs of the first tab with this id. */
  function ChildrenOf(f: Forest, id: Id): Forest {
    match f
    case Empty => Empty
    case Tab(here, _, children, rest) =>
      if here == id then children
      else if Has(children, id) then ChildrenOf(children, id)
      else ChildrenOf(rest, id)
  }

  /** A new child tab stands among the children of its parent. */
  lemma {:induction false} InsertedUnder(f: Forest, parent: Id, index: Option<nat>, id: Id, title: string)
    requires Has(f, parent)
    ensures Has(InsertUnder(f, parent, index, id, title), parent)
    ensures ChildrenOf(InsertUnder(f, parent, index, id, title), parent) ==
              Insert(ChildrenOf(f, parent), index, id, title)
    decreases f
  {
    if f.id != parent {
      if Has(f.children, parent) {
        InsertedUnder(f.children, parent, index, id, title);
      } else {
        InsertedUnder(f.rest, parent, index, id, title);
      }
    }
  }
}
