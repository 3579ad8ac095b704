/**
  Creating, renaming and deleting document tabs while others edit the document
  (app/knowledge.py, app/adapters/google_workspace/docs.py `_batch_update`).
*/
module DocumentTabs {
  import opened Wrappers
  import opened Schedules
  import opened TabForest

  type Code = string

  /**
    The document as the provider keeps it. Its revisions are the numbers of the
    entries of `history`, so none ever repeats. `others(n)` are the edits others
    make before our n-th call arrives; any such function is an interleaving.
  */
  class GoogleDoc {
    var history: seq<Forest>
    var calls: nat
    const others: nat -> seq<Forest>

    ghost predicate Valid()
      reads this
    {
      history != []
    }

    /** What others did since call `from`. */
    ghost function Since(from: nat): seq<Forest>
      reads this
    {
      Between(others, from, calls)
    }

    constructor (start: Forest, others: nat -> seq<Forest>)
      ensures Valid() && history == [start] && calls == 0 && this.others == others
    {
      history, calls, this.others := [start], 0, others;
    }

    function Now(): Forest
      reads this
      requires Valid()
    {
      history[|history| - 1]
    }

    function Revision(): nat
      reads this
      requires Valid()
    {
      |history| - 1
    }

    /** Others edit the document. */
    method Elapse()
      requires Valid()
      modifies this
      ensures Valid() && calls == old(calls) + 1 && history == old(history) + Since(old(calls))
    {
      BetweenOne(others, calls);
      history, calls := history + others(calls), calls + 1;
    }

    /** `inspect_structure`, as far as tabs go. */
    method Inspect() returns (entries: seq<Entry>, revision: nat)
      requires Valid()
      modifies this
      ensures Valid() && calls == old(calls) + 1 && history == old(history) + Since(old(calls))
      ensures entries == Tabs(Now()) && revision == Revision()
    {
      Elapse();
      entries, revision := Tabs(Now()), Revision();
    }

    /** One request under a required revision: carried out on that revision or not at all. */
    method BatchUpdate(r: Request, required: nat) returns (failed: Option<Code>)
      requires Valid()
      modifies this
      ensures Valid() && calls == old(calls) + 1
      ensures var before := old(history) + Since(old(calls));
              var edited := Edited(before[|before| - 1], r);
              && failed == (if required != |before| - 1 then Some("document_revision_conflict")
                            else if edited.None? then Some("document_request_rejected") else None)
              && history == if failed.None? then before + [edited.value] else before
    {
      Elapse();
      if required != Revision() {
        return Some("document_revision_conflict");
      }
      match Edited(Now(), r)
      case None => return Some("document_request_rejected");
      case Some(edited) =>
        history := history + [edited];
        failed := None;
    }
  }

  /** A tab reference as the codec decodes it. */
  datatype Reference = Missing | Undecodable | TabRef(id: Id) {
    function Named(): Option<Id> {
      if TabRef? then Some(id) else None
    }
  }

  /** Refused without writing, done, or written but not found again afterwards. */
  datatype Outcome = Refused(code: Code) | Done(revision: nat, tab: Option<Entry>) | Vanished {
    predicate Wrote() { !Refused? }
  }

  /** The entry of a tab, if it is there. */
  function FindTab(entries: seq<Entry>, id: Id): (r: Option<Entry>)
    ensures r.Some? <==> Listed(entries, id)
    ensures r.Some? ==> r.value in entries && r.value.id == id
  {
    if entries == [] then None
    else if entries[0].id == id then Some(entries[0])
    else
      assert forall i | 1 <= i < |entries| :: entries[1..][i - 1] == entries[i];
      FindTab(entries[1..], id)
  }

  /** The first tab of that title: what a create reads back. */
  function FindTitle(entries: seq<Entry>, title: string): (r: Option<Entry>)
    ensures r.Some? ==> r.value in entries && r.value.title == title
    ensures r.None? ==> forall e | e in entries :: e.title != title
  {
    if entries == [] then None
    else if entries[0].title == title then Some(entries[0])
    else FindTitle(entries[1..], title)
  }

  /**
    How a write came about: the request was carried out on revision `required`,
    and if the client knew that revision before the call, nobody had written
    since, so the list the checks passed on is the one that was changed. All
    other entries are the `foreign` edits of others.
  */
  ghost predicate Atomic(fold: string -> string, before: seq<Forest>, after: seq<Forest>, foreign: seq<Forest>,
                         r: Request, required: nat) {
    && before != [] && |before| <= required + 1 + |foreign| && required + 1 < |after|
    && after[..required + 1] + after[required + 2..] == before + foreign
    && Edited(after[required], r) == Some(after[required + 1])
    && (required < |before| ==> required == |before| - 1 && after[required] == before[required]
                                && Permits(fold, Tabs(after[required]), r))
  }

  /** A call leaves the document to others, or makes one write of its own. */
  ghost predicate Ends(fold: string -> string, before: seq<Forest>, after: seq<Forest>, foreign: seq<Forest>,
                       r: Request, required: nat, wrote: bool) {
    if wrote then Atomic(fold, before, after, foreign, r, required) else after == before + foreign
  }

  /**
    Why a call that got as far as the document did not write: a check on the list it
    saw, or the provider's refusal.
  */
  ghost predicate Explains(before: seq<Forest>, after: seq<Forest>, check: Forest -> Option<Code>, r: Request,
                           required: nat, code: Code) {
    || (exists i | |before| - 1 <= i < |after| :: 0 <= i && check(after[i]) == Some(code))
    || ProviderRefuses(after, r, required, code)
  }

  /** Another revision is the current one, or the request names a tab that is not there. */
  ghost predicate ProviderRefuses(after: seq<Forest>, r: Request, required: nat, code: Code) {
    || (code == "document_revision_conflict" && required + 1 != |after|)
    || (code == "document_request_rejected" && required + 1 == |after| && Edited(after[required], r).None?)
  }

  /** Python's string helpers, and the gateway of one document. */
  class TabGateway {
    const doc: GoogleDoc
    const fold: string -> string
    const strip: string -> string

    constructor (doc: GoogleDoc, fold: string -> string, strip: string -> string)
      ensures this.doc == doc && this.fold == fold && this.strip == strip
    {
      this.doc, this.fold, this.strip := doc, fold, strip;
    }

    /** `_validated_tab_title`. */
    function ValidTitle(title: string): (r: Option<string>)
      ensures r.Some? ==> r.value == strip(title)
      ensures r.Some? <==>
              1 <= |strip(title)| <= 100 && forall i | 0 <= i < |strip(title)| :: strip(title)[i] as int >= 32
    {
      var value := strip(title);
      if value == "" || |value| > 100 || exists i | 0 <= i < |value| :: value[i] < ' ' then None else Some(value)
    }

    /** Why the inspected list refuses a create, in the order of the source. */
    function CheckCreate(entries: seq<Entry>, title: string, index: Option<nat>, parent: Reference): (r: Option<Code>)
      ensures r.None? <==> !parent.Undecodable? && Permits(fold, entries, Add(title, index, parent.Named()))
      ensures r == Some("document_tab_title_duplicate") <==>
              exists i :: 0 <= i < |entries| && fold(entries[i].title) == fold(title)
      ensures r == Some("document_tab_reference_invalid") ==> parent.Undecodable?
      ensures r == Some("document_tab_not_found") ==> parent.TabRef? && !Listed(entries, parent.id)
      ensures r.Some? ==> r.value in {"document_tab_title_duplicate", "document_tab_reference_invalid",
                                      "document_tab_not_found"}
    {
      if !TitleIsFree(fold, entries, title, None) then Some("document_tab_title_duplicate")
      else if parent.Undecodable? then Some("document_tab_reference_invalid")
      else if parent.TabRef? && FindTab(entries, parent.id).None? then Some("document_tab_not_found")
      else None
    }

    function CheckRename(entries: seq<Entry>, id: Id, title: string): (r: Option<Code>)
      ensures r.None? <==> Permits(fold, entries, Rename(id, title))
      ensures r == Some("document_tab_not_found") <==> !Listed(entries, id)
      ensures r == Some("document_tab_title_duplicate") <==>
              && Listed(entries, id)
              && exists i :: 0 <= i < |entries| && entries[i].id != id && fold(entries[i].title) == fold(title)
    {
      if FindTab(entries, id).None? then Some("document_tab_not_found")
      else if !TitleIsFree(fold, entries, title, Some(id)) then Some("document_tab_title_duplicate")
      else None
    }

    function CheckDelete(entries: seq<Entry>, id: Id): (r: Option<Code>)
      ensures r.None? <==> Permits(fold, entries, Delete(id))
      ensures r == Some("document_tab_not_found") <==> !Listed(entries, id)
      ensures r == Some("document_tab_delete_invalid") <==> Listed(entries, id) && |entries| == 1
      ensures r == Some("document_tab_delete_has_children") <==>
              Listed(entries, id) && |entries| > 1 && exists i :: 0 <= i < |entries| && entries[i].parent == Some(id)
    {
      if FindTab(entries, id).None? then Some("document_tab_not_found")
      else if |entries| <= 1 then Some("document_tab_delete_invalid")
      else if !IsChildless(entries, id) then Some("document_tab_delete_has_children")
      else None
    }

    /** Commit a request that the inspected list permitted, and inspect again. */
    method Commit(r: Request, required: nat, ghost before: seq<Forest>, ghost from: nat)
      returns (failed: Option<Code>, entries: seq<Entry>, revision: nat)
      requires doc.Valid() && before != [] && from <= doc.calls && doc.history == before + doc.Since(from)
      requires Permits(fold, Tabs(doc.Now()), r)
      modifies doc
      ensures doc.Valid() && from <= doc.calls
      ensures Ends(fold, before, doc.history, doc.Since(from), r, required, failed.None?)
      ensures failed.None? ==> entries == Tabs(doc.Now()) && revision == doc.Revision()
      ensures failed.Some? ==>
                old(doc.history) <= doc.history && ProviderRefuses(doc.history, r, required, failed.value)
    {
      hide Between, Edited, Permits, Ends, Atomic, ProviderRefuses;
      ghost var start, seen := doc.calls, doc.Since(from);
      failed := doc.BatchUpdate(r, required);
      ghost var slipped := doc.Since(start);
      BetweenJoins(doc.others, from, start, start + 1);
      entries, revision := [], 0;
      if failed.None? {
        ghost var committed := doc.history;
        entries, revision := doc.Inspect();
        ghost var later := doc.Since(start + 1);
        BetweenJoins(doc.others, from, start + 1, start + 2);
        CommittedThen(fold, before, seen, slipped, committed, later, r, required);
      } else {
        NotCommitted(fold, before, seen, slipped, doc.history, r, required, failed.value);
      }
    }

    /** `create_authorized_document_tab`. */
    method CreateTab(title: string, required: Option<nat>, index: Option<int>, parent: Reference)
      returns (outcome: Outcome, ghost r: Request)
      requires doc.Valid()
      modifies doc
      ensures doc.Valid()
      ensures outcome.Wrote() ==>
                && required.Some? && ValidTitle(title).Some? && (index.Some? ==> index.value >= 0)
                && r == Add(ValidTitle(title).value, if index.Some? then Some(index.value) else None, parent.Named())
      ensures required.None? ==> outcome == Refused("document_revision_required")
      ensures required.Some? && ValidTitle(title).None? ==> outcome == Refused("document_tab_title_invalid")
      ensures required.Some? && ValidTitle(title).Some? && index.Some? && index.value < 0 ==>
                outcome == Refused("document_tab_index_invalid")
      ensures required.Some? && ValidTitle(title).Some? && (index.Some? ==> index.value >= 0) && outcome.Refused? ==>
                && r.Add?
                && Explains(old(doc.history), doc.history, f => CheckCreate(Tabs(f), r.title, r.index, parent), r,
                                      required.value, outcome.code)
      ensures Ends(fold, old(doc.history), doc.history, doc.Since(old(doc.calls)), r, required.UnwrapOr(0),
                   outcome.Wrote())
      ensures outcome.Done? ==>
                outcome.tab.Some? && outcome.tab.value in Tabs(doc.Now()) && outcome.tab.value.title == r.title
      ensures outcome.Done? ==> outcome.revision == doc.Revision()
      ensures outcome.Vanished? ==> forall e | e in Tabs(doc.Now()) :: e.title != r.title
    {
      r := Delete(0);
      assert doc.Since(doc.calls) == [] && doc.history + [] == doc.history;
      if required.None? {
        return Refused("document_revision_required"), r;
      }
      var safe := ValidTitle(title);
      if safe.None? {
        return Refused("document_tab_title_invalid"), r;
      }
      if index.Some? && index.value < 0 {
        return Refused("document_tab_index_invalid"), r;
      }
      var at: Option<nat> := if index.Some? then Some(index.value) else None;
      outcome := Create(Add(safe.value, at, parent.Named()), parent, required.value);
      r := Add(safe.value, at, parent.Named());
    }

    method Create(r: Request, parent: Reference, required: nat) returns (outcome: Outcome)
      requires doc.Valid() && r.Add? && r.under == parent.Named()
      modifies doc
      ensures doc.Valid()
      ensures Ends(fold, old(doc.history), doc.history, doc.Since(old(doc.calls)), r, required, outcome.Wrote())
      ensures outcome.Done? ==>
                outcome.tab.Some? && outcome.tab.value in Tabs(doc.Now()) && outcome.tab.value.title == r.title
      ensures outcome.Done? ==> outcome.revision == doc.Revision()
      ensures outcome.Vanished? ==> forall e | e in Tabs(doc.Now()) :: e.title != r.title
      ensures outcome.Refused? ==>
                Explains(old(doc.history), doc.history, f => CheckCreate(Tabs(f), r.title, r.index, parent), r,
                                            required, outcome.code)
    {
      ghost var before, from := doc.history, doc.calls;
      var entries, revision;
      entries, revision := doc.Inspect();
      var refused := CheckCreate(entries, r.title, r.index, parent);
      if refused.Some? {
        return Refused(refused.value);
      }
      var failed;
      failed, entries, revision := Commit(r, required, before, from);
      if failed.Some? {
        return Refused(failed.value);
      }
      var created := FindTitle(entries, r.title);
      outcome := if created.Some? then Done(revision, created) else Vanished;
    }

    /** `rename_authorized_document_tab`. */
    method RenameTab(tab: Reference, title: string, required: Option<nat>)
      returns (outcome: Outcome, ghost r: Request)
      requires doc.Valid()
      modifies doc
      ensures doc.Valid()
      ensures outcome.Wrote() ==>
                required.Some? && tab.TabRef? && ValidTitle(title).Some? && r == Rename(tab.id, ValidTitle(title).value)
      ensures required.None? ==> outcome == Refused("document_revision_required")
      ensures required.Some? && ValidTitle(title).None? ==> outcome == Refused("document_tab_title_invalid")
      ensures required.Some? && ValidTitle(title).Some? && !tab.TabRef? ==>
                outcome == Refused("document_tab_reference_invalid")
      ensures required.Some? && ValidTitle(title).Some? && tab.TabRef? && outcome.Refused? ==>
                Explains(old(doc.history), doc.history, f => CheckRename(Tabs(f), tab.id, ValidTitle(title).value), r,
                         required.value, outcome.code)
      ensures Ends(fold, old(doc.history), doc.history, doc.Since(old(doc.calls)), r, required.UnwrapOr(0),
                   outcome.Wrote())
      ensures outcome.Done? ==>
                outcome.tab.Some? && outcome.tab.value in Tabs(doc.Now()) && outcome.tab.value.id == tab.id
      ensures outcome.Done? ==> outcome.revision == doc.Revision()
      ensures outcome.Vanished? ==> tab.TabRef? && !Listed(Tabs(doc.Now()), tab.id)
    {
      r := Delete(0);
      assert doc.Since(doc.calls) == [] && doc.history + [] == doc.history;
      if required.None? {
        return Refused("document_revision_required"), r;
      }
      var safe := ValidTitle(title);
      if safe.None? {
        return Refused("document_tab_title_invalid"), r;
      }
      if !tab.TabRef? {
        return Refused("document_tab_reference_invalid"), r;
      }
      outcome := RenameTo(tab.id, safe.value, required.value);
      r := Rename(tab.id, safe.value);
    }

    method RenameTo(id: Id, title: string, required: nat) returns (outcome: Outcome)
      requires doc.Valid()
      modifies doc
      ensures doc.Valid()
      ensures Ends(fold, old(doc.history), doc.history, doc.Since(old(doc.calls)), Rename(id, title), required,
                   outcome.Wrote())
      ensures outcome.Refused? ==>
                Explains(old(doc.history), doc.history, f => CheckRename(Tabs(f), id, title), Rename(id, title),
                         required, outcome.code)
      ensures outcome.Done? ==> outcome.tab.Some? && outcome.tab.value in Tabs(doc.Now()) && outcome.tab.value.id == id
      ensures outcome.Done? ==> outcome.revision == doc.Revision()
      ensures outcome.Vanished? ==> !Listed(Tabs(doc.Now()), id)
    {
      ghost var before, from := doc.history, doc.calls;
      var entries, revision;
      entries, revision := doc.Inspect();
      var refused := CheckRename(entries, id, title);
      if refused.Some? {
        return Refused(refused.value);
      }
      var failed;
      failed, entries, revision := Commit(Rename(id, title), required, before, from);
      if failed.Some? {
        return Refused(failed.value);
      }
      var renamed := FindTab(entries, id);
      outcome := if renamed.Some? then Done(revision, renamed) else Vanished;
    }

    /** `delete_authorized_document_tab`. */
    method DeleteTab(tab: Reference, required: Option<nat>) returns (outcome: Outcome, ghost r: Request)
      requires doc.Valid()
      modifies doc
      ensures doc.Valid()
      ensures outcome.Wrote() ==>
                required.Some? && tab.TabRef? && r == Delete(tab.id) && outcome == Done(doc.Revision(), None)
      ensures required.None? ==> outcome == Refused("document_revision_required")
      ensures required.Some? && !tab.TabRef? ==> outcome == Refused("document_tab_reference_invalid")
      ensures required.Some? && tab.TabRef? && outcome.Refused? ==>
                Explains(old(doc.history), doc.history, f => CheckDelete(Tabs(f), tab.id), r, required.value,
                         outcome.code)
      ensures Ends(fold, old(doc.history), doc.history, doc.Since(old(doc.calls)), r, required.UnwrapOr(0),
                   outcome.Wrote())
    {
      r := Delete(0);
      assert doc.Since(doc.calls) == [] && doc.history + [] == doc.history;
      if required.None? {
        return Refused("document_revision_required"), r;
      }
      if !tab.TabRef? {
        return Refused("document_tab_reference_invalid"), r;
      }
      r := Delete(tab.id);
      ghost var before, from := doc.history, doc.calls;
      var entries, revision;
      entries, revision := doc.Inspect();
      var refused := CheckDelete(entries, tab.id);
      if refused.Some? {
        return Refused(refused.value), r;
      }
      var failed;
      failed, entries, revision := Commit(Delete(tab.id), required.value, before, from);
      outcome := if failed.Some? then Refused(failed.value) else Done(revision, None);
    }
  }

  /** The history after a commit, and what others did before, in between and after. */
  lemma CommittedThen(fold: string -> string, before: seq<Forest>, seen: seq<Forest>, others: seq<Forest>,
                      committed: seq<Forest>, later: seq<Forest>, r: Request, required: nat)
    requires before != [] && Permits(fold, Tabs((before + seen)[|before + seen| - 1]), r)
    requires var history := before + seen + others;
             && required == |history| - 1
             && Edited(history[required], r).Some? && committed == history + [Edited(history[required], r).value]
    ensures Ends(fold, before, committed + later, seen + others + later, r, required, true)
  {
    var after := committed + later;
    assert after[..required + 1] == before + seen + others && after[required + 2..] == later;
    if required < |before| {
      assert seen == [] && others == [];
    }
  }

  lemma NotCommitted(fold: string -> string, before: seq<Forest>, seen: seq<Forest>, others: seq<Forest>,
                     after: seq<Forest>, r: Request, required: nat, code: Code)
    requires before != [] && after == before + seen + others
    requires code == if required != |after| - 1 then "document_revision_conflict" else "document_request_rejected"
    requires required == |after| - 1 ==> Edited(after[required], r).None?
    ensures Ends(fold, before, after, seen + others, r, required, false)
    ensures ProviderRefuses(after, r, required, code) && before + seen <= after
  {
    assert before + seen + others == before + (seen + others);
  }

  /**
    The main result: a successful create, rename or delete under a revision that
    existed before the call takes a good document to a good document, and changes
    one tab, whatever others do around it.
  */
  lemma SuccessKeepsGood(fold: string -> string, before: seq<Forest>, after: seq<Forest>, foreign: seq<Forest>,
                         r: Request, required: nat)
    requires Atomic(fold, before, after, foreign, r, required) && required < |before|
    requires Good(fold, Tabs(before[|before| - 1]))
    ensures Effect(Tabs(before[required]), Tabs(after[required + 1]), r, FreshId(before[required]))
    ensures Good(fold, Tabs(after[required + 1]))
  {
    PermittedKeepsGood(after[required], r, fold);
  }

  /** If others leave the document good, it is good throughout. */
  lemma DocumentStaysGood(fold: string -> string, before: seq<Forest>, after: seq<Forest>, foreign: seq<Forest>,
                          r: Request, required: nat, wrote: bool, i: nat)
    requires Ends(fold, before, after, foreign, r, required, wrote) && (wrote ==> required < |before|) && before != []
    requires forall j | 0 <= j < |before| :: Good(fold, Tabs(before[j]))
    requires forall j | 0 <= j < |foreign| :: Good(fold, Tabs(foreign[j]))
    requires i < |after|
    ensures Good(fold, Tabs(after[i]))
  {
    var all := before + foreign;
    if wrote {
      var rest := after[..required + 1] + after[required + 2..];
      if i == required + 1 {
        SuccessKeepsGood(fold, before, after, foreign, r, required);
      } else {
        assert after[i] == rest[if i <= required then i else i - 1];
      }
    } else {
      assert after[i] == all[i];
    }
  }

  ghost predicate AllGood(fold: string -> string, documents: seq<Forest>) {
    forall i | 0 <= i < |documents| :: Good(fold, Tabs(documents[i]))
  }

  /**
    A revision only guessed, the number of an edit still to come, is not enough:
    for every good document and every request that the checks permit there are
    edits of others that slip in, keep the document good, and make the request
    take it to clashing titles or to no tab at all. A rename needs a second title
    that `fold` tells from the new one.
  */
  lemma GuessedRevisionCanClash(fold: string -> string, before: seq<Forest>, r: Request, required: nat, spare: string)
    returns (foreign: seq<Forest>, after: seq<Forest>)
    requires before != [] && |before| <= required && Permits(fold, Tabs(before[|before| - 1]), r)
    requires Good(fold, Tabs(before[|before| - 1]))
    requires r.Rename? ==> fold(spare) != fold(r.title)
    ensures AllGood(fold, foreign) && Atomic(fold, before, after, foreign, r, required) && |after| == required + 2
    ensures if r.Delete? then Tabs(after[required + 1]) == [] else !DistinctTitles(fold, Tabs(after[required + 1]))
  {
    hide Good, Permits, DistinctTitles, Edited, Tabs;
    var slipped, edited := SlipInAndClash(fold, before[|before| - 1], r, spare);
    foreign := seq(required + 1 - |before|, _ => slipped);
    after := before + foreign + [edited];
    assert after[..required + 1] + after[required + 2..] == before + foreign;
    assert after[required] == slipped && after[required + 1] == edited;
  }

  /** A guess is unsafe and a known revision is safe, for every request that the checks permit. */
  lemma SafeIffKnownRevision(fold: string -> string, before: seq<Forest>, r: Request, required: nat)
    requires before != [] && AllGood(fold, before) && Permits(fold, Tabs(before[|before| - 1]), r)
    requires r.Rename? ==> exists spare :: fold(spare) != fold(r.title)
    ensures (forall after, foreign | Atomic(fold, before, after, foreign, r, required) && AllGood(fold, foreign) ::
               AllGood(fold, after))
       <==> required < |before|
  {
    hide Permits, DistinctTitles, Atomic;
    if required < |before| {
      forall after, foreign | Atomic(fold, before, after, foreign, r, required) && AllGood(fold, foreign)
        ensures AllGood(fold, after)
      {
        forall i: nat | i < |after|
          ensures Good(fold, Tabs(after[i]))
        {
          DocumentStaysGood(fold, before, after, foreign, r, required, true, i);
        }
      }
    } else {
      var spare :| r.Rename? ==> fold(spare) != fold(r.title);
      var foreign, after := GuessedRevisionCanClash(fold, before, r, required, spare);
      assert !Good(fold, Tabs(after[required + 1]));
    }
  }

  lemma SlipInAndClash(fold: string -> string, f: Forest, r: Request, spare: string)
    returns (slipped: Forest, edited: Forest)
    requires Permits(fold, Tabs(f), r) && Good(fold, Tabs(f))
    requires r.Rename? ==> fold(spare) != fold(r.title)
    ensures Good(fold, Tabs(slipped)) && Edited(slipped, r) == Some(edited)
    ensures if r.Delete? then Tabs(edited) == [] else !DistinctTitles(fold, Tabs(edited))
  {
    hide Good, Permits, DistinctTitles, Edited, Tabs;
    match r
    case Add(_, _, _) =>
      slipped := SlipIn(fold, f, r);
      edited := ClashAfter(fold, slipped, r);
    case Rename(id, title) =>
      slipped := Tab(id, spare, Empty, Tab(id + 1, title, Empty, Empty));
      edited := Tab(id, title, Empty, Tab(id + 1, title, Empty, Empty));
      TwoTabs(fold, id, spare, title);
    case Delete(id) =>
      slipped, edited := Tab(id, "", Empty, Empty), Empty;
      OneTab(fold, id);
  }

  lemma ChildlessFirst(f: Forest)
    requires f.Tab? && f.children.Empty?
    ensures Tabs(f) == [Entry(f.id, f.title, None)] + Tabs(f.rest)
  {
    assert Entries(f.children, Some(f.id)) == [];
    assert [Entry(f.id, f.title, None)] + [] == [Entry(f.id, f.title, None)];
  }

  /** Others took the title for a new tab and gave the old tab another one. */
  lemma TwoTabs(fold: string -> string, id: Id, spare: string, title: string)
    requires fold(spare) != fold(title)
    ensures var second := Tab(id + 1, title, Empty, Empty);
            && Good(fold, Tabs(Tab(id, spare, Empty, second)))
            && Edited(Tab(id, spare, Empty, second), Rename(id, title)) == Some(Tab(id, title, Empty, second))
            && !DistinctTitles(fold, Tabs(Tab(id, title, Empty, second)))
  {
    var second := Tab(id + 1, title, Empty, Empty);
    ChildlessFirst(second);
    ChildlessFirst(Tab(id, spare, Empty, second));
    ChildlessFirst(Tab(id, title, Empty, second));
    assert Renamed(second, id, title) == second;
    var clash := Tabs(Tab(id, title, Empty, second));
    assert clash[0].title == title && clash[1].title == title;
  }

  /** Others deleted all other tabs. */
  lemma OneTab(fold: string -> string, id: Id)
    ensures Good(fold, Tabs(Tab(id, "", Empty, Empty)))
    ensures Edited(Tab(id, "", Empty, Empty), Delete(id)) == Some(Empty) && Tabs(Empty) == []
  {
    var only := Tab(id, "", Empty, Empty);
    ChildlessFirst(only);
    assert Tabs(Empty) == [] && Has(only, id);
    assert Deleted(only, id) == Deleted(only.rest, id) == Empty;
  }

  /** Somebody else adds a tab of the same title, at the end of the document. */
  lemma SlipIn(fold: string -> string, f: Forest, r: Request) returns (slipped: Forest)
    requires r.Add? && Permits(fold, Tabs(f), r) && Good(fold, Tabs(f))
    ensures Good(fold, Tabs(slipped)) && (exists e :: e in Tabs(slipped) && e.title == r.title)
    ensures r.under.Some? ==> Listed(Tabs(slipped), r.under.value)
  {
    var first := Add(r.title, None, None);
    PermittedKeepsGood(f, first, fold);
    slipped := Edited(f, first).value;
    hide Good, Edited, Permits, OneMore;
    var e := Entry(FreshId(f), r.title, None);
    var i: nat :| OneMore(Tabs(f), Tabs(slipped), e, i);
    StillThere(Tabs(f), Tabs(slipped), e, i, r.under);
    assert e in Tabs(slipped);
  }

  lemma ClashAfter(fold: string -> string, slipped: Forest, r: Request) returns (edited: Forest)
    requires r.Add? && (r.under.Some? ==> Listed(Tabs(slipped), r.under.value))
    requires exists e :: e in Tabs(slipped) && e.title == r.title
    ensures Edited(slipped, r) == Some(edited) && !DistinctTitles(fold, Tabs(edited))
  {
    if r.under.Some? {
      HasIsListed(slipped, None, r.under.value);
    }
    EffectOfRequest(slipped, r);
    edited := Edited(slipped, r).value;
    hide Edited, OneMore, DistinctTitles, Tabs;
    var e := Entry(FreshId(slipped), r.title, r.under);
    var at: nat :| OneMore(Tabs(slipped), Tabs(edited), e, at);
    var i :| 0 <= i < |Tabs(slipped)| && Tabs(slipped)[i].title == r.title;
    TitleTwice(fold, Tabs(slipped), Tabs(edited), e, at, i);
  }

  lemma StillThere(entries: seq<Entry>, more: seq<Entry>, e: Entry, at: nat, under: Option<Id>)
    requires OneMore(entries, more, e, at) && (under.Some? ==> Listed(entries, under.value))
    ensures under.Some? ==> Listed(more, under.value)
    ensures at < |more| && more[at] == e
  {
    OneMoreAt(entries, more, e, at);
    if under.Some? {
      var k :| 0 <= k < |entries| && entries[k].id == under.value;
      assert more[if k < at then k else k + 1] == entries[k];
    }
  }

  /** One more entry with the title of entry `i`. */
  lemma TitleTwice(fold: string -> string, entries: seq<Entry>, more: seq<Entry>, e: Entry, at: nat, i: nat)
    requires OneMore(entries, more, e, at) && i < |entries| && entries[i].title == e.title
    ensures !DistinctTitles(fold, more)
  {
    OneMoreAt(entries, more, e, at);
    var k := if i < at then i else i + 1;
    assert more[k] == entries[i] && more[at] == e;
    assert fold(more[k].title) == fold(more[at].title);
  }
}
