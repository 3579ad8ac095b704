/**
  The access decision taken from where a file lies (app/policies/source_access.py), and
  what the search's budget does to it.
*/
module SourceAccess {
  import opened Wrappers
  import opened AncestorSearch

  datatype Decision = Granted | NotAllowed | NotInSource

  function Locations(id: Id, drive: Option<Id>, ancestors: set<Id>): set<Id> {
    {id} + ancestors + if drive.Some? && drive.value != "" then {drive.value} else {}
  }

  /** `authorize_resource_for_source`. */
  function Decide(blocked: set<Id>, location: Id, id: Id, drive: Option<Id>, ancestors: set<Id>): Decision {
    var locations := Locations(id, drive, ancestors);
    if locations * blocked != {} then NotAllowed
    else if location !in locations then NotInSource
    else Granted
  }

  /** The file lies there: the place is the file, its drive, or one of its ancestors. */
  ghost predicate LiesIn(place: Id, id: Id, drive: Option<Id>, ancestors: set<Id>) {
    place == id || place in ancestors || (drive == Some(place) && place != "")
  }

  ghost predicate IsBlocked(blocked: set<Id>, id: Id, drive: Option<Id>, ancestors: set<Id>) {
    exists place :: place in blocked && LiesIn(place, id, drive, ancestors)
  }

  /** What is decided: a file in a blocked place is refused, any other is granted exactly if it lies in the source. */
  lemma DecisionAnswer(blocked: set<Id>, location: Id, id: Id, drive: Option<Id>, ancestors: set<Id>)
    ensures match Decide(blocked, location, id, drive, ancestors)
            case Granted => !IsBlocked(blocked, id, drive, ancestors) && LiesIn(location, id, drive, ancestors)
            case NotAllowed => IsBlocked(blocked, id, drive, ancestors)
            case NotInSource => !IsBlocked(blocked, id, drive, ancestors) && !LiesIn(location, id, drive, ancestors)
  {
    var locations := Locations(id, drive, ancestors);
    assert forall place :: place in locations <==> LiesIn(place, id, drive, ancestors);
    forall place | place in blocked && LiesIn(place, id, drive, ancestors)
      ensures place in locations * blocked
    {}
    if locations * blocked != {} {
      var place :| place in locations * blocked;
      assert place in blocked && LiesIn(place, id, drive, ancestors);
    }
  }

  /** The decision on what was found is the decision on everything there is, within the budget. */
  lemma DecisionIsRight(files: Files, r: Resource, maxDepth: nat, all: set<Id>, blocked: set<Id>, location: Id)
    requires Searched(files, r.id, r.ancestors, maxDepth)
    requires forall a :: a in all <==> IsAncestor(files, r.id, a)
    requires |all| <= maxDepth
    ensures Decide(blocked, location, r.id, r.drive, Elements(r.ancestors)) ==
              Decide(blocked, location, r.id, r.drive, all)
  {
    FindsAll(files, r.id, r.ancestors, maxDepth, all);
  }

  /** No policy is decided wrongly on what was found exactly if the locations found are all there are. */
  ghost predicate NeverWrong(found: set<Id>, all: set<Id>, id: Id, drive: Option<Id>) {
    forall blocked, location :: Decide(blocked, location, id, drive, found) == Decide(blocked, location, id, drive, all)
  }

  lemma NeverWrongIff(found: set<Id>, all: set<Id>, id: Id, drive: Option<Id>)
    requires found <= all
    ensures NeverWrong(found, all, id, drive) <==> Locations(id, drive, found) == Locations(id, drive, all)
  {
    var seen, whole := Locations(id, drive, found), Locations(id, drive, all);
    if seen != whole {
      var missed :| missed in whole && missed !in seen;
      assert missed in whole * {missed} && seen * {missed} == {};
      assert Decide({missed}, id, id, drive, found) != Decide({missed}, id, id, drive, all);
    }
  }

  /** The ancestors that are neither the file itself, on a cycle, nor its drive. */
  function Others(all: set<Id>, id: Id, drive: Option<Id>): set<Id> {
    all - Locations(id, drive, {})
  }

  /** With more of these than the budget, some policy is always decided wrongly. */
  lemma BeyondBudgetSomeDecisionErrs(files: Files, r: Resource, maxDepth: nat, all: set<Id>)
    requires Searched(files, r.id, r.ancestors, maxDepth)
    requires forall a :: a in all <==> IsAncestor(files, r.id, a)
    requires |Others(all, r.id, r.drive)| > maxDepth
    ensures !NeverWrong(Elements(r.ancestors), all, r.id, r.drive)
  {
    var found, others := Elements(r.ancestors), Others(all, r.id, r.drive);
    CountOfElements(r.ancestors);
    if others <= found {
      SubsetIsSmaller(others, found);
      assert false;
    }
    var missed :| missed in others && missed !in found;
    assert missed in Locations(r.id, r.drive, all) && missed !in Locations(r.id, r.drive, found);
    NeverWrongIff(found, all, r.id, r.drive);
  }

  lemma SubsetIsSmaller(a: set<Id>, b: set<Id>)
    requires a <= b
    ensures |a| <= |b|
  {
    assert b == a + (b - a);
  }

  /** For a file that is neither on a cycle nor below its drive's own id, the budget decides. */
  lemma BudgetDecides(files: Files, r: Resource, maxDepth: nat, all: set<Id>)
    requires Searched(files, r.id, r.ancestors, maxDepth)
    requires forall a :: a in all <==> IsAncestor(files, r.id, a)
    requires all !! Locations(r.id, r.drive, {})
    ensures NeverWrong(Elements(r.ancestors), all, r.id, r.drive) <==> |all| <= maxDepth
  {
    assert Others(all, r.id, r.drive) == all;
    if |all| <= maxDepth {
      FindsAll(files, r.id, r.ancestors, maxDepth, all);
    } else {
      BeyondBudgetSomeDecisionErrs(files, r, maxDepth, all);
    }
  }

  /**
    The budget, exactly, cycles and drives included: no policy is decided
    wrongly if and only if all that comes after the first `maxDepth` ancestors in
    breadth-first order is the file itself or its drive.
  */
  lemma BudgetDecidesExactly(files: Files, r: Resource, maxDepth: nat, order: seq<Id>)
    requires IsAnswer(files, r.id, r.ancestors, maxDepth)
    requires BreadthFirst(files, r.id, order) && Complete(files, r.id, order)
    ensures r.ancestors == if |order| <= maxDepth then order else order[..maxDepth]
    ensures NeverWrong(Elements(r.ancestors), Elements(order), r.id, r.drive)
       <==> forall i | maxDepth <= i < |order| :: order[i] in Locations(r.id, r.drive, {})
  {
    hide NeverWrong;
    AnswerIsPrefix(files, r.id, r.ancestors, maxDepth, order);
    BreadthFirstAreAncestors(files, r.id, order);
    var found := Elements(r.ancestors);
    NeverWrongIff(found, Elements(order), r.id, r.drive);
    OnlyTheRest(order, |r.ancestors|, r.id, r.drive);
  }

  lemma OnlyTheRest(order: seq<Id>, n: nat, id: Id, drive: Option<Id>)
    requires n <= |order| && NoRepeats(order)
    ensures Elements(order[..n]) <= Elements(order)
    ensures Locations(id, drive, Elements(order[..n])) == Locations(id, drive, Elements(order))
       <==> forall i | n <= i < |order| :: order[i] in Locations(id, drive, {})
  {
    var seen, whole := Locations(id, drive, Elements(order[..n])), Locations(id, drive, Elements(order));
    forall i | n <= i < |order|
      ensures order[i] in seen <==> order[i] in Locations(id, drive, {})
    {
      assert order[i] !in order[..n];
    }
    forall x | x in Elements(order)
      ensures x in Elements(order[..n]) || exists i :: n <= i < |order| && order[i] == x
    {
      var i :| 0 <= i < |order| && order[i] == x;
      assert i < n ==> x == order[..n][i];
    }
    assert seen <= whole;
    assert forall i | n <= i < |order| :: order[i] in whole;
  }

  /**
    Where the file and its drive can only come last, as on a chain up to the
    drive's root, it is a matter of counting.
  */
  lemma BudgetDecidesBelowDrive(files: Files, r: Resource, maxDepth: nat, order: seq<Id>)
    requires IsAnswer(files, r.id, r.ancestors, maxDepth)
    requires BreadthFirst(files, r.id, order) && Complete(files, r.id, order)
    requires forall i | 0 <= i < |order| - 1 :: order[i] !in Locations(r.id, r.drive, {})
    ensures NeverWrong(Elements(r.ancestors), Elements(order), r.id, r.drive)
       <==> |Others(Elements(order), r.id, r.drive)| <= maxDepth
  {
    hide NeverWrong, BreadthFirst, Complete;
    BudgetDecidesExactly(files, r, maxDepth, order);
    BreadthFirstAreAncestors(files, r.id, order);
    CountOthers(order, r.id, r.drive);
    assert maxDepth < |order| ==> order[maxDepth] == order[maxDepth..][0];
  }

  lemma CountOthers(order: seq<Id>, id: Id, drive: Option<Id>)
    requires NoRepeats(order) && forall i | 0 <= i < |order| - 1 :: order[i] !in Locations(id, drive, {})
    ensures var n := |order| - 1;
            |Others(Elements(order), id, drive)| ==
              if n >= 0 && order[n] in Locations(id, drive, {}) then n else |order|
  {
    hide NoRepeats, Locations;
    var n := |order| - 1;
    CountOfElements(order);
    if n >= 0 {
      PrefixHasNoRepeats(order, n);
      CountOfElements(order[..n]);
      assert order == order[..n] + [order[n]];
      OthersButLast(order[..n], order[n], id, drive);
    }
  }

  lemma OthersButLast(front: seq<Id>, last: Id, id: Id, drive: Option<Id>)
    requires forall i | 0 <= i < |front| :: front[i] !in Locations(id, drive, {})
    ensures Others(Elements(front + [last]), id, drive) ==
              if last in Locations(id, drive, {}) then Elements(front) else Elements(front + [last])
  {
    hide Locations;
    assert forall x | x in front :: x !in Locations(id, drive, {});
    assert Elements(front + [last]) == Elements(front) + {last};
  }

  lemma PrefixHasNoRepeats(s: seq<Id>, n: nat)
    requires NoRepeats(s) && n <= |s|
    ensures NoRepeats(s[..n])
  {}

  /** A file two folders deep, the outer one blocked, searched with a budget of one. */
  lemma BudgetCanHideABlock()
    ensures var files :=
              map["file" := File(["folder"], None), "folder" := File(["blocked"], None), "blocked" := File([], None)];
            && (forall found, far | Searched(files, "file", found, 1) && NearestFirst(files, "file", found, far) ::
                  found == ["folder"])
            && IsAncestor(files, "file", "blocked")
            && Decide({"blocked"}, "folder", "file", None, {"folder"}) == Granted
            && Decide({"blocked"}, "folder", "file", None, {"folder", "blocked"}) == NotAllowed
  {
    var files :=
      map["file" := File(["folder"], None), "folder" := File(["blocked"], None), "blocked" := File([], None)];
    ParentIsAncestor(files, "file", "folder");
    ParentOfAncestor(files, "file", "folder", "blocked");
    forall found, far | Searched(files, "file", found, 1) && NearestFirst(files, "file", found, far)
      ensures found == ["folder"]
    {
      OnlyParentIsFirst(files, "file", "folder", found, far);
    }
    assert "blocked" in Locations("file", None, {"folder", "blocked"}) * {"blocked"};
  }

  /** A readable source of the registry. */
  datatype Source = Source(location: Id, readable: bool)

  /** `authorize`: the first readable source that the resource lies in. */
  function FirstSource(sources: seq<Source>, locations: set<Id>): (r: Option<Source>)
    ensures r.Some? ==> r.value in sources && r.value.readable && r.value.location in locations
    ensures r.Some? ==> exists i :: 0 <= i < |sources| && sources[i] == r.value
                                    && forall j | 0 <= j < i ::
                                       !(sources[j].readable && sources[j].location in locations)
    ensures r.None? ==> forall s | s in sources && s.readable :: s.location !in locations
  {
    if sources == [] then None
    else if sources[0].readable && sources[0].location in locations then Some(sources[0])
    else
      assert forall k | 0 < k < |sources| :: sources[k] == sources[1..][k - 1];
      assert forall k | 0 <= k < |sources| - 1 :: sources[1..][k] == sources[k + 1];
      FirstSource(sources[1..], locations)
  }

  function Authorize(blocked: set<Id>, sources: seq<Source>, id: Id, drive: Option<Id>,
                     ancestors: set<Id>): Option<Source> {
    var locations := Locations(id, drive, ancestors);
    if locations * blocked != {} then None else FirstSource(sources, locations)
  }

  lemma AuthorizeIsRight(files: Files, r: Resource, maxDepth: nat, all: set<Id>, blocked: set<Id>, sources: seq<Source>)
    requires Searched(files, r.id, r.ancestors, maxDepth)
    requires forall a :: a in all <==> IsAncestor(files, r.id, a)
    requires |all| <= maxDepth
    ensures Authorize(blocked, sources, r.id, r.drive, Elements(r.ancestors)) ==
              Authorize(blocked, sources, r.id, r.drive, all)
  {
    FindsAll(files, r.id, r.ancestors, maxDepth, all);
  }

  /** The grant is the first readable source that the file lies in, unless the file is blocked. */
  lemma AuthorizationAnswer(blocked: set<Id>, sources: seq<Source>, id: Id, drive: Option<Id>, ancestors: set<Id>)
    ensures match Authorize(blocked, sources, id, drive, ancestors)
            case Some(source) =>
              && !IsBlocked(blocked, id, drive, ancestors)
              && exists i :: && 0 <= i < |sources| && sources[i] == source
                             && source.readable && LiesIn(source.location, id, drive, ancestors)
                             && forall j | 0 <= j < i ::
                                  !(sources[j].readable && LiesIn(sources[j].location, id, drive, ancestors))
            case None =>
              || IsBlocked(blocked, id, drive, ancestors)
              || forall j | 0 <= j < |sources| ::
                   !(sources[j].readable && LiesIn(sources[j].location, id, drive, ancestors))
  {
    DecisionAnswer(blocked, id, id, drive, ancestors);
    assert forall place :: place in Locations(id, drive, ancestors) <==> LiesIn(place, id, drive, ancestors);
    hide Locations, LiesIn, IsBlocked;
  }
}
