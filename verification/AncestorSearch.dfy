/**
  Which folders a Drive file lies in (app/adapters/google_workspace/drive.py, `get_resource`).
*/
module AncestorSearch {
  import opened Wrappers

  type Id = string

  /** A file's metadata: its parents and the shared drive it is on, if any. */
  datatype File = File(parents: seq<Id>, drive: Option<Id>)

  /** What the provider knows; asking for anything else raises. */
  type Files = map<Id, File>

  const NotFound := "resource_not_found"

  datatype Resource = Resource(id: Id, drive: Option<Id>, ancestors: seq<Id>)

  /** Each file of the path is a parent of the one before. */
  ghost predicate IsPath(files: Files, path: seq<Id>) {
    forall i | 0 <= i < |path| - 1 :: IsParent(files, path[i], path[i + 1])
  }

  predicate IsParent(files: Files, id: Id, parent: Id) {
    id in files && parent in files[id].parents
  }

  ghost predicate Leads(files: Files, path: seq<Id>, id: Id, ancestor: Id) {
    |path| >= 2 && path[0] == id && path[|path| - 1] == ancestor && IsPath(files, path)
  }

  ghost predicate IsAncestor(files: Files, id: Id, ancestor: Id) {
    exists path :: Leads(files, path, id, ancestor)
  }

  lemma ParentIsAncestor(files: Files, id: Id, parent: Id)
    requires IsParent(files, id, parent)
    ensures IsAncestor(files, id, parent)
  {
    assert Leads(files, [id, parent], id, parent);
  }

  lemma ParentOfAncestor(files: Files, id: Id, a: Id, parent: Id)
    requires IsAncestor(files, id, a) && IsParent(files, a, parent)
    ensures IsAncestor(files, id, parent)
  {
    var path :| Leads(files, path, id, a);
    var longer := path + [parent];
    forall i | 0 <= i < |longer| - 1
      ensures IsParent(files, longer[i], longer[i + 1])
    {
      assert i < |path| - 1 ==> IsParent(files, path[i], path[i + 1]);
    }
    assert Leads(files, longer, id, parent);
  }

  /** All these are ancestors. */
  ghost predicate AllAncestors(files: Files, id: Id, found: seq<Id>) {
    forall a | a in found :: IsAncestor(files, id, a)
  }

  /** The parents of `id` and of everything found are found or waiting. */
  ghost predicate Closed(files: Files, id: Id, found: seq<Id>, pending: seq<Id>) {
    forall x, p | (x == id || x in found) && IsParent(files, x, p) :: p in found || p in pending
  }

  ghost predicate NoRepeats(s: seq<Id>) {
    forall i, j | 0 <= i < j < |s| :: s[i] != s[j]
  }

  function Elements(s: seq<Id>): set<Id> {
    set x | x in s
  }

  lemma {:induction false} CountOfElements(s: seq<Id>)
    requires NoRepeats(s)
    ensures |Elements(s)| == |s|
  {
    if s != [] {
      var n := |s| - 1;
      CountOfElements(s[..n]);
      assert s == s[..n] + [s[n]];
      assert Elements(s) == Elements(s[..n]) + {s[n]};
    }
  }

  /** With nothing waiting, everything that can be reached is found. */
  lemma {:induction false} ClosedIsComplete(files: Files, id: Id, found: seq<Id>, path: seq<Id>)
    requires Closed(files, id, found, []) && |path| >= 2 && path[0] == id && IsPath(files, path)
    ensures path[|path| - 1] in found
    decreases |path|
  {
    var n := |path| - 1;
    assert IsParent(files, path[n - 1], path[n]);
    if n > 1 {
      ClosedIsComplete(files, id, found, path[..n]);
    }
  }

  /** Where the search stands. */
  ghost predicate Searching(files: Files, id: Id, found: seq<Id>, pending: seq<Id>) {
    && id in files
    && NoRepeats(found)
    && AllAncestors(files, id, found) && AllAncestors(files, id, pending)
    && Closed(files, id, found, pending)
    && forall a | a in found :: a in files
  }

  lemma SearchStarts(files: Files, id: Id)
    requires id in files
    ensures Searching(files, id, [], files[id].parents)
  {
    forall p | p in files[id].parents
      ensures IsAncestor(files, id, p)
    {
      ParentIsAncestor(files, id, p);
    }
  }

  lemma SkipSeen(files: Files, id: Id, found: seq<Id>, pending: seq<Id>)
    requires Searching(files, id, found, pending) && pending != [] && pending[0] in found
    ensures Searching(files, id, found, pending[1..])
  {
    assert forall p | p in pending :: p == pending[0] || p in pending[1..];
  }

  lemma VisitNext(files: Files, id: Id, found: seq<Id>, pending: seq<Id>)
    requires Searching(files, id, found, pending) && pending != [] && pending[0] !in found && pending[0] in files
    ensures Searching(files, id, found + [pending[0]], pending[1..] + files[pending[0]].parents)
  {
    var next := pending[0];
    var now, later := found + [next], pending[1..] + files[next].parents;
    forall p | p in files[next].parents
      ensures IsAncestor(files, id, p)
    {
      ParentOfAncestor(files, id, next, p);
    }
    forall x, p | (x == id || x in now) && IsParent(files, x, p)
      ensures p in now || p in later
    {
      if x == next && !(x == id || x in found) {
        assert p in files[next].parents;
      } else {
        assert p in found || p in pending;
        assert p in pending ==> p == next || p in pending[1..];
      }
    }
  }

  // ---- nearest first ----

  /** There is a way of `n` parent links from `id` to `a`. */
  ghost predicate InSteps(files: Files, id: Id, a: Id, n: nat) {
    exists path :: |path| == n + 1 && Leads(files, path, id, a)
  }

  /** `b` is a step beyond `x`, which is `level` steps away: it is found, or waits, no further than that. */
  ghost predicate Caught(found: seq<Id>, far: seq<nat>, pending: seq<Id>, next: seq<nat>, b: Id, level: nat)
    requires |far| == |found| && |next| == |pending|
  {
    || (exists i :: 0 <= i < |found| && found[i] == b && far[i] <= level)
    || (exists j :: 0 <= j < |pending| && pending[j] == b && next[j] <= level)
  }

  ghost predicate Sorted(s: seq<nat>) {
    forall i, j | 0 <= i < j < |s| :: s[i] <= s[j]
  }

  /** `far` and `next` say how far away the files found and waiting are. */
  ghost predicate Levelled(files: Files, id: Id, found: seq<Id>, far: seq<nat>, pending: seq<Id>, next: seq<nat>) {
    && |far| == |found| && |next| == |pending|
    && Sorted(far + next)
    && (forall j | 0 <= j < |next| :: next[j] <= next[0] + 1)
    && (forall i | 0 <= i < |found| :: InSteps(files, id, found[i], far[i]))
    && (forall j | 0 <= j < |pending| :: InSteps(files, id, pending[j], next[j]))
    && (forall p | IsParent(files, id, p) :: Caught(found, far, pending, next, p, 1))
    && (forall i, p | 0 <= i < |found| && IsParent(files, found[i], p) ::
        Caught(found, far, pending, next, p, far[i] + 1))
  }

  function Same(n: nat, level: nat): seq<nat> {
    seq(n, _ => level)
  }

  lemma StepToParent(files: Files, id: Id, a: Id, n: nat, p: Id)
    requires IsParent(files, a, p) && (if n == 0 then a == id else InSteps(files, id, a, n))
    ensures InSteps(files, id, p, n + 1)
  {
    if n == 0 {
      assert Leads(files, [id, p], id, p);
    } else {
      var path :| |path| == n + 1 && Leads(files, path, id, a);
      var longer := path + [p];
      forall i | 0 <= i < |longer| - 1
        ensures IsParent(files, longer[i], longer[i + 1])
      {
        assert i < |path| - 1 ==> IsParent(files, path[i], path[i + 1]);
      }
      assert Leads(files, longer, id, p);
    }
  }

  lemma LevelsStart(files: Files, id: Id)
    requires id in files
    ensures Levelled(files, id, [], [], files[id].parents, Same(|files[id].parents|, 1))
  {
    var parents := files[id].parents;
    forall j | 0 <= j < |parents|
      ensures InSteps(files, id, parents[j], 1)
    {
      StepToParent(files, id, id, 0, parents[j]);
    }
    forall p | IsParent(files, id, p)
      ensures Caught([], [], parents, Same(|parents|, 1), p, 1)
    {
      var j :| 0 <= j < |parents| && parents[j] == p;
      assert Same(|parents|, 1)[j] == 1;
    }
  }

  lemma CaughtWithoutHead(found: seq<Id>, far: seq<nat>, pending: seq<Id>, next: seq<nat>, b: Id, level: nat, k: nat)
    requires |far| == |found| && |next| == |pending| > 0
    requires k < |found| && found[k] == pending[0] && far[k] <= next[0]
    requires Caught(found, far, pending, next, b, level)
    ensures Caught(found, far, pending[1..], next[1..], b, level)
  {
    if j :| 0 <= j < |pending| && pending[j] == b && next[j] <= level {
      if j > 0 {
        assert pending[1..][j - 1] == b && next[1..][j - 1] == next[j];
      }
    }
  }

  lemma LevelsSkip(files: Files, id: Id, found: seq<Id>, far: seq<nat>, pending: seq<Id>, next: seq<nat>)
    requires Levelled(files, id, found, far, pending, next) && pending != [] && pending[0] in found
    ensures Levelled(files, id, found, far, pending[1..], next[1..])
  {
    var k :| 0 <= k < |found| && found[k] == pending[0];
    SortedParts(far, next, k);
    forall p | IsParent(files, id, p)
      ensures Caught(found, far, pending[1..], next[1..], p, 1)
    {
      CaughtWithoutHead(found, far, pending, next, p, 1, k);
    }
    forall i, p | 0 <= i < |found| && IsParent(files, found[i], p)
      ensures Caught(found, far, pending[1..], next[1..], p, far[i] + 1)
    {
      CaughtWithoutHead(found, far, pending, next, p, far[i] + 1, k);
    }
  }

  lemma SortedParts(far: seq<nat>, next: seq<nat>, k: nat)
    requires Sorted(far + next) && next != [] && k < |far|
    requires forall j | 0 <= j < |next| :: next[j] <= next[0] + 1
    ensures far[k] <= next[0]
    ensures Sorted(far + next[1..])
    ensures forall j | 1 <= j < |next| :: next[1..][j - 1] == next[j] <= next[1] + 1
  {
    var all, fewer := far + next, far + next[1..];
    assert all[k] == far[k] && all[|far|] == next[0];
    assert |next| > 1 ==> all[|far| + 1] == next[1];
    forall i, j | 0 <= i < j < |fewer|
      ensures fewer[i] <= fewer[j]
    {
      assert fewer[i] == all[if i < |far| then i else i + 1] && fewer[j] == all[if j < |far| then j else j + 1];
    }
  }

  lemma CaughtAfterVisit(found: seq<Id>, far: seq<nat>, pending: seq<Id>, next: seq<nat>, b: Id, level: nat,
                         parents: seq<Id>, more: seq<nat>)
    requires |far| == |found| && |next| == |pending| > 0 && |more| == |parents|
    requires Caught(found, far, pending, next, b, level)
    ensures Caught(found + [pending[0]], far + [next[0]], pending[1..] + parents, next[1..] + more, b, level)
  {
    var found', far', pending', next' :=
      found + [pending[0]], far + [next[0]], pending[1..] + parents, next[1..] + more;
    if i :| 0 <= i < |found| && found[i] == b && far[i] <= level {
      assert found'[i] == b && far'[i] <= level;
    } else {
      var j :| 0 <= j < |pending| && pending[j] == b && next[j] <= level;
      if j == 0 {
        assert found'[|found|] == b && far'[|found|] <= level;
      } else {
        assert pending'[j - 1] == b && next'[j - 1] <= level;
      }
    }
  }

  lemma SortedVisit(far: seq<nat>, next: seq<nat>, n: nat)
    requires Sorted(far + next) && next != [] && forall j | 0 <= j < |next| :: next[j] <= next[0] + 1
    ensures var next' := next[1..] + Same(n, next[0] + 1);
            Sorted((far + [next[0]]) + next') && forall j | 0 <= j < |next'| :: next'[j] <= next'[0] + 1
  {
    var all, next' := far + next, next[1..] + Same(n, next[0] + 1);
    var now := (far + [next[0]]) + next';
    assert forall i | 0 <= i < |all| :: now[i] == all[i];
    assert forall i | |all| <= i < |now| :: now[i] == next[0] + 1;
    assert forall i | 0 <= i < |far| :: all[i] <= all[|far|] == next[0];
    forall j | 0 <= j < |next|
      ensures next[0] <= next[j]
    {
      assert all[|far|] == next[0] && all[|far| + j] == next[j];
    }
    assert forall j | 0 <= j < |next'| :: next[0] <= next'[j] <= next[0] + 1;
  }

  lemma StepsAfterVisit(files: Files, id: Id, pending: seq<Id>, next: seq<nat>)
    requires |next| == |pending| && forall j | 0 <= j < |pending| :: InSteps(files, id, pending[j], next[j])
    requires pending != [] && pending[0] in files && next[0] > 0
    ensures var parents := files[pending[0]].parents;
            var pending', next' := pending[1..] + parents, next[1..] + Same(|parents|, next[0] + 1);
            forall j | 0 <= j < |pending'| :: InSteps(files, id, pending'[j], next'[j])
  {
    hide InSteps;
    var parents, level := files[pending[0]].parents, next[0];
    var pending', next' := pending[1..] + parents, next[1..] + Same(|parents|, level + 1);
    forall j | 0 <= j < |pending'|
      ensures InSteps(files, id, pending'[j], next'[j])
    {
      if j < |pending| - 1 {
        assert pending'[j] == pending[j + 1] && next'[j] == next[j + 1];
      } else {
        StepToParent(files, id, pending[0], level, parents[j - |pending| + 1]);
        assert pending'[j] == parents[j - |pending| + 1] && next'[j] == level + 1;
      }
    }
  }

  /** The parents of the file visited wait at the end. */
  lemma ParentsAreCaught(found: seq<Id>, far: seq<nat>, pending: seq<Id>, next: seq<nat>, parents: seq<Id>,
                         level: nat, p: Id)
    requires |far| == |found| && |next| == |pending| && p in parents
    ensures Caught(found, far, pending + parents, next + Same(|parents|, level), p, level)
  {
    var j :| 0 <= j < |parents| && parents[j] == p;
    assert (pending + parents)[|pending| + j] == p && (next + Same(|parents|, level))[|pending| + j] == level;
  }

  lemma LevelsVisit(files: Files, id: Id, found: seq<Id>, far: seq<nat>, pending: seq<Id>, next: seq<nat>)
    requires Levelled(files, id, found, far, pending, next) && pending != [] && pending[0] in files && next[0] > 0
    ensures var parents := files[pending[0]].parents;
            Levelled(files, id, found + [pending[0]], far + [next[0]], pending[1..] + parents,
                     next[1..] + Same(|parents|, next[0] + 1))
  {
    hide InSteps, Sorted, Caught;
    var x, level := pending[0], next[0];
    var parents := files[x].parents;
    var more := Same(|parents|, level + 1);
    var found', far', pending', next' := found + [x], far + [level], pending[1..] + parents, next[1..] + more;
    SortedVisit(far, next, |parents|);
    StepsAfterVisit(files, id, pending, next);
    forall p | IsParent(files, id, p)
      ensures Caught(found', far', pending', next', p, 1)
    {
      CaughtAfterVisit(found, far, pending, next, p, 1, parents, more);
    }
    forall i, p | 0 <= i < |found'| && IsParent(files, found'[i], p)
      ensures Caught(found', far', pending', next', p, far'[i] + 1)
    {
      if i < |found| {
        CaughtAfterVisit(found, far, pending, next, p, far[i] + 1, parents, more);
      } else {
        ParentsAreCaught(found', far', pending[1..], next[1..], parents, level + 1, p);
      }
    }
  }

  /** However a file is reached, it is found within that many steps or something no further is still waiting. */
  lemma {:induction false} FoundOrWaiting(files: Files, id: Id, found: seq<Id>, far: seq<nat>, pending: seq<Id>,
                                          next: seq<nat>, path: seq<Id>)
    requires Levelled(files, id, found, far, pending, next)
    requires |path| >= 2 && path[0] == id && IsPath(files, path)
    ensures var a, n := path[|path| - 1], |path| - 1;
            || (exists i :: 0 <= i < |found| && found[i] == a && far[i] <= n)
            || (exists j :: 0 <= j < |pending| && next[j] <= n)
    decreases |path|
  {
    var n := |path| - 1;
    assert IsParent(files, path[n - 1], path[n]);
    if n == 1 {
      assert Caught(found, far, pending, next, path[1], 1);
    } else {
      FoundOrWaiting(files, id, found, far, pending, next, path[..n]);
      if i :| 0 <= i < |found| && found[i] == path[n - 1] && far[i] <= n - 1 {
        assert Caught(found, far, pending, next, path[n], far[i] + 1);
      }
    }
  }

  /**
    `far` are the true distances of the files found, which come nearest first,
    and nothing that was not found is nearer than anything that was.
  */
  ghost predicate NearestFirst(files: Files, id: Id, found: seq<Id>, far: seq<nat>) {
    && |far| == |found| && Sorted(far)
    && (forall i | 0 <= i < |found| :: InSteps(files, id, found[i], far[i]))
    && (forall i, n: nat | 0 <= i < |found| && n > 0 && InSteps(files, id, found[i], n) :: far[i] <= n)
    && (forall i, a, n: nat | 0 <= i < |found| && n > 0 && a !in found && InSteps(files, id, a, n) :: far[i] <= n)
  }

  lemma LevelsAreDistances(files: Files, id: Id, found: seq<Id>, far: seq<nat>, pending: seq<Id>, next: seq<nat>)
    requires Levelled(files, id, found, far, pending, next) && NoRepeats(found)
    ensures NearestFirst(files, id, found, far)
  {
    assert forall i, j | 0 <= i < j < |far| :: (far + next)[i] == far[i] && (far + next)[j] == far[j];
    forall i, a, n: nat | 0 <= i < |found| && n > 0 && (a == found[i] || a !in found) && InSteps(files, id, a, n)
      ensures far[i] <= n
    {
      var path :| |path| == n + 1 && Leads(files, path, id, a);
      FoundOrWaiting(files, id, found, far, pending, next, path);
      if j :| 0 <= j < |pending| && next[j] <= n {
        assert (far + next)[i] == far[i] && (far + next)[|far| + j] == next[j];
      }
    }
  }

  /** The search stopped because nothing is left, or because the budget is used up. */
  ghost predicate Searched(files: Files, id: Id, found: seq<Id>, maxDepth: nat) {
    && NoRepeats(found) && AllAncestors(files, id, found) && |found| <= maxDepth
    && (|found| == maxDepth || Closed(files, id, found, []))
  }

  /** Something the provider cannot be asked about: the file itself or an ancestor. */
  ghost predicate IsMissing(files: Files, id: Id) {
    id !in files || exists a :: a !in files && IsAncestor(files, id, a)
  }

  // ---- the order of the search ----

  function ParentsOf(files: Files, id: Id): seq<Id> {
    if id in files then files[id].parents else []
  }

  /** The parents of the file and then of everything found, in that order. */
  ghost function Discovered(files: Files, id: Id, found: seq<Id>): seq<Id> {
    if found == [] then ParentsOf(files, id)
    else Discovered(files, id, found[..|found| - 1]) + ParentsOf(files, found[|found| - 1])
  }

  /** The first of these that is not yet found. */
  ghost predicate IsNext(files: Files, id: Id, found: seq<Id>, a: Id) {
    a !in found && exists k :: IsFirstNew(Discovered(files, id, found), found, a, k)
  }

  ghost predicate IsFirstNew(discovered: seq<Id>, found: seq<Id>, a: Id, k: int) {
    0 <= k < |discovered| && discovered[k] == a && forall j | 0 <= j < k :: discovered[j] in found
  }

  /** Files in breadth-first order. */
  ghost predicate BreadthFirst(files: Files, id: Id, found: seq<Id>) {
    if found == [] then true
    else
      var n := |found| - 1;
      BreadthFirst(files, id, found[..n]) && IsNext(files, id, found[..n], found[n])
  }

  ghost predicate Complete(files: Files, id: Id, found: seq<Id>) {
    forall p | p in Discovered(files, id, found) :: p in found
  }

  /** What a search with this budget is to find: the first so many in breadth-first order, or all. */
  ghost predicate IsAnswer(files: Files, id: Id, found: seq<Id>, maxDepth: nat) {
    BreadthFirst(files, id, found) && |found| <= maxDepth && (|found| == maxDepth || Complete(files, id, found))
  }

  /** A file among the first `maxDepth` in that order is missing. */
  ghost predicate HitsMissing(files: Files, id: Id, maxDepth: nat) {
    exists found, a ::
      BreadthFirst(files, id, found) && |found| < maxDepth && IsNext(files, id, found, a) && a !in files
  }

  lemma NextIsUnique(files: Files, id: Id, found: seq<Id>, a: Id, b: Id)
    requires IsNext(files, id, found, a) && IsNext(files, id, found, b)
    ensures a == b
  {
    var discovered := Discovered(files, id, found);
    var j :| IsFirstNew(discovered, found, a, j);
    var k :| IsFirstNew(discovered, found, b, k);
  }

  lemma NothingAfterComplete(files: Files, id: Id, found: seq<Id>, a: Id)
    ensures Complete(files, id, found) ==> !IsNext(files, id, found, a)
  {}

  /** There is one order only. */
  lemma {:induction false} OneOrder(files: Files, id: Id, found: seq<Id>, longer: seq<Id>)
    requires BreadthFirst(files, id, found) && BreadthFirst(files, id, longer) && |found| <= |longer|
    ensures longer[..|found|] == found
    decreases |found| + |longer|
  {
    hide IsNext;
    if |found| < |longer| {
      OneOrder(files, id, found, longer[..|longer| - 1]);
      assert longer[..|longer| - 1][..|found|] == longer[..|found|];
    } else if found != [] {
      var n := |found| - 1;
      OneOrder(files, id, found[..n], longer[..n]);
      assert longer[..n] == found[..n];
      NextIsUnique(files, id, found[..n], found[n], longer[n]);
    }
  }

  lemma {:induction false} PrefixIsBreadthFirst(files: Files, id: Id, found: seq<Id>, n: nat)
    requires BreadthFirst(files, id, found) && n <= |found|
    ensures BreadthFirst(files, id, found[..n])
    ensures n < |found| ==> IsNext(files, id, found[..n], found[n])
  {
    hide IsNext;
    if n < |found| {
      PrefixIsBreadthFirst(files, id, found[..|found| - 1], n);
      assert found[..|found| - 1][..n] == found[..n];
    } else {
      assert found[..n] == found;
    }
  }

  /** The queue: what was discovered and not yet looked at. */
  ghost predicate Queued(discovered: seq<Id>, found: seq<Id>, pending: seq<Id>) {
    var n := |discovered| - |pending|;
    0 <= n && discovered[n..] == pending && forall j | 0 <= j < n :: discovered[j] in found
  }

  ghost predicate Ordered(files: Files, id: Id, found: seq<Id>, pending: seq<Id>) {
    BreadthFirst(files, id, found) && Queued(Discovered(files, id, found), found, pending)
    && forall a | a in found :: a in files
  }

  lemma OrderedFromStart(files: Files, id: Id)
    requires id in files
    ensures Ordered(files, id, [], files[id].parents)
  {}

  lemma OrderedBySkipping(files: Files, id: Id, found: seq<Id>, pending: seq<Id>)
    requires Ordered(files, id, found, pending) && pending != [] && pending[0] in found
    ensures Ordered(files, id, found, pending[1..])
  {
    var discovered := Discovered(files, id, found);
    assert discovered[|discovered| - |pending|] == pending[0];
  }

  lemma OrderedHead(files: Files, id: Id, found: seq<Id>, pending: seq<Id>)
    requires Ordered(files, id, found, pending) && pending != [] && pending[0] !in found
    ensures IsNext(files, id, found, pending[0])
  {
    var discovered := Discovered(files, id, found);
    assert IsFirstNew(discovered, found, pending[0], |discovered| - |pending|);
  }

  lemma QueuedMore(discovered: seq<Id>, found: seq<Id>, pending: seq<Id>, parents: seq<Id>)
    requires Queued(discovered, found, pending) && pending != []
    ensures Queued(discovered + parents, found + [pending[0]], pending[1..] + parents)
  {
    var n := |discovered| - |pending|;
    assert discovered[n] == pending[0];
    assert (discovered + parents)[n + 1..] == pending[1..] + parents;
  }

  lemma OrderedByVisiting(files: Files, id: Id, found: seq<Id>, pending: seq<Id>)
    requires Ordered(files, id, found, pending) && pending != [] && pending[0] !in found && pending[0] in files
    ensures Ordered(files, id, found + [pending[0]], pending[1..] + files[pending[0]].parents)
  {
    hide Queued, IsNext;
    var next := found + [pending[0]];
    assert next[..|next| - 1] == found;
    OrderedHead(files, id, found, pending);
    QueuedMore(Discovered(files, id, found), found, pending, files[pending[0]].parents);
  }

  lemma HitsMissingNow(files: Files, id: Id, found: seq<Id>, pending: seq<Id>, maxDepth: nat)
    requires Ordered(files, id, found, pending) && |found| < maxDepth
    requires pending != [] && pending[0] !in found && pending[0] !in files
    ensures HitsMissing(files, id, maxDepth)
  {
    OrderedHead(files, id, found, pending);
  }

  lemma OrderedAtEnd(files: Files, id: Id, found: seq<Id>, pending: seq<Id>, maxDepth: nat)
    requires Ordered(files, id, found, pending) && |found| <= maxDepth && (pending == [] || |found| == maxDepth)
    ensures IsAnswer(files, id, found, maxDepth) && !HitsMissing(files, id, maxDepth)
  {
    hide IsNext;
    if pending == [] {
      assert Queued(Discovered(files, id, found), found, []);
    }
    forall other, a | BreadthFirst(files, id, other) && |other| < maxDepth && IsNext(files, id, other, a)
      ensures a in files
    {
      AnswerHasNext(files, id, found, maxDepth, other, a);
    }
  }

  /** What comes next in a shorter search, the answer has there. */
  lemma AnswerHasNext(files: Files, id: Id, found: seq<Id>, maxDepth: nat, other: seq<Id>, a: Id)
    requires IsAnswer(files, id, found, maxDepth)
    requires BreadthFirst(files, id, other) && |other| < maxDepth && IsNext(files, id, other, a)
    ensures |other| < |found| && found[|other|] == a
  {
    hide IsNext, Complete;
    if |other| < |found| {
      OneOrder(files, id, other, found);
      PrefixIsBreadthFirst(files, id, found, |other|);
      NextIsUnique(files, id, other, a, found[|other|]);
    } else {
      OneOrder(files, id, found, other);
      var b := if |found| < |other| then other[|found|] else a;
      if |found| < |other| {
        PrefixIsBreadthFirst(files, id, other, |found|);
      } else {
        assert other[..|found|] == other;
      }
      NothingAfterComplete(files, id, found, b);
    }
  }

  /** The invariant of the search. */
  ghost predicate Explored(files: Files, id: Id, found: seq<Id>, far: seq<nat>, pending: seq<Id>, next: seq<nat>) {
    && Searching(files, id, found, pending)
    && Levelled(files, id, found, far, pending, next)
    && forall j | 0 <= j < |next| :: next[j] > 0
  }

  lemma ExploredFromStart(files: Files, id: Id)
    requires id in files
    ensures Explored(files, id, [], [], files[id].parents, Same(|files[id].parents|, 1))
  {
    SearchStarts(files, id);
    LevelsStart(files, id);
  }

  lemma ExploredBySkipping(files: Files, id: Id, found: seq<Id>, far: seq<nat>, pending: seq<Id>, next: seq<nat>)
    requires Explored(files, id, found, far, pending, next) && pending != [] && pending[0] in found
    ensures Explored(files, id, found, far, pending[1..], next[1..])
  {
    SkipSeen(files, id, found, pending);
    LevelsSkip(files, id, found, far, pending, next);
  }

  lemma ExploredByVisiting(files: Files, id: Id, found: seq<Id>, far: seq<nat>, pending: seq<Id>, next: seq<nat>)
    requires Explored(files, id, found, far, pending, next)
    requires pending != [] && pending[0] !in found && pending[0] in files
    ensures var parents := files[pending[0]].parents;
            Explored(files, id, found + [pending[0]], far + [next[0]], pending[1..] + parents,
                     next[1..] + Same(|parents|, next[0] + 1))
  {
    VisitNext(files, id, found, pending);
    LevelsVisit(files, id, found, far, pending, next);
  }

  lemma ExploredHead(files: Files, id: Id, found: seq<Id>, far: seq<nat>, pending: seq<Id>, next: seq<nat>)
    requires Explored(files, id, found, far, pending, next) && pending != []
    ensures id in files && |next| == |pending| && IsAncestor(files, id, pending[0])
  {}

  lemma ExploredAtEnd(files: Files, id: Id, found: seq<Id>, far: seq<nat>, pending: seq<Id>, next: seq<nat>,
                      maxDepth: nat)
    requires Explored(files, id, found, far, pending, next)
    requires |found| <= maxDepth && (pending == [] || |found| == maxDepth)
    ensures Searched(files, id, found, maxDepth) && NearestFirst(files, id, found, far)
  {
    LevelsAreDistances(files, id, found, far, pending, next);
  }

  /** `get_resource`: a queue of parents, each looked up once, up to the depth budget. */
  method GetResource(files: Files, id: Id, maxDepth: nat) returns (r: Result<Resource, string>, ghost far: seq<nat>)
    ensures r.Ok? ==> id in files && r.value.id == id && r.value.drive == files[id].drive
    ensures r.Ok? ==> Searched(files, id, r.value.ancestors, maxDepth)
    ensures r.Ok? ==> NearestFirst(files, id, r.value.ancestors, far)
    ensures r.Ok? ==> IsAnswer(files, id, r.value.ancestors, maxDepth)
    ensures r.Err? ==> r.error == NotFound && IsMissing(files, id)
    ensures r.Err? <==> id !in files || HitsMissing(files, id, maxDepth)
  {
    hide Explored, Searched, NearestFirst, IsAncestor, Ordered, IsAnswer, HitsMissing;
    if id !in files {
      return Err(NotFound), [];
    }
    var ancestors, pending, depth: nat := [], files[id].parents, 0;
    var visited: set<Id> := {};
    ghost var next := Same(|pending|, 1);
    far := [];
    ExploredFromStart(files, id);
    OrderedFromStart(files, id);
    while pending != [] && depth < maxDepth
      invariant Explored(files, id, ancestors, far, pending, next) && Ordered(files, id, ancestors, pending)
      invariant visited == Elements(ancestors) && depth == |ancestors| <= maxDepth
      decreases maxDepth - depth, |pending|
    {
      var parent := pending[0];
      ExploredHead(files, id, ancestors, far, pending, next);
      if parent in visited {
        ExploredBySkipping(files, id, ancestors, far, pending, next);
        OrderedBySkipping(files, id, ancestors, pending);
        pending, next := pending[1..], next[1..];
      } else {
        if parent !in files {
          HitsMissingNow(files, id, ancestors, pending, maxDepth);
          return Err(NotFound), [];
        }
        ExploredByVisiting(files, id, ancestors, far, pending, next);
        OrderedByVisiting(files, id, ancestors, pending);
        far, next := far + [next[0]], next[1..] + Same(|files[parent].parents|, next[0] + 1);
        visited := visited + {parent};
        ancestors := ancestors + [parent];
        pending := pending[1..] + files[parent].parents;
        depth := depth + 1;
      }
    }
    ExploredAtEnd(files, id, ancestors, far, pending, next, maxDepth);
    OrderedAtEnd(files, id, ancestors, pending, maxDepth);
    return Ok(Resource(id, files[id].drive, ancestors)), far;
  }

  lemma SubsetOfSameSize(a: set<Id>, b: set<Id>)
    requires a <= b && |a| >= |b|
    ensures a == b
  {
    assert b == a + (b - a);
  }

  /** Within the budget the search finds every ancestor, cycles or not. */
  lemma FindsAll(files: Files, id: Id, found: seq<Id>, maxDepth: nat, all: set<Id>)
    requires Searched(files, id, found, maxDepth)
    requires forall a :: a in all <==> IsAncestor(files, id, a)
    requires |all| <= maxDepth
    ensures Elements(found) == all
  {
    CountOfElements(found);
    if |found| == maxDepth {
      SubsetOfSameSize(Elements(found), all);
    } else {
      forall a | a in all
        ensures a in found
      {
        var path :| Leads(files, path, id, a);
        ClosedIsComplete(files, id, found, path);
      }
    }
  }

  /** Everything discovered is a parent of the file or of something found. */
  lemma {:induction false} InDiscovered(files: Files, id: Id, found: seq<Id>, p: Id)
    ensures p in Discovered(files, id, found) <==> exists x :: (x == id || x in found) && IsParent(files, x, p)
  {
    if found == [] {
      assert p in Discovered(files, id, found) <==> IsParent(files, id, p);
    } else {
      var n := |found| - 1;
      InDiscovered(files, id, found[..n], p);
      assert found == found[..n] + [found[n]];
      assert p in ParentsOf(files, found[n]) <==> IsParent(files, found[n], p);
    }
  }

  lemma {:induction false} BreadthFirstAreAncestors(files: Files, id: Id, found: seq<Id>)
    requires BreadthFirst(files, id, found)
    ensures AllAncestors(files, id, found) && NoRepeats(found)
  {
    if found != [] {
      var n := |found| - 1;
      var a := found[n];
      BreadthFirstAreAncestors(files, id, found[..n]);
      assert found == found[..n] + [a];
      InDiscovered(files, id, found[..n], a);
      var x :| (x == id || x in found[..n]) && IsParent(files, x, a);
      if x == id {
        ParentIsAncestor(files, id, a);
      } else {
        ParentOfAncestor(files, id, x, a);
      }
    }
  }

  ghost function AllParents(files: Files): set<Id> {
    set x, p | x in files && p in files[x].parents :: p
  }

  lemma FirstNew(discovered: seq<Id>, found: seq<Id>, n: nat) returns (k: nat)
    requires n <= |discovered| && forall j | 0 <= j < n :: discovered[j] in found
    requires exists p :: p in discovered && p !in found
    ensures k < |discovered| && discovered[k] !in found && IsFirstNew(discovered, found, discovered[k], k)
    decreases |discovered| - n
  {
    if n == |discovered| {
      assert false;
    } else if discovered[n] in found {
      k := FirstNew(discovered, found, n + 1);
    } else {
      k := n;
    }
  }

  /** Every file has a complete breadth-first order, cycles or not. */
  lemma {:induction false} CompleteOrder(files: Files, id: Id, found: seq<Id>) returns (order: seq<Id>)
    requires BreadthFirst(files, id, found)
    ensures BreadthFirst(files, id, order) && Complete(files, id, order) && found <= order
    decreases AllParents(files) - Elements(found)
  {
    if Complete(files, id, found) {
      order := found;
    } else {
      var discovered := Discovered(files, id, found);
      var k := FirstNew(discovered, found, 0);
      var a := discovered[k];
      InDiscovered(files, id, found, a);
      var x :| (x == id || x in found) && IsParent(files, x, a);
      assert a in AllParents(files);
      assert (found + [a])[..|found|] == found;
      assert Elements(found + [a]) == Elements(found) + {a};
      assert a in AllParents(files) - Elements(found);
      order := CompleteOrder(files, id, found + [a]);
    }
  }

  /** A complete breadth-first order lists all ancestors. */
  lemma CompleteOrderIsAll(files: Files, id: Id, order: seq<Id>, a: Id)
    requires BreadthFirst(files, id, order) && Complete(files, id, order)
    ensures a in order <==> IsAncestor(files, id, a)
  {
    BreadthFirstAreAncestors(files, id, order);
    forall x, p | (x == id || x in order) && IsParent(files, x, p)
      ensures p in order
    {
      InDiscovered(files, id, order, p);
    }
    if IsAncestor(files, id, a) {
      var path :| Leads(files, path, id, a);
      ClosedIsComplete(files, id, order, path);
    }
  }

  lemma AnswerIsPrefix(files: Files, id: Id, found: seq<Id>, maxDepth: nat, order: seq<Id>)
    requires IsAnswer(files, id, found, maxDepth) && BreadthFirst(files, id, order) && Complete(files, id, order)
    ensures found == if |order| <= maxDepth then order else order[..maxDepth]
  {
    hide IsNext, Complete;
    if |found| <= |order| {
      OneOrder(files, id, found, order);
      if |found| < |order| {
        PrefixIsBreadthFirst(files, id, order, |found|);
        NothingAfterComplete(files, id, found, order[|found|]);
      } else {
        assert order[..|found|] == order;
      }
    } else {
      OneOrder(files, id, order, found);
      PrefixIsBreadthFirst(files, id, found, |order|);
      NothingAfterComplete(files, id, order, found[|order|]);
    }
  }

  /** One parent each, up to a file without. */
  predicate IsChain(files: Files, id: Id, chain: seq<Id>) {
    && ParentsOf(files, id) == chain[..if chain == [] then 0 else 1]
    && forall i | 0 <= i < |chain| :: ParentsOf(files, chain[i]) == if i + 1 < |chain| then [chain[i + 1]] else []
  }

  lemma {:induction false} ChainDiscovers(files: Files, id: Id, chain: seq<Id>, n: nat)
    requires IsChain(files, id, chain) && n <= |chain|
    ensures Discovered(files, id, chain[..n]) == chain[..if n < |chain| then n + 1 else n]
  {
    hide ParentsOf;
    if n > 0 {
      ChainDiscovers(files, id, chain, n - 1);
      assert chain[..n][..n - 1] == chain[..n - 1] && chain[..n][n - 1] == chain[n - 1];
      assert n < |chain| ==> chain[..n + 1] == chain[..n] + [chain[n]];
    } else {
      assert chain[..0] == [];
    }
  }

  lemma ChainIsComplete(files: Files, id: Id, chain: seq<Id>)
    requires IsChain(files, id, chain)
    ensures Complete(files, id, chain)
  {
    ChainDiscovers(files, id, chain, |chain|);
    assert chain[..|chain|] == chain;
  }

  lemma ChainGoesOn(files: Files, id: Id, chain: seq<Id>, n: nat)
    requires IsChain(files, id, chain) && NoRepeats(chain) && n < |chain|
    ensures IsNext(files, id, chain[..n], chain[n])
  {
    hide IsChain;
    ChainDiscovers(files, id, chain, n);
    assert forall j | 0 <= j < n :: chain[..n + 1][j] == chain[..n][j];
    assert IsFirstNew(chain[..n + 1], chain[..n], chain[n], n);
  }

  /** A chain of different files is its breadth-first order. */
  lemma {:induction false} ChainIsOrder(files: Files, id: Id, chain: seq<Id>, n: nat)
    requires IsChain(files, id, chain) && NoRepeats(chain) && n <= |chain|
    ensures BreadthFirst(files, id, chain[..n])
  {
    hide IsChain, NoRepeats, IsNext;
    if n > 0 {
      ChainIsOrder(files, id, chain, n - 1);
      ChainGoesOn(files, id, chain, n - 1);
      assert chain[..n][..n - 1] == chain[..n - 1];
    }
  }

  /** A single parent is the first thing found. */
  lemma OnlyParentIsFirst(files: Files, id: Id, parent: Id, found: seq<Id>, far: seq<nat>)
    requires id in files && files[id].parents == [parent]
    requires Searched(files, id, found, 1) && NearestFirst(files, id, found, far)
    ensures found == [parent]
  {
    assert IsParent(files, id, parent);
    StepToParent(files, id, id, 0, parent);
    var path :| |path| == far[0] + 1 && Leads(files, path, id, found[0]);
    assert IsParent(files, path[0], path[1]);
  }
}
