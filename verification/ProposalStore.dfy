/**
  The source proposal registry: one document, appended to under compare-and-swap
  by any number of creators (app/source_proposal_store.py).
*/
module ProposalStore {
  import opened Wrappers
  import opened ObjectStore
  import opened Schedules

  const MAX_WRITE_ATTEMPTS := 5

  /** `body` stands for the fields the store never looks at. */
  datatype Record = Record(proposalId: string, body: string)

  type Document = seq<Record>

  datatype Error = StoreConflict | NotFound

  datatype ObjectName = Registry

  /** A creator writes the document it read with its own record at the end. */
  datatype Action = Append(record: Record)

  type Log = seq<Commit<ObjectName, Document, Action>>

  predicate HasId(document: Document, id: string) {
    exists i | 0 <= i < |document| :: document[i].proposalId == id
  }

  /** How often `id` occurs. */
  function Occurrences(document: Document, id: string): nat {
    if document == [] then 0
    else Occurrences(document[..|document| - 1], id) + if document[|document| - 1].proposalId == id then 1 else 0
  }

  ghost predicate DistinctIds(document: Document) {
    forall i, j | 0 <= i < j < |document| :: document[i].proposalId != document[j].proposalId
  }

  type World = Bucket<ObjectName, Document, Action>

  /** The registry's proposals; none when it was never written. */
  function Proposals(w: World): Document {
    match w.Peek(Registry)
    case Some(document) => document
    case None => []
  }

  function Put(w: World, record: Record): World {
    w.CompareAndSet(Registry, w.Generation(Registry), Some(Proposals(w) + [record]), Append(record), 0).value
  }

  /** The document as of version `g`; version 0 is the empty registry. */
  function Version(log: Log, g: nat): Document
    requires g <= |log|
  {
    if g == 0 || log[g - 1].after.None? then [] else log[g - 1].after.value
  }

  /** Every write appended one new record to the version just before it. */
  ghost predicate Appends(log: Log) {
    |log| == 0 ||
    (var n := |log| - 1;
     && Appends(log[..n])
     && log[n].after == Some(Version(log[..n], n) + [log[n].action.record])
     && !HasId(Version(log[..n], n), log[n].action.record.proposalId))
  }

  ghost predicate Safe(w: World) {
    w.Valid() && Appends(w.log)
  }

  /** Another creator, having read version `version`, tries to append its record. */
  datatype Attempt = Attempt(record: Record, version: nat)

  function Step(w: World, a: Attempt): World {
    if && a.version <= |w.log| && !HasId(Version(w.log, a.version), a.record.proposalId)
       && w.Generation(Registry) == a.version
    then
      w.CompareAndSet(Registry, a.version, Some(Version(w.log, a.version) + [a.record]), Append(a.record), 0).value
    else w
  }

  function Run(w: World, attempts: seq<Attempt>): World {
    Play(Step, w, attempts)
  }

  lemma RunOn(others: nat -> seq<Attempt>, w: World, a: nat, b: nat, c: nat)
    requires a <= b <= c
    ensures Run(Run(w, Between(others, a, b)), Between(others, b, c)) == Run(w, Between(others, a, c))
  {
    PlayOn(Step, others, w, a, b, c);
  }

  /** The registry is never deleted, so its generation counts its writes. */
  lemma GenerationCountsWrites(w: World)
    requires Safe(w)
    ensures w.Generation(Registry) == |w.log| && Proposals(w) == Version(w.log, |w.log|)
  {
    if |w.log| > 0 {
      assert w.log[|w.log| - 1].key == Registry;
    }
    assert w.Generation(Registry) == Latest(w.log, Registry);
    assert w.Peek(Registry) == Content(w.log, Registry);
  }

  lemma PutKeepsSafe(w: World, record: Record)
    requires Safe(w) && !HasId(Proposals(w), record.proposalId)
    ensures Safe(Put(w, record)) && w.log <= Put(w, record).log
    ensures Proposals(Put(w, record)) == Proposals(w) + [record]
  {
    GenerationCountsWrites(w);
    CompareAndSetKeepsValid(w, Registry, w.Generation(Registry), Some(Proposals(w) + [record]), Append(record), 0);
    assert Put(w, record).log[..|w.log|] == w.log;
  }

  /** An append decided on an old version either lands on that very version or does nothing. */
  lemma StepIsAppend(w: World, a: Attempt)
    requires Safe(w)
    ensures Step(w, a) ==
              if a.version == |w.log| && !HasId(Proposals(w), a.record.proposalId) then Put(w, a.record) else w
    ensures Safe(Step(w, a)) && w.log <= Step(w, a).log
  {
    GenerationCountsWrites(w);
    if Step(w, a) != w {
      PutKeepsSafe(w, a.record);
    }
  }

  lemma {:induction false} RunKeepsSafe(w: World, attempts: seq<Attempt>)
    requires Safe(w)
    ensures Safe(Run(w, attempts)) && w.log <= Run(w, attempts).log
  {
    if attempts != [] {
      RunKeepsSafe(w, attempts[..|attempts| - 1]);
      StepIsAppend(Run(w, attempts[..|attempts| - 1]), attempts[|attempts| - 1]);
    }
  }

  lemma {:induction false} AppendAt(log: Log, n: nat)
    requires Appends(log) && n < |log|
    ensures Version(log, n + 1) == Version(log, n) + [log[n].action.record]
    ensures !HasId(Version(log, n), log[n].action.record.proposalId)
  {
    if n == |log| - 1 {
      assert Version(log[..n], n) == Version(log, n);
    } else {
      AppendAt(log[..|log| - 1], n);
      assert Version(log[..|log| - 1], n + 1) == Version(log, n + 1);
      assert Version(log[..|log| - 1], n) == Version(log, n);
    }
  }

  /** The document only grows, and only at its end. */
  lemma {:induction false} OnlyGrows(w: World, m: nat, n: nat)
    requires Safe(w) && m <= n <= |w.log|
    ensures Version(w.log, m) <= Version(w.log, n)
    ensures |Version(w.log, n)| == |Version(w.log, m)| + n - m
  {
    if m < n {
      OnlyGrows(w, m, n - 1);
      AppendAt(w.log, n - 1);
    }
  }

  /** No proposal is ever in the document twice. */
  lemma {:induction false} IdsStayDistinct(w: World, n: nat)
    requires Safe(w) && n <= |w.log|
    ensures DistinctIds(Version(w.log, n))
  {
    if n > 0 {
      IdsStayDistinct(w, n - 1);
      AppendAt(w.log, n - 1);
    }
  }

  lemma {:induction false} DistinctMeansOnce(document: Document, id: string)
    requires DistinctIds(document)
    ensures Occurrences(document, id) == if HasId(document, id) then 1 else 0
  {
    if document != [] {
      var n := |document| - 1;
      DistinctMeansOnce(document[..n], id);
      if HasId(document, id) && document[n].proposalId != id {
        var i :| 0 <= i < |document| && document[i].proposalId == id;
        assert document[..n][i].proposalId == id;
      }
      if HasId(document[..n], id) {
        var i :| 0 <= i < n && document[..n][i].proposalId == id;
        assert document[i].proposalId == id;
      }
    }
  }

  /** Once in, a proposal is in every later version, exactly once. */
  lemma OnceInAlwaysIn(w: World, id: string, m: nat, n: nat)
    requires Safe(w) && m <= n <= |w.log| && HasId(Version(w.log, m), id)
    ensures HasId(Version(w.log, n), id) && Occurrences(Version(w.log, n), id) == 1
  {
    OnlyGrows(w, m, n);
    var i :| 0 <= i < |Version(w.log, m)| && Version(w.log, m)[i].proposalId == id;
    assert Version(w.log, n)[i].proposalId == id;
    IdsStayDistinct(w, n);
    DistinctMeansOnce(Version(w.log, n), id);
  }

  class YamlSourceProposalStore {
    var world: World
    /** How many calls reached the bucket, and what other creators attempt before each. */
    var calls: nat
    const others: nat -> seq<Attempt>

    constructor (others: nat -> seq<Attempt>)
      ensures world == Bucket(map[], []) && Safe(world) && calls == 0 && this.others == others
    {
      world, calls, this.others := Bucket(map[], []), 0, others;
    }

    /** What others attempted since call `from`. */
    ghost function Since(from: nat): seq<Attempt>
      reads this
    {
      Between(others, from, calls)
    }

    ghost predicate Follows(start: World, from: nat)
      reads this
    {
      Safe(world) && start.log <= world.log && from <= calls
    }

    method Interleave()
      requires Safe(world)
      modifies this
      ensures Follows(old(world), old(calls)) && calls == old(calls) + 1
      ensures world == Run(old(world), Since(old(calls)))
    {
      RunKeepsSafe(world, others(calls));
      BetweenOne(others, calls);
      world, calls := Run(world, others(calls)), calls + 1;
    }

    method Load() returns (document: Document, generation: nat)
      requires Safe(world)
      modifies this
      ensures Follows(old(world), old(calls)) && calls == old(calls) + 1
      ensures world == Run(old(world), Since(old(calls)))
      ensures generation == |world.log| && document == Proposals(world) == Version(world.log, generation)
    {
      Interleave();
      GenerationCountsWrites(world);
      document, generation := Proposals(world), world.Generation(Registry);
    }

    /** Append to the version read; false when the document has grown since. */
    method Write(document: Document, record: Record, generation: nat) returns (done: bool)
      requires Safe(world) && generation <= |world.log| && document == Version(world.log, generation)
      requires !HasId(document, record.proposalId)
      modifies this
      ensures Follows(old(world), old(calls)) && calls == old(calls) + 1
      ensures var mid := Run(old(world), Since(old(calls)));
              && done == (|mid.log| == generation)
              && world == if done then Put(mid, record) else mid
      ensures if done
              then Proposals(Run(old(world), Since(old(calls)))) == document && Proposals(world) == document + [record]
              else |world.log| > generation
    {
      ghost var log := world.log;
      Interleave();
      GenerationCountsWrites(world);
      assert Version(world.log, generation) == Version(log, generation);
      done := world.Generation(Registry) == generation;
      if done {
        PutKeepsSafe(world, record);
        world := Put(world, record);
      }
    }

    /**
      Returns with the proposal in the registry exactly once, having appended it
      at most once; gives up only after others appended at least five times.
    */
    method Create(record: Record) returns (r: Result<Record, Error>, ghost appended: bool)
      requires Safe(world)
      modifies this
      ensures Follows(old(world), old(calls))
      ensures CreateOutcome(old(world), Since(old(calls)), record, r, appended, world)
      ensures r.Err? ==> |world.log| - |old(world).log| >= 5
      ensures calls <= old(calls) + 10
    {
      hide Run, Between, Step;
      ghost var start, c := world, calls;
      r, appended := Err(StoreConflict), false;
      NothingRun(others, start, c);
      for attempt := 0 to MAX_WRITE_ATTEMPTS
        invariant Follows(start, c) && !appended && r == Err(StoreConflict)
        invariant world == Run(start, Since(c)) && |world.log| - |start.log| >= attempt
        invariant calls <= c + 2 * attempt
      {
        ghost var before, d := world, calls;
        r, appended := CreateOnce(record);
        RunOn(others, start, c, d, calls);
        StillExtends(start.log, before.log, world.log);
        if r.Ok? {
          return;
        }
      }
    }

    /** One round of `Create`. */
    method CreateOnce(record: Record) returns (r: Result<Record, Error>, ghost appended: bool)
      requires Safe(world)
      modifies this
      ensures Follows(old(world), old(calls))
      ensures CreateOutcome(old(world), Since(old(calls)), record, r, appended, world)
      ensures r.Err? ==> |world.log| > |old(world).log|
      ensures calls <= old(calls) + 2
    {
      hide Run, Between, Step, Safe, Put, Proposals, CreateOutcome;
      ghost var start, c := world, calls;
      var document, generation := Load();
      r, appended := Ok(record), false;
      if HasId(document, record.proposalId) {
        AlreadyThere(start, Since(c), record, world);
      } else {
        var done := Write(document, record, generation);
        RunOn(others, start, c, c + 1, c + 2);
        appended := done;
        if done {
          JustAppended(start, Since(c), record, world);
        } else {
          r := Err(StoreConflict);
          NotAppended(start, Since(c), record, world);
        }
      }
    }

    method List() returns (proposals: Document)
      requires Safe(world)
      modifies this
      ensures Follows(old(world), old(calls)) && world == Run(old(world), Since(old(calls)))
      ensures proposals == Proposals(world) && Proposals(old(world)) <= proposals
    {
      ghost var start := world;
      var generation;
      proposals, generation := Load();
      GrownBy(start, world);
    }

    method Get(proposalId: string) returns (r: Result<Record, Error>)
      requires Safe(world)
      modifies this
      ensures Follows(old(world), old(calls)) && world == Run(old(world), Since(old(calls)))
      ensures match r
              case Ok(record) => record in Proposals(world) && record.proposalId == proposalId
              case Err(e) => e == NotFound && !HasId(Proposals(world), proposalId)
    {
      hide Run, Between, Step;
      var proposals := List();
      r := Err(NotFound);
      for i := 0 to |proposals|
        modifies {}
        invariant forall j | 0 <= j < i :: proposals[j].proposalId != proposalId
      {
        if proposals[i].proposalId == proposalId {
          return Ok(proposals[i]);
        }
      }
    }
  }

  /**
    A create, with what others attempted meanwhile: its own append came last and
    only if it `appended`; when it returns, the proposal is there exactly once.
  */
  ghost predicate CreateOutcome(start: World, foreign: seq<Attempt>, record: Record, r: Result<Record, Error>,
                                appended: bool, end: World)
  {
    && (r == Ok(record) || r == Err(StoreConflict))
    && end == (if appended then Put(Run(start, foreign), record) else Run(start, foreign))
    && (appended ==> !HasId(Proposals(Run(start, foreign)), record.proposalId)
                     && Proposals(end) == Proposals(Run(start, foreign)) + [record])
    && (r.Ok? ==> HasId(Proposals(end), record.proposalId) && Occurrences(Proposals(end), record.proposalId) == 1)
    && (r.Err? ==> !appended)
  }

  lemma AlreadyThere(start: World, foreign: seq<Attempt>, record: Record, end: World)
    requires Safe(end) && end == Run(start, foreign) && HasId(Proposals(end), record.proposalId)
    ensures CreateOutcome(start, foreign, record, Ok(record), false, end)
  {
    hide Run;
    StoredOnce(end, record.proposalId);
  }

  lemma JustAppended(start: World, foreign: seq<Attempt>, record: Record, end: World)
    requires Safe(end) && end == Put(Run(start, foreign), record)
    requires !HasId(Proposals(Run(start, foreign)), record.proposalId)
    ensures CreateOutcome(start, foreign, record, Ok(record), true, end)
  {
    hide Run;
    PutAppends(Run(start, foreign), record);
    StoredOnce(end, record.proposalId);
  }

  lemma NotAppended(start: World, foreign: seq<Attempt>, record: Record, end: World)
    requires end == Run(start, foreign)
    ensures CreateOutcome(start, foreign, record, Err(StoreConflict), false, end)
  {}

  lemma NothingRun(others: nat -> seq<Attempt>, w: World, c: nat)
    ensures Run(w, Between(others, c, c)) == w
  {}

  lemma StillExtends(a: Log, b: Log, c: Log)
    requires a <= b <= c
    ensures a <= c
  {
    assert c[..|a|] == b[..|a|];
  }

  lemma GrownBy(start: World, end: World)
    requires Safe(start) && Safe(end) && start.log <= end.log
    ensures Proposals(start) <= Proposals(end)
    ensures |Proposals(end)| == |Proposals(start)| + |end.log| - |start.log|
  {
    GenerationCountsWrites(start);
    GenerationCountsWrites(end);
    OnlyGrows(end, |start.log|, |end.log|);
    assert Version(end.log, |start.log|) == Version(start.log, |start.log|);
  }

  lemma PutAppends(w: World, record: Record)
    ensures Proposals(Put(w, record)) == Proposals(w) + [record]
    ensures HasId(Proposals(Put(w, record)), record.proposalId)
  {
    assert (Proposals(w) + [record])[|Proposals(w)|] == record;
  }

  lemma StoredOnce(w: World, id: string)
    requires Safe(w) && HasId(Proposals(w), id)
    ensures Occurrences(Proposals(w), id) == 1
  {
    GenerationCountsWrites(w);
    OnceInAlwaysIn(w, id, |w.log|, |w.log|);
  }
}
