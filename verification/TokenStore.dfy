/** The token store's operations (app/adapters/hubspot/token_store.py). */
module TokenStore {
  import opened Wrappers
  import opened ObjectStore
  import opened Schedules
  import opened RefreshLease

  predicate OnlyTicks(attempts: seq<Attempt>) {
    forall i | 0 <= i < |attempts| :: attempts[i].Tick?
  }

  lemma {:induction false} TicksKeepBucket(w: World, attempts: seq<Attempt>)
    requires OnlyTicks(attempts)
    ensures Run(w, attempts).bucket == w.bucket
  {
    if attempts != [] {
      TicksKeepBucket(w, attempts[..|attempts| - 1]);
    }
  }

  /** The bucket's provider as one client finds it: what others attempt before each call, and whether it answers. */
  datatype Provider = Provider(others: nat -> seq<Attempt>, available: nat -> bool) {
    /** What others make of `w` before the calls from..to - 1. */
    ghost function Reached(w: World, from: nat, to: nat): World {
      Run(w, Between(others, from, to))
    }

    ghost predicate AnswersFrom(from: nat) {
      forall n: nat | n >= from :: available(n)
    }

    /** Time may pass, but nobody else writes. */
    ghost predicate AloneFrom(from: nat) {
      forall n: nat | n >= from :: OnlyTicks(others(n))
    }

    /** Since `start`, at call `from`, others did what they do and the client attempted `own`. */
    ghost predicate Did(start: World, from: nat, own: seq<Attempt>, end: World, to: nat) {
      Played(Step, others, start, from, own, end, to)
    }

    lemma ReachedOn(w: World, a: nat, b: nat, c: nat)
      requires a <= b <= c
      ensures Reached(Reached(w, a, b), b, c) == Reached(w, a, c)
    {
      PlayOn(Step, others, w, a, b, c);
    }

    lemma ReachedNothing(w: World, a: nat)
      ensures Reached(w, a, a) == w
    {}

    lemma ReachedIsSafe(w: World, a: nat, b: nat)
      requires Safe(w)
      ensures Safe(Reached(w, a, b)) && Reached(w, a, b).Extends(w)
    {
      RunKeepsSafe(w, Between(others, a, b));
    }

    lemma {:induction false} AloneBetween(from: nat, a: nat, b: nat)
      requires AloneFrom(from) && from <= a
      ensures OnlyTicks(Between(others, a, b))
      decreases b
    {
      if a < b {
        AloneBetween(from, a, b - 1);
      }
    }

    lemma ReachedAlone(w: World, from: nat, a: nat, b: nat)
      requires AloneFrom(from) && from <= a
      ensures Reached(w, a, b).bucket == w.bucket
    {
      AloneBetween(from, a, b);
      TicksKeepBucket(w, Between(others, a, b));
    }
  }

  /** `template` with the clock reading filled in. */
  function At(template: Action, now: Time): Action {
    match template
    case Save(token, scope, account, _) => Save(token, scope, account, now)
    case Acquire(lockId, _, ttl) => Acquire(lockId, now, ttl)
    case Complete(lease, token, scope, _) => Complete(lease, token, scope, now)
    case Fail(lease, invalid, _) => Fail(lease, invalid, now)
    case UpdateAccount(account, _) => UpdateAccount(account, now)
  }

  /**
    An operation, from call `c` on, exactly: read the document, decide at the
    clock, and write the decision over the version read, if it is still live.
  */
  ghost predicate Operated(
    p: Provider, start: World, c: nat, template: Action, r: Result<Document, Error>, end: World, d: nat)
  {
    var read, decided, live := p.Reached(start, c, c + 1), p.Reached(start, c, c + 2), p.Reached(start, c, c + 3);
    var version, action := |read.bucket.log|, At(template, decided.clock);
    if !p.available(c) then r == Err(StateUnavailable) && end == read && d == c + 1
    else
      match Apply(action, version, read.Connection())
      case Err(e) => r == Err(e) && end == decided && d == c + 2
      case Ok(document) =>
        && d == c + 3
        && if !p.available(c + 2) then r == Err(StateUnavailable) && end == live
           else if |live.bucket.log| != version then r == Err(ConnectionConflict) && end == live
           else r == Ok(document) && end == live.Put(document, action)
  }

  /** The write it attempts, if it comes so far. */
  ghost function Attempted(p: Provider, start: World, c: nat, template: Action): seq<Attempt> {
    var read, decided := p.Reached(start, c, c + 1), p.Reached(start, c, c + 2);
    var version, action := |read.bucket.log|, At(template, decided.clock);
    if p.available(c) && p.available(c + 2) && Apply(action, version, read.Connection()).Ok?
    then [Write(action, version)] else []
  }

  class StateBackend {
    var world: World
    var calls: nat
    const provider: Provider

    constructor (clock: Time, provider: Provider)
      ensures world == Empty(clock) && Safe(world) && calls == 0 && this.provider == provider
    {
      world, calls, this.provider := Empty(clock), 0, provider;
    }

    method Interleave() returns (answers: bool)
      requires Safe(world)
      modifies this
      ensures Safe(world) && world.Extends(old(world)) && calls == old(calls) + 1
      ensures world == provider.Reached(old(world), old(calls), calls)
      ensures answers == provider.available(old(calls))
    {
      RunKeepsSafe(world, provider.others(calls));
      BetweenOne(provider.others, calls);
      answers := provider.available(calls);
      world, calls := Run(world, provider.others(calls)), calls + 1;
    }

    method Now() returns (now: Time)
      requires Safe(world)
      modifies this
      ensures Safe(world) && world.Extends(old(world)) && calls == old(calls) + 1
      ensures world == provider.Reached(old(world), old(calls), calls)
      ensures now == world.clock
    {
      var answers := Interleave();
      now := world.clock;
    }

    /** The live version of the document and its number, 0 when there is none. */
    method Read() returns (answers: bool, found: Option<Document>, version: nat)
      requires Safe(world)
      modifies this
      ensures Safe(world) && world.Extends(old(world)) && calls == old(calls) + 1
      ensures world == provider.Reached(old(world), old(calls), calls)
      ensures answers == provider.available(old(calls))
      ensures answers ==> found == world.Connection() && version == |world.bucket.log|
    {
      answers := Interleave();
      GenerationCountsWrites(world);
      found, version := world.Connection(), world.Generation();
    }

    /** Write `document` over `version`, which was read from a world not later than this one. */
    method Write(document: Document, version: nat, action: Action) returns (r: Written)
      requires Safe(world) && action.now <= world.clock && LeasesIssued(action, world.bucket.log)
      requires version <= |world.bucket.log|
      requires Apply(action, version, Version(world.bucket.log, version)) == Ok(document)
      modifies this
      ensures Safe(world) && world.Extends(old(world)) && calls == old(calls) + 1
      ensures var live := provider.Reached(old(world), old(calls), calls);
              if !provider.available(old(calls)) then r == Unavailable && world == live
              else if |live.bucket.log| != version then r == Overtaken && world == live
              else r == Done && world == live.Put(document, action)
    {
      hide Apply, Run, Step, Between;
      ghost var start := world;
      var answers := Interleave();
      GenerationCountsWrites(world);
      if !answers {
        r := Unavailable;
      } else if world.Generation() != version {
        r := Overtaken;
      } else {
        WriteLands(start, world, document, version, action);
        world := world.Put(document, action);
        r := Done;
      }
    }
  }

  datatype Written = Done | Overtaken | Unavailable

  lemma WriteLands(start: World, w: World, document: Document, version: nat, action: Action)
    requires Safe(w) && w.Extends(start) && action.now <= start.clock && LeasesIssued(action, start.bucket.log)
    requires version <= |start.bucket.log| && version == |w.bucket.log|
    requires Apply(action, version, Version(start.bucket.log, version)) == Ok(document)
    ensures Safe(w.Put(document, action)) && w.Put(document, action).Extends(w)
    ensures LeasesIssued(action, w.bucket.log) && Apply(action, version, w.Connection()) == Ok(document)
  {
    hide Apply;
    GenerationCountsWrites(w);
    assert w.bucket.log[..version] == start.bucket.log[..version];
    assert w.bucket.log == start.bucket.log;
    WriteKeepsSafe(w, action, version);
  }

  /** A live version: what `later` knows of an earlier world. */
  lemma VersionsStay(w: World, later: World, g: nat)
    requires later.Extends(w) && g <= |w.bucket.log|
    ensures g <= |later.bucket.log| && Version(later.bucket.log, g) == Version(w.bucket.log, g)
  {}

  /** What an operation found, when it decided, and whether somebody wrote before its own write. */
  ghost function FoundBy(p: Provider, start: World, c: nat): Option<Document> {
    p.Reached(start, c, c + 1).Connection()
  }

  ghost function DecidedBy(p: Provider, start: World, c: nat): Time {
    p.Reached(start, c, c + 2).clock
  }

  /** The bucket answers both calls, and nobody writes between them. */
  ghost predicate Undisturbed(p: Provider, start: World, c: nat) {
    && p.available(c) && p.available(c + 2)
    && |p.Reached(start, c, c + 3).bucket.log| == |p.Reached(start, c, c + 1).bucket.log|
  }

  /** An operation writes exactly if its decision allows it and it is undisturbed. */
  lemma OperatedAnswer(p: Provider, start: World, c: nat, template: Action, r: Result<Document, Error>, end: World,
                       d: nat)
    requires Safe(start) && Operated(p, start, c, template, r, end, d)
    ensures var read := p.Reached(start, c, c + 1);
            var decision := Apply(At(template, DecidedBy(p, start, c)), |read.bucket.log|, FoundBy(p, start, c));
            && (r.Ok? <==> decision.Ok? && Undisturbed(p, start, c))
            && (r.Ok? ==> decision == r && end.Connection() == Some(r.value))
            && (decision.Err? && p.available(c) ==> r == decision)
            && (r.Err? ==> r.error == StateUnavailable || r.error == ConnectionConflict || decision == r)
            && (r.Err? && r.error == ConnectionConflict && decision != r ==> decision.Ok? && p.available(c + 2))
            && (r == Err(StateUnavailable) && decision != r ==>
                  !p.available(c) || (decision.Ok? && !p.available(c + 2)))
            && (r.Err? && r.error != StateUnavailable ==> p.available(c))
  {
    hide Apply, Run, Between;
    OperatedLog(p, start, c, template, r, end, d);
  }

  class HubSpotTokenStore {
    const backend: StateBackend

    constructor (backend: StateBackend)
      ensures this.backend == backend
    {
      this.backend := backend;
    }

    /** Read, decide at the clock, write over what was read: the shape of every operation below. */
    method ReadThenWrite(template: Action) returns (r: Result<Document, Error>)
      requires Safe(backend.world) && LeasesIssued(template, backend.world.bucket.log)
      modifies backend
      ensures Safe(backend.world) && backend.world.Extends(old(backend.world))
      ensures Operated(backend.provider, old(backend.world), old(backend.calls), template, r, backend.world,
                       backend.calls)
    {
      hide Apply, Run, Step, Between, Safe;
      ghost var start, c, p := backend.world, backend.calls, backend.provider;
      var answers, found, version := backend.Read();
      if !answers {
        return Err(StateUnavailable);
      }
      ghost var read := backend.world;
      var now := backend.Now();
      ghost var decided := backend.world;
      p.ReachedOn(start, c, c + 1, c + 2);
      match Apply(At(template, now), version, found)
      case Err(e) => r := Err(e);
      case Ok(document) =>
        ReadyToWrite(start, read, decided, template, now, document);
        var written := backend.Write(document, version, At(template, now));
        p.ReachedOn(start, c, c + 2, c + 3);
        ExtendsOn(start, decided, backend.world);
        r := match written
             case Done => Ok(document)
             case Overtaken => Err(ConnectionConflict)
             case Unavailable => Err(StateUnavailable);
    }

    /** A new authorization replaces whatever was there. */
    method SaveConnection(token: string, scope: Option<string>, account: string) returns (r: Result<Document, Error>)
      requires Safe(backend.world)
      modifies backend
      ensures Safe(backend.world) && backend.world.Extends(old(backend.world))
      ensures Operated(backend.provider, old(backend.world), old(backend.calls), Save(token, scope, account, 0), r,
                       backend.world, backend.calls)
      ensures r.Ok? <==> Undisturbed(backend.provider, old(backend.world), old(backend.calls))
      ensures r.Ok? ==>
                var now := DecidedBy(backend.provider, old(backend.world), old(backend.calls));
                backend.world.Connection() == Some(Document(token, scope, now, now, account, Active, None, None))
    {
      hide Operated, Undisturbed, Safe, DecidedBy, FoundBy;
      ghost var start, c := backend.world, backend.calls;
      r := ReadThenWrite(Save(token, scope, account, 0));
      OperatedAnswer(backend.provider, start, c, Save(token, scope, account, 0), r, backend.world, backend.calls);
    }

    /** True when the account was stored; false, quietly, when there is no connection or somebody else wrote. */
    method UpdateAccount(account: string) returns (r: Result<bool, Error>, ghost raw: Result<Document, Error>)
      requires Safe(backend.world)
      modifies backend
      ensures Safe(backend.world) && backend.world.Extends(old(backend.world))
      ensures Operated(backend.provider, old(backend.world), old(backend.calls), Action.UpdateAccount(account, 0), raw,
                       backend.world, backend.calls)
      ensures r == if raw == Err(StateUnavailable) then Err(StateUnavailable) else Ok(raw.Ok?)
      ensures var found := FoundBy(backend.provider, old(backend.world), old(backend.calls));
              && (r == Ok(true) <==>
                  found.Some? && Undisturbed(backend.provider, old(backend.world), old(backend.calls)))
              && (r == Ok(true) ==>
                    var now := DecidedBy(backend.provider, old(backend.world), old(backend.calls));
                    backend.world.Connection() ==
                      Some(Document(found.value.token, found.value.scope, found.value.connectedAt, now, account,
                                    found.value.status, found.value.lockId, found.value.lockExpiresAt)))
    {
      hide Operated, Undisturbed, Safe, DecidedBy, FoundBy;
      ghost var start, c := backend.world, backend.calls;
      var written := ReadThenWrite(Action.UpdateAccount(account, 0));
      OperatedAnswer(backend.provider, start, c, Action.UpdateAccount(account, 0), written, backend.world,
                     backend.calls);
      raw, r := written, Quietly(written);
    }

    /** `lockId` is the fresh identifier the call draws. */
    method AcquireRefreshLease(lockId: string, ttl: nat)
      returns (r: Result<Lease, Error>, ghost raw: Result<Document, Error>)
      requires Safe(backend.world)
      modifies backend
      ensures Safe(backend.world) && backend.world.Extends(old(backend.world))
      ensures Operated(backend.provider, old(backend.world), old(backend.calls), Acquire(lockId, 0, ttl), raw,
                       backend.world, backend.calls)
      ensures r == AsLease(raw, lockId, |backend.world.bucket.log|)
      ensures r.Ok? ==> Issued(backend.world.bucket.log, r.value)
      ensures Granted(backend.provider, old(backend.world), old(backend.calls), lockId, ttl, r, backend.world)
      ensures var p, start, c := backend.provider, old(backend.world), old(backend.calls);
              r.Ok? <==>
                && IsConnected(FoundBy(p, start, c)) && !Locked(FoundBy(p, start, c).value, DecidedBy(p, start, c))
                && Undisturbed(p, start, c)
    {
      hide Operated;
      ghost var start, c := backend.world, backend.calls;
      var written := ReadThenWrite(Acquire(lockId, 0, ttl));
      raw := written;
      AcquisitionAnswer(backend.provider, start, c, lockId, ttl, written, backend.world, backend.calls);
      if written.Ok? {
        AcquiredIsIssued(backend.provider, start, c, lockId, ttl, written.value, backend.world, backend.calls);
      }
      r := AsLease(written, lockId, backend.world.Generation());
    }

    /** Succeeds exactly when nobody has written since the lease was taken and the bucket answers. */
    method CompleteRefresh(lease: Lease, token: string, scope: Option<string>)
      returns (r: Result<Document, Error>, ghost raw: Result<Document, Error>)
      requires Safe(backend.world) && Issued(backend.world.bucket.log, lease)
      modifies backend
      ensures Safe(backend.world) && backend.world.Extends(old(backend.world))
      ensures Operated(backend.provider, old(backend.world), old(backend.calls), Complete(lease, token, scope, 0), raw,
                       backend.world, backend.calls)
      ensures r == AsCompletion(raw)
      ensures r.Ok? ==>
                var found := FoundBy(backend.provider, old(backend.world), old(backend.calls));
                var now := DecidedBy(backend.provider, old(backend.world), old(backend.calls));
                && found.Some? && backend.world.Connection() == Some(r.value)
                && r.value == Document(token, if scope.Some? && scope.value != "" then scope else lease.scope,
                                       found.value.connectedAt, now, found.value.account, Active, None, None)
      ensures r == Err(StateUnavailable)
           || (r.Ok? <==> |backend.provider.Reached(old(backend.world), old(backend.calls), backend.calls).bucket.log|
                          == lease.generation)
      ensures r.Err? ==> r.error == StateUnavailable || r.error == RefreshConflict
    {
      hide Operated;
      ghost var start, c := backend.world, backend.calls;
      var written := ReadThenWrite(Complete(lease, token, scope, 0));
      raw := written;
      WhyFinished(backend.provider, start, c, Complete(lease, token, scope, 0), written, backend.world, backend.calls);
      OperatedAnswer(backend.provider, start, c, Complete(lease, token, scope, 0), written, backend.world,
                     backend.calls);
      r := AsCompletion(written);
    }

    /** Gives the lease up; does nothing when somebody has written since. True when it wrote. */
    method FailRefresh(lease: Lease, invalid: bool) returns (r: Result<bool, Error>, ghost raw: Result<Document, Error>)
      requires Safe(backend.world) && Issued(backend.world.bucket.log, lease)
      modifies backend
      ensures Safe(backend.world) && backend.world.Extends(old(backend.world))
      ensures Operated(backend.provider, old(backend.world), old(backend.calls), Fail(lease, invalid, 0), raw,
                       backend.world, backend.calls)
      ensures r == Quietly(raw)
      ensures r == Ok(true) ==>
                var found := FoundBy(backend.provider, old(backend.world), old(backend.calls));
                var now := DecidedBy(backend.provider, old(backend.world), old(backend.calls));
                && found.Some?
                && backend.world.Connection() ==
                     Some(Document(found.value.token, found.value.scope, found.value.connectedAt, now,
                                   found.value.account, if invalid then ReauthorizationRequired
                                                        else Active, None, None))
      ensures r == Err(StateUnavailable)
           || r == Ok(|backend.provider.Reached(old(backend.world), old(backend.calls), backend.calls).bucket.log|
                      == lease.generation)
    {
      hide Operated;
      ghost var start, c := backend.world, backend.calls;
      var written := ReadThenWrite(Fail(lease, invalid, 0));
      raw := written;
      WhyFinished(backend.provider, start, c, Fail(lease, invalid, 0), written, backend.world, backend.calls);
      OperatedAnswer(backend.provider, start, c, Fail(lease, invalid, 0), written, backend.world, backend.calls);
      r := Quietly(written);
    }
  }

  /** How the operations report what the shape above found. */
  function Quietly(raw: Result<Document, Error>): Result<bool, Error> {
    if raw == Err(StateUnavailable) then Err(StateUnavailable) else Ok(raw.Ok?)
  }

  function AsLease(raw: Result<Document, Error>, lockId: string, version: nat): Result<Lease, Error> {
    match raw
    case Ok(document) => Ok(Lease(lockId, version, document.token, document.scope))
    case Err(e) => Err(if e == ConnectionConflict then RefreshInProgress else e)
  }

  function AsCompletion(raw: Result<Document, Error>): Result<Document, Error> {
    if raw == Err(ConnectionConflict) then Err(RefreshConflict) else raw
  }

  /**
    The whole answer to a client that asks for a lease. Outages apart: not
    connected; in progress, because the document is locked at the clock reading or
    somebody else wrote first; or a lease on the token and scope found, with the
    document locked under the given id until the time is up.
  */
  ghost predicate Granted(p: Provider, start: World, c: nat, lockId: string, ttl: nat, r: Result<Lease, Error>,
                          end: World) {
    var found, now := FoundBy(p, start, c), DecidedBy(p, start, c);
    match r
    case Ok(lease) =>
      && IsConnected(found) && !Locked(found.value, now) && Undisturbed(p, start, c)
      && lease == Lease(lockId, |end.bucket.log|, found.value.token, found.value.scope)
      && end.Connection() == Some(Document(found.value.token, found.value.scope, found.value.connectedAt, now,
                                           found.value.account, Refreshing, Some(lockId), Some(now + ttl)))
    case Err(NotConnected) => p.available(c) && !IsConnected(found)
    case Err(RefreshInProgress) =>
      && p.available(c) && IsConnected(found)
      && (Locked(found.value, now) || (p.available(c + 2) && !Undisturbed(p, start, c)))
    case Err(StateUnavailable) =>
      !p.available(c) || (IsConnected(found) && !Locked(found.value, now) && !p.available(c + 2))
    case Err(_) => false
  }

  lemma AcquisitionAnswer(p: Provider, start: World, c: nat, lockId: string, ttl: nat, raw: Result<Document, Error>,
                          end: World, d: nat)
    requires Safe(start) && Operated(p, start, c, Acquire(lockId, 0, ttl), raw, end, d)
    ensures Granted(p, start, c, lockId, ttl, AsLease(raw, lockId, |end.bucket.log|), end)
    ensures var found := FoundBy(p, start, c);
            raw.Ok? <==> IsConnected(found) && !Locked(found.value, DecidedBy(p, start, c)) && Undisturbed(p, start, c)
  {
    hide Apply, Run, Between, Locked;
    var read := p.Reached(start, c, c + 1);
    OperatedAnswer(p, start, c, Acquire(lockId, 0, ttl), raw, end, d);
    AcquireAnswer(read.Connection(), |read.bucket.log|, lockId, DecidedBy(p, start, c), ttl);
  }

  lemma ReadyToWrite(start: World, read: World, decided: World, template: Action, now: Time, document: Document)
    requires Safe(read) && Safe(decided) && read.Extends(start) && decided.Extends(read) && now == decided.clock
    requires LeasesIssued(template, start.bucket.log)
    requires Apply(At(template, now), |read.bucket.log|, read.Connection()) == Ok(document)
    ensures LeasesIssued(At(template, now), decided.bucket.log) && At(template, now).now <= decided.clock
    ensures |read.bucket.log| <= |decided.bucket.log|
    ensures Apply(At(template, now), |read.bucket.log|, Version(decided.bucket.log, |read.bucket.log|)) == Ok(document)
    ensures decided.Extends(start)
  {
    hide Apply;
    ExtendsOn(start, read, decided);
    GenerationCountsWrites(read);
    VersionsStay(read, decided, |read.bucket.log|);
    if template.Complete? || template.Fail? {
      IssuedLater(start, decided, template.lease);
    }
  }

  /** What an operation leaves behind, in terms of the log. */
  lemma OperatedLog(p: Provider, start: World, c: nat, template: Action, r: Result<Document, Error>, end: World, d: nat)
    requires Safe(start) && Operated(p, start, c, template, r, end, d)
    ensures c < d <= c + 3 && Safe(p.Reached(start, c, d)) && p.Reached(start, c, d).Extends(start)
    ensures var live, action := p.Reached(start, c, d), At(template, p.Reached(start, c, c + 2).clock);
            match r
            case Ok(document) =>
              && Apply(action, |live.bucket.log|, live.Connection()) == Ok(document)
              && end == live.Put(document, action) && end.clock == live.clock
              && end.bucket.log[..|live.bucket.log|] == live.bucket.log && |end.bucket.log| == |live.bucket.log| + 1
              && end.bucket.log[|live.bucket.log|].action == action
              && end.bucket.log[|live.bucket.log|].after == Some(document) && end.Connection() == Some(document)
            case Err(_) => end == live
  {
    hide Apply, Run, Between;
    p.ReachedIsSafe(start, c, d);
    if r.Ok? {
      var read, live := p.Reached(start, c, c + 1), p.Reached(start, c, c + 3);
      p.ReachedIsSafe(start, c, c + 1);
      p.ReachedOn(start, c, c + 1, c + 3);
      p.ReachedIsSafe(read, c + 1, c + 3);
      SameLogSameConnection(read, live);
    }
  }

  lemma SameLogSameConnection(a: World, b: World)
    requires Safe(a) && Safe(b) && b.Extends(a) && |b.bucket.log| == |a.bucket.log|
    ensures b.Connection() == a.Connection()
  {
    GenerationCountsWrites(a);
    GenerationCountsWrites(b);
    assert b.bucket.log == a.bucket.log;
  }

  /** An operation is a run with that one attempt of its own. */
  lemma OperatedPlayed(p: Provider, start: World, c: nat, template: Action, r: Result<Document, Error>, end: World,
                       d: nat)
    requires Safe(start) && LeasesIssued(template, start.bucket.log) && Operated(p, start, c, template, r, end, d)
    ensures p.Did(start, c, Attempted(p, start, c, template), end, d)
  {
    hide Apply, Run, Between, Played;
    var read, decided, live := p.Reached(start, c, c + 1), p.Reached(start, c, c + 2), p.Reached(start, c, c + 3);
    var version, action := |read.bucket.log|, At(template, decided.clock);
    if Attempted(p, start, c, template) == [] {
      NothingOfItsOwn(p, start, c, end, d);
    } else {
      AttemptLands(p, start, c, template, Apply(action, version, read.Connection()).value);
      OneOfItsOwn(p, start, c, Write(action, version), end, d);
    }
  }

  lemma NothingOfItsOwn(p: Provider, start: World, c: nat, end: World, d: nat)
    requires c <= d && end == p.Reached(start, c, d)
    ensures p.Did(start, c, [], end, d)
  {
    PlayedByOthers(Step, p.others, start, c, end, d);
  }

  lemma OneOfItsOwn(p: Provider, start: World, c: nat, own: Attempt, end: World, d: nat)
    requires c <= d && end == Step(p.Reached(start, c, d), own)
    ensures p.Did(start, c, [own], end, d)
  {
    PlayedThenOwn(Step, p.others, start, c, own, d);
  }

  lemma AttemptLands(p: Provider, start: World, c: nat, template: Action, document: Document)
    requires Safe(start) && LeasesIssued(template, start.bucket.log)
    requires var read, decided := p.Reached(start, c, c + 1), p.Reached(start, c, c + 2);
             Apply(At(template, decided.clock), |read.bucket.log|, read.Connection()) == Ok(document)
    ensures var read, decided, live :=
            p.Reached(start, c, c + 1), p.Reached(start, c, c + 2), p.Reached(start, c, c + 3);
            var version, action := |read.bucket.log|, At(template, decided.clock);
            Step(live, Write(action, version)) ==
              if |live.bucket.log| == version then live.Put(document, action) else live
  {
    hide Apply, Run, Between;
    var read, decided, live := p.Reached(start, c, c + 1), p.Reached(start, c, c + 2), p.Reached(start, c, c + 3);
    p.ReachedIsSafe(start, c, c + 1);
    p.ReachedOn(start, c, c + 1, c + 2);
    p.ReachedIsSafe(read, c + 1, c + 2);
    p.ReachedOn(start, c, c + 2, c + 3);
    p.ReachedIsSafe(decided, c + 2, c + 3);
    ReadyToWrite(start, read, decided, template, decided.clock, document);
    VersionsStay(decided, live, |read.bucket.log|);
    GenerationCountsWrites(live);
    if template.Complete? || template.Fail? {
      ExtendsOn(start, decided, live);
      IssuedLater(start, live, template.lease);
    }
  }

  lemma AcquiredIsIssued(
    p: Provider, start: World, c: nat, lockId: string, ttl: nat, document: Document, end: World, d: nat)
    requires Safe(start) && Safe(end) && Operated(p, start, c, Acquire(lockId, 0, ttl), Ok(document), end, d)
    ensures end.Generation() == |end.bucket.log|
    ensures Issued(end.bucket.log, Lease(lockId, |end.bucket.log|, document.token, document.scope))
  {
    OperatedLog(p, start, c, Acquire(lockId, 0, ttl), Ok(document), end, d);
    GenerationCountsWrites(end);
  }

  /** With the bucket answering, finishing a lease works exactly if no write came between. */
  lemma WhyFinished(p: Provider, start: World, c: nat, template: Action, r: Result<Document, Error>, end: World, d: nat)
    requires Safe(start) && (template.Complete? || template.Fail?) && Issued(start.bucket.log, template.lease)
    requires Operated(p, start, c, template, r, end, d)
    ensures r == Err(StateUnavailable) || (r.Ok? <==> |p.Reached(start, c, d).bucket.log| == template.lease.generation)
    ensures r.Err? ==>
              || r.error == StateUnavailable || r.error == ConnectionConflict
              || r.error == if template.Complete? then RefreshConflict else NothingToWrite
  {
    hide Run, Between;
    var read, live := p.Reached(start, c, c + 1), p.Reached(start, c, d);
    OperatedLog(p, start, c, template, r, end, d);
    p.ReachedIsSafe(start, c, c + 1);
    p.ReachedOn(start, c, c + 1, d);
    p.ReachedIsSafe(read, c + 1, d);
    IssuedLater(start, read, template.lease);
    GenerationCountsWrites(read);
    if |read.bucket.log| == template.lease.generation {
      IssuedLocks(read, template.lease);
    }
  }

  /**
    The authorization server answered a refresh under `lease` with a token
    never stored before. It becomes the stored one exactly if no write landed
    between the acquisition and the completion; otherwise it is thrown away.
  */
  lemma RotationIsKept(p: Provider, start: World, c: nat, lease: Lease, token: string, scope: Option<string>,
                       r: Result<Document, Error>, end: World, d: nat)
    requires Safe(start) && Issued(start.bucket.log, lease)
    requires Operated(p, start, c, Complete(lease, token, scope, 0), r, end, d) && r != Err(StateUnavailable)
    requires NeverStored(p.Reached(start, c, d).bucket.log, token)
    ensures end.Connection().Some?
    ensures end.Connection().value.token == token <==> |p.Reached(start, c, d).bucket.log| == lease.generation
  {
    hide Apply, Run, Between, Operated;
    var live := p.Reached(start, c, d);
    OperatedLog(p, start, c, Complete(lease, token, scope, 0), r, end, d);
    WhyFinished(p, start, c, Complete(lease, token, scope, 0), r, end, d);
    GenerationCountsWrites(live);
    WriteIsAChange(live, |live.bucket.log| - 1);
    if r.Ok? {
      CompletedToken(lease, token, scope, p.Reached(start, c, c + 2).clock, live, r.value);
    }
  }

  lemma CompletedToken(lease: Lease, token: string, scope: Option<string>, now: Time, w: World, document: Document)
    requires Apply(Complete(lease, token, scope, now), |w.bucket.log|, w.Connection()) == Ok(document)
    ensures document.token == token
  {}

  ghost predicate NeverStored(log: Log, token: string) {
    forall n | 0 <= n < |log| :: log[n].after.Some? ==> log[n].after.value.token != token
  }

  /**
    Noting an account is such a write: the rotated token is thrown away, and the
    document keeps the replaced one, under the lock of the lease.
  */
  lemma AccountUpdateLosesRotation(p: Provider, start: World, c: nat, lease: Lease, token: string,
                                   scope: Option<string>, r: Result<Document, Error>, end: World, d: nat)
    requires Safe(start) && Issued(start.bucket.log, lease)
    requires Operated(p, start, c, Complete(lease, token, scope, 0), r, end, d) && r != Err(StateUnavailable)
    requires var log := p.Reached(start, c, d).bucket.log;
             lease.generation < |log| && OnlyAccounts(log, lease.generation, |log|)
    ensures r == Err(RefreshConflict) || r == Err(ConnectionConflict)
    ensures end == p.Reached(start, c, d) && end.Connection().Some?
    ensures var document := end.Connection().value;
            document.token == lease.token && document.status == Refreshing && document.lockId == Some(lease.lockId)
  {
    hide Apply, Run, Between, Operated;
    var live := p.Reached(start, c, d);
    OperatedLog(p, start, c, Complete(lease, token, scope, 0), r, end, d);
    WhyFinished(p, start, c, Complete(lease, token, scope, 0), r, end, d);
    IssuedLater(start, live, lease);
    AccountsKeepTheLock(live, lease, |live.bucket.log|);
    GenerationCountsWrites(live);
  }

  lemma {:induction false} AccountsKeepTheLock(w: World, lease: Lease, n: nat)
    requires Safe(w) && Issued(w.bucket.log, lease) && lease.generation <= n <= |w.bucket.log|
    requires OnlyAccounts(w.bucket.log, lease.generation, n)
    ensures w.bucket.log[n - 1].after.Some?
    ensures var document := w.bucket.log[n - 1].after.value;
            document.token == lease.token && document.status == Refreshing && document.lockId == Some(lease.lockId)
  {
    WriteIsAChange(w, n - 1);
    if n > lease.generation {
      AccountsKeepTheLock(w, lease, n - 1);
    }
  }

  lemma IssuedLocks(w: World, lease: Lease)
    requires Safe(w) && Issued(w.bucket.log, lease)
    ensures Holds(lease, lease.generation, Version(w.bucket.log, lease.generation))
  {
    WriteIsAChange(w, lease.generation - 1);
  }
}
