/**
  The HubSpot connection document and its refresh lease
  (app/adapters/hubspot/token_store.py), shared by every gateway instance.

  HubSpot may rotate the refresh token on every use (section 6 of RFC 6749), so
  at most one client may refresh at a time. The lease is the generation its
  acquisition wrote; finishing it is possible only while nobody has written
  since.
*/
module RefreshLease {
  import opened Wrappers
  import opened ObjectStore
  import opened Schedules

  type Time = int

  datatype Status = Active | Refreshing | ReauthorizationRequired

  /** `token` is the refresh token; encryption at rest is not modelled. */
  datatype Document = Document(
    token: string,
    scope: Option<string>,
    connectedAt: Time,
    updatedAt: Time,
    account: string,
    status: Status,
    lockId: Option<string>,
    lockExpiresAt: Option<Time>)

  datatype Lease = Lease(lockId: string, generation: nat, token: string, scope: Option<string>)

  datatype Error =
    | NotConnected
    | RefreshInProgress
    | RefreshConflict
    | ConnectionConflict
    | NothingToWrite
    | StateUnavailable
    | RefreshInvalid
    | OtherOAuthFailure
    | Unexpected

  /** Why a client writes, with the clock reading it decided on. */
  datatype Action =
    | Save(token: string, scope: Option<string>, account: string, now: Time)
    | Acquire(lockId: string, now: Time, ttl: nat)
    | Complete(lease: Lease, token: string, scope: Option<string>, now: Time)
    | Fail(lease: Lease, invalid: bool, now: Time)
    | UpdateAccount(account: string, now: Time)

  /** Python's `a or b` on optional text. */
  function Or(a: Option<string>, b: Option<string>): Option<string> {
    if a.Some? && a.value != "" then a else b
  }

  /** The lease still names the generation and lock the document carries. */
  predicate Holds(lease: Lease, generation: nat, found: Option<Document>) {
    found.Some? && generation == lease.generation && found.value.lockId == Some(lease.lockId)
  }

  /** The document to write, given the one found at `generation`, or a refusal. */
  function Apply(action: Action, generation: nat, found: Option<Document>): Result<Document, Error> {
    match action
    case Save(token, scope, account, now) =>
      Ok(Document(token, scope, now, now, account, Active, None, None))
    case Acquire(lockId, now, ttl) =>
      if found.None? || found.value.status == ReauthorizationRequired then Err(NotConnected)
      else if && found.value.status == Refreshing && found.value.lockExpiresAt.Some?
              && found.value.lockExpiresAt.value > now then Err(RefreshInProgress)
      else Ok(found.value.(status := Refreshing, lockId := Some(lockId),
                           lockExpiresAt := Some(now + ttl), updatedAt := now))
    case Complete(lease, token, scope, now) =>
      if !Holds(lease, generation, found) then Err(RefreshConflict)
      else Ok(found.value.(token := token, scope := Or(scope, lease.scope), status := Active,
                           lockId := None, lockExpiresAt := None, updatedAt := now))
    case Fail(lease, invalid, now) =>
      if !Holds(lease, generation, found) then Err(NothingToWrite)
      else Ok(found.value.(status := if invalid then ReauthorizationRequired else Active,
                           lockId := None, lockExpiresAt := None, updatedAt := now))
    case UpdateAccount(account, now) =>
      if found.None? then Err(NothingToWrite)
      else Ok(found.value.(account := account, updatedAt := now))
  }

  /** Somebody is refreshing and has time left. */
  ghost predicate Locked(d: Document, now: Time) {
    d.status == Refreshing && exists t :: d.lockExpiresAt == Some(t) && now < t
  }

  /** There is a connection to refresh: one that needs no new authorization. */
  ghost predicate IsConnected(found: Option<Document>) {
    found.Some? && found.value.status != ReauthorizationRequired
  }

  /**
    A lease is granted exactly on a connection that is not locked; it locks the
    document with that id until the time is up, and changes nothing else.
  */
  lemma AcquireAnswer(found: Option<Document>, generation: nat, lockId: string, now: Time, ttl: nat)
    ensures match Apply(Acquire(lockId, now, ttl), generation, found)
            case Ok(d) =>
              && IsConnected(found) && !Locked(found.value, now)
              && d == Document(found.value.token, found.value.scope, found.value.connectedAt, now, found.value.account,
                               Refreshing, Some(lockId), Some(now + ttl))
            case Err(NotConnected) => !IsConnected(found)
            case Err(RefreshInProgress) => IsConnected(found) && Locked(found.value, now)
            case Err(_) => false
  {
    if found.Some? && found.value.lockExpiresAt.Some? {
      assert found.value.lockExpiresAt == Some(found.value.lockExpiresAt.value);
    }
  }

  /** A lock whose time is up never blocks the next lease. */
  lemma ReachedDeadlineNeverBlocks(d: Document, generation: nat, lockId: string, now: Time, ttl: nat)
    requires d.status == Refreshing && d.lockExpiresAt.Some? && d.lockExpiresAt.value <= now
    ensures Apply(Acquire(lockId, now, ttl), generation, Some(d)).Ok?
  {
    AcquireAnswer(Some(d), generation, lockId, now, ttl);
  }

  datatype ObjectName = ConnectionFile

  type Write = Commit<ObjectName, Document, Action>
  type Log = seq<Write>

  datatype World = World(bucket: Bucket<ObjectName, Document, Action>, clock: Time) {
    function Generation(): nat {
      bucket.Generation(ConnectionFile)
    }

    function Connection(): Option<Document> {
      bucket.Peek(ConnectionFile)
    }

    function Put(after: Document, action: Action): World {
      World(bucket.CompareAndSet(ConnectionFile, Generation(), Some(after), action, clock).value, clock)
    }

    ghost predicate Extends(earlier: World) {
      earlier.bucket.log <= bucket.log && earlier.clock <= clock
    }
  }

  function Empty(clock: Time): World {
    World(Bucket(map[], []), clock)
  }

  /** What version `g` of the document said; version 0 is "no document". */
  function Version(log: Log, g: nat): Option<Document>
    requires g <= |log|
  {
    if g == 0 then None else log[g - 1].after
  }

  /** The lease handed out by the write that made version `g`. */
  predicate Issued(log: Log, lease: Lease) {
    && 1 <= lease.generation <= |log|
    && var c := log[lease.generation - 1];
       && c.action.Acquire? && c.after.Some?
       && lease == Lease(c.action.lockId, lease.generation, c.after.value.token, c.after.value.scope)
  }

  predicate LeasesIssued(action: Action, log: Log) {
    action.Complete? || action.Fail? ==> Issued(log, action.lease)
  }

  ghost predicate Legal(c: Write, before: Log) {
    && c.after.Some? && Apply(c.action, |before|, Version(before, |before|)) == Ok(c.after.value)
    && c.action.now <= c.at
    && LeasesIssued(c.action, before)
  }

  ghost predicate LegalLog(log: Log, clock: Time) {
    |log| == 0 ||
    (var n := |log| - 1; Legal(log[n], log[..n]) && log[n].at <= clock && LegalLog(log[..n], log[n].at))
  }

  ghost predicate Safe(w: World) {
    w.bucket.Valid() && LegalLog(w.bucket.log, w.clock)
  }

  datatype Attempt =
    | Tick(elapsed: nat)
    | Write(action: Action, version: nat)

  /** Another client tries to write what it decided on version `version`. */
  function Step(w: World, a: Attempt): World {
    match a
    case Tick(elapsed) => w.(clock := w.clock + elapsed)
    case Write(action, version) =>
      if action.now <= w.clock && version <= |w.bucket.log| && LeasesIssued(action, w.bucket.log) then
        var decision := Apply(action, version, Version(w.bucket.log, version));
        if decision.Ok? && w.Generation() == version then w.Put(decision.value, action) else w
      else w
  }

  function Run(w: World, attempts: seq<Attempt>): World {
    Play(Step, w, attempts)
  }

  lemma {:induction false} LegalAt(log: Log, clock: Time, i: nat)
    requires LegalLog(log, clock) && i < |log|
    ensures Legal(log[i], log[..i]) && log[i].at <= clock && LegalLog(log[..i], log[i].at)
  {
    if i < |log| - 1 {
      LegalAt(log[..|log| - 1], log[|log| - 1].at, i);
      assert log[..|log| - 1][..i] == log[..i];
    }
  }

  /** The document is never deleted, so its generation counts its writes. */
  lemma GenerationCountsWrites(w: World)
    requires Safe(w)
    ensures w.Generation() == |w.bucket.log| && w.Connection() == Version(w.bucket.log, |w.bucket.log|)
  {
    if |w.bucket.log| > 0 {
      assert w.bucket.log[|w.bucket.log| - 1].key == ConnectionFile;
    }
    assert w.Generation() == Latest(w.bucket.log, ConnectionFile);
    assert w.Connection() == Content(w.bucket.log, ConnectionFile);
  }

  lemma ExtendsOn(a: World, b: World, c: World)
    requires b.Extends(a) && c.Extends(b)
    ensures c.Extends(a)
  {
    assert c.bucket.log[..|a.bucket.log|] == b.bucket.log[..|a.bucket.log|];
  }

  lemma IssuedLater(w: World, later: World, lease: Lease)
    requires Issued(w.bucket.log, lease) && later.Extends(w)
    ensures Issued(later.bucket.log, lease)
  {}

  /** A conditional write decided on the live version is legal. */
  lemma WriteKeepsSafe(w: World, action: Action, version: nat)
    requires Safe(w) && action.now <= w.clock && version <= |w.bucket.log| && LeasesIssued(action, w.bucket.log)
    requires Apply(action, version, Version(w.bucket.log, version)).Ok? && w.Generation() == version
    ensures w.Connection() == Version(w.bucket.log, version)
    ensures var w' := w.Put(Apply(action, version, Version(w.bucket.log, version)).value, action);
            Safe(w') && w'.Extends(w)
  {
    GenerationCountsWrites(w);
    var after := Apply(action, version, Version(w.bucket.log, version)).value;
    CompareAndSetKeepsValid(w.bucket, ConnectionFile, version, Some(after), action, w.clock);
    var log := w.Put(after, action).bucket.log;
    assert log[..|log| - 1] == w.bucket.log;
  }

  lemma StepKeepsSafe(w: World, a: Attempt)
    requires Safe(w)
    ensures Safe(Step(w, a)) && Step(w, a).Extends(w)
  {
    if && a.Write? && a.action.now <= w.clock && a.version <= |w.bucket.log| && LeasesIssued(a.action, w.bucket.log)
       && Apply(a.action, a.version, Version(w.bucket.log, a.version)).Ok? && w.Generation() == a.version {
      WriteKeepsSafe(w, a.action, a.version);
    }
  }

  lemma {:induction false} RunKeepsSafe(w: World, attempts: seq<Attempt>)
    requires Safe(w)
    ensures Safe(Run(w, attempts)) && Run(w, attempts).Extends(w)
  {
    if attempts != [] {
      RunKeepsSafe(w, attempts[..|attempts| - 1]);
      StepKeepsSafe(Run(w, attempts[..|attempts| - 1]), attempts[|attempts| - 1]);
    }
  }

  // What the log of a safe world tells.

  /** Every write is one allowed change of the version just before it. */
  lemma WriteIsAChange(w: World, i: nat)
    requires Safe(w) && i < |w.bucket.log|
    ensures var c := w.bucket.log[i];
            && c.after.Some? && Apply(c.action, i, Version(w.bucket.log, i)) == Ok(c.after.value)
            && c.action.now <= c.at <= w.clock && LeasesIssued(c.action, w.bucket.log[..i])
  {
    LegalAt(w.bucket.log, w.clock, i);
    assert Version(w.bucket.log[..i], i) == Version(w.bucket.log, i);
  }

  lemma {:induction false} TimeOrder(log: Log, clock: Time, i: nat, j: nat)
    requires LegalLog(log, clock) && i <= j < |log|
    ensures log[i].at <= log[j].at
  {
    LegalAt(log, clock, j);
    if i < j {
      LegalAt(log[..j], log[j].at, i);
    }
  }

  /** Fencing: what finishes a lease is the very next write after the one that took it. */
  lemma FinishFollowsAcquire(w: World, j: nat)
    requires Safe(w) && j < |w.bucket.log| && (w.bucket.log[j].action.Complete? || w.bucket.log[j].action.Fail?)
    ensures var lease := w.bucket.log[j].action.lease;
            && lease.generation == j && j >= 1
            && w.bucket.log[j - 1].action.Acquire?
            && w.bucket.log[j - 1].action.lockId == lease.lockId
            && w.bucket.log[j - 1].after.Some? && w.bucket.log[j - 1].after.value.token == lease.token
  {
    WriteIsAChange(w, j);
    assert w.bucket.log[..j][j - 1] == w.bucket.log[j - 1];
  }

  /** The refresh token most recently saved by an authorization or obtained by a completed rotation. */
  ghost function LastToken(log: Log): Option<string> {
    if |log| == 0 then None
    else
      match log[|log| - 1].action
      case Save(token, _, _, _) => Some(token)
      case Complete(_, token, _, _) => Some(token)
      case _ => LastToken(log[..|log| - 1])
  }

  /** No lost update: the stored token is always the last one saved or rotated to. */
  lemma {:induction false} TokenIsTheLastOne(w: World, n: nat)
    requires Safe(w) && n <= |w.bucket.log|
    ensures LastToken(w.bucket.log[..n]) ==
            match Version(w.bucket.log, n) case Some(document) => Some(document.token) case None => None
  {
    if n > 0 {
      TokenIsTheLastOne(w, n - 1);
      WriteIsAChange(w, n - 1);
      assert w.bucket.log[..n][..n - 1] == w.bucket.log[..n - 1];
    }
  }

  /** A superseded lease writes nothing, whatever its holder tries. */
  lemma SupersededChangesNothing(w: World, action: Action, version: nat)
    requires Safe(w) && (action.Complete? || action.Fail?) && Issued(w.bucket.log, action.lease)
    requires |w.bucket.log| > action.lease.generation
    ensures Step(w, Write(action, version)) == w
  {
    GenerationCountsWrites(w);
  }

  /** Refreshing is exactly having a lock and a deadline. */
  ghost predicate Consistent(d: Document) {
    (d.status == Refreshing <==> d.lockId.Some?) && (d.status == Refreshing <==> d.lockExpiresAt.Some?)
  }

  lemma {:induction false} DocumentIsConsistent(w: World, n: nat)
    requires Safe(w) && 1 <= n <= |w.bucket.log|
    ensures w.bucket.log[n - 1].after.Some? && Consistent(w.bucket.log[n - 1].after.value)
  {
    WriteIsAChange(w, n - 1);
    if n > 1 {
      DocumentIsConsistent(w, n - 1);
    }
  }

  /** Only a new authorization ends reauthorization_required. */
  lemma OnlySaveReconnects(w: World, i: nat)
    requires Safe(w) && 1 <= i < |w.bucket.log|
    requires w.bucket.log[i - 1].after.Some? && w.bucket.log[i - 1].after.value.status == ReauthorizationRequired
    ensures w.bucket.log[i].after.Some?
    ensures w.bucket.log[i].action.Save? || w.bucket.log[i].after.value.status == ReauthorizationRequired
  {
    WriteIsAChange(w, i);
    DocumentIsConsistent(w, i);
  }

  /** HubSpot never issues an old refresh token again; a refresh may also keep the one it used. */
  ghost predicate FreshTokens(log: Log) {
    forall i, j | 0 <= i < j < |log| :: log[i].after.Some? ==>
      match log[j].action
      case Save(token, _, _, _) => token != log[i].after.value.token
      case Complete(lease, token, _, _) => token != lease.token ==> token != log[i].after.value.token
      case _ => true
  }

  /** Only newly saved tokens are new; a rotation may bring back an old one. */
  ghost predicate FreshSaves(log: Log) {
    forall i, j | 0 <= i < j < |log| ::
      log[i].after.Some? && log[j].action.Save? ==> log[j].action.token != log[i].after.value.token
  }

  /** Some write after `a` and before `n` finished the lease `a` took. */
  ghost predicate Finished(log: Log, a: nat, n: nat) {
    exists m | a < m < n <= |log| ::
      (log[m].action.Complete? || log[m].action.Fail?) && log[m].action.lease.generation == a + 1
  }

  function Deadline(c: Write): Time
    requires c.action.Acquire?
  {
    c.action.now + c.action.ttl
  }

  /** The first write after `a` that does more than note an account is a new authorization, and came before `n`. */
  ghost predicate SavedOver(log: Log, a: nat, n: nat) {
    exists m | a < m < n <= |log| :: log[m].action.Save? && OnlyAccounts(log, a + 1, m)
  }

  ghost predicate OnlyAccounts(log: Log, from: nat, to: nat) {
    to <= |log| && forall m | from <= m < to :: log[m].action.UpdateAccount?
  }

  /** What can have become of the lease taken by write `a` once `n` writes are in. */
  ghost predicate Fate(log: Log, a: nat, n: nat) {
    && a < n <= |log| && log[a].action.Acquire? && log[n - 1].after.Some?
    && var document := log[n - 1].after.value;
       || Finished(log, a, n)
       || Deadline(log[a]) <= log[n - 1].at
       || SavedOver(log, a, n)
       || (&& document.status == Refreshing && document.lockExpiresAt == Some(Deadline(log[a]))
           && OnlyAccounts(log, a + 1, n))
  }

  lemma FateStep(w: World, a: nat, n: nat)
    requires Safe(w) && n < |w.bucket.log| && Fate(w.bucket.log, a, n)
    ensures Fate(w.bucket.log, a, n + 1)
  {
    var log := w.bucket.log;
    WriteIsAChange(w, n);
    TimeOrder(log, w.clock, n - 1, n);
    if Finished(log, a, n) {
      var m :| a < m < n && (log[m].action.Complete? || log[m].action.Fail?) && log[m].action.lease.generation == a + 1;
      assert Finished(log, a, n + 1);
    } else if SavedOver(log, a, n) {
      var m :| a < m < n && log[m].action.Save? && OnlyAccounts(log, a + 1, m);
      assert SavedOver(log, a, n + 1);
    } else if log[n].action.Complete? || log[n].action.Fail? {
      FinishFollowsAcquire(w, n);
      if n - 1 == a {
        assert Finished(log, a, n + 1);
      }
    } else if log[n].action.Save? && OnlyAccounts(log, a + 1, n) {
      assert SavedOver(log, a, n + 1);
    }
  }

  /** Whatever tokens go round. */
  lemma {:induction false} LeaseFate(w: World, a: nat, n: nat)
    requires Safe(w) && a < n <= |w.bucket.log| && w.bucket.log[a].action.Acquire?
    ensures Fate(w.bucket.log, a, n)
  {
    if n == a + 1 {
      WriteIsAChange(w, a);
    } else {
      LeaseFate(w, a, n - 1);
      FateStep(w, a, n - 1);
    }
  }

  /** A lease is taken at `a`, and another at `b` before the deadline of the first. */
  ghost predicate TakenInTime(log: Log, a: nat, b: nat) {
    && a < b < |log| && log[a].action.Acquire? && log[b].action.Acquire?
    && Deadline(log[a]) > log[b].at
  }

  /**
    Exclusion, exactly: a second lease is taken while the first is unfinished
    and in time if and only if a new authorization was saved over the first.
  */
  lemma OverlapIffSavedOver(w: World, a: nat, b: nat)
    requires Safe(w) && TakenInTime(w.bucket.log, a, b)
    ensures !Finished(w.bucket.log, a, b) <==> SavedOver(w.bucket.log, a, b)
  {
    var log := w.bucket.log;
    LeaseFate(w, a, b);
    WriteIsAChange(w, b);
    TimeOrder(log, w.clock, b - 1, b);
    if Finished(log, a, b) {
      var m :| a < m < b && (log[m].action.Complete? || log[m].action.Fail?) && log[m].action.lease.generation == a + 1;
      FinishFollowsAcquire(w, m);
    }
  }

  /** A rotation made `token` the stored one again, and what came after it left it there. */
  ghost predicate BroughtBack(log: Log, token: string, a: nat, b: nat) {
    exists k | a < k < b <= |log| :: IsReturn(log[k].action, token) && KeepsToken(log, token, k + 1, b)
  }

  /** A rotation to `token` from another one. */
  ghost predicate IsReturn(action: Action, token: string) {
    action.Complete? && action.token == token && action.lease.token != token
  }

  ghost predicate KeepsToken(log: Log, token: string, from: nat, to: nat) {
    && to <= |log|
    && forall m | from <= m < to ::
         !log[m].action.Save? && (log[m].action.Complete? ==> log[m].action.token == token)
  }

  /** What a write does to the token; a rotation is from the token that was stored. */
  lemma TokenStep(w: World, m: nat)
    requires Safe(w) && 1 <= m < |w.bucket.log|
    ensures w.bucket.log[m - 1].after.Some? && w.bucket.log[m].after.Some?
    ensures var before, after := w.bucket.log[m - 1].after.value.token, w.bucket.log[m].after.value.token;
            match w.bucket.log[m].action
            case Save(token, _, _, _) => after == token
            case Complete(lease, token, _, _) => after == token && lease.token == before
            case _ => after == before
  {
    WriteIsAChange(w, m - 1);
    WriteIsAChange(w, m);
    if w.bucket.log[m].action.Complete? {
      FinishFollowsAcquire(w, m);
    }
  }

  /** Once replaced, a token is stored again exactly if a rotation brought it back. */
  lemma {:induction false} BackIffBroughtBack(w: World, token: string, m: nat, n: nat)
    requires Safe(w) && m < n <= |w.bucket.log|
    requires w.bucket.log[m].after.Some? && w.bucket.log[m].after.value.token != token
    requires forall j | m < j < n :: w.bucket.log[j].action.Save? ==> w.bucket.log[j].action.token != token
    ensures w.bucket.log[n - 1].after.Some?
    ensures w.bucket.log[n - 1].after.value.token == token <==> BroughtBack(w.bucket.log, token, m, n)
  {
    hide Safe;
    var log := w.bucket.log;
    if n > m + 1 {
      BackIffBroughtBack(w, token, m, n - 1);
      TokenStep(w, n - 1);
      if BroughtBack(log, token, m, n - 1) && KeepsToken(log, token, n - 1, n) {
        var k :| m < k < n - 1 && IsReturn(log[k].action, token) && KeepsToken(log, token, k + 1, n - 1);
        assert IsReturn(log[k].action, token) && KeepsToken(log, token, k + 1, n);
      } else if IsReturn(log[n - 1].action, token) {
        assert KeepsToken(log, token, n, n);
      }
      if BroughtBack(log, token, m, n) && !IsReturn(log[n - 1].action, token) {
        var k :| m < k < n && IsReturn(log[k].action, token) && KeepsToken(log, token, k + 1, n);
        assert IsReturn(log[k].action, token) && KeepsToken(log, token, k + 1, n - 1);
      }
    }
  }

  /** A rotation that brings a token back for good comes after every authorization. */
  lemma ReturnsAfterSave(log: Log, token: string, a: nat, m: nat, b: nat)
    requires a < m < b <= |log| && log[m].action.Save?
    ensures BroughtBack(log, token, a, b) <==> BroughtBack(log, token, m, b)
  {
    if BroughtBack(log, token, a, b) {
      var k :| a < k < b && IsReturn(log[k].action, token) && KeepsToken(log, token, k + 1, b);
      assert k > m;
    }
  }

  /**
    When saved tokens are new, two overlapping leases are on one token exactly
    if a rotation in between brought the token of the first back.
  */
  lemma OverlapSharesIffBroughtBack(w: World, a: nat, b: nat)
    requires Safe(w) && FreshSaves(w.bucket.log) && TakenInTime(w.bucket.log, a, b) && !Finished(w.bucket.log, a, b)
    ensures w.bucket.log[a].after.Some? && w.bucket.log[b].after.Some?
    ensures var token := w.bucket.log[a].after.value.token;
            w.bucket.log[b].after.value.token == token <==> BroughtBack(w.bucket.log, token, a, b)
  {
    hide Safe, Apply, Finished, BroughtBack;
    var log := w.bucket.log;
    WriteIsAChange(w, a);
    var token := log[a].after.value.token;
    OverlapIffSavedOver(w, a, b);
    var m :| a < m < b && log[m].action.Save? && OnlyAccounts(log, a + 1, m);
    TokenStep(w, m);
    BackIffBroughtBack(w, token, m, b);
    TokenStep(w, b);
    ReturnsAfterSave(log, token, a, m, b);
  }

  /**
    Exclusion: whatever interleaves, when a lease on a refresh token is taken,
    every earlier lease on the same token is finished or has run out.
  */
  lemma LeasesExclude(w: World, a: nat, b: nat)
    requires Safe(w) && FreshTokens(w.bucket.log) && a < b < |w.bucket.log|
    requires w.bucket.log[a].action.Acquire? && w.bucket.log[b].action.Acquire?
    requires w.bucket.log[a].after.Some? && w.bucket.log[b].after.Some?
    requires w.bucket.log[a].after.value.token == w.bucket.log[b].after.value.token
    ensures Finished(w.bucket.log, a, b) || Deadline(w.bucket.log[a]) <= w.bucket.log[b].at
  {
    var log := w.bucket.log;
    if TakenInTime(log, a, b) && !Finished(log, a, b) {
      OverlapSharesIffBroughtBack(w, a, b);
    }
  }

  lemma Extended(w: World, action: Action, document: Document) returns (w': World)
    requires Safe(w) && action.now <= w.clock && LeasesIssued(action, w.bucket.log)
    requires Apply(action, |w.bucket.log|, Version(w.bucket.log, |w.bucket.log|)) == Ok(document)
    ensures Safe(w') && w'.clock == w.clock
    ensures w'.bucket.log == w.bucket.log + [Commit(ConnectionFile, action, w.clock, w.Connection(), Some(document))]
  {
    GenerationCountsWrites(w);
    WriteKeepsSafe(w, action, |w.bucket.log|);
    w' := w.Put(document, action);
  }

  lemma TakenAndOverwritten() returns (w: World)
    ensures Safe(w) && w.clock == 0 && |w.bucket.log| == 3
    ensures w.bucket.log[0].action == Save("t1", None, "", 0) && w.bucket.log[2].action == Save("t2", None, "", 0)
    ensures w.bucket.log[1].action == Acquire("a", 0, 30)
    ensures w.bucket.log[0].after == Some(Document("t1", None, 0, 0, "", Active, None, None))
    ensures w.bucket.log[1].after == Some(Document("t1", None, 0, 0, "", Refreshing, Some("a"), Some(30)))
    ensures w.bucket.log[2].after == Some(Document("t2", None, 0, 0, "", Active, None, None))
  {
    w := Extended(Empty(0), Save("t1", None, "", 0), Document("t1", None, 0, 0, "", Active, None, None));
    w := Extended(w, Acquire("a", 0, 30), Document("t1", None, 0, 0, "", Refreshing, Some("a"), Some(30)));
    w := Extended(w, Save("t2", None, "", 0), Document("t2", None, 0, 0, "", Active, None, None));
  }

  lemma RotatedBack(start: World) returns (w: World)
    requires Safe(start) && start.clock == 0 && |start.bucket.log| == 3
    requires start.bucket.log[2].after == Some(Document("t2", None, 0, 0, "", Active, None, None))
    ensures Safe(w) && |w.bucket.log| == 6 && w.bucket.log[..3] == start.bucket.log
    ensures w.bucket.log[3].action.Acquire? && w.bucket.log[3].after.Some?
    ensures w.bucket.log[4].action.Complete? && w.bucket.log[4].action.lease.generation == 4
    ensures w.bucket.log[5].action.Acquire? && w.bucket.log[5].at == 0
    ensures w.bucket.log[5].after == Some(Document("t1", None, 0, 0, "", Refreshing, Some("c"), Some(30)))
  {
    w := Extended(start, Acquire("b", 0, 30), Document("t2", None, 0, 0, "", Refreshing, Some("b"), Some(30)));
    w := Extended(w, Complete(Lease("b", 4, "t2", None), "t1", None, 0),
                  Document("t1", None, 0, 0, "", Active, None, None));
    w := Extended(w, Acquire("c", 0, 30), Document("t1", None, 0, 0, "", Refreshing, Some("c"), Some(30)));
  }

  /** Exclusion does need rotations to be fresh too: here leases 1 and 5 share a token, both unfinished and in time. */
  lemma RecycledTokenIsShared() returns (w: World)
    ensures Safe(w) && |w.bucket.log| == 6 && FreshSaves(w.bucket.log)
    ensures var log := w.bucket.log;
            && log[1].action.Acquire? && log[5].action.Acquire?
            && log[1].after.Some? && log[5].after.Some? && log[1].after.value.token == log[5].after.value.token
            && !Finished(log, 1, 5) && Deadline(log[1]) > log[5].at
  {
    hide Safe, Apply, Legal;
    var start := TakenAndOverwritten();
    w := RotatedBack(start);
    assert forall i | 0 <= i < 3 :: w.bucket.log[i] == w.bucket.log[..3][i];
  }
}
