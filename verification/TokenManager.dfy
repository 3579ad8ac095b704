/** `HubSpotTokenManager`: a cached access token and the refresh that renews it (app/adapters/hubspot/mcp_client.py). */
module TokenManager {
  import opened Wrappers
  import opened ObjectStore
  import opened Schedules
  import opened RefreshLease
  import opened TokenStore

  const MAX_ACQUIRE_ATTEMPTS := 5
  const LEASE_SECONDS := 30

  datatype AccessToken = AccessToken(value: string, expiresAt: Option<Time>)

  /** What the authorization server answered a refresh with. */
  datatype TokenResponse = TokenResponse(
    accessToken: string, refreshToken: Option<string>, expiresIn: Option<int>, scope: Option<string>)

  /** A refresh call returns, fails with one of the gateway's errors, or raises something else. */
  datatype RefreshOutcome = Refreshed(response: TokenResponse) | Failed(error: Error) | Raised

  /** The refresh token to keep: the rotated one, or the one just used. */
  function Rotated(lease: Lease, response: TokenResponse): string {
    if response.refreshToken.Some? && response.refreshToken.value != "" then response.refreshToken.value
    else lease.token
  }

  function Remembered(response: TokenResponse, now: Time): AccessToken {
    AccessToken(response.accessToken,
                if response.expiresIn.Some? && response.expiresIn.value != 0
                then Some(now + if response.expiresIn.value - 60 > 1 then response.expiresIn.value - 60 else 1)
                else None)
  }

  predicate Usable(token: Option<AccessToken>, now: Time) {
    token.Some? && (token.value.expiresAt.None? || token.value.expiresAt.value > now)
  }

  /** Somebody has written since the lease was taken, so it can no longer hold the document. */
  ghost predicate IsOver(w: World, lease: Lease) {
    |w.bucket.log| > lease.generation
  }

  class HubSpotTokenManager {
    const store: HubSpotTokenStore
    var accessToken: Option<AccessToken>

    constructor (store: HubSpotTokenStore)
      ensures this.store == store && accessToken == None
    {
      this.store := store;
      accessToken := None;
    }

    method IsValid() returns (valid: bool)
      requires Safe(store.backend.world)
      modifies store.backend
      ensures Safe(store.backend.world) && store.backend.world.Extends(old(store.backend.world))
      ensures store.backend.calls == old(store.backend.calls) + 1
      ensures Only(old(store.backend.world), old(store.backend.calls), store.backend)
      ensures valid <==>
              && accessToken.Some?
              && (accessToken.value.expiresAt.None? || store.backend.world.clock < accessToken.value.expiresAt.value)
    {
      var now := store.backend.Now();
      valid := Usable(accessToken, now);
    }

    /**
      The two looks at the cached token, before and after waiting for the lock.
      `meanwhile` is the token that another coroutine remembered during the wait, if any.
    */
    method Cached(meanwhile: Option<AccessToken>) returns (valid: bool)
      requires Safe(store.backend.world)
      modifies this`accessToken, store.backend
      ensures Safe(store.backend.world) && store.backend.world.Extends(old(store.backend.world))
      ensures Only(old(store.backend.world), old(store.backend.calls), store.backend)
      ensures accessToken == old(accessToken) || (meanwhile.Some? && accessToken == meanwhile)
      ensures valid == Usable(accessToken, store.backend.world.clock)
    {
      hide Between, Run, Safe;
      ghost var start, c, p := store.backend.world, store.backend.calls, store.backend.provider;
      valid := IsValid();
      ghost var looked := store.backend.world;
      if !valid {
        accessToken := if meanwhile.Some? then meanwhile else accessToken;
        valid := IsValid();
        p.ReachedOn(start, c, c + 1, c + 2);
        ExtendsOn(start, looked, store.backend.world);
      }
    }

    /**
      The access token, cached or refreshed. `refresh` is what the authorization
      server answers to a refresh token; `taken` is the lease the call took, if
      any, and `own` what it attempted to write.
    */
    method GetAccessToken(lockIds: seq<string>, meanwhile: Option<AccessToken>, refresh: string -> RefreshOutcome)
      returns (r: Result<string, Error>, ghost taken: Option<Lease>, ghost own: seq<Attempt>)
      requires Safe(store.backend.world) && |lockIds| == 5
      modifies this`accessToken, store.backend
      ensures Safe(store.backend.world) && store.backend.world.Extends(old(store.backend.world))
      ensures store.backend.provider.Did(old(store.backend.world), old(store.backend.calls), own, store.backend.world,
                                         store.backend.calls)
      ensures forall i | 0 <= i < |own| ::
                || IsAcquisition(own[i])
                || (taken.Some? && IsFinish(own[i], taken.value, refresh(taken.value.token)))
      ensures taken.None? ==>
                && Only(old(store.backend.world), old(store.backend.calls), store.backend)
                && (accessToken == old(accessToken) || (meanwhile.Some? && accessToken == meanwhile))
      ensures taken.None? && r.Ok? ==>
                && accessToken.Some? && r.value == accessToken.value.value
                && (accessToken.value.expiresAt.None? || store.backend.world.clock < accessToken.value.expiresAt.value)
      ensures taken.None? && r.Err? ==>
                GaveUp(store.backend.provider, old(store.backend.world), old(store.backend.calls), lockIds, r.error,
                       store.backend.world, store.backend.calls)
      ensures taken.Some? ==>
                && Issued(store.backend.world.bucket.log, taken.value)
                && taken.value.generation > |old(store.backend.world).bucket.log|
      ensures taken.Some? && store.backend.provider.AnswersFrom(old(store.backend.calls)) ==>
                IsOver(store.backend.world, taken.value)
      ensures taken.Some? && r.Ok? ==>
                && refresh(taken.value.token).Refreshed?
                && r.value == refresh(taken.value.token).response.accessToken
                && accessToken.Some? && accessToken.value.value == r.value
                && IsOver(store.backend.world, taken.value)
                && FinishedBy(store.backend.world.bucket.log[taken.value.generation], taken.value,
                              Rotated(taken.value, refresh(taken.value.token).response))
                && Keeps(store.backend.world, taken.value, refresh(taken.value.token).response)
                && RemembersFor(accessToken, refresh(taken.value.token).response, store.backend.world.clock)
      ensures taken.Some? && store.backend.provider.AnswersFrom(old(store.backend.calls))
              && store.backend.provider.AloneFrom(old(store.backend.calls)) ==>
                && |store.backend.world.bucket.log| == |old(store.backend.world).bucket.log| + 2
                && EndedAs(store.backend.world, taken.value, refresh(taken.value.token))
    {
      hide Between, Run, Played, Chain, Operated, EndedAs, Safe, Issued, Keeps;
      ghost var start, c, p := store.backend.world, store.backend.calls, store.backend.provider;
      taken, own := None, [];
      var valid := Cached(meanwhile);
      ghost var looked, d := store.backend.world, store.backend.calls;
      NothingOfItsOwn(p, start, c, looked, d);
      if valid {
        return Ok(accessToken.value.value), taken, own;
      }
      var lease;
      ghost var rounds;
      lease, rounds := AcquireLease(lockIds);
      ghost var acquired, e := store.backend.world, store.backend.calls;
      own := Attempts(p, rounds, lockIds);
      AcquiredAfter(p, start, c, looked, d, rounds, lockIds, acquired, e);
      if lease.Err? {
        return Err(lease.error), taken, own;
      }
      taken := Some(lease.value);
      ghost var finish;
      r, finish := FinishRefresh(lease.value, refresh(lease.value.token));
      ExtendsOn(start, acquired, store.backend.world);
      IssuedLater(acquired, store.backend.world, lease.value);
      PlayedOn(Step, p.others, start, c, own, acquired, e, finish, store.backend.world, store.backend.calls);
      own := own + finish;
    }

    /** Up to five tries while somebody else refreshes; other refusals end the call at once. */
    method AcquireLease(lockIds: seq<string>) returns (r: Result<Lease, Error>, ghost rounds: seq<Round>)
      requires Safe(store.backend.world) && |lockIds| == 5
      modifies store.backend
      ensures Safe(store.backend.world) && store.backend.world.Extends(old(store.backend.world))
      ensures 1 <= |rounds| <= |lockIds|
      ensures Chain(store.backend.provider, rounds, lockIds, old(store.backend.world), old(store.backend.calls),
                    store.backend.world, store.backend.calls)
      ensures var n := |rounds| - 1; r == AsLease(rounds[n].raw, lockIds[n], |store.backend.world.bucket.log|)
      ensures r == Err(RefreshInProgress) ==> |rounds| == 5
      ensures r.Ok? ==> Issued(store.backend.world.bucket.log, r.value)
    {
      hide Chain, Operated, Safe, Issued;
      ghost var start, c, p := store.backend.world, store.backend.calls, store.backend.provider;
      r, rounds := Err(RefreshInProgress), [];
      NoRounds(p, lockIds, start, c);
      for attempt := 0 to MAX_ACQUIRE_ATTEMPTS
        invariant Safe(store.backend.world) && store.backend.world.Extends(start) && |rounds| == attempt
        invariant Chain(p, rounds, lockIds, start, c, store.backend.world, store.backend.calls)
        invariant attempt > 0 ==> IsBusy(rounds[attempt - 1].raw)
        invariant attempt > 0 ==>
            r == AsLease(rounds[attempt - 1].raw, lockIds[attempt - 1], |store.backend.world.bucket.log|)
      {
        ghost var before, d, raw := store.backend.world, store.backend.calls, Err(NotConnected);
        r, raw := store.AcquireRefreshLease(lockIds[attempt], LEASE_SECONDS);
        ExtendsOn(start, before, store.backend.world);
        OneMoreRound(p, rounds, lockIds, start, c, before, d, raw, store.backend.world, store.backend.calls);
        rounds := rounds + [Round(before, d, raw)];
        if r != Err(RefreshInProgress) {
          return;
        }
      }
    }

    /**
      The end of a refresh, whatever the authorization server said: unless the
      bucket is out, the lease is over when this returns.
    */
    method FinishRefresh(lease: Lease, outcome: RefreshOutcome)
      returns (r: Result<string, Error>, ghost own: seq<Attempt>)
      requires Safe(store.backend.world) && Issued(store.backend.world.bucket.log, lease)
      modifies this`accessToken, store.backend
      ensures Safe(store.backend.world) && store.backend.world.Extends(old(store.backend.world))
      ensures store.backend.provider.Did(old(store.backend.world), old(store.backend.calls), own, store.backend.world,
                                         store.backend.calls)
      ensures forall i | 0 <= i < |own| :: IsFinish(own[i], lease, outcome)
      ensures r.Ok? ==>
                && outcome.Refreshed? && r.value == outcome.response.accessToken
                && IsOver(store.backend.world, lease)
                && FinishedBy(store.backend.world.bucket.log[lease.generation], lease, Rotated(lease, outcome.response))
                && Keeps(store.backend.world, lease, outcome.response)
                && RemembersFor(accessToken, outcome.response, store.backend.world.clock)
      ensures outcome.Refreshed? && store.backend.provider.AnswersFrom(old(store.backend.calls)) ==>
                (r.Ok? <==> |store.backend.provider.Reached(old(store.backend.world), old(store.backend.calls),
                                                            store.backend.calls).bucket.log| == lease.generation)
      ensures outcome.Refreshed? && store.backend.provider.AnswersFrom(old(store.backend.calls))
              && IsSent(outcome.response)
              && NeverStored(store.backend.provider.Reached(old(store.backend.world), old(store.backend.calls),
                                                            store.backend.calls).bucket.log,
                             outcome.response.refreshToken.value) ==>
                && store.backend.world.Connection().Some?
                && (store.backend.world.Connection().value.token == outcome.response.refreshToken.value <==> r.Ok?)
      ensures r.Err? ==> accessToken == old(accessToken)
      ensures store.backend.provider.AnswersFrom(old(store.backend.calls)) ==>
                && IsOver(store.backend.world, lease)
                && match outcome
                   case Refreshed(_) => r.Ok? || r == Err(RefreshConflict)
                   case Failed(error) => r == Err(error)
                   case Raised => r == Err(Unexpected)
      ensures store.backend.provider.AnswersFrom(old(store.backend.calls))
              && store.backend.provider.AloneFrom(old(store.backend.calls))
              && lease.generation == |old(store.backend.world).bucket.log| ==>
                && |store.backend.world.bucket.log| == lease.generation + 1
                && EndedAs(store.backend.world, lease, outcome)
    {
      hide Between, Run, Played, Safe, Issued, EndedAs;
      ghost var start, c, p := store.backend.world, store.backend.calls, store.backend.provider;
      var error := if outcome.Failed? then outcome.error else Unexpected;
      own := [];
      p.ReachedNothing(start, c);
      NothingOfItsOwn(p, start, c, start, c);
      if outcome.Refreshed? {
        r, own := Rotate(lease, outcome.response);
        if r.Ok? {
          TokenIsKept(store.backend.world, lease, outcome.response);
          return;
        }
        error := r.error;
      }
      r := Err(error);
      ghost var failing, d := store.backend.world, store.backend.calls;
      IssuedLater(start, failing, lease);
      var answered;
      ghost var more;
      answered, more := GiveUp(lease, error == RefreshInvalid);
      GivenUp(store.backend.world, lease, outcome);
      if outcome.Refreshed? {
        p.ReachedOn(start, c, d, store.backend.calls);
        if p.AnswersFrom(c) {
          TokenIsLost(p, start, c, store.backend.world, store.backend.calls, lease, outcome.response);
        }
      }
      if !answered {
        r := Err(StateUnavailable);
      }
      ExtendsOn(start, failing, store.backend.world);
      PlayedOn(Step, p.others, start, c, own, failing, d, more, store.backend.world, store.backend.calls);
      own := own + more;
    }

    /** Store the rotated token under the lease, then remember the access token. */
    method Rotate(lease: Lease, response: TokenResponse) returns (r: Result<string, Error>, ghost own: seq<Attempt>)
      requires Safe(store.backend.world) && Issued(store.backend.world.bucket.log, lease)
      modifies this`accessToken, store.backend
      ensures Safe(store.backend.world) && store.backend.world.Extends(old(store.backend.world))
      ensures old(store.backend.calls) <= store.backend.calls
      ensures store.backend.provider.Did(old(store.backend.world), old(store.backend.calls), own, store.backend.world,
                                         store.backend.calls)
      ensures forall i | 0 <= i < |own| :: IsFinish(own[i], lease, Refreshed(response))
      ensures r.Ok? ==>
                && r.value == response.accessToken
                && IsOver(store.backend.world, lease)
                && FinishedBy(store.backend.world.bucket.log[lease.generation], lease, Rotated(lease, response))
                && Keeps(store.backend.world, lease, response)
                && RemembersFor(accessToken, response, store.backend.world.clock)
                && |store.backend.provider.Reached(old(store.backend.world), old(store.backend.calls),
                                                   store.backend.calls).bucket.log| == lease.generation
      ensures r.Err? ==>
                store.backend.world == store.backend.provider.Reached(old(store.backend.world),
                                                                      old(store.backend.calls), store.backend.calls)
      ensures r.Err? ==> accessToken == old(accessToken) && (r.error == RefreshConflict || r.error == StateUnavailable)
      ensures r == Err(RefreshConflict) ==> IsOver(store.backend.world, lease)
      ensures store.backend.provider.AnswersFrom(old(store.backend.calls)) ==> r != Err(StateUnavailable)
      ensures store.backend.provider.AloneFrom(old(store.backend.calls))
              && lease.generation == |old(store.backend.world).bucket.log| ==>
                if r.Ok?
                then && |store.backend.world.bucket.log| == lease.generation + 1
                     && EndedAs(store.backend.world, lease, Refreshed(response))
                else |store.backend.world.bucket.log| == lease.generation
    {
      hide Between, Run, Played, Safe, Issued, Operated;
      ghost var start, c, p := store.backend.world, store.backend.calls, store.backend.provider;
      var completed;
      ghost var raw;
      completed, raw := store.CompleteRefresh(lease, Rotated(lease, response), response.scope);
      own := Attempted(p, start, c, Complete(lease, Rotated(lease, response), response.scope, 0));
      Finishing(p, start, c, Complete(lease, Rotated(lease, response), response.scope, 0), raw, store.backend.world,
                store.backend.calls);
      if completed.Ok? {
        Remember(response);
        r := Ok(response.accessToken);
      } else {
        r := Err(completed.error);
      }
    }

    method Remember(response: TokenResponse)
      requires Safe(store.backend.world)
      modifies this`accessToken
      ensures RemembersFor(accessToken, response, store.backend.world.clock)
    {
      accessToken := Some(Remembered(response, store.backend.world.clock));
    }

    /** `fail_refresh` as the driver calls it; false when the bucket was out. */
    method GiveUp(lease: Lease, invalid: bool) returns (answered: bool, ghost own: seq<Attempt>)
      requires Safe(store.backend.world) && Issued(store.backend.world.bucket.log, lease)
      modifies store.backend
      ensures Safe(store.backend.world) && store.backend.world.Extends(old(store.backend.world))
      ensures old(store.backend.calls) <= store.backend.calls
      ensures store.backend.provider.Did(old(store.backend.world), old(store.backend.calls), own, store.backend.world,
                                         store.backend.calls)
      ensures forall i | 0 <= i < |own| ::
                own[i].Write? && own[i].action.Fail? && own[i].action.lease == lease && own[i].action.invalid == invalid
      ensures answered ==> IsOver(store.backend.world, lease)
      ensures IsOver(old(store.backend.world), lease) ==>
                store.backend.world == store.backend.provider.Reached(old(store.backend.world),
                                                                      old(store.backend.calls), store.backend.calls)
      ensures store.backend.provider.AnswersFrom(old(store.backend.calls)) ==> answered
      ensures answered && store.backend.provider.AloneFrom(old(store.backend.calls))
              && lease.generation == |old(store.backend.world).bucket.log| ==>
                && |store.backend.world.bucket.log| == lease.generation + 1
                && store.backend.world.Connection().Some?
                && store.backend.world.Connection().value.status == if invalid then ReauthorizationRequired else Active
    {
      hide Between, Run, Played, Safe, Issued, Operated;
      ghost var start, c, p := store.backend.world, store.backend.calls, store.backend.provider;
      var failed;
      ghost var raw;
      failed, raw := store.FailRefresh(lease, invalid);
      own := Attempted(p, start, c, Fail(lease, invalid, 0));
      Finishing(p, start, c, Fail(lease, invalid, 0), raw, store.backend.world, store.backend.calls);
      answered := failed.Ok?;
    }
  }

  /** Since `start`, at call `c`, only others wrote. */
  ghost predicate Only(start: World, c: nat, backend: StateBackend)
    reads backend
  {
    c <= backend.calls && backend.world == backend.provider.Reached(start, c, backend.calls)
  }

  ghost predicate IsAcquisition(a: Attempt) {
    a.Write? && a.action.Acquire?
  }

  /** A write that ends `lease` as the authorization server's answer requires. */
  ghost predicate IsFinish(a: Attempt, lease: Lease, outcome: RefreshOutcome) {
    && a.Write?
    && match a.action
       case Complete(of, token, _, _) => outcome.Refreshed? && of == lease && token == Rotated(lease, outcome.response)
       case Fail(of, invalid, _) => of == lease && (invalid <==> outcome == Failed(RefreshInvalid))
       case _ => false
  }

  /** One try at the lease: where it started, and what it found. */
  datatype Round = Round(before: World, call: nat, raw: Result<Document, Error>)

  /** The document is being refreshed, or somebody else wrote it: worth another try. */
  ghost predicate IsBusy(raw: Result<Document, Error>) {
    raw == Err(RefreshInProgress) || raw == Err(ConnectionConflict)
  }

  /** The tries, each an acquisition from where the one before ended; only a busy one is followed by another. */
  ghost predicate Chain(
    p: Provider, rounds: seq<Round>, lockIds: seq<string>, start: World, c: nat, end: World, d: nat)
  {
    if rounds == [] then end == start && d == c
    else
      var n := |rounds| - 1;
      var last := rounds[n];
      && n < |lockIds| && (n > 0 ==> IsBusy(rounds[n - 1].raw))
      && Chain(p, rounds[..n], lockIds, start, c, last.before, last.call)
      && Operated(p, last.before, last.call, Acquire(lockIds[n], 0, 30), last.raw, end, d)
  }

  /** What the tries attempted to write. */
  ghost function Attempts(p: Provider, rounds: seq<Round>, lockIds: seq<string>): seq<Attempt>
    requires |rounds| <= |lockIds|
  {
    if rounds == [] then []
    else
      var n := |rounds| - 1;
      Attempts(p, rounds[..n], lockIds)
      + Attempted(p, rounds[n].before, rounds[n].call, Acquire(lockIds[n], 0, 30))
  }

  /** Why no lease was taken: five busy tries in a row, or a try that was refused for another reason. */
  ghost predicate GaveUp(p: Provider, start: World, c: nat, lockIds: seq<string>, e: Error, end: World, d: nat) {
    exists looked: World, k: nat, rounds: seq<Round> ::
      && c <= k && looked == p.Reached(start, c, k)
      && 1 <= |rounds| <= |lockIds| && Chain(p, rounds, lockIds, looked, k, end, d)
      && (e == RefreshInProgress ==> |rounds| == 5)
      && AsLease(rounds[|rounds| - 1].raw, "", 0) == Err(e)
  }

  lemma NoRounds(p: Provider, lockIds: seq<string>, start: World, c: nat)
    ensures Chain(p, [], lockIds, start, c, start, c)
  {}

  lemma OneMoreRound(p: Provider, rounds: seq<Round>, lockIds: seq<string>, start: World, c: nat, before: World, d: nat,
                     raw: Result<Document, Error>, end: World, e: nat)
    requires Chain(p, rounds, lockIds, start, c, before, d) && |rounds| < |lockIds|
    requires rounds != [] ==> IsBusy(rounds[|rounds| - 1].raw)
    requires Operated(p, before, d, Acquire(lockIds[|rounds|], 0, 30), raw, end, e)
    ensures Chain(p, rounds + [Round(before, d, raw)], lockIds, start, c, end, e)
  {
    hide Operated;
    var more := rounds + [Round(before, d, raw)];
    assert more[..|rounds|] == rounds;
  }

  /** Busy tries leave the bucket to others; each takes at least two calls. */
  lemma {:induction false} ChainLog(p: Provider, rounds: seq<Round>, lockIds: seq<string>, start: World, c: nat,
                                    end: World, d: nat)
    requires Safe(start) && Chain(p, rounds, lockIds, start, c, end, d) && |rounds| <= |lockIds|
    ensures c <= d && p.Did(start, c, Attempts(p, rounds, lockIds), end, d)
    ensures forall i | 0 <= i < |Attempts(p, rounds, lockIds)| :: IsAcquisition(Attempts(p, rounds, lockIds)[i])
    ensures rounds == [] || rounds[|rounds| - 1].raw.Err? ==> end == p.Reached(start, c, d)
    ensures rounds != [] && rounds[|rounds| - 1].raw.Ok? ==>
              && |end.bucket.log| > |start.bucket.log|
              && (p.AloneFrom(c) ==> |end.bucket.log| == |start.bucket.log| + 1)
  {
    hide Run, Between, Played, Operated, Safe;
    if rounds == [] {
      p.ReachedNothing(start, c);
      NothingOfItsOwn(p, start, c, end, d);
    } else {
      var n := |rounds| - 1;
      var last := rounds[n];
      var template := Acquire(lockIds[n], 0, 30);
      ChainLog(p, rounds[..n], lockIds, start, c, last.before, last.call);
      p.ReachedIsSafe(start, c, last.call);
      OperatedLog(p, last.before, last.call, template, last.raw, end, d);
      OperatedPlayed(p, last.before, last.call, template, last.raw, end, d);
      PlayedOn(Step, p.others, start, c, Attempts(p, rounds[..n], lockIds), last.before, last.call,
               Attempted(p, last.before, last.call, template), end, d);
      p.ReachedOn(start, c, last.call, d);
      p.ReachedIsSafe(start, c, d);
      if p.AloneFrom(c) {
        p.ReachedAlone(start, c, c, d);
      }
    }
  }

  /** The look at the cache and then the tries, as one. */
  lemma AcquiredAfter(p: Provider, start: World, c: nat, looked: World, d: nat, rounds: seq<Round>,
                      lockIds: seq<string>, end: World, e: nat)
    requires Safe(start) && Safe(looked) && c <= d && looked == p.Reached(start, c, d)
    requires 1 <= |rounds| <= |lockIds| && Chain(p, rounds, lockIds, looked, d, end, e)
    requires looked.Extends(start) && end.Extends(looked)
    ensures end.Extends(start) && c <= d <= e && p.Did(start, c, Attempts(p, rounds, lockIds), end, e)
    ensures forall i | 0 <= i < |Attempts(p, rounds, lockIds)| :: IsAcquisition(Attempts(p, rounds, lockIds)[i])
    ensures rounds[|rounds| - 1].raw.Err? ==> end == p.Reached(start, c, e)
    ensures rounds[|rounds| - 1].raw.Ok? ==>
              && |end.bucket.log| > |start.bucket.log|
              && (p.AloneFrom(c) ==> |end.bucket.log| == |start.bucket.log| + 1)
  {
    hide Between, Played, Safe, Chain;
    ChainLog(p, rounds, lockIds, looked, d, end, e);
    PlayedAfter(Step, p.others, start, c, looked, d, Attempts(p, rounds, lockIds), end, e);
    p.ReachedOn(start, c, d, e);
    ExtendsOn(start, looked, end);
    if p.AloneFrom(c) {
      p.ReachedAlone(start, c, c, d);
    }
  }

  /** What finishing a lease leaves behind. */
  lemma Finishing(p: Provider, start: World, c: nat, template: Action, raw: Result<Document, Error>, end: World, d: nat)
    requires Safe(start) && (template.Complete? || template.Fail?) && Issued(start.bucket.log, template.lease)
    requires Operated(p, start, c, template, raw, end, d)
    ensures c < d && p.Did(start, c, Attempted(p, start, c, template), end, d)
    ensures forall i | 0 <= i < |Attempted(p, start, c, template)| ::
              var a := Attempted(p, start, c, template)[i];
              a.Write? && At(a.action, 0) == At(template, 0)
    ensures raw.Ok? ==>
              && |end.bucket.log| == template.lease.generation + 1
              && At(end.bucket.log[template.lease.generation].action, 0) == At(template, 0)
              && end.Connection() == Some(raw.value) == end.bucket.log[template.lease.generation].after
              && raw.value.status == (if template.Fail? && template.invalid then ReauthorizationRequired else Active)
              && (template.Complete? ==> raw.value.token == template.token)
    ensures raw.Ok? ==> |p.Reached(start, c, d).bucket.log| == template.lease.generation
    ensures raw.Err? ==> end == p.Reached(start, c, d)
    ensures raw.Err? && raw.error != StateUnavailable ==> |end.bucket.log| > template.lease.generation
    ensures IsOver(start, template.lease) ==> raw.Err?
    ensures p.AnswersFrom(c) ==> raw != Err(StateUnavailable)
    ensures p.AloneFrom(c) && raw.Err? ==> |end.bucket.log| == |start.bucket.log|
  {
    hide Run, Between, Played, Safe;
    p.ReachedIsSafe(start, c, d);
    OperatedLog(p, start, c, template, raw, end, d);
    OperatedPlayed(p, start, c, template, raw, end, d);
    WhyFinished(p, start, c, template, raw, end, d);
    if p.AloneFrom(c) {
      p.ReachedAlone(start, c, c, d);
    }
  }

  lemma GivenUp(w: World, lease: Lease, outcome: RefreshOutcome)
    ensures !outcome.Refreshed? && w.Connection().Some?
            && w.Connection().value.status ==
               (if outcome == Failed(RefreshInvalid) then ReauthorizationRequired else Active)
            ==> EndedAs(w, lease, outcome)
  {}

  /** The authorization server sent a new refresh token. */
  predicate IsSent(response: TokenResponse) {
    response.refreshToken.Some? && response.refreshToken.value != ""
  }

  /** The write right after the acquisition stored the token sent, or, if none was sent, the lease's. */
  ghost predicate Keeps(w: World, lease: Lease, response: TokenResponse) {
    && w.Connection().Some?
    && |w.bucket.log| == lease.generation + 1 && w.bucket.log[lease.generation].after == w.Connection()
    && (response.refreshToken.Some? && response.refreshToken.value != "" ==>
          w.Connection().value.token == response.refreshToken.value)
    && (response.refreshToken == None || response.refreshToken == Some("") ==>
          w.Connection().value.token == lease.token)
  }

  /**
    The access token is remembered until a minute before it expires, and for a second at
    least; without a time, for good.
  */
  ghost predicate RemembersFor(token: Option<AccessToken>, response: TokenResponse, now: Time) {
    && token.Some? && token.value.value == response.accessToken
    && match response.expiresIn
       case None => token.value.expiresAt == None
       case Some(n) =>
         if n == 0 then token.value.expiresAt == None
         else if n <= 61 then token.value.expiresAt == Some(now + 1)
         else token.value.expiresAt == Some(now + n - 60)
  }

  lemma TokenIsKept(w: World, lease: Lease, response: TokenResponse)
    requires Keeps(w, lease, response)
    ensures w.Connection().Some?
    ensures IsSent(response) ==> w.Connection().value.token == response.refreshToken.value
  {}

  /** A token sent after somebody else wrote is not the stored one, unless it was stored before. */
  lemma TokenIsLost(p: Provider, start: World, c: nat, end: World, d: nat, lease: Lease, response: TokenResponse)
    requires Safe(start) && Issued(start.bucket.log, lease) && c <= d && end == p.Reached(start, c, d)
    ensures end.Connection().Some?
    ensures IsSent(response) && NeverStored(end.bucket.log, response.refreshToken.value) ==>
              end.Connection().value.token != response.refreshToken.value
  {
    hide Run, Between;
    p.ReachedIsSafe(start, c, d);
    GenerationCountsWrites(end);
    WriteIsAChange(end, |end.bucket.log| - 1);
  }

  /** `c` completes `lease` with refresh token `token`. */
  ghost predicate FinishedBy(c: RefreshLease.Write, lease: Lease, token: string) {
    c.action.Complete? && c.action.lease == lease && c.action.token == token
  }

  /** How a refresh that nobody disturbed leaves the document. */
  ghost predicate EndedAs(w: World, lease: Lease, outcome: RefreshOutcome) {
    && w.Connection().Some?
    && match outcome
       case Refreshed(response) =>
         w.Connection().value.status == Active && w.Connection().value.token == Rotated(lease, response)
       case Failed(error) =>
         w.Connection().value.status == if error == RefreshInvalid then ReauthorizationRequired else Active
       case Raised => w.Connection().value.status == Active
  }
}
