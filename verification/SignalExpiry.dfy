/**
  Lazy expiry against eager expiry. The inbox keeps an overdue claim stored and
  works around it; the reference model here takes every claim away the moment
  its deadline passes and then never looks at deadlines. Runs of calls, each
  alone on the bucket and with the clock never running back, cannot tell the
  two apart, except that `updated_at` of a lapsed record may differ, and that a
  repeated delivery reports the status of an overdue claim as stored.
*/
module SignalExpiry {
  import opened Wrappers
  import opened ObjectStore
  import opened Schedules
  import opened SignalRecords
  import opened SignalStore
  import opened SignalBox
  import opened SignalInbox
  import opened SignalHistory

  datatype Call =
    | Redeliver(payload: Payload, messageId: string, publishTime: Option<Time>, attributes: map<string, string>)
    | Get(id: string)
    | List(filter: Filter, limit: int)
    | Claim(id: string, claimant: string)
    | Complete(id: string, principal: Option<string>, summary: string, metadata: string)
    | GetThenRelease(id: string, principal: Option<string>)
    | GetThenDismiss(id: string, principal: Option<string>, reason: string)
    | Cleanup

  /** What a caller learns. A listing is any right answer over the box it was made from. */
  datatype Outcome =
    | Shown(record: Record)
    | Failed(error: Error)
    | Received(created: bool, status: Status)
    | Listed(box: Box, filter: Filter, limit: nat)
    | Swept

  datatype Config = Config(lease: Time, retention: Time)

  datatype Reply = Reply(box: Box, outcome: Outcome)

  function Store(box: Box, id: string, r: Result<Record, Error>): Reply {
    match r
    case Ok(rec) => Reply(box[id := rec], Shown(rec))
    case Err(e) => Reply(box, Failed(e))
  }

  /** The inbox's own calls, alone on the bucket. */
  function Lazy(config: Config, box: Box, now: Time, call: Call): Reply {
    match call
    case Redeliver(payload, messageId, publishTime, attributes) =>
      if payload.signalId in box then Reply(box, Received(false, box[payload.signalId].status))
      else
        var receipt := Receipt(now, messageId, publishTime, attributes);
        Reply(box[payload.signalId := FromDelivery(payload, receipt)], Received(true, Pending))
    case List(filter, limit) =>
      if limit < 1 || limit > MAX_LIST_LIMIT then Reply(box, Failed(LimitInvalid))
      else
        var shown := LapseAll(Sweep(box, now, config.retention), now);
        Reply(shown, Listed(shown, filter, limit))
    case Cleanup => Reply(Sweep(box, now, config.retention), Outcome.Swept)
    case _ => LazyOne(config, box, now, call)
  }

  function LazyOne(config: Config, box: Box, now: Time, call: Call): Reply
    requires IsOnOneSignal(call)
  {
    if call.id !in box then Reply(box, Failed(NotFound))
    else
      var r := box[call.id];
      var seen := if call.GetThenRelease? || call.GetThenDismiss? then Lapse(r, now) else r;
      Store(box[call.id := seen], call.id, LazyUpdate(config, r, now, call))
  }

  predicate IsOnOneSignal(call: Call) {
    call.Get? || call.Claim? || call.Complete? || call.GetThenRelease? || call.GetThenDismiss?
  }

  function LazyUpdate(config: Config, r: Record, now: Time, call: Call): Result<Record, Error>
    requires IsOnOneSignal(call)
  {
    match call
    case Get(_) => Ok(Lapse(r, now))
    case Claim(_, claimant) => ClaimTransition(r, claimant, now, config.lease)
    case Complete(_, principal, summary, metadata) => CompleteTransition(r, principal, summary, metadata, now)
    case GetThenRelease(_, principal) => ReleaseTransition(Lapse(r, now), principal, now)
    case GetThenDismiss(_, principal, reason) => DismissTransition(Lapse(r, now), principal, reason, now)
  }

  /** Claiming when a stored claim is always a running one. */
  function EagerClaim(r: Record, claimant: string, now: Time, lease: Time): Result<Record, Error> {
    match r.status
    case Pending => Ok(r.(status := Claimed, claimedBy := Some(claimant), claimedAt := Some(now),
                          claimExpiresAt := Some(now + lease), updatedAt := now))
    case Claimed => Err(AlreadyClaimed)
    case _ => Err(TransitionInvalid(r.status, Claimed))
  }

  function EagerComplete(r: Record, principal: Option<string>, summary: string, metadata: string, now: Time)
    : Result<Record, Error>
  {
    if r.status != Claimed then Err(TransitionInvalid(r.status, Completed))
    else if principal.Some? && r.claimedBy != principal then Err(OwnerMismatch)
    else Ok(r.(status := Completed, completedAt := Some(now), completionSummary := Some(summary),
               outcomeMetadata := metadata, updatedAt := now))
  }

  function EagerRelease(r: Record, principal: Option<string>, now: Time): Result<Record, Error> {
    match r.status
    case Claimed =>
      if principal.None? || r.claimedBy == principal
      then Ok(r.(status := Pending, claimedBy := None, claimedAt := None, claimExpiresAt := None, updatedAt := now))
      else Err(OwnerMismatch)
    case _ => Err(TransitionInvalid(r.status, Pending))
  }

  function EagerDismiss(r: Record, principal: Option<string>, reason: string, now: Time): Result<Record, Error> {
    var dismissed :=
      r.(status := Dismissed, dismissedAt := Some(now), dismissalReason := Some(reason), updatedAt := now);
    match r.status
    case Pending => Ok(dismissed)
    case Claimed => if principal.None? || r.claimedBy == principal then Ok(dismissed) else Err(OwnerMismatch)
    case _ => Err(TransitionInvalid(r.status, Dismissed))
  }

  /** The reference: overdue claims are gone before any call looks. */
  function Eager(config: Config, before: Box, now: Time, call: Call): Reply {
    var box := LapseAll(before, now);
    match call
    case Redeliver(payload, messageId, publishTime, attributes) =>
      if payload.signalId in box then Reply(box, Received(false, box[payload.signalId].status))
      else
        var receipt := Receipt(now, messageId, publishTime, attributes);
        Reply(box[payload.signalId := FromDelivery(payload, receipt)], Received(true, Pending))
    case List(filter, limit) =>
      if limit < 1 || limit > MAX_LIST_LIMIT then Reply(box, Failed(LimitInvalid))
      else
        var kept := Sweep(box, now, config.retention);
        Reply(kept, Listed(kept, filter, limit))
    case Cleanup => Reply(Sweep(box, now, config.retention), Outcome.Swept)
    case _ => EagerOne(config, box, now, call)
  }

  function EagerOne(config: Config, box: Box, now: Time, call: Call): Reply
    requires IsOnOneSignal(call)
  {
    if call.id !in box then Reply(box, Failed(NotFound))
    else Store(box, call.id, EagerUpdate(config, box[call.id], now, call))
  }

  function EagerUpdate(config: Config, r: Record, now: Time, call: Call): Result<Record, Error>
    requires IsOnOneSignal(call)
  {
    match call
    case Get(_) => Ok(r)
    case Claim(_, claimant) => EagerClaim(r, claimant, now, config.lease)
    case Complete(_, principal, summary, metadata) => EagerComplete(r, principal, summary, metadata, now)
    case GetThenRelease(_, principal) => EagerRelease(r, principal, now)
    case GetThenDismiss(_, principal, reason) => EagerDismiss(r, principal, reason, now)
  }

  /** Equal but for `updated_at`. */
  predicate Same(a: Record, b: Record) {
    a.(updatedAt := b.updatedAt) == b
  }

  /** The same error code; the status an invalid transition mentions is only message text. */
  predicate SameError(a: Error, b: Error) {
    a == b || (a.TransitionInvalid? && b.TransitionInvalid? && a.to == b.to)
  }

  predicate SameResult(a: Result<Record, Error>, b: Result<Record, Error>) {
    if a.Ok? then b.Ok? && Same(a.value, b.value) else b.Err? && SameError(a.error, b.error)
  }

  ghost predicate SameBox(a: Box, b: Box) {
    a.Keys == b.Keys && forall k | k in a :: Same(a[k], b[k])
  }

  ghost predicate SameOutcome(a: Outcome, b: Outcome) {
    match (a, b)
    case (Shown(x), Shown(y)) => Same(x, y)
    case (Failed(x), Failed(y)) => SameError(x, y)
    case (Listed(x, f, n), Listed(y, g, m)) => SameBox(x, y) && f == g && n == m
    case (_, _) => a == b
  }

  /** The lazy box shows at `now` what the eager box holds. */
  ghost predicate Simulates(lazy: Box, eager: Box, now: Time) {
    lazy.Keys == eager.Keys && forall k | k in lazy :: Same(Lapse(lazy[k], now), Lapse(eager[k], now))
  }

  lemma LapseTwice(r: Record, t: Time, now: Time)
    requires t <= now
    ensures Same(Lapse(Lapse(r, t), now), Lapse(r, now))
  {}

  lemma SimulatesLater(lazy: Box, eager: Box, t: Time, now: Time)
    requires Simulates(lazy, eager, t) && t <= now
    ensures Simulates(lazy, eager, now)
  {
    forall k | k in lazy ensures Same(Lapse(lazy[k], now), Lapse(eager[k], now)) {
      LapseTwice(lazy[k], t, now);
      LapseTwice(eager[k], t, now);
    }
  }

  lemma StoreSimulates(lazy: Box, eager: Box, now: Time, id: string, seen: Record, a: Result<Record, Error>,
                       b: Result<Record, Error>)
    requires Simulates(lazy, eager, now) && id in lazy && SameResult(a, b)
    requires seen == lazy[id] || seen == Lapse(lazy[id], now)
    ensures Simulates(Store(lazy[id := seen], id, a).box, Store(eager, id, b).box, now)
    ensures SameOutcome(Store(lazy[id := seen], id, a).outcome, Store(eager, id, b).outcome)
  {
    LapseTwice(lazy[id], now, now);
  }

  /** The heart of it: on one signal, working around an overdue claim is as good as its not being there. */
  lemma UpdatesSimulate(config: Config, r: Record, e: Record, now: Time, call: Call)
    requires Same(Lapse(r, now), e) && !IsExpired(e, now) && IsOnOneSignal(call)
    ensures SameResult(LazyUpdate(config, r, now, call), EagerUpdate(config, e, now, call))
  {}

  lemma LapseAllSimulates(lazy: Box, eager: Box, now: Time)
    requires Simulates(lazy, eager, now)
    ensures Simulates(lazy, LapseAll(eager, now), now)
  {}

  lemma SweepSimulates(lazy: Box, eager: Box, now: Time, retention: Time)
    requires Simulates(lazy, eager, now)
    ensures Simulates(Sweep(lazy, now, retention), Sweep(eager, now, retention), now)
    ensures SameBox(LapseAll(Sweep(lazy, now, retention), now), LapseAll(Sweep(eager, now, retention), now))
  {
    forall k | k in lazy ensures IsDue(lazy[k], now, retention) <==> IsDue(eager[k], now, retention) {}
  }

  /** The one call that looks past the clock: a repeated delivery of a signal whose claim is overdue. */
  predicate RedeliversOverdue(lazy: Box, now: Time, call: Call) {
    call.Redeliver? && call.payload.signalId in lazy && IsExpired(lazy[call.payload.signalId], now)
  }

  lemma RedeliverySimulates(config: Config, lazy: Box, eager: Box, now: Time, call: Call)
    requires Simulates(lazy, eager, now) && call.Redeliver?
    ensures var a, b := Lazy(config, lazy, now, call), Eager(config, eager, now, call);
            && a.outcome.created == b.outcome.created && Simulates(a.box, b.box, now)
            && (SameOutcome(a.outcome, b.outcome) <==> !RedeliversOverdue(lazy, now, call))
  {
    LapseAllSimulates(lazy, eager, now);
    if call.payload.signalId in lazy {
      var id := call.payload.signalId;
      assert Same(Lapse(lazy[id], now), Lapse(eager[id], now));
    }
  }

  lemma WholeBoxSimulates(config: Config, lazy: Box, eager: Box, now: Time, call: Call)
    requires Simulates(lazy, eager, now) && (call.List? || call.Cleanup?)
    ensures var a, b := Lazy(config, lazy, now, call), Eager(config, eager, now, call);
            SameOutcome(a.outcome, b.outcome) && Simulates(a.box, b.box, now)
  {
    LapseAllSimulates(lazy, eager, now);
    SweepSimulates(lazy, LapseAll(eager, now), now, config.retention);
  }

  /** One call: the same answer, with that one exception, and boxes that still agree. */
  lemma CallSimulates(config: Config, lazy: Box, eager: Box, now: Time, call: Call)
    requires Simulates(lazy, eager, now)
    ensures SameOutcome(Lazy(config, lazy, now, call).outcome, Eager(config, eager, now, call).outcome)
       <==> !RedeliversOverdue(lazy, now, call)
    ensures Simulates(Lazy(config, lazy, now, call).box, Eager(config, eager, now, call).box, now)
  {
    if call.Redeliver? {
      RedeliverySimulates(config, lazy, eager, now, call);
    } else if call.List? || call.Cleanup? {
      WholeBoxSimulates(config, lazy, eager, now, call);
    } else {
      var box := LapseAll(eager, now);
      LapseAllSimulates(lazy, eager, now);
      OneSignalSimulates(config, lazy, box, now, call);
      assert Eager(config, eager, now, call) == EagerOne(config, box, now, call);
      assert Lazy(config, lazy, now, call) == LazyOne(config, lazy, now, call);
    }
  }

  lemma OneSignalSimulates(config: Config, lazy: Box, box: Box, now: Time, call: Call)
    requires Simulates(lazy, box, now) && IsOnOneSignal(call)
    requires forall k | k in box :: !IsExpired(box[k], now)
    ensures var a, b := LazyOne(config, lazy, now, call), EagerOne(config, box, now, call);
            SameOutcome(a.outcome, b.outcome) && Simulates(a.box, b.box, now)
  {
    if call.id in lazy {
      var r := lazy[call.id];
      UpdatesSimulate(config, r, box[call.id], now, call);
      StoreSimulates(lazy, box, now, call.id,
                     if call.GetThenRelease? || call.GetThenDismiss? then Lapse(r, now) else r,
                     LazyUpdate(config, r, now, call), EagerUpdate(config, box[call.id], now, call));
    }
  }

  datatype Event = Event(now: Time, call: Call)

  ghost predicate InTimeOrder(events: seq<Event>) {
    forall i, j | 0 <= i < j < |events| :: events[i].now <= events[j].now
  }

  function LazyBox(config: Config, box: Box, events: seq<Event>): Box {
    if events == [] then box
    else
      var last := events[|events| - 1];
      Lazy(config, LazyBox(config, box, events[..|events| - 1]), last.now, last.call).box
  }

  function EagerBox(config: Config, box: Box, events: seq<Event>): Box {
    if events == [] then box
    else
      var last := events[|events| - 1];
      Eager(config, EagerBox(config, box, events[..|events| - 1]), last.now, last.call).box
  }

  lemma {:induction false} RunSimulates(config: Config, box: Box, events: seq<Event>, now: Time)
    requires InTimeOrder(events) && (events != [] ==> now == events[|events| - 1].now)
    ensures Simulates(LazyBox(config, box, events), EagerBox(config, box, events), now)
  {
    if events != [] {
      var n := |events| - 1;
      var t := if n > 0 then events[n - 1].now else now;
      RunSimulates(config, box, events[..n], t);
      SimulatesLater(LazyBox(config, box, events[..n]), EagerBox(config, box, events[..n]), t, now);
      CallSimulates(config, LazyBox(config, box, events[..n]), EagerBox(config, box, events[..n]), now, events[n].call);
    }
  }

  /** Whole runs: every call of every run gets the same answer from both models, with that one exception. */
  lemma LazyRefinesEager(config: Config, box: Box, events: seq<Event>, i: nat)
    requires InTimeOrder(events) && i < |events|
    ensures var lazy, eager := LazyBox(config, box, events[..i]), EagerBox(config, box, events[..i]);
            var a, b :=
              Lazy(config, lazy, events[i].now, events[i].call), Eager(config, eager, events[i].now, events[i].call);
            SameOutcome(a.outcome, b.outcome) <==> !RedeliversOverdue(lazy, events[i].now, events[i].call)
  {
    var lazy, eager := LazyBox(config, box, events[..i]), EagerBox(config, box, events[..i]);
    var t := if i > 0 then events[i - 1].now else events[i].now;
    RunSimulates(config, box, events[..i], t);
    SimulatesLater(lazy, eager, t, events[i].now);
    CallSimulates(config, lazy, eager, events[i].now, events[i].call);
  }

  /** The records of `box` for the signals of `out`, in `out`'s order. */
  function Picture(box: Box, out: seq<Record>): seq<Record>
    requires forall r | r in out :: r.payload.signalId in box
  {
    seq(|out|, i requires 0 <= i < |out| => assert out[i] in out; box[out[i].payload.signalId])
  }

  /** Listings of two boxes that agree agree: same signals in the same places. */
  lemma ListingsAgree(a: Box, b: Box, filter: Filter, limit: nat, out: seq<Record>)
    requires SameBox(a, b) && IsListing(a, filter, limit, out)
    requires forall k | k in a :: a[k].payload.signalId == k
    ensures forall r | r in out :: r.payload.signalId in b
    ensures IsListing(b, filter, limit, Picture(b, out))
    ensures forall i | 0 <= i < |out| :: Same(out[i], Picture(b, out)[i])
  {
    var out' := Picture(b, out);
    forall k | k in b && filter.Matches(b[k]) && b[k] !in out'
      ensures |out'| == limit && forall i | 0 <= i < |out'| :: InOrder(out'[i], b[k])
    {
      forall i | 0 <= i < |out| ensures out[i] != a[k] {
        assert out'[i] != b[k];
      }
    }
  }

  /** Called without a get first, release differs from the reference exactly on overdue claims. */
  lemma BareReleaseAgrees(r: Record, principal: Option<string>, now: Time)
    requires WellFormed(r)
    ensures !IsExpired(r, now) <==>
            SameResult(ReleaseTransition(r, principal, now), EagerRelease(Lapse(r, now), principal, now))
  {}

  /** And so does dismiss. */
  lemma BareDismissAgrees(r: Record, principal: Option<string>, reason: string, now: Time)
    requires WellFormed(r)
    ensures !IsExpired(r, now) <==>
            SameResult(DismissTransition(r, principal, reason, now),
                       EagerDismiss(Lapse(r, now), principal, reason, now))
  {}

  /**
    The inbox makes these calls: alone on the bucket, its read-decide-replace
    loop never conflicts and is one transition of the stored record.
  */
  lemma QuietUpdate(start: World, id: string, action: Action, r: Result<Record, Error>, end: World)
    requires UpdateOutcome(start, [], id, action, r, end)
    requires action.Claim? || action.Complete? || action.Dismiss? || action.Release?
    ensures end.clock == start.clock
    ensures match r
            case Ok(rec) => && id in Records(start) && Apply(action, Some(Records(start)[id])) == Ok(Some(rec))
                            && Records(end) == Records(start)[id := rec]
            case Err(e) => && end == start
                           && Apply(action, if id in Records(start) then Some(Records(start)[id]) else None) == Err(e)
  {
    assert Run(start, []).bucket.log[|start.bucket.log|..] == [];
    if r.Ok? {
      assert end == start.Put(id, Some(r.value), action);
    }
  }

  /** What a call of the class returns. */
  datatype Answer =
    | Single(r: Result<Record, Error>)
    | Several(s: Result<seq<Record>, Error>)
    | Delivery(d: Result<Delivered, Error>)
    | Swept

  /** The class answered as the model does and left the model's box behind, with the clock where it was. */
  ghost predicate Answers(start: World, reply: Reply, a: Answer, end: World) {
    && Records(end) == reply.box && end.clock == start.clock
    && match a
       case Single(Ok(record)) => reply.outcome == Shown(record)
       case Single(Err(e)) => reply.outcome == Failed(e)
       case Several(Ok(out)) =>
         reply.outcome.Listed? && IsListing(reply.outcome.box, reply.outcome.filter, reply.outcome.limit, out)
       case Several(Err(e)) => reply.outcome == Failed(e)
       case Delivery(d) => d.Ok? && reply.outcome == Received(d.value.created, d.value.status)
       case Swept => reply.outcome.Swept?
  }

  /** The text checks that come before anything else are passed. */
  predicate HasValidText(call: Call) {
    match call
    case Complete(_, _, summary, metadata) => 1 <= |summary| <= 1000 && |metadata| <= 4096
    case GetThenDismiss(_, _, reason) => 1 <= |reason| <= 500
    case _ => true
  }

  /** What the class does for an updating call. */
  function AsAction(call: Call, lease: Time, now: Time): Action
    requires IsOnOneSignal(call) && !call.Get?
  {
    match call
    case Claim(_, claimant) => Action.Claim(claimant, now, lease)
    case Complete(_, principal, summary, metadata) => Action.Complete(principal, summary, metadata, now)
    case GetThenRelease(_, principal) => Action.Release(principal, now)
    case GetThenDismiss(_, principal, reason) => Action.Dismiss(principal, reason, now)
  }

  /** An updating call, alone: `seen` is the start, or what a get before it left. */
  lemma UpdateIsLazy(config: Config, start: World, seen: World, others: nat -> seq<Attempt>, c: nat, d: nat, call: Call,
                     r: Result<Record, Error>, end: World)
    requires IsOnOneSignal(call) && !call.Get? && Silent(others, c) && c <= d && seen.clock == start.clock
    requires if call.GetThenRelease? || call.GetThenDismiss?
             then && call.id in Records(start)
                  && Records(seen) == Records(start)[call.id := Lapse(Records(start)[call.id], start.clock)]
             else seen == start
    requires var now := Run(seen, Between(others, c, c + 1)).clock;
             UpdateOutcome(seen, Between(others, c, d), call.id, AsAction(call, config.lease, now), r, end)
    ensures Answers(start, LazyOne(config, Records(start), start.clock, call), Single(r), end)
  {
    QuietRun(others, seen, c, c + 1);
    SilentLater(others, c, d);
    QuietUpdate(seen, call.id, AsAction(call, config.lease, start.clock), r, end);
  }

  function ConfigOf(inbox: AgentSignalInbox): Config
    reads inbox
  {
    Config(inbox.claimLease, inbox.retention)
  }

  /** What the model answers. */
  ghost function Expected(inbox: AgentSignalInbox, w: World, call: Call): Reply
    reads inbox
  {
    Lazy(ConfigOf(inbox), Records(w), w.clock, call)
  }

  method Update(inbox: AgentSignalInbox, call: Call) returns (r: Result<Record, Error>)
    requires Safe(inbox.backend.world) && (call.Claim? || call.Complete?)
    modifies inbox.backend
    ensures Safe(inbox.backend.world)
    ensures old(inbox.backend.Quiet()) && HasValidText(call) ==>
              Answers(old(inbox.backend.world), Expected(inbox, old(inbox.backend.world), call), Single(r),
                      inbox.backend.world)
    ensures !HasValidText(call) ==> r.Err?
  {
    ghost var start, c := inbox.backend.world, inbox.backend.calls;
    match call {
      case Claim(id, claimant) => r := inbox.Claim(id, claimant);
      case Complete(id, principal, summary, metadata) => r := inbox.Complete(id, summary, metadata, principal);
    }
    if old(inbox.backend.Quiet()) && HasValidText(call) {
      UpdateIsLazy(ConfigOf(inbox), start, start, inbox.backend.others, c, inbox.backend.calls, call, r,
                   inbox.backend.world);
    }
  }

  /** `app/mcp_server.py` releases or dismisses a signal only after getting it. */
  method GetThenUpdate(inbox: AgentSignalInbox, call: Call) returns (r: Result<Record, Error>)
    requires Safe(inbox.backend.world) && (call.GetThenRelease? || call.GetThenDismiss?)
    modifies inbox.backend
    ensures Safe(inbox.backend.world)
    ensures old(inbox.backend.Quiet()) && HasValidText(call) ==>
              Answers(old(inbox.backend.world), Expected(inbox, old(inbox.backend.world), call), Single(r),
                      inbox.backend.world)
    ensures !HasValidText(call) ==> r.Err?
  {
    ghost var start := inbox.backend.world;
    r := inbox.Get(call.id);
    if r.Err? {
      return;
    }
    ghost var seen, c := inbox.backend.world, inbox.backend.calls;
    match call {
      case GetThenRelease(id, principal) => r := inbox.Release(id, principal);
      case GetThenDismiss(id, principal, reason) => r := inbox.Dismiss(id, reason, principal);
    }
    if old(inbox.backend.Quiet()) && HasValidText(call) {
      UpdateIsLazy(ConfigOf(inbox), start, seen, inbox.backend.others, c, inbox.backend.calls, call, r,
                   inbox.backend.world);
    }
  }

  method Deliver(inbox: AgentSignalInbox, call: Call) returns (d: Result<Delivered, Error>)
    requires Safe(inbox.backend.world) && call.Redeliver?
    modifies inbox.backend
    ensures Safe(inbox.backend.world)
    ensures old(inbox.backend.Quiet()) ==>
              Answers(old(inbox.backend.world), Expected(inbox, old(inbox.backend.world), call), Delivery(d),
                      inbox.backend.world)
  {
    hide ReceiveOutcome, Run, Between, Safe, Lazy, Answers;
    ghost var start, c := inbox.backend.world, inbox.backend.calls;
    d := inbox.Receive(call.payload, call.messageId, call.publishTime, call.attributes);
    if old(inbox.backend.Quiet()) {
      DeliveryIsLazy(ConfigOf(inbox), start, inbox.backend.others, c, inbox.backend.calls, call, d,
                     inbox.backend.world);
    }
  }

  lemma DeliveryIsLazy(config: Config, start: World, others: nat -> seq<Attempt>, c: nat, d: nat, call: Call,
                       r: Result<Delivered, Error>, end: World)
    requires Safe(start) && call.Redeliver? && Silent(others, c) && c <= d
    requires var receipt := Receipt(Run(start, Between(others, c, c + 1)).clock, call.messageId, call.publishTime,
                                    call.attributes);
             ReceiveOutcome(start, Between(others, c, d), call.payload, receipt, r, end)
    ensures Answers(start, Lazy(config, Records(start), start.clock, call), Delivery(r), end)
  {
    hide ReceiveOutcome, Between, Safe, Lazy, Answers;
    QuietRun(others, start, c, c + 1);
    QuietRun(others, start, c, d);
    SilentLater(others, c, d);
    AloneIsLazy(config, start, call, Receipt(start.clock, call.messageId, call.publishTime, call.attributes), r, end);
  }

  lemma AloneIsLazy(config: Config, start: World, call: Call, receipt: Receipt, r: Result<Delivered, Error>, end: World)
    requires call.Redeliver? && Run(start, []) == start
    requires receipt == Receipt(start.clock, call.messageId, call.publishTime, call.attributes)
    requires ReceiveOutcome(start, [], call.payload, receipt, r, end)
    ensures Answers(start, Lazy(config, Records(start), start.clock, call), Delivery(r), end)
  {
    hide Run;
  }

  method Get(inbox: AgentSignalInbox, id: string) returns (r: Result<Record, Error>)
    requires Safe(inbox.backend.world)
    modifies inbox.backend
    ensures Safe(inbox.backend.world)
    ensures old(inbox.backend.Quiet()) ==>
              Answers(old(inbox.backend.world), Expected(inbox, old(inbox.backend.world), Call.Get(id)), Single(r),
                      inbox.backend.world)
  {
    hide Between, Play, Played, Step, SeenBetween;
    r := inbox.Get(id);
  }

  method List(inbox: AgentSignalInbox, filter: Filter, limit: int) returns (out: Result<seq<Record>, Error>)
    requires Safe(inbox.backend.world)
    modifies inbox.backend
    ensures Safe(inbox.backend.world)
    ensures old(inbox.backend.Quiet()) ==>
              Answers(old(inbox.backend.world), Expected(inbox, old(inbox.backend.world), Call.List(filter, limit)),
                      Several(out), inbox.backend.world)
  {
    hide Between, Play, Played, Step, IsListing, ListOutcome, LapseAll, Sweep;
    ghost var own;
    out, own := inbox.List(filter, limit);
  }

  method Cleanup(inbox: AgentSignalInbox)
    requires Safe(inbox.backend.world)
    modifies inbox.backend
    ensures Safe(inbox.backend.world)
    ensures old(inbox.backend.Quiet()) ==>
              Answers(old(inbox.backend.world), Expected(inbox, old(inbox.backend.world), Call.Cleanup), Answer.Swept,
                      inbox.backend.world)
  {
    hide Between, Play, Played, Step, Records, Sweep, Deletions, Lists;
    ghost var items;
    var removed;
    removed, items := inbox.Cleanup();
  }

  /** Every call of the class, alone on the bucket, answers as the lazy model does. */
  method Perform(inbox: AgentSignalInbox, call: Call) returns (a: Answer)
    requires Safe(inbox.backend.world)
    modifies inbox.backend
    ensures Safe(inbox.backend.world)
    ensures old(inbox.backend.Quiet()) && HasValidText(call) ==>
              Answers(old(inbox.backend.world), Expected(inbox, old(inbox.backend.world), call), a, inbox.backend.world)
    ensures !HasValidText(call) ==> a.Single? && a.r.Err?
  {
    hide Expected, Answers, Safe;
    if call.Redeliver? {
      var d := Deliver(inbox, call);
      a := Delivery(d);
    } else if call.List? {
      var out := List(inbox, call.filter, call.limit);
      a := Several(out);
    } else if call.Cleanup? {
      Cleanup(inbox);
      a := Answer.Swept;
    } else {
      var r;
      if call.Get? {
        r := Get(inbox, call.id);
      } else if call.Claim? || call.Complete? {
        r := Update(inbox, call);
      } else {
        r := GetThenUpdate(inbox, call);
      }
      a := Single(r);
    }
  }
}
