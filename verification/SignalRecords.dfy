/** Agent Signal records and the transitions the inbox may write (app/agent_signals.py). */
module SignalRecords {
  import opened Wrappers

  /** Clock readings and durations, in one common unit. */
  type Time = int

  datatype Priority = Attention | Urgent

  datatype Status = Pending | Claimed | Completed | Dismissed

  /** What the sender said. `body` stands for the fields the inbox never looks at. */
  datatype Payload = Payload(
    signalId: string, signalType: string, priority: Priority, occurredAt: Time, source: string, body: string)

  /** What Pub/Sub said about the first delivery. */
  datatype Receipt = Receipt(
    receivedAt: Time, messageId: string, publishTime: Option<Time>, attributes: map<string, string>)

  datatype Record = Record(
    payload: Payload,
    receipt: Receipt,
    status: Status,
    updatedAt: Time,
    claimedBy: Option<string>,
    claimedAt: Option<Time>,
    claimExpiresAt: Option<Time>,
    completedAt: Option<Time>,
    dismissedAt: Option<Time>,
    completionSummary: Option<string>,
    dismissalReason: Option<string>,
    outcomeMetadata: string)

  datatype Error =
    | NotFound
    | AlreadyReceived
    | AlreadyClaimed
    | TransitionInvalid(from: Status, to: Status)
    | OwnerMismatch
    | NotExpired
    | NotDue
    | Conflict
    | SummaryInvalid
    | ReasonInvalid
    | MetadataInvalid
    | LimitInvalid

  /** Why a client writes, with the clock reading it decided on. */
  datatype Action =
    | Receive(payload: Payload, receipt: Receipt)
    | Claim(claimant: string, now: Time, lease: Time)
    | Complete(principal: Option<string>, summary: string, metadata: string, now: Time)
    | Dismiss(principal: Option<string>, reason: string, now: Time)
    | Release(principal: Option<string>, now: Time)
    | Expire(now: Time)
    | Cleanup(now: Time, retention: Time)
  {
    /** The clock reading the client took before it wrote. */
    function DecidedAt(): Time {
      if Receive? then receipt.receivedAt else now
    }
  }

  function FromDelivery(payload: Payload, receipt: Receipt): Record {
    Record(payload, receipt, Pending, receipt.receivedAt, None, None, None, None, None, None, None, "")
  }

  predicate IsTerminal(r: Record) {
    r.status == Completed || r.status == Dismissed
  }

  predicate IsExpired(r: Record, now: Time) {
    r.status == Claimed && r.claimExpiresAt.Some? && r.claimExpiresAt.value <= now
  }

  /** The record with its claim taken away, as expiry and release both write it. */
  function Unclaimed(r: Record, now: Time): Record {
    r.(status := Pending, claimedBy := None, claimedAt := None, claimExpiresAt := None, updatedAt := now)
  }

  function ClaimTransition(r: Record, claimant: string, now: Time, lease: Time): Result<Record, Error> {
    if r.status == Claimed && !IsExpired(r, now) then Err(AlreadyClaimed)
    else if r.status != Pending && r.status != Claimed then Err(TransitionInvalid(r.status, Claimed))
    else Ok(r.(status := Claimed, claimedBy := Some(claimant), claimedAt := Some(now),
               claimExpiresAt := Some(now + lease), updatedAt := now))
  }

  function CompleteTransition(r: Record, principal: Option<string>, summary: string, metadata: string, now: Time)
    : Result<Record, Error>
  {
    if r.status != Claimed || IsExpired(r, now) then Err(TransitionInvalid(r.status, Completed))
    else if principal.Some? && r.claimedBy != principal then Err(OwnerMismatch)
    else Ok(r.(status := Completed, completedAt := Some(now), completionSummary := Some(summary),
               outcomeMetadata := metadata, updatedAt := now))
  }

  function DismissTransition(r: Record, principal: Option<string>, reason: string, now: Time): Result<Record, Error> {
    if r.status != Pending && r.status != Claimed then Err(TransitionInvalid(r.status, Dismissed))
    else if principal.Some? && r.status == Claimed && r.claimedBy != principal then Err(OwnerMismatch)
    else Ok(r.(status := Dismissed, dismissedAt := Some(now), dismissalReason := Some(reason), updatedAt := now))
  }

  function ReleaseTransition(r: Record, principal: Option<string>, now: Time): Result<Record, Error> {
    if r.status != Claimed then Err(TransitionInvalid(r.status, Pending))
    else if principal.Some? && r.claimedBy != principal then Err(OwnerMismatch)
    else Ok(Unclaimed(r, now))
  }

  function TerminalAt(r: Record): Option<Time> {
    if r.completedAt.Some? then r.completedAt else r.dismissedAt
  }

  /** Cleanup's judgement: finished, and finished before the cutoff. */
  predicate IsDue(r: Record, now: Time, retention: Time) {
    IsTerminal(r) && TerminalAt(r).Some? && TerminalAt(r).value < now - retention
  }

  function Lift(r: Result<Record, Error>): Result<Option<Record>, Error> {
    match r
    case Ok(x) => Ok(Some(x))
    case Err(e) => Err(e)
  }

  /** What `action` makes of the object it finds: the record to store, None to delete it, or a refusal. */
  function Apply(action: Action, found: Option<Record>): Result<Option<Record>, Error> {
    match (action, found)
    case (Receive(payload, receipt), None) => Ok(Some(FromDelivery(payload, receipt)))
    case (Receive(_, _), Some(_)) => Err(AlreadyReceived)
    case (_, None) => Err(NotFound)
    case (Claim(claimant, now, lease), Some(r)) => Lift(ClaimTransition(r, claimant, now, lease))
    case (Complete(principal, summary, metadata, now), Some(r)) =>
      Lift(CompleteTransition(r, principal, summary, metadata, now))
    case (Dismiss(principal, reason, now), Some(r)) => Lift(DismissTransition(r, principal, reason, now))
    case (Release(principal, now), Some(r)) => Lift(ReleaseTransition(r, principal, now))
    case (Expire(now), Some(r)) => if IsExpired(r, now) then Ok(Some(Unclaimed(r, now))) else Err(NotExpired)
    case (Cleanup(now, retention), Some(r)) => if IsDue(r, now, retention) then Ok(None) else Err(NotDue)
  }

  // ---- what the transitions decide, call by call ----

  /** The claim has a deadline, and it is reached. */
  ghost predicate RanOut(r: Record, now: Time) {
    exists t :: r.claimExpiresAt == Some(t) && t <= now
  }

  /** Nobody in particular asks, or the one who claimed the signal. */
  ghost predicate MayActOn(r: Record, principal: Option<string>) {
    principal.Some? ==> r.claimedBy == principal
  }

  /** `after` is `before` written at `now`, as received. */
  ghost predicate Rewritten(before: Record, after: Record, now: Time) {
    after.payload == before.payload && after.receipt == before.receipt && after.updatedAt == now
  }

  ghost predicate SameClaim(a: Record, b: Record) {
    a.claimedBy == b.claimedBy && a.claimedAt == b.claimedAt && a.claimExpiresAt == b.claimExpiresAt
  }

  ghost predicate NoClaim(r: Record) {
    r.claimedBy.None? && r.claimedAt.None? && r.claimExpiresAt.None?
  }

  ghost predicate SameCompletion(a: Record, b: Record) {
    && a.completedAt == b.completedAt && a.completionSummary == b.completionSummary
    && a.outcomeMetadata == b.outcomeMetadata
  }

  ghost predicate SameDismissal(a: Record, b: Record) {
    a.dismissedAt == b.dismissedAt && a.dismissalReason == b.dismissalReason
  }

  /** A delivery starts a pending signal that nothing has happened to. */
  lemma DeliveryAnswer(payload: Payload, receipt: Receipt)
    ensures var r := FromDelivery(payload, receipt);
            && r.payload == payload && r.receipt == receipt && r.status == Pending && r.updatedAt == receipt.receivedAt
            && NoClaim(r) && r.completedAt.None? && r.dismissedAt.None?
            && r.completionSummary.None? && r.dismissalReason.None? && r.outcomeMetadata == ""
  {}

  /**
    A signal can be claimed if it is pending or its claim ran out, and then it is the
    claimant's until the lease ends.
  */
  lemma ClaimAnswer(r: Record, claimant: string, now: Time, lease: Time)
    ensures match ClaimTransition(r, claimant, now, lease)
            case Ok(after) =>
              && (r.status == Pending || (r.status == Claimed && RanOut(r, now)))
              && Rewritten(r, after, now) && after.status == Claimed
              && after.claimedBy == Some(claimant) && after.claimedAt == Some(now)
              && after.claimExpiresAt == Some(now + lease)
              && SameCompletion(r, after) && SameDismissal(r, after)
            case Err(e) =>
              match r.status
              case Pending => false
              case Claimed => !RanOut(r, now) && e == AlreadyClaimed
              case Completed => e == TransitionInvalid(Completed, Claimed)
              case Dismissed => e == TransitionInvalid(Dismissed, Claimed)
  {
    if r.claimExpiresAt.Some? && r.claimExpiresAt.value <= now {
      assert RanOut(r, now);
    }
  }

  /** A signal can be completed while it is claimed and in time, by its claimant. */
  lemma CompletionAnswer(r: Record, principal: Option<string>, summary: string, metadata: string, now: Time)
    ensures match CompleteTransition(r, principal, summary, metadata, now)
            case Ok(after) =>
              && r.status == Claimed && !RanOut(r, now) && MayActOn(r, principal)
              && Rewritten(r, after, now) && after.status == Completed && SameClaim(r, after)
              && after.completedAt == Some(now) && after.completionSummary == Some(summary)
              && after.outcomeMetadata == metadata && SameDismissal(r, after)
            case Err(e) =>
              if r.status == Claimed && !RanOut(r, now) then !MayActOn(r, principal) && e == OwnerMismatch
              else e == TransitionInvalid(r.status, Completed)
  {
    if r.claimExpiresAt.Some? && r.claimExpiresAt.value <= now {
      assert RanOut(r, now);
    }
  }

  /** A pending signal can be dismissed by anybody, a claimed one by its claimant; what is finished cannot. */
  lemma DismissalAnswer(r: Record, principal: Option<string>, reason: string, now: Time)
    ensures match DismissTransition(r, principal, reason, now)
            case Ok(after) =>
              && (r.status == Pending || (r.status == Claimed && MayActOn(r, principal)))
              && Rewritten(r, after, now) && after.status == Dismissed && SameClaim(r, after)
              && after.dismissedAt == Some(now) && after.dismissalReason == Some(reason)
              && SameCompletion(r, after)
            case Err(e) =>
              match r.status
              case Pending => false
              case Claimed => !MayActOn(r, principal) && e == OwnerMismatch
              case Completed => e == TransitionInvalid(Completed, Dismissed)
              case Dismissed => e == TransitionInvalid(Dismissed, Dismissed)
  {}

  /**
    Only a claimed signal can be released, by its claimant, in time or not; it is then
    as unclaimed as when received.
  */
  lemma ReleaseAnswer(r: Record, principal: Option<string>, now: Time)
    ensures match ReleaseTransition(r, principal, now)
            case Ok(after) =>
              && r.status == Claimed && MayActOn(r, principal)
              && Rewritten(r, after, now) && after.status == Pending && NoClaim(after)
              && SameCompletion(r, after) && SameDismissal(r, after)
            case Err(e) =>
              if r.status == Claimed then !MayActOn(r, principal) && e == OwnerMismatch
              else e == TransitionInvalid(r.status, Pending)
  {}

  /** Expiry is for claims that ran out, and leaves them as a release would. */
  lemma ExpiryAnswer(r: Record, now: Time)
    ensures IsExpired(r, now) <==> r.status == Claimed && RanOut(r, now)
    ensures r.status == Claimed ==> Ok(Unclaimed(r, now)) == ReleaseTransition(r, None, now)
  {
    if r.claimExpiresAt.Some? && r.claimExpiresAt.value <= now {
      assert RanOut(r, now);
    }
  }

  /** The signal ended at `t`: completed then, or, never completed, dismissed then. */
  ghost predicate EndedAt(r: Record, t: Time) {
    r.completedAt == Some(t) || (r.completedAt.None? && r.dismissedAt == Some(t))
  }

  /** Cleanup is for what is finished and ended before the retention period, and it deletes that. */
  lemma CleanupAnswer(r: Record, now: Time, retention: Time)
    ensures IsDue(r, now, retention) <==>
            (r.status == Completed || r.status == Dismissed) && exists t :: EndedAt(r, t) && t + retention < now
    ensures Apply(Cleanup(now, retention), Some(r)) == if IsDue(r, now, retention) then Ok(None) else Err(NotDue)
  {
    if TerminalAt(r).Some? {
      assert EndedAt(r, TerminalAt(r).value);
    }
  }
}
