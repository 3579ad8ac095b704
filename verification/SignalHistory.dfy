/**
  What the log of a safe world tells about each signal. Safe worlds are those
  every interleaving of gateway calls and foreign attempts leads to
  (SignalStore.RunKeepsSafe and the contracts of SignalInbox).
*/
module SignalHistory {
  import opened Wrappers
  import opened ObjectStore
  import opened SignalRecords
  import opened SignalStore

  /** No write of `k` among the writes from..to. */
  ghost predicate Untouched(log: Log, k: string, from: int, to: int) {
    forall i | 0 <= from <= i < to <= |log| :: log[i].key != k
  }

  lemma {:induction false} UntouchedKeepsContent(log: Log, k: string, m: nat, n: nat)
    requires m <= n <= |log| && Untouched(log, k, m, n)
    ensures Latest(log[..n], k) == Latest(log[..m], k) && Content(log[..n], k) == Content(log[..m], k)
  {
    if m < n {
      UntouchedKeepsContent(log, k, m, n - 1);
      assert log[..n][..n - 1] == log[..n - 1];
    }
  }

  lemma ContentAfterWrite(log: Log, i: nat)
    requires i < |log|
    ensures Content(log[..i + 1], log[i].key) == log[i].after
  {
    assert log[..i + 1][..i] == log[..i];
  }

  /** Each write is one allowed transition of the record stored just before it. */
  lemma WriteIsATransition(w: World, i: nat)
    requires Safe(w) && i < |w.bucket.log|
    ensures var c := w.bucket.log[i];
            && c.before == Content(w.bucket.log[..i], c.key)
            && c.after == Content(w.bucket.log[..i + 1], c.key)
            && Apply(c.action, c.before) == Ok(c.after)
            && c.action.DecidedAt() <= c.at <= w.clock
  {
    ChainedAt(w.bucket.log, i);
    LegalAt(w.bucket.log, w.clock, i);
    ContentAfterWrite(w.bucket.log, i);
  }

  lemma {:induction false} TimeOrder(log: Log, clock: Time, i: nat, j: nat)
    requires LegalLog(log, clock) && i <= j < |log|
    ensures log[i].at <= log[j].at
  {
    LegalAt(log, clock, j);
    if i < j {
      LegalAt(log[..j], log[j].at, i);
    }
  }

  /** The only write that deletes is a cleanup, and the record it deletes is the one it judged due. */
  lemma OnlyCleanupDeletes(w: World, i: nat)
    requires Safe(w) && i < |w.bucket.log| && w.bucket.log[i].after.None?
    ensures var c := w.bucket.log[i];
            && c.action.Cleanup? && c.before.Some? && IsTerminal(c.before.value)
            && TerminalAt(c.before.value).Some?
            && TerminalAt(c.before.value).value < c.action.now - c.action.retention <= c.at - c.action.retention
  {
    WriteIsATransition(w, i);
  }

  /** What was received stays as received for as long as the signal is not deleted. */
  lemma {:induction false} PayloadNeverChanges(w: World, k: string, m: nat, n: nat)
    requires Safe(w) && m <= n <= |w.bucket.log|
    requires Content(w.bucket.log[..m], k).Some?
    requires forall i | m <= i < n :: w.bucket.log[i].key == k ==> w.bucket.log[i].after.Some?
    ensures Content(w.bucket.log[..n], k).Some?
    ensures var a, b := Content(w.bucket.log[..m], k).value, Content(w.bucket.log[..n], k).value;
            a.payload == b.payload && a.receipt == b.receipt
  {
    if m < n {
      PayloadNeverChanges(w, k, m, n - 1);
      PayloadStep(w, k, n - 1);
    }
  }

  lemma PayloadStep(w: World, k: string, n: nat)
    requires Safe(w) && n < |w.bucket.log| && Content(w.bucket.log[..n], k).Some?
    requires w.bucket.log[n].key == k ==> w.bucket.log[n].after.Some?
    ensures Content(w.bucket.log[..n + 1], k).Some?
    ensures var a, b := Content(w.bucket.log[..n], k).value, Content(w.bucket.log[..n + 1], k).value;
            a.payload == b.payload && a.receipt == b.receipt
  {
    if w.bucket.log[n].key == k {
      WriteIsATransition(w, n);
      ApplyKeepsIdentity(w.bucket.log[n].action, w.bucket.log[n].before.value);
    } else {
      UntouchedKeepsContent(w.bucket.log, k, n, n + 1);
    }
  }

  /** Write `i` is a cleanup that removed exactly `r`, finished longer ago than its retention. */
  ghost predicate RemovesDue(c: Commit<string, Record, Action>, k: string, r: Record) {
    && c.key == k && c.before == Some(r) && c.after.None?
    && c.action.Cleanup? && IsDue(r, c.action.now, c.action.retention)
  }

  lemma TerminalStep(w: World, k: string, n: nat, r: Record)
    requires Safe(w) && n < |w.bucket.log| && Content(w.bucket.log[..n], k) == Some(r) && IsTerminal(r)
    ensures Content(w.bucket.log[..n + 1], k) == Some(r) || RemovesDue(w.bucket.log[n], k, r)
  {
    if w.bucket.log[n].key == k {
      WriteIsATransition(w, n);
    } else {
      UntouchedKeepsContent(w.bucket.log, k, n, n + 1);
    }
  }

  /** Completed and dismissed are final: the record stays as it is until a cleanup removes it. */
  lemma {:induction false} TerminalIsFinal(w: World, k: string, m: nat, n: nat)
    requires Safe(w) && m <= n <= |w.bucket.log|
    requires Content(w.bucket.log[..m], k).Some? && IsTerminal(Content(w.bucket.log[..m], k).value)
    ensures var r := Content(w.bucket.log[..m], k).value;
            || Content(w.bucket.log[..n], k) == Some(r)
            || exists i | m <= i < n :: RemovesDue(w.bucket.log[i], k, r)
  {
    var r := Content(w.bucket.log[..m], k).value;
    if m < n {
      TerminalIsFinal(w, k, m, n - 1);
      if Content(w.bucket.log[..n - 1], k) == Some(r) {
        TerminalStep(w, k, n - 1, r);
      }
    }
  }

  ghost predicate IsClaim(c: Commit<string, Record, Action>, k: string) {
    c.key == k && c.action.Claim?
  }

  /** When the claim written by `c` runs out. */
  function Deadline(c: Commit<string, Record, Action>): Time
    requires c.action.Claim?
  {
    c.action.now + c.action.lease
  }

  /**
    The fate of a claim: the first write to the signal after it either comes
    from a clock that has reached the deadline (a new claim or an expiry), or is
    the claim's own end, by its claimant where the caller named itself.
  */
  lemma ClaimEnds(w: World, k: string, i: nat, j: nat)
    requires Safe(w) && i < j < |w.bucket.log|
    requires IsClaim(w.bucket.log[i], k) && w.bucket.log[j].key == k && Untouched(w.bucket.log, k, i + 1, j)
    ensures var c, d := w.bucket.log[i], w.bucket.log[j].action;
            && w.bucket.log[j].before == c.after
            && match d
               case Claim(_, now, _) => now >= Deadline(c) && w.bucket.log[j].at >= Deadline(c)
               case Expire(now) => now >= Deadline(c) && w.bucket.log[j].at >= Deadline(c)
               case Complete(principal, _, _, now) =>
                 now < Deadline(c) && (principal.Some? ==> principal.value == c.action.claimant)
               case Dismiss(principal, _, _) => principal.Some? ==> principal.value == c.action.claimant
               case Release(principal, _) => principal.Some? ==> principal.value == c.action.claimant
               case _ => false
  {
    WriteIsATransition(w, i);
    WriteIsATransition(w, j);
    UntouchedKeepsContent(w.bucket.log, k, i + 1, j);
  }

  lemma {:induction false} FirstWrite(log: Log, k: string, from: nat, to: nat) returns (j: nat)
    requires from <= to < |log| && log[to].key == k
    ensures from <= j <= to && log[j].key == k && Untouched(log, k, from, j)
    decreases |log| - from
  {
    if log[from].key == k {
      j := from;
    } else {
      j := FirstWrite(log, k, from + 1, to);
    }
  }

  /** Two claims of one signal: by the second, the first has run out or has been given up or finished. */
  lemma ClaimsExclude(w: World, k: string, i: nat, j: nat)
    requires Safe(w) && i < j < |w.bucket.log| && IsClaim(w.bucket.log[i], k) && IsClaim(w.bucket.log[j], k)
    ensures || w.bucket.log[j].at >= Deadline(w.bucket.log[i])
            || exists m | i < m < j :: w.bucket.log[m].key == k &&
                 (w.bucket.log[m].action.Release? || w.bucket.log[m].action.Complete?
                  || w.bucket.log[m].action.Dismiss?)
  {
    var m := FirstWrite(w.bucket.log, k, i + 1, j);
    ClaimEnds(w, k, i, m);
    TimeOrder(w.bucket.log, w.clock, m, j);
  }

  /**
    A completion ends a claim that was still running when the completer read the
    clock: the write just before it on that signal is the claim, by the same
    principal where one was given.
  */
  lemma CompletionHasItsClaim(w: World, j: nat) returns (i: nat)
    requires Safe(w) && j < |w.bucket.log| && w.bucket.log[j].action.Complete?
    ensures var k, c := w.bucket.log[j].key, w.bucket.log[j].action;
            && i < j && IsClaim(w.bucket.log[i], k) && Untouched(w.bucket.log, k, i + 1, j)
            && (c.principal.Some? ==> w.bucket.log[i].action.claimant == c.principal.value)
            && c.now < Deadline(w.bucket.log[i])
  {
    WriteIsATransition(w, j);
    var k := w.bucket.log[j].key;
    i := Latest(w.bucket.log[..j], k) - 1;
    WriteIsATransition(w, i);
    assert w.bucket.log[..j][i] == w.bucket.log[i];
    assert Untouched(w.bucket.log, k, i + 1, j) by {
      forall x | i + 1 <= x < j ensures w.bucket.log[x].key != k {
        assert w.bucket.log[x] == w.bucket.log[..j][x];
      }
    }
    ClaimEnds(w, k, i, j);
  }

  /** Claimed records carry a claimant and a deadline, the others of a running signal neither. */
  predicate WellFormed(r: Record) {
    && (r.status == Claimed ==> r.claimedBy.Some? && r.claimedAt.Some? && r.claimExpiresAt.Some?)
    && (r.status == Pending ==> r.claimedBy.None? && r.claimedAt.None? && r.claimExpiresAt.None?)
    && (r.completedAt.Some? <==> r.status == Completed)
    && (r.dismissedAt.Some? <==> r.status == Dismissed)
  }

  lemma ApplyKeepsWellFormed(action: Action, found: Option<Record>)
    requires found.Some? ==> WellFormed(found.value)
    requires Apply(action, found).Ok? && Apply(action, found).value.Some?
    ensures WellFormed(Apply(action, found).value.value)
  {}

  lemma {:induction false} StoredIsWellFormed(w: World, k: string, n: nat)
    requires Safe(w) && n <= |w.bucket.log| && Content(w.bucket.log[..n], k).Some?
    ensures WellFormed(Content(w.bucket.log[..n], k).value)
  {
    if w.bucket.log[n - 1].key == k {
      WriteIsATransition(w, n - 1);
      if w.bucket.log[n - 1].before.Some? {
        StoredIsWellFormed(w, k, n - 1);
      }
      ApplyKeepsWellFormed(w.bucket.log[n - 1].action, w.bucket.log[n - 1].before);
    } else {
      UntouchedKeepsContent(w.bucket.log, k, n - 1, n);
      StoredIsWellFormed(w, k, n - 1);
    }
  }
}
