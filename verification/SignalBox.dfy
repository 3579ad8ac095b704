/** What the inbox is about, bucket aside: records by signal id, and what a caller sees of them. */
module SignalBox {
  import opened Wrappers
  import opened SignalRecords

  type Box = map<string, Record>

  /** The record a reader is shown at `now`: an overdue claim is taken away. */
  function Lapse(r: Record, now: Time): Record {
    if IsExpired(r, now) then Unclaimed(r, now) else r
  }

  function LapseAll(box: Box, now: Time): Box {
    map k | k in box :: Lapse(box[k], now)
  }

  /** The records cleanup keeps. */
  function Sweep(box: Box, now: Time, retention: Time): Box {
    map k | k in box && !IsDue(box[k], now, retention) :: box[k]
  }

  datatype Filter = Filter(
    status: Option<Status>, priority: Option<Priority>, signalType: Option<string>, source: Option<string>)
  {
    predicate Matches(r: Record) {
      && (status.None? || status.value == r.status)
      && (priority.None? || priority.value == r.payload.priority)
      && (signalType.None? || signalType.value == r.payload.signalType)
      && (source.None? || source.value == r.payload.source)
    }
  }

  /** Urgent first, then by occurrence, then by receipt. */
  predicate InOrder(a: Record, b: Record) {
    if a.payload.priority != b.payload.priority then a.payload.priority == Urgent
    else if a.payload.occurredAt != b.payload.occurredAt then a.payload.occurredAt < b.payload.occurredAt
    else a.receipt.receivedAt <= b.receipt.receivedAt
  }

  /** The first part of the source's sort key. */
  function Rank(r: Record): nat {
    match r.payload.priority
    case Urgent => 0
    case Attention => 1
  }

  /** That order is the one of the key (rank, occurrence, receipt), compared from the left. */
  lemma OrderIsByKey(a: Record, b: Record)
    ensures InOrder(a, b) <==>
            || Rank(a) < Rank(b)
            || (Rank(a) == Rank(b) && a.payload.occurredAt < b.payload.occurredAt)
            || (&& Rank(a) == Rank(b) && a.payload.occurredAt == b.payload.occurredAt
                && a.receipt.receivedAt <= b.receipt.receivedAt)
  {}

  /** A filter that asks for nothing matches everything, and each thing asked for is one more condition. */
  lemma MatchesConjoins(f: Filter, r: Record, status: Status, priority: Priority, text: string)
    ensures Filter(None, None, None, None).Matches(r)
    ensures f.(status := Some(status)).Matches(r) <==> f.(status := None).Matches(r) && r.status == status
    ensures f.(priority := Some(priority)).Matches(r) <==>
            f.(priority := None).Matches(r) && r.payload.priority == priority
    ensures f.(signalType := Some(text)).Matches(r) <==>
            f.(signalType := None).Matches(r) && r.payload.signalType == text
    ensures f.(source := Some(text)).Matches(r) <==> f.(source := None).Matches(r) && r.payload.source == text
  {}

  /** What a cleanup at `now` leaves: everything but what ended before the retention period, as it was. */
  lemma SweepAnswer(box: Box, now: Time, retention: Time, id: string)
    ensures id in Sweep(box, now, retention) <==>
            && id in box
            && !(&& (box[id].status == Completed || box[id].status == Dismissed)
                 && exists t :: EndedAt(box[id], t) && t + retention < now)
    ensures id in Sweep(box, now, retention) ==> Sweep(box, now, retention)[id] == box[id]
  {
    if id in box {
      CleanupAnswer(box[id], now, retention);
    }
  }

  /** What a reader is shown: an overdue claim as if released, anything else as stored. */
  lemma LapseAnswer(r: Record, now: Time)
    ensures if r.status == Claimed && RanOut(r, now) then Ok(Lapse(r, now)) == ReleaseTransition(r, None, now)
            else Lapse(r, now) == r
  {
    ExpiryAnswer(r, now);
  }

  ghost predicate Sorted(s: seq<Record>) {
    forall i, j | 0 <= i < j < |s| :: InOrder(s[i], s[j])
  }

  ghost predicate DistinctIds(s: seq<Record>) {
    forall i, j | 0 <= i < j < |s| :: s[i].payload.signalId != s[j].payload.signalId
  }

  /**
    `out` is a right answer to a listing of `box`: matching records, none twice,
    in order, at most `limit`, and a matching record is missing only from a full
    answer none of whose records should come after it.
  */
  ghost predicate IsListing(box: Box, filter: Filter, limit: nat, out: seq<Record>) {
    && |out| <= limit
    && Sorted(out)
    && DistinctIds(out)
    && (forall i | 0 <= i < |out| ::
          && out[i].payload.signalId in box && box[out[i].payload.signalId] == out[i] && filter.Matches(out[i]))
    && (forall k | k in box && filter.Matches(box[k]) && box[k] !in out ::
          |out| == limit && forall i | 0 <= i < |out| :: InOrder(out[i], box[k]))
  }

  /** `x` stands before `y` in `s`. */
  ghost predicate Precedes(s: seq<Record>, x: Record, y: Record) {
    exists a, b :: 0 <= a < b < |s| && s[a] == x && s[b] == y
  }

  /** Records that the order does not tell apart stand as they stood in `records`. */
  ghost predicate KeepsTies(records: seq<Record>, sorted: seq<Record>) {
    forall p, q | 0 <= p < q < |sorted| && InOrder(sorted[q], sorted[p]) :: Precedes(records, sorted[p], sorted[q])
  }

  /** Inserts `r` at the last place where it is in order. */
  method InsertInOrder(sorted: seq<Record>, r: Record) returns (out: seq<Record>, ghost at: nat)
    requires Sorted(sorted) && DistinctIds(sorted + [r])
    ensures Sorted(out) && DistinctIds(out) && |out| == |sorted| + 1
    ensures forall x :: x in out <==> x in sorted || x == r
    ensures at <= |sorted| && out == sorted[..at] + [r] + sorted[at..]
    ensures forall i | at <= i < |sorted| :: !InOrder(sorted[i], r)
  {
    var p := |sorted|;
    while p > 0 && !InOrder(sorted[p - 1], r)
      invariant 0 <= p <= |sorted|
      invariant forall i | p <= i < |sorted| :: InOrder(r, sorted[i]) && !InOrder(sorted[i], r)
    {
      p := p - 1;
    }
    out, at := sorted[..p] + [r] + sorted[p..], p;
    InsertedInOrder(sorted, r, p);
    InsertedOnce(sorted, r, p);
  }

  lemma InsertedInOrder(sorted: seq<Record>, r: Record, p: nat)
    requires Sorted(sorted) && p <= |sorted|
    requires p > 0 ==> InOrder(sorted[p - 1], r)
    requires forall i | p <= i < |sorted| :: InOrder(r, sorted[i])
    ensures Sorted(sorted[..p] + [r] + sorted[p..])
  {
    assert forall i | 0 <= i < p :: InOrder(sorted[i], r);
  }

  lemma TiesKept(records: seq<Record>, sorted: seq<Record>, r: Record, p: nat)
    requires KeepsTies(records, sorted) && (forall x | x in sorted :: x in records) && p <= |sorted|
    requires forall i | p <= i < |sorted| :: !InOrder(sorted[i], r)
    ensures KeepsTies(records + [r], sorted[..p] + [r] + sorted[p..])
  {
    hide InOrder;
    var out, all := sorted[..p] + [r] + sorted[p..], records + [r];
    forall i, j | 0 <= i < j < |out| && InOrder(out[j], out[i])
      ensures Precedes(all, out[i], out[j])
    {
      var x := if i < p then sorted[i] else if i == p then r else sorted[i - 1];
      if j == p {
        assert x == sorted[i] && x in sorted;
        var a :| 0 <= a < |records| && records[a] == x;
        assert all[a] == x && all[|records|] == r;
      } else {
        assert i != p;
        var y := if j < p then sorted[j] else sorted[j - 1];
        assert Precedes(records, x, y);
        var a, b :| 0 <= a < b < |records| && records[a] == x && records[b] == y;
        assert all[a] == x && all[b] == y;
      }
    }
  }

  lemma InsertedOnce(sorted: seq<Record>, r: Record, p: nat)
    requires DistinctIds(sorted + [r]) && p <= |sorted|
    ensures var out := sorted[..p] + [r] + sorted[p..];
            DistinctIds(out) && forall x :: x in out <==> x in sorted || x == r
  {
    var out, all := sorted[..p] + [r] + sorted[p..], sorted + [r];
    assert sorted == sorted[..p] + sorted[p..];
    forall i, j | 0 <= i < j < |out|
      ensures out[i].payload.signalId != out[j].payload.signalId
    {
      assert out[i] == all[if i < p then i else if i == p then |sorted| else i - 1];
      assert out[j] == all[if j < p then j else if j == p then |sorted| else j - 1];
    }
  }

  /** The sort in `list`: a stable sort by (urgency, occurrence, receipt). */
  method SortByUrgency(records: seq<Record>) returns (sorted: seq<Record>)
    requires DistinctIds(records)
    ensures Sorted(sorted) && DistinctIds(sorted) && |sorted| == |records|
    ensures forall x :: x in sorted <==> x in records
    ensures KeepsTies(records, sorted)
  {
    sorted := [];
    for i := 0 to |records|
      invariant Sorted(sorted) && DistinctIds(sorted) && |sorted| == i
      invariant forall x :: x in sorted <==> x in records[..i]
      invariant KeepsTies(records[..i], sorted)
    {
      forall j | 0 <= j < i ensures sorted[j].payload.signalId != records[i].payload.signalId {
        assert sorted[j] in records[..i];
      }
      ghost var was := sorted;
      ghost var at;
      sorted, at := InsertInOrder(sorted, records[i]);
      TiesKept(records[..i], was, records[i], at);
      assert records[..i + 1] == records[..i] + [records[i]];
    }
    assert records[..|records|] == records;
  }

  method SelectMatching(records: seq<Record>, filter: Filter) returns (out: seq<Record>)
    requires DistinctIds(records)
    ensures DistinctIds(out)
    ensures forall x :: x in out <==> x in records && filter.Matches(x)
  {
    out := [];
    for i := 0 to |records|
      invariant DistinctIds(out)
      invariant forall x :: x in out <==> x in records[..i] && filter.Matches(x)
    {
      assert records[..i + 1] == records[..i] + [records[i]];
      if filter.Matches(records[i]) {
        forall j | 0 <= j < |out| ensures out[j].payload.signalId != records[i].payload.signalId {
          assert out[j] in records[..i];
        }
        out := out + [records[i]];
      }
    }
    assert records[..|records|] == records;
  }

  /** `shown` are the records of `box`. */
  ghost predicate AreRecordsOf(shown: seq<Record>, box: Box) {
    && (forall r | r in shown :: r.payload.signalId in box && box[r.payload.signalId] == r)
    && (forall k | k in box :: box[k] in shown)
  }

  /** The first `limit` of all matching records, in order, are a right answer. */
  lemma FirstOfSortedIsListing(box: Box, shown: seq<Record>, filter: Filter, limit: nat, sorted: seq<Record>)
    requires AreRecordsOf(shown, box) && Sorted(sorted) && DistinctIds(sorted)
    requires forall r :: r in sorted <==> r in shown && filter.Matches(r)
    ensures IsListing(box, filter, limit, if |sorted| <= limit then sorted else sorted[..limit])
  {
    hide InOrder;
    var out := if |sorted| <= limit then sorted else sorted[..limit];
    forall i | 0 <= i < |out|
      ensures out[i].payload.signalId in box && box[out[i].payload.signalId] == out[i] && filter.Matches(out[i])
    {
      assert out[i] in sorted;
    }
    forall k | k in box && filter.Matches(box[k]) && box[k] !in out
      ensures |out| == limit && forall i | 0 <= i < |out| :: InOrder(out[i], box[k])
    {
      assert box[k] in sorted;
      if |sorted| > limit {
        AfterTheCut(sorted, limit, box[k]);
      }
    }
  }

  lemma AfterTheCut(sorted: seq<Record>, limit: nat, r: Record)
    requires Sorted(sorted) && |sorted| > limit && r in sorted && r !in sorted[..limit]
    ensures forall i | 0 <= i < limit :: InOrder(sorted[i], r)
  {
    hide InOrder;
    assert forall i | 0 <= i < limit :: sorted[..limit][i] == sorted[i];
    var j :| 0 <= j < |sorted| && sorted[j] == r;
  }
}
