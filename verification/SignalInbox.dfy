/**
  The Agent Signal Inbox (app/agent_signals.py). Each call's contract says what
  the call itself attempted between the other clients' attempts that the schedule
  has for it, `Between(others, old(calls), calls)`, and on which state of the bucket.
*/
module SignalInbox {
  import opened Wrappers
  import opened ObjectStore
  import opened Schedules
  import opened SignalRecords
  import opened SignalStore
  import opened SignalBox

  const MAX_WRITE_ATTEMPTS := 5
  const MAX_LIST_LIMIT := 100

  /** The records in the bucket. */
  function Records(w: World): Box {
    map k | k in w.bucket.objects :: w.bucket.objects[k].content
  }

  datatype Delivered = Delivered(signalType: string, created: bool, status: Status)

  /** `r` was the stored record of `id` at some moment between `start` and `end`. */
  ghost predicate SeenBetween(start: World, end: World, id: string, r: Record) {
    exists n | |start.bucket.log| <= n <= |end.bucket.log| :: Content(end.bucket.log[..n], id) == Some(r)
  }

  class AgentSignalInbox {
    const backend: Backend
    const claimLease: Time
    const retention: Time

    constructor (backend: Backend, claimLease: Time, retention: Time)
      ensures this.backend == backend && this.claimLease == claimLease && this.retention == retention
    {
      this.backend, this.claimLease, this.retention := backend, claimLease, retention;
    }

    /** Receipt writes once; a repeated delivery only reports what is stored. */
    method Receive(payload: Payload, messageId: string, publishTime: Option<Time>, attributes: map<string, string>)
      returns (r: Result<Delivered, Error>)
      requires Safe(backend.world)
      modifies backend
      ensures backend.Follows(old(backend.world), old(backend.calls))
      ensures var now := backend.NextClock(old(backend.world), old(backend.calls));
              ReceiveOutcome(old(backend.world), backend.Since(old(backend.calls)), payload,
                             Receipt(now, messageId, publishTime, attributes), r, backend.world)
    {
      hide Run, Between, Step, Safe, Committed, Apply;
      ghost var start, c := backend.world, backend.calls;
      var now := backend.Now();
      var created := backend.Create(payload, Receipt(now, messageId, publishTime, attributes));
      RunOn(backend.others, start, c, c + 1, c + 2);
      if created {
        r := Ok(Delivered(payload.signalType, true, Pending));
        ReceivedFirst(start, backend.Since(c), payload, Receipt(now, messageId, publishTime, attributes),
                      backend.world);
      } else {
        ghost var present := backend.world;
        var stored := backend.Read(payload.signalId);
        RunOn(backend.others, start, c, c + 2, c + 3);
        if stored.Err? {
          VanishedAt(start, present, backend.world, payload.signalId);
        }
        r := match stored
             case Ok(s) => Ok(Delivered(s.record.payload.signalType, false, s.record.status))
             case Err(e) => Err(e);
      }
    }

    /** Read, decide, replace; a replace that comes too late starts over, at most five times. */
    method Update(id: string, action: Action) returns (r: Result<Record, Error>)
      requires Safe(backend.world) && action.DecidedAt() <= backend.world.clock
      requires action.Claim? || action.Complete? || action.Dismiss? || action.Release?
      modifies backend
      ensures backend.Follows(old(backend.world), old(backend.calls))
      ensures UpdateOutcome(old(backend.world), backend.Since(old(backend.calls)), id, action, r, backend.world)
      ensures backend.calls <= old(backend.calls) + 10
      ensures r == Err(Conflict) ==> backend.calls == old(backend.calls) + 10
      ensures old(backend.Quiet()) ==> r != Err(Conflict)
    {
      hide Run, Between, Step, Safe, TryOutcome, UpdateOutcome, OvertakenTimes, Writes, Apply;
      ghost var start, c := backend.world, backend.calls;
      NothingRun(backend.others, start, c);
      NotOvertaken(start, id);
      for attempt := 0 to MAX_WRITE_ATTEMPTS
        invariant backend.Follows(start, c) && backend.world == Run(start, backend.Since(c))
        invariant OvertakenTimes(start, backend.world, id, attempt)
        invariant old(backend.Quiet()) ==> attempt == 0
        invariant backend.calls == c + 2 * attempt
      {
        ghost var before, d := backend.world, backend.calls;
        var tried := TryUpdate(id, action);
        BetweenJoins(backend.others, c, d, backend.calls);
        UpdatedAfter(start, Between(backend.others, c, d), before, backend.Since(d), id, action, attempt, tried,
                     backend.world);
        match tried
        case Done(updated) => return Ok(updated);
        case Refused(error) => return Err(error);
        case Overtaken =>
      }
      r := Err(Conflict);
      ConflictAfterFive(start, backend.Since(c), id, action, backend.world);
    }

    /** One round of `Update`. */
    method TryUpdate(id: string, action: Action) returns (r: Tried)
      requires Safe(backend.world) && action.DecidedAt() <= backend.world.clock
      requires action.Claim? || action.Complete? || action.Dismiss? || action.Release?
      modifies backend
      ensures backend.Follows(old(backend.world), old(backend.calls))
      ensures TryOutcome(old(backend.world), backend.Since(old(backend.calls)), id, action, r, backend.world)
      ensures backend.calls == old(backend.calls) + if r.Refused? then 1 else 2
      ensures old(backend.Quiet()) ==> !r.Overtaken?
    {
      hide Run, Between, Step, Safe, Committed, Apply;
      ghost var start, c := backend.world, backend.calls;
      var read := backend.Read(id);
      if read.Err? {
        r := Refused(NotFound);
        AbsentIsRefused(action);
      } else {
        ghost var atRead := backend.world;
        r := Decide(id, read.value, action);
        BetweenJoins(backend.others, c, c + 1, backend.calls);
        TriedAfter(start, Between(backend.others, c, c + 1), atRead, backend.Since(c + 1), id, action, r,
                   backend.world);
      }
    }

    /** Decide on the record read, and replace that version. */
    method Decide(id: string, read: Stored, action: Action) returns (r: Tried)
      requires Safe(backend.world) && action.DecidedAt() <= backend.world.clock
      requires action.Claim? || action.Complete? || action.Dismiss? || action.Release?
      requires IsLive(backend.world, read) && read.record.payload.signalId == id
      modifies backend
      ensures backend.Follows(old(backend.world), old(backend.calls))
      ensures TryOutcome(old(backend.world), backend.Since(old(backend.calls)), id, action, r, backend.world)
      ensures backend.calls == old(backend.calls) + if r.Refused? then 0 else 1
      ensures old(backend.Quiet()) ==> !r.Overtaken?
    {
      hide Run, Between, Step, Safe, Apply;
      ghost var atRead, c := backend.world, backend.calls;
      var decision := Apply(action, Some(read.record));
      UpdatesReplace(action, read.record);
      if decision.Err? {
        NothingRun(backend.others, atRead, c);
        return Refused(decision.error);
      }
      var done := backend.Replace(decision.value.value, read.generation, action);
      if done {
        r := Done(decision.value.value);
      } else {
        r := Overtaken;
        Overtook(atRead, backend.world, id);
        if old(backend.Quiet()) {
          QuietRun(backend.others, atRead, c, backend.calls);
        }
      }
    }

    method Claim(id: string, principal: string) returns (r: Result<Record, Error>)
      requires Safe(backend.world)
      modifies backend
      ensures backend.Follows(old(backend.world), old(backend.calls))
      ensures backend.calls <= old(backend.calls) + 11
      ensures var now := backend.NextClock(old(backend.world), old(backend.calls));
              UpdateOutcome(old(backend.world), backend.Since(old(backend.calls)), id,
                            Action.Claim(principal, now, claimLease), r, backend.world)
    {
      hide Between, Step, Safe, Apply, UpdateOutcome;
      ghost var start, c := backend.world, backend.calls;
      var now := backend.Now();
      r := Update(id, Action.Claim(principal, now, claimLease));
      JoinRuns(start, backend.others, c, backend.calls, id, Action.Claim(principal, now, claimLease), r, backend.world);
    }

    /** `summary` is the caller's text with surrounding blanks removed; `metadata` its outcome metadata, encoded. */
    method Complete(id: string, summary: string, metadata: string, principal: Option<string>)
      returns (r: Result<Record, Error>)
      requires Safe(backend.world)
      modifies backend
      ensures backend.Follows(old(backend.world), old(backend.calls))
      ensures backend.calls <= old(backend.calls) + 11
      ensures summary == "" || |summary| > 1000 ==> r == Err(SummaryInvalid) && backend.world == old(backend.world)
      ensures 1 <= |summary| <= 1000 && |metadata| > 4096 ==>
                r == Err(MetadataInvalid) && backend.world == old(backend.world)
      ensures 1 <= |summary| <= 1000 && |metadata| <= 4096 ==>
                var now := backend.NextClock(old(backend.world), old(backend.calls));
                UpdateOutcome(old(backend.world), backend.Since(old(backend.calls)), id,
                              Action.Complete(principal, summary, metadata, now), r, backend.world)
    {
      hide Between, Step, Safe, Apply, UpdateOutcome;
      if summary == "" || |summary| > 1000 {
        return Err(SummaryInvalid);
      }
      if |metadata| > 4096 {
        return Err(MetadataInvalid);
      }
      ghost var start, c := backend.world, backend.calls;
      var now := backend.Now();
      var action := Action.Complete(principal, summary, metadata, now);
      r := Update(id, action);
      JoinRuns(start, backend.others, c, backend.calls, id, action, r, backend.world);
    }

    method Dismiss(id: string, reason: string, principal: Option<string>) returns (r: Result<Record, Error>)
      requires Safe(backend.world)
      modifies backend
      ensures backend.Follows(old(backend.world), old(backend.calls))
      ensures backend.calls <= old(backend.calls) + 11
      ensures reason == "" || |reason| > 500 ==> r == Err(ReasonInvalid) && backend.world == old(backend.world)
      ensures 1 <= |reason| <= 500 ==>
                var now := backend.NextClock(old(backend.world), old(backend.calls));
                UpdateOutcome(old(backend.world), backend.Since(old(backend.calls)), id,
                              Action.Dismiss(principal, reason, now), r, backend.world)
    {
      hide Between, Step, Safe, Apply, UpdateOutcome;
      if reason == "" || |reason| > 500 {
        return Err(ReasonInvalid);
      }
      ghost var start, c := backend.world, backend.calls;
      var now := backend.Now();
      var action := Action.Dismiss(principal, reason, now);
      r := Update(id, action);
      JoinRuns(start, backend.others, c, backend.calls, id, action, r, backend.world);
    }

    method Release(id: string, principal: Option<string>) returns (r: Result<Record, Error>)
      requires Safe(backend.world)
      modifies backend
      ensures backend.Follows(old(backend.world), old(backend.calls))
      ensures backend.calls <= old(backend.calls) + 11
      ensures var now := backend.NextClock(old(backend.world), old(backend.calls));
              UpdateOutcome(old(backend.world), backend.Since(old(backend.calls)), id,
                            Action.Release(principal, now), r, backend.world)
    {
      hide Between, Step, Safe, Apply, UpdateOutcome;
      ghost var start, c := backend.world, backend.calls;
      var now := backend.Now();
      r := Update(id, Action.Release(principal, now));
      JoinRuns(start, backend.others, c, backend.calls, id, Action.Release(principal, now), r, backend.world);
    }

    /** Take an overdue claim away, best effort, and show the record as it then is. */
    method NormalizeExpired(stored: Stored) returns (r: Result<Record, Error>)
      requires Safe(backend.world) && WasItem(backend.world, stored)
      modifies backend
      ensures backend.Follows(old(backend.world), old(backend.calls))
      ensures var now := backend.NextClock(old(backend.world), old(backend.calls));
              && backend.Did(old(backend.world), old(backend.calls), Expiry(stored, now))
              && r == if IsExpired(stored.record, now) then Peeked(backend.world, stored.record.payload.signalId)
                      else Ok(stored.record)
      ensures r.Ok? ==> r.value.payload.signalId == stored.record.payload.signalId
      ensures old(backend.Quiet()) && IsLive(old(backend.world), stored) ==>
                && r == Ok(Lapse(stored.record, old(backend.world.clock)))
                && backend.world == Settle(old(backend.world), stored)
    {
      hide Between, Play, Played, Step, Safe, Apply;
      ghost var start, c := backend.world, backend.calls;
      var now := backend.Now();
      r := Ok(stored.record);
      PlayedByOthers(Step, backend.others, start, c, backend.world, backend.calls);
      if IsExpired(stored.record, now) {
        ghost var mid := backend.world;
        r := TakeAway(stored, now);
        ExtendsOn(start, mid, backend.world);
        PlayedAfter(Step, backend.others, start, c, mid, c + 1, Expiry(stored, now), backend.world, backend.calls);
      }
      if old(backend.Quiet()) && IsLive(old(backend.world), stored) {
        QuietExpiry(start, backend.others, c, stored, r, backend.world, backend.calls);
      }
    }

    /** An overdue claim is taken away, unless the record has moved on; either way it is read again. */
    method TakeAway(stored: Stored, now: Time) returns (r: Result<Record, Error>)
      requires Safe(backend.world) && WasItem(backend.world, stored)
      requires now == backend.world.clock && IsExpired(stored.record, now)
      modifies backend
      ensures backend.Follows(old(backend.world), old(backend.calls))
      ensures backend.Did(old(backend.world), old(backend.calls), Expiry(stored, now))
      ensures r == Peeked(backend.world, stored.record.payload.signalId)
      ensures r.Ok? ==> r.value.payload.signalId == stored.record.payload.signalId
    {
      hide Between, Play, Played, Step, Safe;
      ghost var start, c := backend.world, backend.calls;
      var updated := Unclaimed(stored.record, now);
      var done := backend.Replace(updated, stored.generation, Expire(now));
      ghost var replaced := backend.world;
      PlayedThenOwn(Step, backend.others, start, c, Write(updated.payload.signalId, Expire(now), stored.generation),
                    c + 1);
      var read := backend.Read(updated.payload.signalId);
      ExtendsOn(start, replaced, backend.world);
      PlayedBefore(Step, backend.others, start, c, Expiry(stored, now), replaced, c + 1, backend.world, c + 2);
      r := match read case Ok(s) => Ok(s.record) case Err(e) => Err(e);
    }

    method Get(id: string) returns (r: Result<Record, Error>)
      requires Safe(backend.world)
      modifies backend
      ensures backend.Follows(old(backend.world), old(backend.calls))
      ensures var read, c := backend.Reached(old(backend.world), old(backend.calls), 1), old(backend.calls);
              if id in read.bucket.objects
              then backend.Did(old(backend.world), c, Expiry(Item(read, id), backend.NextClock(read, c + 1)))
              else r == Err(NotFound) && backend.world == read
      ensures r.Ok? ==> r.value.payload.signalId == id && SeenBetween(old(backend.world), backend.world, id, r.value)
      ensures r.Err? ==> r.error == NotFound && backend.world.bucket.Peek(id).None?
      ensures old(backend.Quiet()) ==>
                var box, now := Records(old(backend.world)), old(backend.world.clock);
                && backend.world.clock == now
                && r == (if id in box then Ok(Lapse(box[id], now)) else Err(NotFound))
                && Records(backend.world) == if id in box then box[id := Lapse(box[id], now)] else box
    {
      hide Between, Play, Played, Step, Safe, Apply;
      ghost var start, c := backend.world, backend.calls;
      var read := backend.Read(id);
      if old(backend.Quiet()) {
        QuietRun(backend.others, start, c, c + 1);
      }
      if read.Err? {
        return Err(read.error);
      }
      ghost var atRead := backend.world;
      r := ShowStored(read.value, start);
      ghost var own := Expiry(read.value, backend.NextClock(atRead, c + 1));
      PlayedAfter(Step, backend.others, start, c, atRead, c + 1, own, backend.world, backend.calls);
      if old(backend.Quiet()) {
        SettleRecords(atRead, read.value);
      }
    }

    /** What a reader is shown of the record just read. */
    method ShowStored(stored: Stored, ghost start: World) returns (r: Result<Record, Error>)
      requires Safe(backend.world) && backend.world.Extends(start) && IsLive(backend.world, stored)
      modifies backend
      ensures backend.Follows(start, old(backend.calls))
      ensures var now := backend.NextClock(old(backend.world), old(backend.calls));
              backend.Did(old(backend.world), old(backend.calls), Expiry(stored, now))
      ensures var id := stored.record.payload.signalId;
              match r
              case Ok(record) => record.payload.signalId == id && SeenBetween(start, backend.world, id, record)
              case Err(e) => e == NotFound && backend.world.bucket.Peek(id).None?
      ensures old(backend.Quiet()) ==>
                && r == Ok(Lapse(stored.record, old(backend.world.clock)))
                && backend.world == Settle(old(backend.world), stored)
    {
      hide Between, Play, Played, Step, Safe, Apply;
      ghost var atRead := backend.world;
      r := NormalizeExpired(stored);
      ExtendsOn(start, atRead, backend.world);
      if r.Ok? {
        SeenEither(start, atRead, backend.world, stored.record.payload.signalId, stored.record, r.value);
      }
    }

    /** One item of `Cleanup`. */
    method DeleteIfDue(item: Stored, now: Time) returns (due: bool)
      requires Safe(backend.world) && WasItem(backend.world, item) && now <= backend.world.clock
      modifies backend
      ensures backend.Follows(old(backend.world), old(backend.calls))
      ensures due == IsDue(item.record, now, retention)
      ensures backend.Did(old(backend.world), old(backend.calls), Deletion(item, now, retention))
    {
      hide Between, Play, Played, Step, Safe;
      ghost var start, c := backend.world, backend.calls;
      due := IsDue(item.record, now, retention);
      if due {
        var action := Action.Cleanup(now, retention);
        backend.Delete(item, action);
        PlayedThenOwn(Step, backend.others, start, c, Write(item.record.payload.signalId, action, item.generation),
                      c + 1);
      } else {
        PlayedNothing(Step, backend.others, start, c);
      }
    }

    /**
      Delete what finished before the retention period; returns how many records it judged due. `items` is the
      listing it judged.
    */
    method Cleanup() returns (removed: nat, ghost items: seq<Stored>)
      requires Safe(backend.world)
      modifies backend
      ensures backend.Follows(old(backend.world), old(backend.calls))
      ensures Lists(backend.Reached(old(backend.world), old(backend.calls), 2), items)
      ensures var now := backend.NextClock(old(backend.world), old(backend.calls));
              var own := Deletions(items, now, retention);
              backend.Did(old(backend.world), old(backend.calls), own) && removed == |own|
      ensures old(backend.Quiet()) ==>
                var box, now := Records(old(backend.world)), old(backend.world.clock);
                && backend.world.clock == now
                && Records(backend.world) == Sweep(box, now, retention)
                && removed == |old(backend.world.bucket.objects)| - |backend.world.bucket.objects|
    {
      hide Between, Play, Played, Step, Safe, Apply, Lists, Deletions, Records, Sweep;
      ghost var start, c := backend.world, backend.calls;
      var now := backend.Now();
      var all := backend.List();
      items := all;
      ghost var listed := backend.world;
      RunOn(backend.others, start, c, c + 1, c + 2);
      removed := DeleteDue(all, now);
      ExtendsOn(start, listed, backend.world);
      PlayedAfter(Step, backend.others, start, c, listed, c + 2, Deletions(items, now, retention), backend.world,
                  backend.calls);
      if old(backend.Quiet()) {
        QuietSweep(start, backend.others, c, now, listed, items, retention);
      }
    }

    /** The loop of `Cleanup`. */
    method DeleteDue(items: seq<Stored>, now: Time) returns (removed: nat)
      requires Safe(backend.world) && Lists(backend.world, items) && now <= backend.world.clock
      modifies backend
      ensures backend.Follows(old(backend.world), old(backend.calls))
      ensures backend.Did(old(backend.world), old(backend.calls), Deletions(items, now, retention))
      ensures removed == |Deletions(items, now, retention)|
      ensures old(backend.Quiet()) ==> backend.world == SweepAll(old(backend.world), items, now, retention)
    {
      hide Between, Play, Played, Step, Safe, Apply;
      removed := 0;
      ghost var start, c := backend.world, backend.calls;
      PlayedNothing(Step, backend.others, start, c);
      for i := 0 to |items|
        invariant backend.Follows(start, c)
        invariant backend.Did(start, c, Deletions(items[..i], now, retention))
        invariant removed == |Deletions(items[..i], now, retention)|
      {
        removed := DeleteNext(start, c, items, i, now, removed);
      }
      assert items[..|items|] == items;
      if old(backend.Quiet()) {
        PlayedAlone(Step, backend.others, start, c, Deletions(items, now, retention), backend.world, backend.calls);
        DeletionsSweep(start, items, |items|, now, retention);
      }
    }

    method DeleteNext(ghost start: World, ghost c: nat, items: seq<Stored>, i: nat, now: Time, removed: nat)
      returns (count: nat)
      requires i < |items| && Lists(start, items) && now <= start.clock
      requires backend.Follows(start, c) && backend.Did(start, c, Deletions(items[..i], now, retention))
      requires removed == |Deletions(items[..i], now, retention)|
      modifies backend
      ensures backend.Follows(start, c) && backend.Did(start, c, Deletions(items[..i + 1], now, retention))
      ensures count == |Deletions(items[..i + 1], now, retention)|
    {
      hide Between, Play, Played, Step, Safe, Apply, Lists, Deletions, Deletion, WasItem, IsDue;
      ghost var was, d := backend.world, backend.calls;
      ListedWasStored(start, was, items, i);
      var due := DeleteIfDue(items[i], now);
      count := if due then removed + 1 else removed;
      ExtendsOn(start, was, backend.world);
      PlayedOn(Step, backend.others, start, c, Deletions(items[..i], now, retention), was, d,
               Deletion(items[i], now, retention), backend.world, backend.calls);
      DeletionsOneMore(items, i, now, retention);
    }

    /** The first `limit` matching signals, urgent first, then oldest. */
    method List(filter: Filter, limit: int) returns (r: Result<seq<Record>, Error>, ghost own: seq<Attempt>)
      requires Safe(backend.world)
      modifies backend
      ensures backend.Follows(old(backend.world), old(backend.calls))
      ensures backend.Did(old(backend.world), old(backend.calls), own) && IsUpkeep(own, retention)
      ensures r == Err(LimitInvalid) <==> limit < 1 || limit > 100
      ensures r == Err(LimitInvalid) ==> backend.world == old(backend.world)
      ensures r.Ok? ==> ListOutcome(old(backend.world), filter, limit, r.value, backend.world)
      ensures r.Err? && r.error != LimitInvalid ==>
                r.error == NotFound && exists id :: Vanished(old(backend.world), backend.world, id)
      ensures old(backend.Quiet()) && 1 <= limit <= 100 ==>
                var now := old(backend.world.clock);
                var box := LapseAll(Sweep(Records(old(backend.world)), now, retention), now);
                && backend.world.clock == now && Records(backend.world) == box
                && r.Ok? && IsListing(box, filter, limit, r.value)
    {
      hide Between, Play, Played, Step, Safe, Apply;
      ghost var start, c := backend.world, backend.calls;
      own := [];
      PlayedNothing(Step, backend.others, start, c);
      if limit < 1 || limit > MAX_LIST_LIMIT {
        return Err(LimitInvalid), own;
      }
      var shown, items;
      ghost var listed;
      shown, items, listed, own := ShowAll();
      if shown.Err? {
        r := Err(shown.error);
        return;
      }
      var matching := SelectMatching(shown.value, filter);
      var sorted := SortByUrgency(matching);
      var out := if |sorted| <= limit then sorted else sorted[..limit];
      r := Ok(out);
      AnswerIsRight(start, listed, backend.world, items, shown.value, filter, limit, sorted);
      if old(backend.Quiet()) {
        FirstOfSortedIsListing(Records(backend.world), shown.value, filter, limit, sorted);
      }
    }

    /** Clean up, list the bucket, and show every item as a reader may see it. */
    method ShowAll()
      returns (r: Result<seq<Record>, Error>, items: seq<Stored>, ghost listed: World, ghost own: seq<Attempt>)
      requires Safe(backend.world)
      modifies backend
      ensures backend.Follows(old(backend.world), old(backend.calls))
      ensures backend.Did(old(backend.world), old(backend.calls), own) && IsUpkeep(own, retention)
      ensures Safe(listed) && listed.Extends(old(backend.world)) && backend.world.Extends(listed)
      ensures Lists(listed, items)
      ensures match r
              case Ok(records) => Shows(listed, backend.world, items, records) && DistinctIds(records)
              case Err(e) => e == NotFound && exists id :: Vanished(old(backend.world), backend.world, id)
      ensures old(backend.Quiet()) ==>
                var now := old(backend.world.clock);
                var box := LapseAll(Sweep(Records(old(backend.world)), now, retention), now);
                && backend.world.clock == now && Records(backend.world) == box
                && r.Ok? && AreRecordsOf(r.value, box)
    {
      hide Between, Play, Played, Step, Safe, Apply;
      hide Lists, Shows, SettleAll, LapsesOf, AreRecordsOf, Records, Sweep, LapseAll, Vanished;
      hide Deletions, Expiries;
      ghost var start, c := backend.world, backend.calls;
      ghost var judged;
      var removed;
      removed, judged := Cleanup();
      ghost var cleaned, d := backend.world, backend.calls;
      ghost var deletions := Deletions(judged, backend.NextClock(start, c), retention);
      items := backend.List();
      listed := backend.world;
      ghost var nows;
      r, nows := NormalizeAll(items);
      ExtendsOn(start, cleaned, listed);
      ExtendsOn(start, listed, backend.world);
      own := deletions + Expiries(items[..|nows|], nows);
      CleanedThenShown(start, backend.others, c, deletions, cleaned, d, listed, Expiries(items[..|nows|], nows),
                       backend.world, backend.calls);
      DeletionsAreUpkeep(judged, backend.NextClock(start, c), retention);
      ExpiriesAreUpkeep(items[..|nows|], nows, retention);
      if r.Err? {
        VanishedSooner(start, listed, backend.world);
      }
      if old(backend.Quiet()) {
        QuietRun(backend.others, start, c, d);
        QuietRun(backend.others, cleaned, d, d + 1);
        SettleAllLapses(listed, items, r.value);
      }
    }

    /** Show every listed item; a signal deleted meanwhile fails the listing. `nows` are the clock readings. */
    method NormalizeAll(items: seq<Stored>) returns (r: Result<seq<Record>, Error>, ghost nows: seq<Time>)
      requires Safe(backend.world) && Lists(backend.world, items)
      modifies backend
      ensures backend.Follows(old(backend.world), old(backend.calls))
      ensures |nows| <= |items| && backend.Did(old(backend.world), old(backend.calls), Expiries(items[..|nows|], nows))
      ensures match r
              case Ok(records) =>
                |nows| == |items| && Shows(old(backend.world), backend.world, items, records) && DistinctIds(records)
              case Err(e) => e == NotFound && exists id :: Vanished(old(backend.world), backend.world, id)
      ensures old(backend.Quiet()) ==>
                && backend.world == SettleAll(old(backend.world), items)
                && r.Ok? && LapsesOf(items, r.value, old(backend.world.clock))
    {
      hide Shows, SettleAll, LapsesOf, Expiries, Lists, Vanished;
      hide Between, Play, Played, Step, Safe, Apply;
      ghost var start, c := backend.world, backend.calls;
      var records := [];
      nows := [];
      NothingShown(backend.others, start, c, items);
      for i := 0 to |items|
        invariant backend.Follows(start, c) && |nows| == i
        invariant backend.Did(start, c, Expiries(items[..i], nows))
        invariant Shows(start, backend.world, items[..i], records)
        invariant old(backend.Quiet()) ==>
            && backend.world == SettleAll(start, items[..i]) && LapsesOf(items[..i], records, start.clock)
      {
        var shown;
        ghost var now;
        shown, now := NormalizeNext(start, c, items, i, records, nows);
        nows := nows + [now];
        if shown.Err? {
          return Err(shown.error), nows;
        }
        LapsesOneMore(items, i, records, shown.value, start.clock);
        records := records + [shown.value];
      }
      assert items[..|items|] == items;
      ShowsDistinct(start, backend.world, items, records);
      r := Ok(records);
    }

    /** One round of `NormalizeAll`. */
    method NormalizeNext(ghost start: World, ghost c: nat, items: seq<Stored>, i: nat, ghost records: seq<Record>,
                         ghost nows: seq<Time>)
      returns (shown: Result<Record, Error>, ghost now: Time)
      requires i < |items| && i == |nows| && Safe(start) && Lists(start, items) && backend.Follows(start, c)
      requires backend.Did(start, c, Expiries(items[..i], nows)) && Shows(start, backend.world, items[..i], records)
      modifies backend
      ensures backend.Follows(start, c) && backend.Did(start, c, Expiries(items[..i + 1], nows + [now]))
      ensures match shown
              case Ok(record) => Shows(start, backend.world, items[..i + 1], records + [record])
              case Err(e) => e == NotFound && exists id :: Vanished(start, backend.world, id)
      ensures old(backend.Quiet()) && old(backend.world) == SettleAll(start, items[..i]) ==>
                && backend.world == SettleAll(start, items[..i + 1])
                && shown == Ok(Lapse(items[i].record, start.clock))
    {
      hide Between, Play, Played, Step, Safe, Apply;
      ghost var was, d := backend.world, backend.calls;
      WasStoredLater(start, was, items[i]);
      SettleAllStep(start, items, i);
      SettleAllLeavesLive(start, items, i);
      now := backend.NextClock(was, d);
      shown := NormalizeExpired(items[i]);
      ExtendsOn(start, was, backend.world);
      PlayedOn(Step, backend.others, start, c, Expiries(items[..i], nows), was, d, Expiry(items[i], now), backend.world,
               backend.calls);
      OneMoreExpiry(items, i, nows, now);
      SeenOrGone(start, backend.world, items[i], shown);
      if shown.Ok? {
        ShowsOneMore(start, was, backend.world, items, i, records, shown.value);
      }
    }
  }

  /** What a delivery may report, and what it then did to the bucket. */
  ghost predicate ReceiveOutcome(
    start: World, foreign: seq<Attempt>, payload: Payload, receipt: Receipt, r: Result<Delivered, Error>, end: World)
  {
    var id := payload.signalId;
    match r
    case Ok(Delivered(signalType, true, status)) =>
      && Committed(start, foreign, id, Action.Receive(payload, receipt), FromDelivery(payload, receipt), end)
      && signalType == payload.signalType && status == Pending
    case Ok(Delivered(signalType, false, status)) =>
      && end == Run(start, foreign) && end.bucket.Peek(id).Some?
      && var stored := end.bucket.Peek(id).value;
         signalType == stored.payload.signalType && status == stored.status
    case Err(e) => e == NotFound && end == Run(start, foreign) && Vanished(start, end, id)
  }

  lemma ReceivedFirst(start: World, foreign: seq<Attempt>, payload: Payload, receipt: Receipt, end: World)
    requires var mid := Run(start, foreign);
             && mid.bucket.Peek(payload.signalId).None?
             && end == mid.Put(payload.signalId, Some(FromDelivery(payload, receipt)), Action.Receive(payload, receipt))
    ensures ReceiveOutcome(start, foreign, payload, receipt, Ok(Delivered(payload.signalType, true, Pending)), end)
  {
    hide Run;
  }

  lemma AbsentIsRefused(action: Action)
    requires action.Claim? || action.Complete? || action.Dismiss? || action.Release?
    ensures Apply(action, None) == Err(NotFound)
  {}

  /** At least `n` writes hit `id` between `start` and `end`. */
  ghost predicate OvertakenTimes(start: World, end: World, id: string, n: nat) {
    start.bucket.log <= end.bucket.log && Writes(end.bucket.log[|start.bucket.log|..], id) >= n
  }

  /** What is stored, as a reader gets it. */
  function Peeked(w: World, id: string): Result<Record, Error> {
    match w.bucket.Peek(id)
    case Some(record) => Ok(record)
    case None => Err(NotFound)
  }

  /** What a reader attempts at an item: nothing, or to take an overdue claim away. */
  function Expiry(stored: Stored, now: Time): seq<Attempt> {
    if IsExpired(stored.record, now) then [Write(stored.record.payload.signalId, Expire(now), stored.generation)]
    else []
  }

  function Expiries(items: seq<Stored>, nows: seq<Time>): seq<Attempt>
    requires |nows| == |items|
  {
    if items == [] then []
    else
      var n := |items| - 1;
      Expiries(items[..n], nows[..n]) + Expiry(items[n], nows[n])
  }

  lemma NothingShown(others: nat -> seq<Attempt>, start: World, c: nat, items: seq<Stored>)
    ensures items[..0] == [] && Played(Step, others, start, c, Expiries([], []), start, c)
    ensures Shows(start, start, [], []) && SettleAll(start, []) == start && LapsesOf([], [], start.clock)
  {
    PlayedNothing(Step, others, start, c);
  }

  lemma OneMoreExpiry(items: seq<Stored>, i: nat, nows: seq<Time>, now: Time)
    requires i < |items| && |nows| == i
    ensures Expiries(items[..i + 1], nows + [now]) == Expiries(items[..i], nows) + Expiry(items[i], now)
  {
    assert items[..i + 1][..i] == items[..i] && (nows + [now])[..i] == nows;
  }

  /** What cleanup attempts at an item: nothing, or to delete it. */
  function Deletion(item: Stored, now: Time, retention: Time): seq<Attempt> {
    if IsDue(item.record, now, retention)
    then [Write(item.record.payload.signalId, Action.Cleanup(now, retention), item.generation)] else []
  }

  function Deletions(items: seq<Stored>, now: Time, retention: Time): seq<Attempt> {
    if items == [] then []
    else Deletions(items[..|items| - 1], now, retention) + Deletion(items[|items| - 1], now, retention)
  }

  lemma DeletionsOneMore(items: seq<Stored>, i: nat, now: Time, retention: Time)
    requires i < |items|
    ensures Deletions(items[..i + 1], now, retention) ==
              Deletions(items[..i], now, retention) + Deletion(items[i], now, retention)
    ensures |Deletion(items[i], now, retention)| == if IsDue(items[i].record, now, retention) then 1 else 0
  {
    assert items[..i + 1][..i] == items[..i];
  }

  /** A listing writes nothing but expiries and deletions of due records. */
  ghost predicate IsUpkeep(own: seq<Attempt>, retention: Time) {
    forall i | 0 <= i < |own| :: IsUpkeepWrite(own[i], retention)
  }

  ghost predicate IsUpkeepWrite(a: Attempt, retention: Time) {
    a.Write? && (a.action.Expire? || (a.action.Cleanup? && a.action.retention == retention))
  }

  lemma {:induction false} DeletionsAreUpkeep(items: seq<Stored>, now: Time, retention: Time)
    ensures IsUpkeep(Deletions(items, now, retention), retention)
  {
    if items != [] {
      DeletionsAreUpkeep(items[..|items| - 1], now, retention);
    }
  }

  lemma {:induction false} ExpiriesAreUpkeep(items: seq<Stored>, nows: seq<Time>, retention: Time)
    requires |nows| == |items|
    ensures IsUpkeep(Expiries(items, nows), retention)
  {
    if items != [] {
      ExpiriesAreUpkeep(items[..|items| - 1], nows[..|items| - 1], retention);
    }
  }

  /** Alone, taking an overdue claim away does just that. */
  lemma QuietExpiry(start: World, others: nat -> seq<Attempt>, c: nat, stored: Stored, r: Result<Record, Error>,
                    end: World, d: nat)
    requires Safe(start) && Silent(others, c) && IsLive(start, stored)
    requires var now := Run(start, Between(others, c, c + 1)).clock;
             && Played(Step, others, start, c, Expiry(stored, now), end, d)
             && r == if IsExpired(stored.record, now) then Peeked(end, stored.record.payload.signalId)
                     else Ok(stored.record)
    ensures r == Ok(Lapse(stored.record, start.clock)) && end == Settle(start, stored)
  {
    SilentBetween(others, c, c, c + 1);
    PlayedAlone(Step, others, start, c, Expiry(stored, start.clock), end, d);
    ExpiryIsSettle(start, stored);
  }

  lemma ExpiryIsSettle(w: World, stored: Stored)
    requires IsLive(w, stored)
    ensures Play(Step, w, Expiry(stored, w.clock)) == Settle(w, stored)
    ensures IsExpired(stored.record, w.clock) ==>
              Peeked(Settle(w, stored), stored.record.payload.signalId) == Ok(Unclaimed(stored.record, w.clock))
  {
    if IsExpired(stored.record, w.clock) {
      var a := Write(stored.record.payload.signalId, Expire(w.clock), stored.generation);
      assert [a][..0] == [];
      assert Play(Step, w, [a]) == Step(w, a);
    }
  }

  /** Deleting the due ones of a listing, alone, sweeps the bucket. */
  lemma {:induction false} DeletionsSweep(w: World, items: seq<Stored>, i: nat, now: Time, retention: Time)
    requires Safe(w) && Lists(w, items) && i <= |items| && now <= w.clock
    ensures Play(Step, w, Deletions(items[..i], now, retention)) == SweepAll(w, items[..i], now, retention)
  {
    if i > 0 {
      DeletionsSweep(w, items, i - 1, now, retention);
      assert items[..i][..i - 1] == items[..i - 1];
      var before := SweepAll(w, items[..i - 1], now, retention);
      SweepAllLeavesLive(w, items, i - 1, now, retention);
      DeletionIsSwept(before, items[i - 1], now, retention);
      PlayInTwo(Step, w, Deletions(items[..i - 1], now, retention), Deletion(items[i - 1], now, retention));
    }
  }

  lemma DeletionIsSwept(w: World, item: Stored, now: Time, retention: Time)
    requires IsLive(w, item) && now <= w.clock
    ensures Play(Step, w, Deletion(item, now, retention)) == Swept(w, item, now, retention)
  {
    if IsDue(item.record, now, retention) {
      var a := Write(item.record.payload.signalId, Action.Cleanup(now, retention), item.generation);
      assert [a][..0] == [];
      assert Play(Step, w, [a]) == Step(w, a);
    }
  }

  /** Cleanup, then a listing, then the expiries. */
  lemma CleanedThenShown(start: World, others: nat -> seq<Attempt>, c: nat, deletions: seq<Attempt>, cleaned: World,
                         d: nat, listed: World, expiries: seq<Attempt>, end: World, e: nat)
    requires Played(Step, others, start, c, deletions, cleaned, d)
    requires listed == Run(cleaned, Between(others, d, d + 1))
    requires Played(Step, others, listed, d + 1, expiries, end, e)
    ensures Played(Step, others, start, c, deletions + expiries, end, e)
  {
    PlayedByOthers(Step, others, cleaned, d, listed, d + 1);
    PlayedOn(Step, others, start, c, deletions, cleaned, d, [], listed, d + 1);
    assert deletions + [] == deletions;
    PlayedOn(Step, others, start, c, deletions, listed, d + 1, expiries, end, e);
  }

  /** `id` was stored at some moment between `start` and `end`, and not at a later one. */
  ghost predicate Vanished(start: World, end: World, id: string) {
    exists m, n | |start.bucket.log| <= m <= n <= |end.bucket.log| ::
      Content(end.bucket.log[..m], id).Some? && Content(end.bucket.log[..n], id).None?
  }

  lemma VanishedSooner(start: World, listed: World, end: World)
    requires listed.Extends(start) && exists id :: Vanished(listed, end, id)
    ensures exists id :: Vanished(start, end, id)
  {
    var id :| Vanished(listed, end, id);
    assert Vanished(start, end, id);
  }

  lemma VanishedAt(start: World, present: World, end: World, id: string)
    requires Safe(present) && Safe(end) && present.Extends(start) && end.Extends(present)
    requires present.bucket.Peek(id).Some? && end.bucket.Peek(id).None?
    ensures Vanished(start, end, id)
  {
    var m, n := |present.bucket.log|, |end.bucket.log|;
    assert end.bucket.log[..m] == present.bucket.log && end.bucket.log[..n] == end.bucket.log;
    assert Content(end.bucket.log[..m], id) == present.bucket.Peek(id);
    assert Content(end.bucket.log[..n], id) == end.bucket.Peek(id);
  }

  /** `id` is stored and matches at every moment between `start` and `end`. */
  ghost predicate StaysMatching(start: World, end: World, id: string, filter: Filter) {
    forall n | |start.bucket.log| <= n <= |end.bucket.log| ::
      Content(end.bucket.log[..n], id).Some? && filter.Matches(Content(end.bucket.log[..n], id).value)
  }

  /** `id` is in the answer, or the answer is full of records that come before one of its versions. */
  ghost predicate ListedOrFull(start: World, end: World, id: string, limit: nat, out: seq<Record>) {
    || (exists i :: 0 <= i < |out| && out[i].payload.signalId == id)
    || (|out| == limit
        && exists r :: SeenBetween(start, end, id, r) && forall i | 0 <= i < |out| :: InOrder(out[i], r))
  }

  /** What a listing promises while other clients write. */
  ghost predicate ListOutcome(start: World, filter: Filter, limit: int, out: seq<Record>, end: World) {
    && |out| <= limit && Sorted(out) && DistinctIds(out)
    && (forall i | 0 <= i < |out| ::
          filter.Matches(out[i]) && SeenBetween(start, end, out[i].payload.signalId, out[i]))
    && forall id | StaysMatching(start, end, id, filter) :: ListedOrFull(start, end, id, limit, out)
  }

  lemma SeenSince(start: World, mid: World, end: World, id: string, r: Record)
    requires SeenBetween(mid, end, id, r) && mid.Extends(start)
    ensures SeenBetween(start, end, id, r)
  {}

  lemma AnswerIsRight(start: World, listed: World, end: World, items: seq<Stored>, shown: seq<Record>, filter: Filter,
                      limit: nat, sorted: seq<Record>)
    requires Safe(listed) && listed.Extends(start) && end.Extends(listed) && Lists(listed, items)
    requires Shows(listed, end, items, shown)
    requires Sorted(sorted) && DistinctIds(sorted) && forall x :: x in sorted <==> x in shown && filter.Matches(x)
    ensures ListOutcome(start, filter, limit, if |sorted| <= limit then sorted else sorted[..limit], end)
  {
    hide Safe, Lists, Shows, SeenBetween, StaysMatching, ListedOrFull, InOrder;
    var out := if |sorted| <= limit then sorted else sorted[..limit];
    forall i | 0 <= i < |out|
      ensures filter.Matches(out[i]) && SeenBetween(start, end, out[i].payload.signalId, out[i])
    {
      assert out[i] in sorted;
      ShownIsSeen(start, listed, end, items, shown, out[i]);
    }
    forall id | StaysMatching(start, end, id, filter)
      ensures ListedOrFull(start, end, id, limit, out)
    {
      var r := MatchingIsShown(start, listed, end, items, shown, filter, id);
      InOrCutOff(start, end, id, r, sorted, limit);
    }
  }

  lemma InOrCutOff(start: World, end: World, id: string, r: Record, sorted: seq<Record>, limit: nat)
    requires Sorted(sorted) && r in sorted && r.payload.signalId == id && SeenBetween(start, end, id, r)
    ensures ListedOrFull(start, end, id, limit, if |sorted| <= limit then sorted else sorted[..limit])
  {
    hide SeenBetween, InOrder;
    var out := if |sorted| <= limit then sorted else sorted[..limit];
    if r in out {
      var i :| 0 <= i < |out| && out[i] == r;
    } else {
      AfterTheCut(sorted, limit, r);
    }
  }

  lemma ShownIsSeen(start: World, listed: World, end: World, items: seq<Stored>, shown: seq<Record>, r: Record)
    requires listed.Extends(start) && Shows(listed, end, items, shown) && r in shown
    ensures SeenBetween(start, end, r.payload.signalId, r)
  {
    var i :| 0 <= i < |shown| && shown[i] == r;
    SeenSince(start, listed, end, r.payload.signalId, r);
  }

  /** A signal stored and matching throughout is shown as a matching record. */
  lemma MatchingIsShown(start: World, listed: World, end: World, items: seq<Stored>, shown: seq<Record>, filter: Filter,
                        id: string)
    returns (r: Record)
    requires Safe(listed) && listed.Extends(start) && end.Extends(listed) && Lists(listed, items)
    requires Shows(listed, end, items, shown) && StaysMatching(start, end, id, filter)
    ensures r in shown && filter.Matches(r) && r.payload.signalId == id && SeenBetween(start, end, id, r)
  {
    var m := |listed.bucket.log|;
    assert end.bucket.log[..m] == listed.bucket.log;
    assert Content(listed.bucket.log, id) == listed.bucket.Peek(id);
    assert id in listed.bucket.objects.Keys;
    var i :| 0 <= i < |items| && items[i].record.payload.signalId == id;
    r := shown[i];
    SeenSince(start, listed, end, id, r);
    var n :| |listed.bucket.log| <= n <= |end.bucket.log| && Content(end.bucket.log[..n], id) == Some(r);
  }

  lemma SeenOrGone(start: World, end: World, item: Stored, shown: Result<Record, Error>)
    requires Safe(start) && Safe(end) && end.Extends(start) && IsLive(start, item)
    requires shown == Ok(item.record) || shown == Peeked(end, item.record.payload.signalId)
    ensures var id := item.record.payload.signalId;
            match shown
            case Ok(record) => SeenBetween(start, end, id, record)
            case Err(e) => e == NotFound && Vanished(start, end, id)
  {
    var id := item.record.payload.signalId;
    if shown.Err? {
      VanishedAt(start, start, end, id);
    } else {
      SeenEither(start, start, end, id, item.record, shown.value);
    }
  }

  /** What a read-decide-replace call may report, and what it then did to the bucket. */
  ghost predicate UpdateOutcome(
    start: World, foreign: seq<Attempt>, id: string, action: Action, r: Result<Record, Error>, end: World)
  {
    match r
    case Ok(rec) => Committed(start, foreign, id, action, rec, end)
    case Err(e) =>
      && end == Run(start, foreign)
      && if e == Conflict then OvertakenTimes(start, end, id, 5)
         else Apply(action, end.bucket.Peek(id)) == Err(e)
  }

  datatype Tried = Done(updated: Record) | Refused(error: Error) | Overtaken

  /** What one attempt at an update did. */
  ghost predicate TryOutcome(start: World, foreign: seq<Attempt>, id: string, action: Action, r: Tried, end: World) {
    match r
    case Done(rec) => Committed(start, foreign, id, action, rec, end)
    case Refused(e) => end == Run(start, foreign) && e != Conflict && Apply(action, end.bucket.Peek(id)) == Err(e)
    case Overtaken => end == Run(start, foreign) && OvertakenTimes(start, end, id, 1)
  }

  /** First others alone, then the attempt. */
  lemma TriedAfter(start: World, first: seq<Attempt>, mid: World, later: seq<Attempt>, id: string, action: Action,
                   r: Tried, end: World)
    requires mid == Run(start, first) && mid.Extends(start) && end.Extends(mid)
    requires TryOutcome(mid, later, id, action, r, end)
    ensures TryOutcome(start, first + later, id, action, r, end) && end.Extends(start)
  {
    hide Step, Play, Apply;
    ExtendsOn(start, mid, end);
    PlayInTwo(Step, start, first, later);
    if r.Overtaken? {
      MoreWrites(start, mid, end, id);
    }
  }

  /** After some overtaken rounds, one more. */
  lemma UpdatedAfter(start: World, first: seq<Attempt>, mid: World, later: seq<Attempt>, id: string, action: Action,
                     n: nat, r: Tried, end: World)
    requires mid == Run(start, first) && mid.Extends(start) && end.Extends(mid)
    requires OvertakenTimes(start, mid, id, n) && TryOutcome(mid, later, id, action, r, end)
    ensures end.Extends(start)
    ensures match r
            case Done(updated) => UpdateOutcome(start, first + later, id, action, Ok(updated), end)
            case Refused(error) =>
              error != Conflict && UpdateOutcome(start, first + later, id, action, Err(error), end)
            case Overtaken => end == Run(start, first + later) && OvertakenTimes(start, end, id, n + 1)
  {
    hide Step, Play, Apply;
    ExtendsOn(start, mid, end);
    PlayInTwo(Step, start, first, later);
    if r.Overtaken? {
      MoreWrites(start, mid, end, id);
    }
  }

  lemma NotOvertaken(start: World, id: string)
    ensures OvertakenTimes(start, start, id, 0)
  {}

  lemma ConflictAfterFive(start: World, foreign: seq<Attempt>, id: string, action: Action, end: World)
    requires end == Run(start, foreign) && OvertakenTimes(start, end, id, 5)
    ensures UpdateOutcome(start, foreign, id, action, Err(Conflict), end)
  {}

  /** The four updating actions store a record of the same signal or refuse; none of them reports a conflict. */
  lemma UpdatesReplace(action: Action, found: Record)
    requires action.Claim? || action.Complete? || action.Dismiss? || action.Release?
    ensures match Apply(action, Some(found))
            case Ok(after) => after.Some? && after.value.payload == found.payload
            case Err(e) => e != Conflict
  {}

  /** An object that moved between reading and writing was written by somebody else. */
  lemma Overtook(atRead: World, end: World, id: string)
    requires Safe(atRead) && Safe(end) && end.Extends(atRead)
    requires atRead.bucket.Generation(id) != end.bucket.Generation(id)
    ensures OvertakenTimes(atRead, end, id, 1)
  {
    assert end.bucket.log[..|atRead.bucket.log|] == atRead.bucket.log;
    MovedMeansWritten(end.bucket.log, |atRead.bucket.log|, id);
  }

  lemma MoreWrites(start: World, mid: World, end: World, id: string)
    requires mid.Extends(start) && end.Extends(mid)
    ensures Writes(end.bucket.log[|start.bucket.log|..], id) ==
            Writes(mid.bucket.log[|start.bucket.log|..], id) + Writes(end.bucket.log[|mid.bucket.log|..], id)
  {
    var n, m := |start.bucket.log|, |mid.bucket.log|;
    assert end.bucket.log[n..] == mid.bucket.log[n..] + end.bucket.log[m..];
    WritesAddUp(mid.bucket.log[n..], end.bucket.log[m..], id);
  }

  /** Reading the clock first only adds to what other clients did. */
  lemma JoinRuns(start: World, others: nat -> seq<Attempt>, c: nat, e: nat, id: string, action: Action,
                 r: Result<Record, Error>, end: World)
    requires Safe(start) && c < e
    requires UpdateOutcome(Run(start, Between(others, c, c + 1)), Between(others, c + 1, e), id, action, r, end)
    ensures UpdateOutcome(start, Between(others, c, e), id, action, r, end)
  {
    hide Between, Run, Step, Apply;
    RunOn(others, start, c, c + 1, e);
    var mid := Run(start, Between(others, c, c + 1));
    RunKeepsSafe(start, Between(others, c, c + 1));
    if r == Err(Conflict) {
      LaterWritesCount(start.bucket.log, mid.bucket.log, end.bucket.log, id);
    }
  }

  lemma LaterWritesCount(a: Log, b: Log, c: Log, id: string)
    requires a <= b <= c
    ensures Writes(c[|a|..], id) >= Writes(c[|b|..], id)
  {
    var n, m := |a|, |b|;
    assert c[n..] == c[n..m] + c[m..];
    WritesAddUp(c[n..m], c[m..], id);
  }

  lemma SeenAt(start: World, w: World, end: World, id: string, r: Record)
    requires Safe(w) && w.Extends(start) && end.Extends(w)
    ensures w.bucket.Peek(id) == Some(r) ==> SeenBetween(start, end, id, r)
  {
    assert end.bucket.log[..|w.bucket.log|] == w.bucket.log;
    assert w.bucket.Peek(id) == Content(w.bucket.log, id);
  }

  lemma SeenEither(start: World, mid: World, end: World, id: string, read: Record, shown: Record)
    requires Safe(mid) && Safe(end) && mid.Extends(start) && end.Extends(mid) && end.Extends(start)
    requires mid.bucket.Peek(id) == Some(read) && (shown == read || end.bucket.Peek(id) == Some(shown))
    ensures SeenBetween(start, end, id, shown)
  {
    SeenAt(start, mid, end, id, shown);
    SeenAt(start, end, end, id, shown);
  }

  lemma WasStoredLater(w: World, later: World, item: Stored)
    requires later.Extends(w) && IsLive(w, item)
    ensures WasItem(later, item)
  {}

  lemma ListedWasStored(w: World, later: World, items: seq<Stored>, i: nat)
    requires later.Extends(w) && Lists(w, items) && i < |items|
    ensures WasItem(later, items[i])
  {
    WasStoredLater(w, later, items[i]);
  }

  /** `w` once an overdue claim on the live `item` was taken away. */
  function Settle(w: World, item: Stored): World {
    if IsExpired(item.record, w.clock)
    then w.Put(item.record.payload.signalId, Some(Unclaimed(item.record, w.clock)), Expire(w.clock))
    else w
  }

  lemma SettleRecords(w: World, item: Stored)
    requires IsLive(w, item)
    ensures Records(Settle(w, item)) == Records(w)[item.record.payload.signalId := Lapse(item.record, w.clock)]
    ensures Settle(w, item).clock == w.clock
  {}

  function Swept(w: World, item: Stored, now: Time, retention: Time): World {
    if IsDue(item.record, now, retention)
    then w.Put(item.record.payload.signalId, None, Action.Cleanup(now, retention))
    else w
  }

  /** `w` after the due ones of `items` were deleted in turn. */
  function SweepAll(w: World, items: seq<Stored>, now: Time, retention: Time): World {
    if items == [] then w
    else Swept(SweepAll(w, items[..|items| - 1], now, retention), items[|items| - 1], now, retention)
  }

  lemma SweptObjects(w: World, item: Stored, now: Time, retention: Time)
    requires IsLive(w, item)
    ensures var id, w' := item.record.payload.signalId, Swept(w, item, now, retention);
            && w'.Extends(w) && w'.clock == w.clock
            && w'.bucket.objects ==
               (if IsDue(item.record, now, retention) then w.bucket.objects - {id} else w.bucket.objects)
            && |w'.bucket.objects| == |w.bucket.objects| - if IsDue(item.record, now, retention) then 1 else 0
  {
    var id, w' := item.record.payload.signalId, Swept(w, item, now, retention);
    assert IsDue(item.record, now, retention) ==> w.bucket.objects.Keys == w'.bucket.objects.Keys + {id};
  }

  /** Which of the listed items are left in `w'` after the first `i` were looked at. */
  ghost predicate SweptUpTo(w: World, w': World, items: seq<Stored>, i: nat, now: Time, retention: Time) {
    && w'.Extends(w) && w'.clock == w.clock
    && (forall k | k in w'.bucket.objects :: k in w.bucket.objects && w'.bucket.objects[k] == w.bucket.objects[k])
    && (forall j | 0 <= j < |items| ::
          items[j].record.payload.signalId in w'.bucket.objects <==> !(j < i && IsDue(items[j].record, now, retention)))
  }

  lemma SweepsOneMore(w: World, before: World, items: seq<Stored>, i: nat, now: Time, retention: Time)
    requires Lists(w, items) && i < |items| && SweptUpTo(w, before, items, i, now, retention)
    ensures IsLive(before, items[i])
    ensures var w' := Swept(before, items[i], now, retention);
            && SweptUpTo(w, w', items, i + 1, now, retention)
            && |w'.bucket.objects| == |before.bucket.objects| - if IsDue(items[i].record, now, retention) then 1 else 0
  {
    hide IsDue, Swept, IsLive, WasStored;
    LiveLater(w, before, items[i]);
    SweptObjects(before, items[i], now, retention);
    ExtendsOn(w, before, Swept(before, items[i], now, retention));
  }

  lemma {:induction false} SweepAllLeaves(w: World, items: seq<Stored>, i: nat, now: Time, retention: Time)
    requires Lists(w, items) && i <= |items|
    ensures var w' := SweepAll(w, items[..i], now, retention);
            && SweptUpTo(w, w', items, i, now, retention)
            && |w'.bucket.objects| == |w.bucket.objects| - |Deletions(items[..i], now, retention)|
  {
    hide *;
    if i > 0 {
      SweepAllLeaves(w, items, i - 1, now, retention);
      var before := SweepAll(w, items[..i - 1], now, retention);
      SweepsOneMore(w, before, items, i - 1, now, retention);
      SweepAllStep(w, items, i - 1, now, retention);
    } else {
      SweptNone(w, items, now, retention);
    }
  }

  lemma SweptNone(w: World, items: seq<Stored>, now: Time, retention: Time)
    requires Lists(w, items)
    ensures items[..0] == [] && SweepAll(w, [], now, retention) == w && Deletions([], now, retention) == []
    ensures SweptUpTo(w, w, items, 0, now, retention)
  {}

  lemma SweepAllStep(w: World, items: seq<Stored>, i: nat, now: Time, retention: Time)
    requires i < |items|
    ensures SweepAll(w, items[..i + 1], now, retention) ==
              Swept(SweepAll(w, items[..i], now, retention), items[i], now, retention)
    ensures |Deletions(items[..i + 1], now, retention)| ==
              |Deletions(items[..i], now, retention)| + if IsDue(items[i].record, now, retention) then 1 else 0
  {
    hide Swept, IsDue;
    assert items[..i + 1][..i] == items[..i];
  }

  lemma LiveLater(w: World, later: World, item: Stored)
    requires IsLive(w, item) && later.Extends(w)
    requires var id := item.record.payload.signalId;
             id in later.bucket.objects && later.bucket.objects[id] == w.bucket.objects[id]
    ensures IsLive(later, item)
  {}

  lemma SweepAllLeavesLive(w: World, items: seq<Stored>, i: nat, now: Time, retention: Time)
    requires Lists(w, items) && i < |items|
    ensures var w' := SweepAll(w, items[..i], now, retention); IsLive(w', items[i]) && w'.clock == w.clock
  {
    SweepAllLeaves(w, items, i, now, retention);
    LiveLater(w, SweepAll(w, items[..i], now, retention), items[i]);
  }

  lemma SweepAllSweeps(w: World, items: seq<Stored>, now: Time, retention: Time)
    requires Lists(w, items)
    ensures var w' := SweepAll(w, items, now, retention);
            && w'.clock == w.clock && Records(w') == Sweep(Records(w), now, retention)
            && |Deletions(items, now, retention)| == |w.bucket.objects| - |w'.bucket.objects|
  {
    assert items[..|items|] == items;
    SweepAllLeaves(w, items, |items|, now, retention);
    var w' := SweepAll(w, items, now, retention);
    forall k | k in w.bucket.objects
      ensures k in w'.bucket.objects <==> !IsDue(w.bucket.objects[k].content, now, retention)
    {
      var j :| 0 <= j < |items| && items[j].record.payload.signalId == k;
      assert IsLive(w, items[j]);
    }
    RecordsSweep(w, w', now, retention);
  }

  lemma QuietSweep(start: World, others: nat -> seq<Attempt>, c: nat, now: Time, listed: World, items: seq<Stored>,
                   retention: Time)
    requires Silent(others, c) && Lists(listed, items)
    requires now == Run(start, Between(others, c, c + 1)).clock && listed == Run(start, Between(others, c, c + 2))
    ensures listed == start && now == start.clock
    ensures var w' := SweepAll(start, items, now, retention);
            && w'.clock == start.clock && Records(w') == Sweep(Records(start), now, retention)
            && |Deletions(items, now, retention)| == |start.bucket.objects| - |w'.bucket.objects|
  {
    hide Between, Run, Safe, Records, Lists, SweepAll;
    QuietRun(others, start, c, c + 1);
    QuietRun(others, start, c, c + 2);
    SweepAllSweeps(start, items, now, retention);
  }

  lemma RecordsSweep(w: World, w': World, now: Time, retention: Time)
    requires forall k | k in w'.bucket.objects :: k in w.bucket.objects && w'.bucket.objects[k] == w.bucket.objects[k]
    requires forall k | k in w.bucket.objects ::
               k in w'.bucket.objects <==> !IsDue(w.bucket.objects[k].content, now, retention)
    ensures Records(w') == Sweep(Records(w), now, retention)
  {}

  /** Each record was the stored one of its item at some moment since `start`, when the items were listed. */
  ghost predicate Shows(start: World, w: World, items: seq<Stored>, records: seq<Record>) {
    && |records| == |items|
    && forall i | 0 <= i < |items| ::
         && records[i].payload.signalId == items[i].record.payload.signalId
         && SeenBetween(start, w, records[i].payload.signalId, records[i])
  }

  ghost predicate LapsesOf(items: seq<Stored>, records: seq<Record>, now: Time) {
    && |records| == |items|
    && forall i | 0 <= i < |items| :: records[i] == Lapse(items[i].record, now)
  }

  lemma LapsesOneMore(items: seq<Stored>, i: nat, records: seq<Record>, shown: Record, now: Time)
    requires i < |items|
    ensures LapsesOf(items[..i], records, now) && shown == Lapse(items[i].record, now) ==>
              LapsesOf(items[..i + 1], records + [shown], now)
  {}

  lemma SeenLater(start: World, w: World, later: World, id: string, r: Record)
    requires SeenBetween(start, w, id, r) && later.Extends(w)
    ensures SeenBetween(start, later, id, r)
  {
    var n :| |start.bucket.log| <= n <= |w.bucket.log| && Content(w.bucket.log[..n], id) == Some(r);
    assert later.bucket.log[..n] == w.bucket.log[..n];
  }

  lemma ShowsOneMore(start: World, was: World, w: World, items: seq<Stored>, i: nat, records: seq<Record>,
                     shown: Record)
    requires i < |items| && Shows(start, was, items[..i], records) && w.Extends(was)
    requires shown.payload.signalId == items[i].record.payload.signalId
    requires SeenBetween(start, w, shown.payload.signalId, shown)
    ensures Shows(start, w, items[..i + 1], records + [shown])
  {
    hide SeenBetween;
    forall j | 0 <= j < i
      ensures records[j].payload.signalId == items[j].record.payload.signalId
      ensures SeenBetween(start, w, records[j].payload.signalId, records[j])
    {
      assert items[..i][j] == items[j];
      SeenLater(start, was, w, records[j].payload.signalId, records[j]);
    }
  }

  /** `w` after the overdue claims on `items` were taken away in turn. */
  function SettleAll(w: World, items: seq<Stored>): World {
    if items == [] then w else Settle(SettleAll(w, items[..|items| - 1]), items[|items| - 1])
  }

  lemma SettleObjects(w: World, item: Stored)
    requires IsLive(w, item)
    ensures var id, w' := item.record.payload.signalId, Settle(w, item);
            && w'.Extends(w) && w'.clock == w.clock
            && w'.bucket.objects.Keys == w.bucket.objects.Keys
            && w'.bucket.objects[id].content == Lapse(item.record, w.clock)
            && forall k | k in w.bucket.objects && k != id :: w'.bucket.objects[k] == w.bucket.objects[k]
  {}

  /** The claims of the first `i` items are as at `w.clock` in `w'`. */
  ghost predicate SettledUpTo(w: World, w': World, items: seq<Stored>, i: nat) {
    && w'.Extends(w) && w'.clock == w.clock
    && w'.bucket.objects.Keys == w.bucket.objects.Keys
    && forall j | 0 <= j < |items| ::
         var id := items[j].record.payload.signalId;
         && id in w.bucket.objects
         && if j < i then w'.bucket.objects[id].content == Lapse(items[j].record, w.clock)
            else w'.bucket.objects[id] == w.bucket.objects[id]
  }

  lemma SettlesOneMore(w: World, before: World, items: seq<Stored>, i: nat)
    requires Lists(w, items) && i < |items| && SettledUpTo(w, before, items, i)
    ensures IsLive(before, items[i])
    ensures SettledUpTo(w, Settle(before, items[i]), items, i + 1)
  {
    hide Lapse, Settle, IsLive, WasStored;
    LiveLater(w, before, items[i]);
    SettleObjects(before, items[i]);
    ExtendsOn(w, before, Settle(before, items[i]));
  }

  lemma SettleAllStep(w: World, items: seq<Stored>, i: nat)
    requires i < |items|
    ensures SettleAll(w, items[..i + 1]) == Settle(SettleAll(w, items[..i]), items[i])
  {
    hide Settle;
    assert items[..i + 1][..i] == items[..i];
  }

  lemma {:induction false} SettleAllLeaves(w: World, items: seq<Stored>, i: nat)
    requires Lists(w, items) && i <= |items|
    ensures SettledUpTo(w, SettleAll(w, items[..i]), items, i)
  {
    hide *;
    if i > 0 {
      SettleAllLeaves(w, items, i - 1);
      SettlesOneMore(w, SettleAll(w, items[..i - 1]), items, i - 1);
      SettleAllStep(w, items, i - 1);
    } else {
      SettledNone(w, items);
    }
  }

  lemma SettledNone(w: World, items: seq<Stored>)
    requires Lists(w, items)
    ensures items[..0] == [] && SettleAll(w, []) == w
    ensures SettledUpTo(w, w, items, 0)
  {}

  lemma SettleAllLeavesLive(w: World, items: seq<Stored>, i: nat)
    requires Lists(w, items) && i < |items|
    ensures IsLive(SettleAll(w, items[..i]), items[i]) && SettleAll(w, items[..i]).clock == w.clock
  {
    SettleAllLeaves(w, items, i);
    LiveLater(w, SettleAll(w, items[..i]), items[i]);
  }

  lemma SettleAllLapses(w: World, items: seq<Stored>, shown: seq<Record>)
    requires Lists(w, items) && LapsesOf(items, shown, w.clock)
    ensures var w' := SettleAll(w, items);
            w'.clock == w.clock && Records(w') == LapseAll(Records(w), w.clock) && AreRecordsOf(shown, Records(w'))
  {
    assert items[..|items|] == items;
    SettleAllLeaves(w, items, |items|);
    var w' := SettleAll(w, items);
    forall k | k in w.bucket.objects
      ensures w'.bucket.objects[k].content == Lapse(w.bucket.objects[k].content, w.clock)
      ensures w'.bucket.objects[k].content in shown
    {
      var j :| 0 <= j < |items| && items[j].record.payload.signalId == k;
      assert IsLive(w, items[j]) && shown[j] == Lapse(items[j].record, w.clock);
    }
    RecordsLapse(w, w');
    ShownAreRecords(w, w', items, shown);
  }

  lemma RecordsLapse(w: World, w': World)
    requires w'.bucket.objects.Keys == w.bucket.objects.Keys
    requires forall k | k in w.bucket.objects ::
               w'.bucket.objects[k].content == Lapse(w.bucket.objects[k].content, w.clock)
    ensures Records(w') == LapseAll(Records(w), w.clock)
  {}

  lemma ShownAreRecords(w: World, w': World, items: seq<Stored>, shown: seq<Record>)
    requires LapsesOf(items, shown, w.clock)
    requires forall j | 0 <= j < |items| ::
               var id := items[j].record.payload.signalId;
               id in w'.bucket.objects && w'.bucket.objects[id].content == Lapse(items[j].record, w.clock)
    ensures forall r | r in shown :: r.payload.signalId in Records(w') && Records(w')[r.payload.signalId] == r
  {
    forall r | r in shown ensures r.payload.signalId in Records(w') && Records(w')[r.payload.signalId] == r {
      var j :| 0 <= j < |shown| && shown[j] == r;
      assert items[j].record.payload.signalId == r.payload.signalId;
    }
  }

  lemma ShowsDistinct(start: World, w: World, items: seq<Stored>, records: seq<Record>)
    requires Shows(start, w, items, records) && Lists(start, items)
    ensures DistinctIds(records)
  {}
}
