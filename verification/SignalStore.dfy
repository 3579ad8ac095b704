/**
  The bucket of signals shared by every running gateway.

  Any number of clients work on it at once. A client reads an object, decides
  on a clock reading it took, and writes conditionally some time later, so one
  attempted write is described by the version it read, the reading it decided
  on and the action. Arbitrary sequences of such attempts, with the clock
  ticking in between, cover every interleaving.
*/
module SignalStore {
  import opened Wrappers
  import opened ObjectStore
  import opened Schedules
  import opened SignalRecords

  type Log = seq<Commit<string, Record, Action>>

  datatype World = World(bucket: Bucket<string, Record, Action>, clock: Time) {

    /** The world after a write of `k` landed. */
    function Put(k: string, after: Option<Record>, action: Action): World {
      var b := bucket.CompareAndSet(k, bucket.Generation(k), after, action, clock);
      World(b.value, clock)
    }

    ghost predicate Extends(earlier: World) {
      earlier.bucket.log <= bucket.log && earlier.clock <= clock
    }
  }

  lemma ExtendsOn(a: World, b: World, c: World)
    requires b.Extends(a) && c.Extends(b)
    ensures c.Extends(a)
  {
    assert c.bucket.log[..|a.bucket.log|] == b.bucket.log[..|a.bucket.log|];
  }

  function Empty(clock: Time): World {
    World(Bucket(map[], []), clock)
  }

  /** One write of the log: the action was allowed on the record stored just before it. */
  ghost predicate Legal(c: Commit<string, Record, Action>) {
    && Apply(c.action, c.before) == Ok(c.after)
    && c.action.DecidedAt() <= c.at
    && (c.after.Some? ==> c.after.value.payload.signalId == c.key)
  }

  /** Every write was legal, and the clock never ran back. */
  ghost predicate LegalLog(log: Log, clock: Time) {
    |log| == 0 ||
    (var last := log[|log| - 1]; Legal(last) && last.at <= clock && LegalLog(log[..|log| - 1], last.at))
  }

  lemma {:induction false} LegalAt(log: Log, clock: Time, i: nat)
    requires LegalLog(log, clock) && i < |log|
    ensures Legal(log[i]) && log[i].at <= clock && LegalLog(log[..i], log[i].at)
  {
    if i < |log| - 1 {
      LegalAt(log[..|log| - 1], log[|log| - 1].at, i);
      assert log[..|log| - 1][..i] == log[..i];
    }
  }

  /** The state every interleaving keeps: bucket, log and clock agree and every write was legal. */
  ghost predicate Safe(w: World) {
    && w.bucket.Valid()
    && LegalLog(w.bucket.log, w.clock)
  }

  /** `g` is a version of `k` somebody may have read at some time. */
  predicate WasStored(w: World, k: string, g: nat) {
    1 <= g <= |w.bucket.log| && w.bucket.log[g - 1].key == k && w.bucket.log[g - 1].after.Some?
  }

  datatype Attempt =
    | Tick(elapsed: nat)
    | Deliver(payload: Payload, receipt: Receipt)
    | Write(key: string, action: Action, version: nat)

  function Step(w: World, a: Attempt): World {
    match a
    case Tick(elapsed) => w.(clock := w.clock + elapsed)
    case Deliver(payload, receipt) =>
      if receipt.receivedAt <= w.clock && w.bucket.Generation(payload.signalId) == 0
      then w.Put(payload.signalId, Some(FromDelivery(payload, receipt)), Receive(payload, receipt))
      else w
    case Write(k, action, version) =>
      if WasStored(w, k, version) && action.DecidedAt() <= w.clock then
        var decision := Apply(action, w.bucket.log[version - 1].after);
        if decision.Ok? && w.bucket.Generation(k) == version then w.Put(k, decision.value, action) else w
      else w
  }

  function Run(w: World, attempts: seq<Attempt>): World {
    Play(Step, w, attempts)
  }

  lemma RunOn(others: nat -> seq<Attempt>, w: World, a: nat, b: nat, c: nat)
    requires a <= b <= c
    ensures Run(Run(w, Between(others, a, b)), Between(others, b, c)) == Run(w, Between(others, a, c))
  {
    PlayOn(Step, others, w, a, b, c);
  }

  lemma QuietRun(others: nat -> seq<Attempt>, w: World, a: nat, b: nat)
    requires Silent(others, a) && a <= b
    ensures Run(w, Between(others, a, b)) == w && Silent(others, b)
  {
    SilentLater(others, a, b);
  }

  lemma NothingRun(others: nat -> seq<Attempt>, w: World, c: nat)
    ensures Run(w, Between(others, c, c)) == w
  {}

  lemma PutKeepsSafe(w: World, k: string, after: Option<Record>, action: Action)
    requires Safe(w) && Legal(Commit(k, action, w.clock, w.bucket.Peek(k), after))
    ensures Safe(w.Put(k, after, action)) && w.Put(k, after, action).Extends(w)
  {
    CompareAndSetKeepsValid(w.bucket, k, w.bucket.Generation(k), after, action, w.clock);
    var log := w.Put(k, after, action).bucket.log;
    assert log[..|log| - 1] == w.bucket.log;
  }

  lemma AbsentMeansZero(w: World, k: string)
    requires Safe(w)
    ensures w.bucket.Generation(k) == 0 <==> w.bucket.Peek(k).None?
  {
    assert w.bucket.Generation(k) == Latest(w.bucket.log, k);
    assert w.bucket.Peek(k) == Content(w.bucket.log, k);
  }

  /** What is stored under `k` is a record of signal `k`. */
  lemma StoredUnderOwnId(w: World, k: string)
    requires Safe(w) && w.bucket.Peek(k).Some?
    ensures w.bucket.Peek(k).value.payload.signalId == k
    ensures WasStored(w, k, w.bucket.Generation(k))
    ensures w.bucket.log[w.bucket.Generation(k) - 1].after == w.bucket.Peek(k)
  {
    assert w.bucket.Generation(k) == Latest(w.bucket.log, k);
    assert w.bucket.Peek(k) == Content(w.bucket.log, k);
    LegalAt(w.bucket.log, w.clock, Latest(w.bucket.log, k) - 1);
  }

  lemma ApplyKeepsIdentity(action: Action, found: Record)
    requires Apply(action, Some(found)).Ok? && Apply(action, Some(found)).value.Some?
    ensures Apply(action, Some(found)).value.value.payload == found.payload
    ensures Apply(action, Some(found)).value.value.receipt == found.receipt
  {}

  lemma CreateKeepsSafe(w: World, payload: Payload, receipt: Receipt)
    requires Safe(w) && receipt.receivedAt <= w.clock && w.bucket.Peek(payload.signalId).None?
    ensures var w' := w.Put(payload.signalId, Some(FromDelivery(payload, receipt)), Receive(payload, receipt));
            Safe(w') && w'.Extends(w)
  {
    PutKeepsSafe(w, payload.signalId, Some(FromDelivery(payload, receipt)), Receive(payload, receipt));
  }

  /** A conditional write decided on an old version lands only on that version, so it is legal. */
  lemma WriteKeepsSafe(w: World, k: string, action: Action, version: nat)
    requires Safe(w) && WasStored(w, k, version) && action.DecidedAt() <= w.clock
    requires w.bucket.Generation(k) == version
    requires Apply(action, w.bucket.log[version - 1].after).Ok?
    ensures w.bucket.Peek(k) == w.bucket.log[version - 1].after
    ensures var w' := w.Put(k, Apply(action, w.bucket.log[version - 1].after).value, action);
            Safe(w') && w'.Extends(w)
  {
    LiveVersionIsWhatWasRead(w.bucket, k, version);
    StoredUnderOwnId(w, k);
    var found := w.bucket.Peek(k).value;
    if Apply(action, Some(found)).value.Some? {
      ApplyKeepsIdentity(action, found);
    }
    PutKeepsSafe(w, k, Apply(action, Some(found)).value, action);
  }

  /** What such a write attempts, in one equation. */
  lemma WriteLands(earlier: World, w: World, k: string, action: Action, version: nat, after: Option<Record>)
    requires Safe(w) && w.Extends(earlier) && WasStored(earlier, k, version) && action.DecidedAt() <= earlier.clock
    requires Apply(action, earlier.bucket.log[version - 1].after) == Ok(after)
    ensures Step(w, Write(k, action, version)) ==
              if w.bucket.Generation(k) == version then w.Put(k, after, action) else w
    ensures w.bucket.Generation(k) == version ==>
              && Apply(action, w.bucket.Peek(k)) == Ok(after)
              && Safe(w.Put(k, after, action)) && w.Put(k, after, action).Extends(w)
  {
    hide Safe, Apply;
    assert w.bucket.log[..|earlier.bucket.log|] == earlier.bucket.log;
    assert WasStored(w, k, version) && w.bucket.log[version - 1] == earlier.bucket.log[version - 1];
    if w.bucket.Generation(k) == version {
      WriteKeepsSafe(w, k, action, version);
    }
  }

  /** A delivery by another client creates the record exactly if there is none. */
  lemma DeliveryLands(w: World, payload: Payload, receipt: Receipt)
    requires Safe(w) && receipt.receivedAt <= w.clock
    ensures Step(w, Deliver(payload, receipt)) ==
              if w.bucket.Peek(payload.signalId).None?
              then w.Put(payload.signalId, Some(FromDelivery(payload, receipt)), Receive(payload, receipt)) else w
  {
    assert w.bucket.Generation(payload.signalId) == Latest(w.bucket.log, payload.signalId);
    assert w.bucket.Peek(payload.signalId) == Content(w.bucket.log, payload.signalId);
  }

  lemma TickKeepsSafe(w: World, elapsed: nat)
    requires Safe(w)
    ensures Safe(w.(clock := w.clock + elapsed)) && w.(clock := w.clock + elapsed).Extends(w)
  {}

  lemma StepKeepsSafe(w: World, a: Attempt)
    requires Safe(w)
    ensures Safe(Step(w, a)) && Step(w, a).Extends(w)
  {
    hide Safe, Apply;
    match a
    case Tick(elapsed) => TickKeepsSafe(w, elapsed);
    case Deliver(payload, receipt) =>
      if receipt.receivedAt <= w.clock && w.bucket.Generation(payload.signalId) == 0 {
        AbsentMeansZero(w, payload.signalId);
        CreateKeepsSafe(w, payload, receipt);
      }
    case Write(k, action, version) =>
      if && WasStored(w, k, version) && action.DecidedAt() <= w.clock && w.bucket.Generation(k) == version
         && Apply(action, w.bucket.log[version - 1].after).Ok? {
        WriteKeepsSafe(w, k, action, version);
      }
  }

  /** Every interleaving of clients keeps every write legal. */
  lemma {:induction false} RunKeepsSafe(w: World, attempts: seq<Attempt>)
    requires Safe(w)
    ensures Safe(Run(w, attempts)) && Run(w, attempts).Extends(w)
  {
    if attempts != [] {
      RunKeepsSafe(w, attempts[..|attempts| - 1]);
      StepKeepsSafe(Run(w, attempts[..|attempts| - 1]), attempts[|attempts| - 1]);
    }
  }

  /** `w` is what the bucket became when `attempts` ran and then `action` replaced record `k`. */
  ghost predicate Committed(
    start: World, attempts: seq<Attempt>, k: string, action: Action, after: Record, w: World)
  {
    var mid := Run(start, attempts);
    Apply(action, mid.bucket.Peek(k)) == Ok(Some(after)) && w == mid.Put(k, Some(after), action)
  }

  datatype Stored = Stored(record: Record, generation: nat)

  /**
    The bucket as one gateway instance sees it. `calls` counts its calls; before
    its n-th call the other clients make the attempts others(n), and a run is
    quiet when there are none left.
  */
  class Backend {
    var world: World
    var calls: nat
    const others: nat -> seq<Attempt>

    constructor (clock: Time, others: nat -> seq<Attempt>)
      ensures world == Empty(clock) && Safe(world)
      ensures calls == 0 && this.others == others
    {
      world, calls, this.others := Empty(clock), 0, others;
    }

    ghost predicate Quiet()
      reads this
    {
      Silent(others, calls)
    }

    /** What others attempted since call `from`. */
    ghost function Since(from: nat): seq<Attempt>
      reads this
    {
      Between(others, from, calls)
    }

    /** The world that others make of `start` before the `n`-th of the calls from `from` on. */
    ghost function Reached(start: World, from: nat, n: nat): World {
      Run(start, Between(others, from, from + n))
    }

    /** The clock as the call numbered `from` finds it. */
    ghost function NextClock(start: World, from: nat): Time {
      Reached(start, from, 1).clock
    }

    /** The bucket is safe and later than `start`, where it was at call `from`. */
    ghost predicate Follows(start: World, from: nat)
      reads this
    {
      Safe(world) && world.Extends(start) && from <= calls
    }

    /** Since then, others did what they do and this client attempted `own`. */
    ghost predicate Did(start: World, from: nat, own: seq<Attempt>)
      reads this
    {
      Played(Step, others, start, from, own, world, calls)
    }

    method Interleave()
      requires Safe(world)
      modifies this
      ensures Follows(old(world), old(calls)) && calls == old(calls) + 1
      ensures world == Run(old(world), Since(old(calls)))
    {
      RunKeepsSafe(world, others(calls));
      BetweenOne(others, calls);
      world, calls := Run(world, others(calls)), calls + 1;
    }

    method Now() returns (now: Time)
      requires Safe(world)
      modifies this
      ensures Follows(old(world), old(calls)) && calls == old(calls) + 1
      ensures world == Run(old(world), Since(old(calls)))
      ensures now == world.clock
    {
      Interleave();
      now := world.clock;
    }

    /** Create with generation 0; false when the signal is already there. */
    method Create(payload: Payload, receipt: Receipt) returns (created: bool)
      requires Safe(world) && receipt.receivedAt <= world.clock
      modifies this
      ensures Follows(old(world), old(calls)) && calls == old(calls) + 1
      ensures var mid := Run(old(world), Since(old(calls)));
              && created == mid.bucket.Peek(payload.signalId).None?
              && world == if created
                          then mid.Put(payload.signalId, Some(FromDelivery(payload, receipt)),
                                       Receive(payload, receipt))
                          else mid
    {
      Interleave();
      created := payload.signalId !in world.bucket.objects;
      if created {
        CreateKeepsSafe(world, payload, receipt);
        world := world.Put(payload.signalId, Some(FromDelivery(payload, receipt)), Receive(payload, receipt));
      }
    }

    method Read(id: string) returns (r: Result<Stored, Error>)
      requires Safe(world)
      modifies this
      ensures Follows(old(world), old(calls)) && calls == old(calls) + 1
      ensures world == Run(old(world), Since(old(calls)))
      ensures match r
              case Ok(s) => IsLive(world, s) && s.record.payload.signalId == id
              case Err(e) => e == NotFound && world.bucket.Peek(id).None?
    {
      Interleave();
      if id in world.bucket.objects {
        StoredUnderOwnId(world, id);
        r := Ok(Stored(world.bucket.objects[id].content, world.bucket.objects[id].generation));
      } else {
        r := Err(NotFound);
      }
    }

    /** Every live object once, in no particular order. */
    method List() returns (items: seq<Stored>)
      requires Safe(world)
      modifies this
      ensures Follows(old(world), old(calls)) && calls == old(calls) + 1
      ensures world == Run(old(world), Since(old(calls)))
      ensures Lists(world, items)
    {
      Interleave();
      items := Enumerate(world);
    }

    /** Replace the version read, for `action`; false when the object has moved on. */
    method Replace(record: Record, generation: nat, action: Action) returns (done: bool)
      requires Safe(world) && WasStored(world, record.payload.signalId, generation)
      requires action.DecidedAt() <= world.clock
      requires Apply(action, world.bucket.log[generation - 1].after) == Ok(Some(record))
      modifies this
      ensures Follows(old(world), old(calls)) && calls == old(calls) + 1
      ensures var id, mid := record.payload.signalId, Run(old(world), Since(old(calls)));
              && done == (mid.bucket.Generation(id) == generation)
              && world == (if done then mid.Put(id, Some(record), action) else mid)
              && world == Step(mid, Write(id, action, generation))
              && (done ==> Apply(action, mid.bucket.Peek(id)) == Ok(Some(record)))
    {
      hide Run, Between, Safe, Apply, Step;
      ghost var start := world;
      Interleave();
      done := world.bucket.Generation(record.payload.signalId) == generation;
      WriteLands(start, world, record.payload.signalId, action, generation, Some(record));
      if done {
        world := world.Put(record.payload.signalId, Some(record), action);
      }
    }

    /** Delete the version read; quietly does nothing when the object has moved on. */
    method Delete(item: Stored, action: Action)
      requires Safe(world) && WasItem(world, item)
      requires action.DecidedAt() <= world.clock && Apply(action, Some(item.record)) == Ok(None)
      modifies this
      ensures Follows(old(world), old(calls)) && calls == old(calls) + 1
      ensures var id, mid := item.record.payload.signalId, Run(old(world), Since(old(calls)));
              && world == (if mid.bucket.Generation(id) == item.generation then mid.Put(id, None, action) else mid)
              && world == Step(mid, Write(id, action, item.generation))
    {
      hide Run, Between, Safe, Apply, Step;
      ghost var start := world;
      Interleave();
      WriteLands(start, world, item.record.payload.signalId, action, item.generation, None);
      if world.bucket.Generation(item.record.payload.signalId) == item.generation {
        world := world.Put(item.record.payload.signalId, None, action);
      }
    }
  }

  /** `item` is a version that somebody may have read. */
  ghost predicate WasItem(w: World, item: Stored) {
    && WasStored(w, item.record.payload.signalId, item.generation)
    && w.bucket.log[item.generation - 1].after == Some(item.record)
  }

  ghost predicate IsLive(w: World, item: Stored) {
    var id := item.record.payload.signalId;
    && id in w.bucket.objects
    && w.bucket.objects[id] == Object(item.record, item.generation)
    && WasItem(w, item)
  }

  /** `items` are the live objects with ids in `ids`, each exactly once. */
  ghost predicate Enumerates(w: World, items: seq<Stored>, ids: set<string>) {
    && (forall i | 0 <= i < |items| :: IsLive(w, items[i]) && items[i].record.payload.signalId in ids)
    && (forall i, j | 0 <= i < j < |items| :: items[i].record.payload.signalId != items[j].record.payload.signalId)
    && (forall k | k in ids :: exists i | 0 <= i < |items| :: items[i].record.payload.signalId == k)
  }

  ghost predicate Lists(w: World, items: seq<Stored>) {
    Enumerates(w, items, w.bucket.objects.Keys)
  }

  lemma EnumerateOneMore(w: World, items: seq<Stored>, ids: set<string>, item: Stored)
    requires Enumerates(w, items, ids) && IsLive(w, item) && item.record.payload.signalId !in ids
    ensures Enumerates(w, items + [item], ids + {item.record.payload.signalId})
  {
    var more := items + [item];
    assert more[|items|] == item;
    forall k | k in ids ensures exists i | 0 <= i < |more| :: more[i].record.payload.signalId == k {
      var i :| 0 <= i < |items| && items[i].record.payload.signalId == k;
      assert more[i] == items[i];
    }
  }

  function Item(w: World, k: string): Stored
    requires k in w.bucket.objects
  {
    Stored(w.bucket.objects[k].content, w.bucket.objects[k].generation)
  }

  lemma ItemIsLive(w: World, k: string)
    requires Safe(w) && k in w.bucket.objects
    ensures IsLive(w, Item(w, k)) && Item(w, k).record.payload.signalId == k
  {
    StoredUnderOwnId(w, k);
  }

  method Enumerate(w: World) returns (items: seq<Stored>)
    requires Safe(w)
    ensures Lists(w, items)
  {
    items := [];
    var rest := w.bucket.objects.Keys;
    ghost var done := {};
    while rest != {}
      invariant rest !! done && rest + done == w.bucket.objects.Keys
      invariant Enumerates(w, items, done)
      decreases rest
    {
      var k :| k in rest;
      var item := Item(w, k);
      ItemIsLive(w, k);
      EnumerateOneMore(w, items, done, item);
      items, rest, done := items + [item], rest - {k}, done + {k};
    }
  }
}
