/**
  Pending OAuth authorizations: created once, consumed at most once
  (app/adapters/hubspot/token_store.py, `create_pending` and `consume_pending`).
*/
module OAuthPending {
  import opened Wrappers
  import opened ObjectStore
  import opened Schedules

  /** The digest of a state parameter names its object. */
  type Digest = string

  datatype Pending = Pending(digest: Digest, verifier: string, expiresAt: int)

  datatype Action = Create | Consume

  datatype Error = StateConflict | StateInvalid | StateExpired

  type Log = seq<Commit<Digest, Pending, Action>>

  type World = Bucket<Digest, Pending, Action>

  /** Creations find nothing and consumptions leave nothing. */
  ghost predicate Legal(log: Log) {
    forall n | 0 <= n < |log| :: IsLegal(log[n])
  }

  ghost predicate IsLegal(c: Commit<Digest, Pending, Action>) {
    match c.action
    case Create => c.before.None? && c.after.Some?
    case Consume => c.before.Some? && c.after.None?
  }

  ghost predicate Safe(w: World) {
    w.Valid() && Legal(w.log)
  }

  /** What another client does: create, or delete the version it read, however long ago. */
  datatype Attempt = TryCreate(name: Digest, pending: Pending) | TryConsume(name: Digest, version: nat)

  function Step(w: World, a: Attempt): World {
    match a
    case TryCreate(name, pending) =>
      w.CompareAndSet(name, 0, Some(pending), Create, 0).UnwrapOr(w)
    case TryConsume(name, version) =>
      if version == 0 then w else w.CompareAndSet(name, version, None, Consume, 0).UnwrapOr(w)
  }

  function Run(w: World, attempts: seq<Attempt>): World {
    Play(Step, w, attempts)
  }

  lemma StepKeepsSafe(w: World, a: Attempt)
    requires Safe(w)
    ensures Safe(Step(w, a)) && w.log <= Step(w, a).log
  {
    match a
    case TryCreate(name, pending) =>
      if w.Generation(name) == 0 {
        CompareAndSetKeepsValid(w, name, 0, Some(pending), Create, 0);
        NothingLive(w, name);
      }
    case TryConsume(name, version) =>
      if version > 0 && w.Generation(name) == version {
        CompareAndSetKeepsValid(w, name, version, None, Consume, 0);
        SomethingLive(w, name);
      }
  }

  lemma NothingLive(w: World, name: Digest)
    requires w.Valid() && w.Generation(name) == 0
    ensures w.Peek(name).None?
  {
    assert w.Peek(name) == Content(w.log, name) && w.Generation(name) == Latest(w.log, name);
  }

  lemma SomethingLive(w: World, name: Digest)
    requires w.Valid() && w.Generation(name) > 0
    ensures w.Peek(name).Some?
  {
    assert w.Peek(name) == Content(w.log, name) && w.Generation(name) == Latest(w.log, name);
  }

  lemma {:induction false} RunKeepsSafe(w: World, attempts: seq<Attempt>)
    requires Safe(w)
    ensures Safe(Run(w, attempts)) && w.log <= Run(w, attempts).log
  {
    if attempts != [] {
      RunKeepsSafe(w, attempts[..|attempts| - 1]);
      StepKeepsSafe(Run(w, attempts[..|attempts| - 1]), attempts[|attempts| - 1]);
    }
  }

  /** A consumption takes what the last creation stored. */
  lemma ConsumesACreation(w: World, n: nat) returns (created: nat)
    requires Safe(w) && n < |w.log| && w.log[n].action.Consume?
    ensures created < n && w.log[created].action.Create? && w.log[created].key == w.log[n].key
    ensures w.log[created].after == w.log[n].before && created + 1 == Latest(w.log[..n], w.log[n].key)
  {
    ChainedAt(w.log, n);
    var k := w.log[n].key;
    assert w.log[n].before == Content(w.log[..n], k);
    created := Latest(w.log[..n], k) - 1;
    assert w.log[..n][created] == w.log[created];
  }

  /** No authorization is consumed twice: different consumptions of a state take different creations. */
  lemma ConsumedOnce(w: World, m: nat, n: nat)
    requires Safe(w) && m < n < |w.log| && w.log[m].action.Consume? && w.log[n].action.Consume?
    requires w.log[m].key == w.log[n].key
    ensures Latest(w.log[..m], w.log[m].key) != Latest(w.log[..n], w.log[n].key)
    ensures Latest(w.log[..n], w.log[n].key) > m + 1
  {
    var created := ConsumesACreation(w, n);
    assert w.log[..n][m] == w.log[m];
  }

  class PendingStore {
    var world: World
    /** How many calls reached the bucket, and what others attempt before each. */
    var calls: nat
    const others: nat -> seq<Attempt>
    const digestOf: string -> Digest

    constructor (others: nat -> seq<Attempt>, digestOf: string -> Digest)
      ensures Safe(world) && world.log == [] && calls == 0 && this.others == others && this.digestOf == digestOf
    {
      world, calls := Bucket(map[], []), 0;
      this.others, this.digestOf := others, digestOf;
    }

    method Interleave()
      requires Safe(world)
      modifies this
      ensures Safe(world) && old(world).log <= world.log && calls == old(calls) + 1
      ensures world == Run(old(world), others(old(calls)))
    {
      RunKeepsSafe(world, others(calls));
      world, calls := Run(world, others(calls)), calls + 1;
    }

    /** Refused if the state is in use, else stored. */
    method CreatePending(state: string, pending: Pending) returns (refused: Option<Error>)
      requires Safe(world)
      modifies this
      ensures Safe(world) && calls == old(calls) + 1
      ensures var live := Run(old(world), others(old(calls)));
              && refused == (if live.Generation(digestOf(state)) == 0 then None else Some(StateConflict))
              && world == Step(live, TryCreate(digestOf(state), pending))
    {
      Interleave();
      StepKeepsSafe(world, TryCreate(digestOf(state), pending));
      var next := world.CompareAndSet(digestOf(state), 0, Some(pending), Create, 0);
      if next.None? {
        return Some(StateConflict);
      }
      world, refused := next.value, None;
    }

    /**
      Read, check, and delete the version that was read. Success means that this
      very call consumed the authorization it returns, in time; an expired one is
      used up all the same. `now` is the clock after the deletion.
    */
    method ConsumePending(state: string, now: int) returns (r: Result<Pending, Error>)
      requires Safe(world)
      modifies this
      ensures Safe(world) && old(world).log <= world.log
      ensures var name, read := digestOf(state), Run(old(world), others(old(calls)));
              ConsumeOutcome(read, others(old(calls) + 1), name, now, r, world)
    {
      var name := digestOf(state);
      Interleave();
      var content, generation := world.Peek(name), world.Generation(name);
      if content.None? || content.value.digest != name {
        return Err(StateInvalid);
      }
      ghost var seen := world;
      Interleave();
      var next := world.CompareAndSet(name, generation, None, Consume, 0);
      if next.None? {
        return Err(StateInvalid);
      }
      StepKeepsSafe(world, TryConsume(name, generation));
      StillWhatWasRead(seen, world, name);
      world := next.value;
      r := if content.value.expiresAt <= now then Err(StateExpired) else Ok(content.value);
    }
  }

  /** What a consumption does with what it read, after others did `foreign`. */
  ghost predicate ConsumeOutcome(
    read: World, foreign: seq<Attempt>, name: Digest, now: int, r: Result<Pending, Error>, end: World)
  {
    var live, found := Run(read, foreign), read.Peek(name);
    if found.None? || found.value.digest != name then r == Err(StateInvalid) && end == read
    else if live.Generation(name) != read.Generation(name) then r == Err(StateInvalid) && end == live
    else && end == Step(live, TryConsume(name, read.Generation(name)))
         && ConsumedLast(live, end, name, found.value)
         && r == if found.value.expiresAt <= now then Err(StateExpired) else Ok(found.value)
  }

  /** The last write took the authorization away. */
  ghost predicate ConsumedLast(live: World, w: World, name: Digest, pending: Pending) {
    && |w.log| == |live.log| + 1
    && var last := w.log[|live.log|];
       last.key == name && last.action == Consume && last.before == Some(pending) && last.after.None?
  }

  /** If the generation read is still live, so is the content read. */
  lemma StillWhatWasRead(seen: World, now: World, name: Digest)
    requires Safe(seen) && Safe(now) && seen.log <= now.log
    requires seen.Peek(name).Some? && now.Generation(name) == seen.Generation(name)
    ensures seen.Generation(name) > 0 && now.Peek(name) == seen.Peek(name)
  {
    assert seen.Generation(name) == Latest(seen.log, name) && seen.Peek(name) == Content(seen.log, name);
    assert now.Generation(name) == Latest(now.log, name) && now.Peek(name) == Content(now.log, name);
  }
}
