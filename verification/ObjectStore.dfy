/**
  A Cloud Storage bucket as the gateway uses it: objects stamped with a
  generation, and writes that succeed only when the caller names the live
  generation (0 meaning "no such object").

  The bucket remembers every committed write. The n-th write of the bucket
  stamps generation n, so a generation never repeats, not even after an object
  is deleted and created again.
*/
module ObjectStore {
  import opened Wrappers

  datatype Object<+T> = Object(content: T, generation: nat)

  /** A committed write. `after` is None for a deletion; `at` is the clock when it landed. */
  datatype Commit<+K, +T, +A> = Commit(key: K, action: A, at: int, before: Option<T>, after: Option<T>)

  /** The live generation of `k`, or 0. */
  ghost function Latest<K, T, A>(log: seq<Commit<K, T, A>>, k: K): (g: nat)
    ensures g <= |log|
    ensures g > 0 ==> log[g - 1].key == k && log[g - 1].after.Some?
    ensures g > 0 ==> forall j | g <= j < |log| :: log[j].key != k
  {
    if |log| == 0 then 0
    else
      var last := log[|log| - 1];
      if last.key != k then Latest(log[..|log| - 1], k)
      else if last.after.Some? then |log|
      else 0
  }

  /** What `k` holds after the writes in `log`. */
  ghost function Content<K, T, A>(log: seq<Commit<K, T, A>>, k: K): Option<T> {
    if Latest(log, k) == 0 then None else log[Latest(log, k) - 1].after
  }

  /** How many writes in `log` hit `k`. */
  ghost function Writes<K, T, A>(log: seq<Commit<K, T, A>>, k: K): nat {
    if |log| == 0 then 0
    else Writes(log[..|log| - 1], k) + (if log[|log| - 1].key == k then 1 else 0)
  }

  /** Every write replaced what was live just before it. */
  ghost predicate Chained<K, T, A>(log: seq<Commit<K, T, A>>) {
    |log| == 0 ||
    (var n := |log| - 1; Chained(log[..n]) && log[n].before == Content(log[..n], log[n].key))
  }

  lemma {:induction false} ChainedAt<K, T, A>(log: seq<Commit<K, T, A>>, i: nat)
    requires Chained(log) && i < |log|
    ensures Chained(log[..i]) && log[i].before == Content(log[..i], log[i].key)
  {
    if i < |log| - 1 {
      ChainedAt(log[..|log| - 1], i);
      assert log[..|log| - 1][..i] == log[..i];
    }
  }

  datatype Bucket<K(==,!new), T, A> = Bucket(objects: map<K, Object<T>>, log: seq<Commit<K, T, A>>) {

    /** Objects and log agree, and the log is a chain. */
    ghost predicate Valid() {
      && (forall k :: Generation(k) == Latest(log, k) && Peek(k) == Content(log, k))
      && Chained(log)
    }

    function Generation(k: K): nat {
      if k in objects then objects[k].generation else 0
    }

    function Peek(k: K): Option<T> {
      if k in objects then Some(objects[k].content) else None
    }

    /** Conditional write (`after` is Some) or delete (None); None is a failed precondition. */
    function CompareAndSet(k: K, expected: nat, after: Option<T>, action: A, at: int): Option<Bucket<K, T, A>> {
      if Generation(k) != expected then None
      else
        var log' := log + [Commit(k, action, at, Peek(k), after)];
        Some(Bucket(if after.Some? then objects[k := Object(after.value, |log'|)] else objects - {k}, log'))
    }
  }

  lemma CompareAndSetKeepsValid<K(!new), T, A>(
    b: Bucket<K, T, A>, k: K, expected: nat, after: Option<T>, action: A, at: int)
    requires b.Valid() && b.Generation(k) == expected
    ensures b.CompareAndSet(k, expected, after, action, at).value.Valid()
  {
    var c := b.CompareAndSet(k, expected, after, action, at).value;
    var n := |b.log|;
    assert c.log[..n] == b.log;
    forall j ensures c.Generation(j) == Latest(c.log, j) && c.Peek(j) == Content(c.log, j) {
      if j != k {
        assert c.Generation(j) == b.Generation(j) && c.Peek(j) == b.Peek(j);
        assert Latest(c.log, j) == Latest(b.log, j);
      }
    }
  }

  /**
    Why a conditional write is safe with an old snapshot: version g of `k` is
    what the g-th write stored, so if g is still live the bucket holds exactly
    what was read, whoever read it and however long ago.
  */
  lemma LiveVersionIsWhatWasRead<K(!new), T, A>(b: Bucket<K, T, A>, k: K, g: nat)
    requires b.Valid()
    requires 1 <= g <= |b.log| && b.log[g - 1].key == k && b.log[g - 1].after.Some?
    ensures b.Generation(k) == g ==> b.Peek(k) == b.log[g - 1].after
  {
    assert b.Generation(k) == Latest(b.log, k);
  }

  lemma {:induction false} WritesAddUp<K, T, A>(a: seq<Commit<K, T, A>>, b: seq<Commit<K, T, A>>, k: K)
    ensures Writes(a + b, k) == Writes(a, k) + Writes(b, k)
  {
    if |b| == 0 {
      assert a + b == a;
    } else {
      assert (a + b)[..|a + b| - 1] == a + b[..|b| - 1];
      WritesAddUp(a, b[..|b| - 1], k);
    }
  }

  /** A generation that moved was moved by a write to that very object. */
  lemma {:induction false} MovedMeansWritten<K, T, A>(log: seq<Commit<K, T, A>>, n: nat, k: K)
    requires n <= |log| && Latest(log, k) != Latest(log[..n], k)
    ensures Writes(log[n..], k) >= 1
  {
    assert log[..|log|] == log;
    if n < |log| {
      var m := |log| - 1;
      assert log[n..][..m - n] == log[..m][n..];
      assert log[n..][m - n] == log[m];
      if log[m].key != k {
        assert log[..m][..n] == log[..n];
        MovedMeansWritten(log[..m], n, k);
      }
    }
  }

  /** No ABA: a generation that was live and is not any more never becomes live again. */
  lemma {:induction false} GenerationNeverReturns<K, T, A>(log: seq<Commit<K, T, A>>, k: K, m: nat, n: nat, p: nat)
    requires m <= n <= p <= |log| && Latest(log[..m], k) > 0
    requires Latest(log[..n], k) != Latest(log[..m], k)
    ensures Latest(log[..p], k) != Latest(log[..m], k)
  {
    if n < p {
      GenerationNeverReturns(log, k, m, n, p - 1);
      assert log[..p][..p - 1] == log[..p - 1];
    }
  }
}
