/**
  Other clients. `others(n)` are the attempts that land just before a client's
  n-th call to the provider, so a client's view of the world is fixed by how
  many calls it has made. Any such function is an interleaving.
*/
module Schedules {

  /** What others attempt before the calls from..to - 1. */
  ghost function Between<A>(others: nat -> seq<A>, from: nat, to: nat): seq<A>
    decreases to
  {
    if to <= from then [] else Between(others, from, to - 1) + others(to - 1)
  }

  lemma {:induction false} BetweenJoins<A>(others: nat -> seq<A>, a: nat, b: nat, c: nat)
    requires a <= b <= c
    ensures Between(others, a, b) + Between(others, b, c) == Between(others, a, c)
    decreases c
  {
    if b < c {
      BetweenJoins(others, a, b, c - 1);
    }
  }

  lemma BetweenOne<A>(others: nat -> seq<A>, n: nat)
    ensures Between(others, n, n + 1) == others(n)
  {
    assert Between(others, n, n) == [];
  }

  /** Nobody else is there from call `from` on. */
  ghost predicate Silent<A>(others: nat -> seq<A>, from: nat) {
    forall n: nat | n >= from :: others(n) == []
  }

  lemma {:induction false} SilentBetween<A>(others: nat -> seq<A>, from: nat, a: nat, b: nat)
    requires Silent(others, from) && from <= a
    ensures Between(others, a, b) == []
    decreases b
  {
    if a < b {
      SilentBetween(others, from, a, b - 1);
    }
  }

  /** The world after these attempts, one after another. */
  function Play<W, A>(step: (W, A) -> W, w: W, attempts: seq<A>): W {
    if attempts == [] then w
    else step(Play(step, w, attempts[..|attempts| - 1]), attempts[|attempts| - 1])
  }

  lemma {:induction false} PlayInTwo<W, A>(step: (W, A) -> W, w: W, a: seq<A>, b: seq<A>)
    ensures Play(step, Play(step, w, a), b) == Play(step, w, a + b)
    decreases |b|
  {
    if b == [] {
      assert a + b == a;
    } else {
      assert (a + b)[..|a + b| - 1] == a + b[..|b| - 1];
      PlayInTwo(step, w, a, b[..|b| - 1]);
    }
  }

  lemma SilentLater<A>(others: nat -> seq<A>, from: nat, to: nat)
    requires Silent(others, from) && from <= to
    ensures Silent(others, to) && Between(others, from, to) == []
  {
    SilentBetween(others, from, from, to);
  }

  lemma PlayOn<W, A>(step: (W, A) -> W, others: nat -> seq<A>, w: W, a: nat, b: nat, c: nat)
    requires a <= b <= c
    ensures Play(step, Play(step, w, Between(others, a, b)), Between(others, b, c)) ==
              Play(step, w, Between(others, a, c))
  {
    BetweenJoins(others, a, b, c);
    PlayInTwo(step, w, Between(others, a, b), Between(others, b, c));
  }

  /** `trace` is `foreign` and `own`, each in its order. */
  ghost predicate Woven<A>(trace: seq<A>, foreign: seq<A>, own: seq<A>) {
    if trace == [] then foreign == [] && own == []
    else
      var n := |trace| - 1;
      || (foreign != [] && foreign[|foreign| - 1] == trace[n] && Woven(trace[..n], foreign[..|foreign| - 1], own))
      || (own != [] && own[|own| - 1] == trace[n] && Woven(trace[..n], foreign, own[..|own| - 1]))
  }

  lemma {:induction false} WovenOfForeign<A>(foreign: seq<A>)
    ensures Woven(foreign, foreign, [])
  {
    if foreign != [] {
      WovenOfForeign(foreign[..|foreign| - 1]);
    }
  }

  /** With nobody else, the trace is our own attempts. */
  lemma {:induction false} NothingForeign<A>(trace: seq<A>, own: seq<A>)
    requires Woven(trace, [], own)
    ensures trace == own
  {
    if trace != [] {
      var n := |trace| - 1;
      NothingForeign(trace[..n], own[..|own| - 1]);
      assert trace == trace[..n] + [trace[n]] && own == own[..|own| - 1] + [trace[n]];
    }
  }

  /** With no attempt of our own, the trace is what others did. */
  lemma {:induction false} NothingOwn<A>(trace: seq<A>, foreign: seq<A>)
    requires Woven(trace, foreign, [])
    ensures trace == foreign
  {
    if trace != [] {
      var n := |trace| - 1;
      NothingOwn(trace[..n], foreign[..|foreign| - 1]);
      assert trace == trace[..n] + [trace[n]] && foreign == foreign[..|foreign| - 1] + [trace[n]];
    }
  }

  lemma {:induction false} WovenJoins<A>(a: seq<A>, f: seq<A>, o: seq<A>, b: seq<A>, g: seq<A>, p: seq<A>)
    requires Woven(a, f, o) && Woven(b, g, p)
    ensures Woven(a + b, f + g, o + p)
    decreases |b|
  {
    if b == [] {
      assert a + b == a && f + g == f && o + p == o;
    } else {
      var n := |b| - 1;
      assert (a + b)[..|a + b| - 1] == a + b[..n] && (a + b)[|a + b| - 1] == b[n];
      if g != [] && g[|g| - 1] == b[n] && Woven(b[..n], g[..|g| - 1], p) {
        WovenJoins(a, f, o, b[..n], g[..|g| - 1], p);
        assert (f + g)[..|f + g| - 1] == f + g[..|g| - 1] && (f + g)[|f + g| - 1] == g[|g| - 1];
      } else {
        WovenJoins(a, f, o, b[..n], g, p[..|p| - 1]);
        assert (o + p)[..|o + p| - 1] == o + p[..|p| - 1] && (o + p)[|o + p| - 1] == p[|p| - 1];
      }
    }
  }

  /**
    How a client took the world from `start` to `end` with the calls from..to - 1:
    others did what the schedule says, the client itself attempted `own`.
  */
  ghost predicate Played<W(!new), A(!new)>(
    step: (W, A) -> W, others: nat -> seq<A>, start: W, from: nat, own: seq<A>, end: W, to: nat)
  {
    from <= to && exists trace :: Woven(trace, Between(others, from, to), own) && end == Play(step, start, trace)
  }

  /** Only others did something. */
  lemma PlayedByOthers<W(!new), A(!new)>(
    step: (W, A) -> W, others: nat -> seq<A>, start: W, from: nat, end: W, to: nat)
    requires from <= to
    ensures Played(step, others, start, from, [], end, to) <==> end == Play(step, start, Between(others, from, to))
  {
    WovenOfForeign(Between(others, from, to));
    if Played(step, others, start, from, [], end, to) {
      var trace :| Woven(trace, Between(others, from, to), []) && end == Play(step, start, trace);
      NothingOwn(trace, Between(others, from, to));
    }
  }

  lemma PlayedNothing<W(!new), A(!new)>(step: (W, A) -> W, others: nat -> seq<A>, start: W, from: nat)
    ensures Played(step, others, start, from, [], start, from)
  {
    PlayedByOthers(step, others, start, from, start, from);
  }

  /** Others did something, and then the client made one attempt. */
  lemma PlayedThenOwn<W(!new), A(!new)>(
    step: (W, A) -> W, others: nat -> seq<A>, start: W, from: nat, own: A, to: nat)
    requires from <= to
    ensures Played(step, others, start, from, [own], step(Play(step, start, Between(others, from, to)), own), to)
  {
    var foreign := Between(others, from, to);
    var trace := foreign + [own];
    WovenOfForeign(foreign);
    assert trace[..|foreign|] == foreign && [own][..0] == [];
    assert Woven(trace, foreign, [own]);
  }

  lemma PlayedOn<W(!new), A(!new)>(
    step: (W, A) -> W, others: nat -> seq<A>, a: W, i: nat, own: seq<A>, b: W, j: nat, more: seq<A>, c: W, k: nat)
    requires Played(step, others, a, i, own, b, j) && Played(step, others, b, j, more, c, k)
    ensures Played(step, others, a, i, own + more, c, k)
  {
    var s :| Woven(s, Between(others, i, j), own) && b == Play(step, a, s);
    var t :| Woven(t, Between(others, j, k), more) && c == Play(step, b, t);
    BetweenJoins(others, i, j, k);
    WovenJoins(s, Between(others, i, j), own, t, Between(others, j, k), more);
    PlayInTwo(step, a, s, t);
  }

  /** First others alone, then `own`. */
  lemma PlayedAfter<W(!new), A(!new)>(
    step: (W, A) -> W, others: nat -> seq<A>, a: W, i: nat, b: W, j: nat, own: seq<A>, c: W, k: nat)
    requires i <= j && b == Play(step, a, Between(others, i, j)) && Played(step, others, b, j, own, c, k)
    ensures Played(step, others, a, i, own, c, k)
  {
    PlayedByOthers(step, others, a, i, b, j);
    PlayedOn(step, others, a, i, [], b, j, own, c, k);
    assert [] + own == own;
  }

  /** First `own`, then others alone. */
  lemma PlayedBefore<W(!new), A(!new)>(
    step: (W, A) -> W, others: nat -> seq<A>, a: W, i: nat, own: seq<A>, b: W, j: nat, c: W, k: nat)
    requires Played(step, others, a, i, own, b, j) && j <= k && c == Play(step, b, Between(others, j, k))
    ensures Played(step, others, a, i, own, c, k)
  {
    PlayedByOthers(step, others, b, j, c, k);
    PlayedOn(step, others, a, i, own, b, j, [], c, k);
    assert own + [] == own;
  }

  lemma PlayedAlone<W(!new), A(!new)>(
    step: (W, A) -> W, others: nat -> seq<A>, start: W, from: nat, own: seq<A>, end: W, to: nat)
    requires Silent(others, from) && Played(step, others, start, from, own, end, to)
    ensures end == Play(step, start, own)
  {
    var trace :| Woven(trace, Between(others, from, to), own) && end == Play(step, start, trace);
    SilentBetween(others, from, from, to);
    NothingForeign(trace, own);
  }
}
