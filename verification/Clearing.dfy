/**
  When a replace-all leaves none of the searched text behind
  (app/docx_production.py, `_replace_across_runs`; app/knowledge.py checks it on the file read back).
*/
module Clearing {
  import opened StyledText

  ghost predicate Lacks(s: string, find: string) {
    forall k | 0 <= k <= |s| :: !OccursAt(s, find, k)
  }

  /**
    `find`, begun at place `d` of the replacement or before it, reaches into the
    replacement or past it, and agrees with it wherever both have a character.
  */
  predicate Meets(find: string, replace: string, d: int) {
    && -|find| < d < |replace|
    && forall i | 0 <= i < |find| && 0 <= i + d < |replace| :: find[i] == replace[i + d]
  }

  /** After its own first `k` characters `find` is not matched any earlier. */
  ghost predicate Clean(find: string, k: nat)
    requires k <= |find|
  {
    Find(find[..k] + find, find, 0) == k
  }

  /** The replacement can complete `find` with what is left of it around a match. */
  ghost predicate Restores(find: string, replace: string, d: int) {
    Meets(find, replace, d) && (d < 0 ==> Clean(find, -d))
  }

  ghost predicate NeverRestores(find: string, replace: string) {
    forall d :: !Restores(find, replace, d)
  }

  ghost predicate NeverMeet(find: string, replace: string) {
    forall d :: !Meets(find, replace, d)
  }

  predicate ShareNothing(a: string, b: string) {
    forall i, j | 0 <= i < |a| && 0 <= j < |b| :: a[i] != b[j]
  }

  lemma LacksIsNotFound(s: string, find: string)
    ensures Lacks(s, find) <==> Find(s, find, 0) < 0
  {
    forall k: nat | k <= |s| && OccursAt(s, find, k)
      ensures Find(s, find, 0) >= 0
    {
      FindIsLeftmost(s, find, 0, k);
    }
  }

  lemma SliceOfPrefix(s: string, i: nat, k: nat, m: nat)
    requires k <= m <= i <= |s|
    ensures s[..i][k..m] == s[k..m]
  {}

  lemma NoneBefore(s: string, find: string, i: nat)
    requires i == Find(s, find, 0) && find != ""
    ensures Lacks(s[..i], find)
  {
    forall k: nat | k <= i
      ensures !OccursAt(s[..i], find, k)
    {
      if OccursAt(s[..i], find, k) {
        SliceOfPrefix(s, i, k, k + |find|);
        FindIsLeftmost(s, find, 0, k);
      }
    }
  }

  /** What stands before a match, followed by `find`, has its first match there, too. */
  lemma CleanBefore(s: string, find: string, i: nat)
    requires i == Find(s, find, 0)
    ensures Find(s[..i] + find, find, 0) == i
  {
    FindOccurs(s, find, 0);
    var m := i + |find|;
    assert s[..m] == s[..i] + find;
    forall k: nat | k <= i && OccursAt(s[..m], find, k)
      ensures k == i
    {
      SliceOfPrefix(s, m, k, k + |find|);
      FindIsLeftmost(s, find, 0, k);
    }
    assert OccursAt(s[..m], find, i);
    FindIsFirst(s[..m], find, 0, i);
  }

  /** The same for every end of it. */
  lemma SuffixIsClean(a: string, find: string, k: nat)
    requires Find(a + find, find, 0) == |a| && k <= |a|
    ensures Find(a[k..] + find, find, 0) == |a| - k
  {
    var x := a[k..];
    assert a + find == a[..k] + (x + find);
    forall p: nat | OccursAt(x + find, find, p)
      ensures p >= |x|
    {
      OccursInTail(a[..k], x + find, find, p);
      FindIsLeftmost(a + find, find, 0, k + p);
    }
    assert OccursAt(x + find, find, |x|);
    FindIsFirst(x + find, find, 0, |x|);
  }

  /** An occurrence that reaches into the replacement, or spans it, begins at a place that restores. */
  lemma TouchingRestores(a: string, r: string, b: string, find: string, k: nat)
    requires Find(a + find, find, 0) == |a| && OccursAt(a + r + b, find, k)
    requires k < |a| + |r| && k + |find| > |a|
    ensures Restores(find, r, k - |a|)
  {
    var s, d := a + r + b, k - |a|;
    assert forall i | 0 <= i < |find| :: find[i] == s[k..k + |find|][i] == s[k + i];
    assert forall i | 0 <= i < |r| :: s[|a| + i] == r[i];
    if d < 0 {
      assert a[k..] == find[..-d];
      SuffixIsClean(a, find, k);
    }
  }

  lemma OccursOnOneSide(a: string, r: string, b: string, find: string, k: nat)
    requires Find(a + find, find, 0) == |a| && NeverRestores(find, r) && OccursAt(a + r + b, find, k)
    ensures OccursAt(a, find, k) || (k >= |a| + |r| && OccursAt(b, find, k - |a| - |r|))
  {
    var s := a + r + b;
    if k + |find| <= |a| {
      assert a[k..k + |find|] == s[k..k + |find|];
    } else if k >= |a| + |r| {
      assert b[k - |a| - |r|..k - |a| - |r| + |find|] == s[k..k + |find|];
    } else {
      TouchingRestores(a, r, b, find, k);
    }
  }

  lemma LacksInThree(a: string, r: string, b: string, find: string)
    requires Find(a + find, find, 0) == |a| && NeverRestores(find, r) && Lacks(a, find) && Lacks(b, find)
    ensures Lacks(a + r + b, find)
  {
    forall k: nat | k <= |a + r + b|
      ensures !OccursAt(a + r + b, find, k)
    {
      if OccursAt(a + r + b, find, k) {
        OccursOnOneSide(a, r, b, find, k);
      }
    }
  }

  /** With a replacement that never restores it, the searched text is gone after a replace-all. */
  lemma {:induction false} ReplacedLacks(s: string, find: string, replace: string)
    requires find != "" && NeverRestores(find, replace)
    ensures Lacks(Replaced(s, find, replace, true), find)
    decreases |s|
  {
    hide NeverRestores;
    var i := Find(s, find, 0);
    LacksIsNotFound(s, find);
    if i >= 0 {
      var rest := s[i + |find|..];
      ReplacedLacks(rest, find, replace);
      NoneBefore(s, find, i);
      CleanBefore(s, find, i);
      LacksInThree(s[..i], replace, Replaced(rest, find, replace, true), find);
    }
  }

  /** What of `find` stands before and after the replacement that restores it. */
  ghost function Front(find: string, d: int): string
    requires -|find| < d
  {
    if d < 0 then find[..-d] else ""
  }

  ghost function Back(find: string, replace: string, d: int): string
    requires -|find| < d < |replace|
  {
    if |replace| - d < |find| then find[|replace| - d..] else ""
  }

  /** In this text, replacing the one match makes another. */
  ghost function Snare(find: string, replace: string, d: int): string
    requires -|find| < d < |replace|
  {
    Front(find, d) + find + Back(find, replace, d)
  }

  lemma FindInSnare(x: string, find: string, y: string)
    requires find != "" && Find(x + find, find, 0) == |x|
    ensures Find(x + find + y, find, 0) == |x|
  {
    var s, m := x + find + y, |x| + |find|;
    assert s[..m] == x + find;
    forall j: nat | j < |x|
      ensures !OccursAt(s, find, j)
    {
      if OccursAt(s, find, j) {
        SliceOfPrefix(s, m, j, j + |find|);
        FindIsLeftmost(x + find, find, 0, j);
      }
    }
    assert OccursAt(s, find, |x|);
    FindIsFirst(s, find, 0, |x|);
  }

  lemma SnareReplaced(find: string, replace: string, d: int)
    requires find != "" && Restores(find, replace, d)
    ensures Replaced(Snare(find, replace, d), find, replace, true) == Front(find, d) + replace + Back(find, replace, d)
  {
    var x, y := Front(find, d), Back(find, replace, d);
    var s := x + find + y;
    if d >= 0 {
      assert x + find == find && OccursAt(find, find, 0);
      FindIsFirst(find, find, 0, 0);
    }
    FindInSnare(x, find, y);
    assert s[|x| + |find|..] == y && s[..|x|] == x;
    assert Find(y, find, 0) == -1;
    FirstPlainReplacement(s, |x|, find, replace, true);
  }

  lemma MeetingOccurs(find: string, replace: string, d: int)
    requires Meets(find, replace, d)
    ensures OccursAt(Front(find, d) + replace + Back(find, replace, d), find, |Front(find, d)| + d)
  {
    var x, y := Front(find, d), Back(find, replace, d);
    var s, k := x + replace + y, |x| + d;
    forall i | 0 <= i < |find|
      ensures s[k + i] == find[i]
    {
      if i + d < 0 {
        assert s[k + i] == x[i];
      } else if i + d < |replace| {
        assert s[k + i] == replace[i + d];
      } else {
        assert s[k + i] == y[i + d - |replace|];
      }
    }
    assert s[k..k + |find|] == find;
  }

  lemma SnareCatches(find: string, replace: string, d: int)
    requires find != "" && Restores(find, replace, d)
    ensures !Lacks(Replaced(Snare(find, replace, d), find, replace, true), find)
  {
    hide Replaced, Find, Clean, Meets;
    SnareReplaced(find, replace, d);
    MeetingOccurs(find, replace, d);
  }

  /** Exactly, for every text searched for and every replacement. */
  lemma ClearsIff(find: string, replace: string)
    requires find != ""
    ensures (forall s :: Lacks(Replaced(s, find, replace, true), find)) <==> NeverRestores(find, replace)
  {
    if NeverRestores(find, replace) {
      forall s
        ensures Lacks(Replaced(s, find, replace, true), find)
      {
        ReplacedLacks(s, find, replace);
      }
    } else {
      var d :| Restores(find, replace, d);
      SnareCatches(find, replace, d);
    }
  }

  /** No proper beginning of `find` is also its end. */
  ghost predicate Unbordered(find: string) {
    forall n | 0 < n < |find| :: find[..n] != find[|find| - n..]
  }

  lemma UnborderedIsClean(find: string, k: nat)
    requires Unbordered(find) && k < |find|
    ensures Clean(find, k)
  {
    var s := find[..k] + find;
    forall p: nat | p < k
      ensures !OccursAt(s, find, p)
    {
      var n := |find| - (k - p);
      assert s[p..p + |find|][|find| - n..] == s[k..k + n] == find[..n];
    }
    assert OccursAt(s, find, k);
    FindIsFirst(s, find, 0, k);
  }

  /** For such a text the overlaps alone decide. */
  lemma UnborderedClearsIff(find: string, replace: string)
    requires find != "" && Unbordered(find)
    ensures (forall s :: Lacks(Replaced(s, find, replace, true), find)) <==> NeverMeet(find, replace)
  {
    ClearsIff(find, replace);
    forall d | Meets(find, replace, d)
      ensures Restores(find, replace, d)
    {
      if d < 0 {
        UnborderedIsClean(find, -d);
      }
    }
  }

  /** A non-empty replacement without a character of `find` never meets it. */
  lemma SharingNothingNeverMeets(find: string, replace: string)
    requires find != "" && replace != "" && ShareNothing(find, replace)
    ensures NeverMeet(find, replace) && NeverRestores(find, replace)
  {
    forall d
      ensures !Meets(find, replace, d)
    {
      if -|find| < d < |replace| {
        var i := if d < 0 then -d else 0;
        assert find[i] != replace[i + d];
      }
    }
  }

  /** With an empty replacement, what was around a match can meet and match. */
  lemma RemovalCanLeaveAMatch()
    ensures ShareNothing("ab", "") && Replaced("aabb", "ab", "", true) == "ab"
  {
    var s := "aabb";
    assert s[0..2] == "aa" && s[1..3] == "ab" && s[..1] == "a" && s[3..] == "b";
    FindIsFirst(s, "ab", 0, 1);
    assert Find("b", "ab", 0) == -1;
    assert Replaced("b", "ab", "", true) == "b";
  }

  /** A replacement that shares a character can complete a match with what is around it. */
  lemma SharingCanLeaveAMatch()
    ensures Replaced("abb", "ab", "a", true) == "ab"
  {
    var s := "abb";
    assert s[0..2] == "ab" && s[2..] == "b";
    FindIsFirst(s, "ab", 0, 0);
    assert Find("b", "ab", 0) == -1;
    assert Replaced("b", "ab", "a", true) == "b";
  }
}
