/**
  Placeholders like `{{name}}` (app/docx_production.py, `_PLACEHOLDER`): what
  replacing one can leave behind, and what the check on the file read back sees.
*/
module Placeholders {
  import opened StyledText
  import opened Clearing

  predicate IsBrace(c: char) {
    c == '{' || c == '}'
  }

  predicate IsInner(c: char) {
    !IsBrace(c) && c != '\r' && c != '\n'
  }

  /** Two opening braces, 1 to 100 other characters on one line, two closing braces. */
  predicate IsPlaceholder(p: string) {
    && 5 <= |p| <= 104
    && p[0] == p[1] == '{' && p[|p| - 2] == p[|p| - 1] == '}'
    && forall i | 2 <= i < |p| - 2 :: IsInner(p[i])
  }

  /** A placeholder is a name of 1 to 100 characters, none a brace or a line end, between two braces on each side. */
  lemma PlaceholderAnswer(name: string)
    ensures IsPlaceholder("{{" + name + "}}") <==>
            && 1 <= |name| <= 100
            && forall i | 0 <= i < |name| ::
                 name[i] != '{' && name[i] != '}' && name[i] != '\r' && name[i] != '\n'
  {
    var p := "{{" + name + "}}";
    assert forall i | 0 <= i < |name| :: p[i + 2] == name[i];
    assert forall i | 2 <= i < |p| - 2 :: p[i] == name[i - 2];
  }

  lemma PlaceholderHasAName(p: string)
    requires IsPlaceholder(p)
    ensures p == "{{" + p[2..|p| - 2] + "}}"
  {}

  predicate NoBraces(s: string) {
    forall i | 0 <= i < |s| :: !IsBrace(s[i])
  }

  lemma PlaceholderIsUnbordered(p: string)
    requires IsPlaceholder(p)
    ensures Unbordered(p)
  {
    forall n | 0 < n < |p|
      ensures p[..n] != p[|p| - n..]
    {
      var i := if n == |p| - 1 then 1 else 0;
      assert p[|p| - n + i] != '{';
      assert p[..n][i] != p[|p| - n..][i];
    }
  }

  /** Replacing a placeholder always clears it exactly if the replacement never meets it. */
  lemma PlaceholderClearsIff(p: string, replace: string)
    requires IsPlaceholder(p)
    ensures (forall s :: Lacks(Replaced(s, p, replace, true), p)) <==> NeverMeet(p, replace)
  {
    PlaceholderIsUnbordered(p);
    UnborderedClearsIff(p, replace);
  }

  /** `replace` occurs in `p`, neither at its beginning nor at its end. */
  ghost predicate OccursInside(p: string, replace: string) {
    exists k :: 0 < k && k + |replace| < |p| && OccursAt(p, replace, k)
  }

  lemma MeetsBetweenBraces(p: string, replace: string, d: int)
    requires IsPlaceholder(p) && NoBraces(replace) && Meets(p, replace, d)
    ensures d < 0 && -d + |replace| < |p|
  {
    assert p[0] == '{' && p[|p| - 1] == '}';
  }

  /** A replacement without braces meets a placeholder only by occurring inside it. */
  lemma MeetsInsideOnly(p: string, replace: string)
    requires IsPlaceholder(p) && NoBraces(replace)
    ensures NeverMeet(p, replace) <==> !OccursInside(p, replace)
  {
    forall d | Meets(p, replace, d)
      ensures OccursInside(p, replace)
    {
      MeetsBetweenBraces(p, replace, d);
      assert p[-d..-d + |replace|] == replace;
      assert OccursAt(p, replace, -d);
    }
    if k :| 0 < k && k + |replace| < |p| && OccursAt(p, replace, k) {
      forall i | 0 <= i < |p| && 0 <= i - k < |replace|
        ensures p[i] == replace[i - k]
      {
        assert p[k..k + |replace|][i - k] == p[i];
      }
      assert Meets(p, replace, -k);
    }
  }

  /** So ordinary values clear a placeholder, even if they share characters with it. */
  lemma OrdinaryValueClearsIff(p: string, replace: string)
    requires IsPlaceholder(p) && '{' !in replace && '}' !in replace
    ensures (forall s :: Lacks(Replaced(s, p, replace, true), p)) <==> !OccursInside(p, replace)
  {
    assert NoBraces(replace);
    PlaceholderClearsIff(p, replace);
    MeetsInsideOnly(p, replace);
  }

  /** A value that shares characters clears; one that stands inside the name need not. */
  lemma NamesAndValues()
    ensures IsPlaceholder("{{name}}") && !OccursInside("{{name}}", "Anna") && OccursInside("{{name}}", "am")
  {
    var p := "{{name}}";
    assert forall k | 0 <= k < |p| :: p[k] != 'A';
    forall k | 0 < k && k + 4 < |p|
      ensures !OccursAt(p, "Anna", k)
    {
      assert p[k..k + 4][0] == p[k] && "Anna"[0] == 'A';
    }
    assert p[3..5] == "am" && OccursAt(p, "am", 3);
    assert 0 < 3 && 3 + |"am"| < |p|;
  }

  // ---- what the check on the file read back sees ----

  /** A placeholder of `n` characters stands at `i`. */
  predicate PlaceholderAt(s: string, i: nat, n: nat) {
    i + n <= |s| && IsPlaceholder(s[i..i + n])
  }

  /** The pattern's matches, from the left and without overlaps. */
  ghost function FindAll(s: string, from: nat): set<string>
    decreases |s| - from
  {
    if from >= |s| then {}
    else if exists n: nat :: PlaceholderAt(s, from, n) then
      var n: nat :| PlaceholderAt(s, from, n);
      {s[from..from + n]} + FindAll(s, from + n)
    else FindAll(s, from + 1)
  }

  /** Two placeholders in a text are one and the same, or do not overlap. */
  lemma NoOverlap(s: string, i: nat, n: nat, j: nat, m: nat)
    requires PlaceholderAt(s, i, n) && PlaceholderAt(s, j, m) && i <= j < i + n
    ensures i == j && n == m
  {
    var p, q := s[i..i + n], s[j..j + m];
    assert forall k | 0 <= k < n :: p[k] == s[i + k];
    assert forall k | 0 <= k < m :: q[k] == s[j + k];
    assert IsInner(p[2]) && p[2] == s[i + 2];
    assert q[0] == s[j] == p[j - i] && q[1] == s[j + 1];
    assert j == i;
    SameEnd(p, q);
    SameEnd(q, p);
  }

  lemma SameEnd(p: string, q: string)
    requires IsPlaceholder(p) && IsPlaceholder(q) && forall k | 0 <= k < |p| && k < |q| :: p[k] == q[k]
    ensures |p| >= |q|
  {
    if |p| <= |q| {
      assert q[|p| - 2] == p[|p| - 2];
    }
  }

  /** `p` is a placeholder that stands at `from` or later. */
  ghost predicate StandsFrom(s: string, from: nat, p: string) {
    exists i: nat :: from <= i && PlaceholderAt(s, i, |p|) && s[i..i + |p|] == p
  }

  lemma StandsLater(s: string, from: nat, p: string)
    requires !exists n: nat :: PlaceholderAt(s, from, n)
    ensures StandsFrom(s, from, p) <==> StandsFrom(s, from + 1, p)
  {
    hide IsPlaceholder;
  }

  lemma StandsHereOrLater(s: string, from: nat, n: nat, p: string)
    requires PlaceholderAt(s, from, n)
    ensures n > 0
    ensures StandsFrom(s, from, p) <==> p == s[from..from + n] || StandsFrom(s, from + n, p)
  {
    assert n > 0;
    hide IsPlaceholder;
    if i: nat :| from <= i < from + n && PlaceholderAt(s, i, |p|) && s[i..i + |p|] == p {
      NoOverlap(s, from, n, i, |p|);
    }
    if p == s[from..from + n] {
      assert PlaceholderAt(s, from, |p|);
    }
  }

  /** The scan finds exactly the placeholders that occur. */
  lemma {:induction false} FindAllFinds(s: string, from: nat, p: string)
    ensures p in FindAll(s, from) <==> StandsFrom(s, from, p)
    decreases |s| - from
  {
    hide IsPlaceholder, StandsFrom;
    if from >= |s| {
      NoneStands(s, from, p);
    } else if exists n: nat :: PlaceholderAt(s, from, n) {
      var n: nat :| PlaceholderAt(s, from, n) && FindAll(s, from) == {s[from..from + n]} + FindAll(s, from + n);
      StandsHereOrLater(s, from, n, p);
      FindAllFinds(s, from + n, p);
    } else {
      FindAllFinds(s, from + 1, p);
      StandsLater(s, from, p);
    }
  }

  lemma NoneStands(s: string, from: nat, p: string)
    requires from >= |s|
    ensures !StandsFrom(s, from, p)
  {}

  /** Python's `"\n".join`. */
  function Lines(texts: seq<string>): string {
    if texts == [] then ""
    else if |texts| == 1 then texts[0]
    else Lines(texts[..|texts| - 1]) + "\n" + texts[|texts| - 1]
  }

  lemma NoNewlineInside(s: string, find: string, k: nat, n: nat)
    requires OccursAt(s, find, k) && n < |s| && s[n] == '\n' && '\n' !in find
    ensures k + |find| <= n || n < k
  {
    forall x | k <= x < k + |find|
      ensures s[x] != '\n'
    {
      assert s[x] == s[k..k + |find|][x - k];
    }
  }

  lemma OccursAcrossNewline(a: string, b: string, find: string)
    requires find != "" && '\n' !in find
    ensures Lacks(a + "\n" + b, find) <==> Lacks(a, find) && Lacks(b, find)
  {
    var s := a + "\n" + b;
    forall k: nat | OccursAt(s, find, k)
      ensures OccursAt(a, find, k) || OccursAt(b, find, k - |a| - 1)
    {
      NoNewlineInside(s, find, k, |a|);
      if k + |find| <= |a| {
        assert a[k..k + |find|] == s[k..k + |find|];
      } else {
        assert b[k - |a| - 1..k - |a| - 1 + |find|] == s[k..k + |find|];
      }
    }
    forall k: nat | OccursAt(a, find, k)
      ensures OccursAt(s, find, k)
    {
      assert a[k..k + |find|] == s[k..k + |find|];
    }
    forall k: nat | OccursAt(b, find, k)
      ensures OccursAt(s, find, |a| + 1 + k)
    {
      assert b[k..k + |find|] == s[|a| + 1 + k..|a| + 1 + k + |find|];
    }
  }

  lemma {:induction false} LinesLack(texts: seq<string>, find: string)
    requires find != "" && '\n' !in find
    ensures Lacks(Lines(texts), find) <==> forall i | 0 <= i < |texts| :: Lacks(texts[i], find)
  {
    var n := |texts| - 1;
    if n > 0 {
      LinesLack(texts[..n], find);
      OccursAcrossNewline(Lines(texts[..n]), texts[n], find);
      assert forall i | 0 <= i < n :: texts[..n][i] == texts[i];
    }
  }

  lemma OneLine(p: string)
    requires IsPlaceholder(p)
    ensures p != "" && '\n' !in p
  {
    assert forall i | 0 <= i < |p| :: p[i] != '\n';
  }

  lemma LacksIfItStandsNowhere(s: string, p: string)
    requires IsPlaceholder(p)
    ensures Lacks(s, p) <==> !StandsFrom(s, 0, p)
  {
    hide IsPlaceholder;
    forall i: nat | OccursAt(s, p, i)
      ensures StandsFrom(s, 0, p)
    {
      assert PlaceholderAt(s, i, |p|);
    }
    if StandsFrom(s, 0, p) {
      var i: nat :| PlaceholderAt(s, i, |p|) && s[i..i + |p|] == p;
      assert OccursAt(s, p, i);
    }
  }

  /** The check finds a placeholder exactly if one of the joined texts has it. */
  lemma CheckFindsIff(texts: seq<string>, p: string)
    requires IsPlaceholder(p)
    ensures p !in FindAll(Lines(texts), 0) <==> forall i | 0 <= i < |texts| :: Lacks(texts[i], p)
  {
    hide FindAll, OccursAt, Lines, Lacks, StandsFrom;
    FindAllFinds(Lines(texts), 0, p);
    OneLine(p);
    LacksIfItStandsNowhere(Lines(texts), p);
    LinesLack(texts, p);
  }
}
