/**
  A paragraph as the reader sees it and as Word stores it: characters, each
  belonging to one of the runs (the w:t elements of section 17.3.3.31 of
  ECMA-376 Part 1). Plain and styled replacement are defined here; the in-place
  algorithm is in RunText.
*/
module StyledText {

  /** A character and the run that carries it. */
  datatype Styled = Styled(c: char, run: nat)

  function Tag(s: string, run: nat): (t: seq<Styled>)
    ensures |t| == |s|
  {
    if s == "" then [] else Tag(s[..|s| - 1], run) + [Styled(s[|s| - 1], run)]
  }

  function Chars(t: seq<Styled>): (s: string)
    ensures |s| == |t|
  {
    if t == [] then "" else Chars(t[..|t| - 1]) + [t[|t| - 1].c]
  }

  lemma {:induction false} TagAt(s: string, run: nat, i: nat)
    requires i < |s|
    ensures Tag(s, run)[i] == Styled(s[i], run)
  {
    if i < |s| - 1 {
      TagAt(s[..|s| - 1], run, i);
    }
  }

  lemma {:induction false} TagOfConcat(a: string, b: string, run: nat)
    ensures Tag(a + b, run) == Tag(a, run) + Tag(b, run)
    decreases |b|
  {
    if b == "" {
      assert a + b == a;
    } else {
      TagOfConcat(a, b[..|b| - 1], run);
      assert (a + b)[..|a + b| - 1] == a + b[..|b| - 1];
    }
  }

  /** The characters of runs lo..hi, in order. */
  ghost function Span(texts: seq<string>, lo: nat, hi: nat): seq<Styled>
    requires lo <= hi <= |texts|
    decreases hi
  {
    if lo == hi then [] else Span(texts, lo, hi - 1) + Tag(texts[hi - 1], hi - 1)
  }

  ghost function Paragraph(texts: seq<string>): seq<Styled> {
    Span(texts, 0, |texts|)
  }

  /** Where run `i` begins in the visible text. */
  function Left(texts: seq<string>, i: nat): nat
    requires i <= |texts|
  {
    if i == 0 then 0 else Left(texts, i - 1) + |texts[i - 1]|
  }

  predicate OccursAt(s: string, find: string, i: int) {
    0 <= i <= |s| - |find| && s[i..i + |find|] == find
  }

  /** The first occurrence at `from` or later. */
  ghost predicate FirstAt(s: string, find: string, from: nat, i: nat) {
    from <= i && OccursAt(s, find, i) && forall j | from <= j < i :: !OccursAt(s, find, j)
  }

  /** Python's `s.find(find, from)`: where the first occurrence is, or -1. */
  ghost function Find(s: string, find: string, from: nat): (r: int)
    ensures r == -1 || from <= r <= |s| - |find|
  {
    if exists i: nat :: FirstAt(s, find, from, i) then var i: nat :| FirstAt(s, find, from, i); i else -1
  }

  lemma {:induction false} OccurrenceHasFirst(s: string, find: string, from: nat, i: nat)
    requires from <= i && OccursAt(s, find, i)
    ensures exists k: nat :: FirstAt(s, find, from, k) && k <= i
  {
    if j: nat :| from <= j < i && OccursAt(s, find, j) {
      OccurrenceHasFirst(s, find, from, j);
    } else {
      assert FirstAt(s, find, from, i);
    }
  }

  lemma FindOccurs(s: string, find: string, from: nat)
    requires Find(s, find, from) >= 0
    ensures OccursAt(s, find, Find(s, find, from))
  {}

  lemma FindIsFirst(s: string, find: string, from: nat, i: nat)
    requires FirstAt(s, find, from, i)
    ensures Find(s, find, from) == i
  {
    var r := Find(s, find, from);
    assert r >= 0 ==> FirstAt(s, find, from, r);
  }

  /** Nothing occurs before what is found, and nothing at all if nothing is found. */
  lemma FindIsLeftmost(s: string, find: string, from: nat, i: nat)
    requires from <= i && OccursAt(s, find, i)
    ensures 0 <= Find(s, find, from) <= i
  {
    OccurrenceHasFirst(s, find, from, i);
    var k: nat :| FirstAt(s, find, from, k) && k <= i;
    FindIsFirst(s, find, from, k);
  }

  /** Leftmost non-overlapping replacement of plain text; `all` or just the first. */
  ghost function Replaced(s: string, find: string, replace: string, all: bool): string
    requires find != ""
    decreases |s|, 0
  {
    var i := Find(s, find, 0);
    if i < 0 then s
    else
      var rest := s[i + |find|..];
      s[..i] + replace + PlainRest(rest, find, replace, all)
  }

  ghost function PlainRest(s: string, find: string, replace: string, all: bool): string
    requires find != ""
    decreases |s|, 1
  {
    if all then Replaced(s, find, replace, all) else s
  }

  /** How many occurrences that replaces. */
  ghost function Matches(s: string, find: string, all: bool): nat
    requires find != ""
    decreases |s|
  {
    var i := Find(s, find, 0);
    if i < 0 then 0 else 1 + if all then Matches(s[i + |find|..], find, all) else 0
  }

  /**
    The same on styled text: what is not matched keeps its run, and inserted
    text goes to the run of the first character it replaces.
  */
  ghost function StyledReplaced(t: seq<Styled>, find: string, replace: string, all: bool): seq<Styled>
    requires find != ""
    decreases |t|, 0
  {
    var i := Find(Chars(t), find, 0);
    if i < 0 then t
    else
      var rest := t[i + |find|..];
      t[..i] + Tag(replace, t[i].run) + StyledRest(rest, find, replace, all)
  }

  ghost function StyledRest(t: seq<Styled>, find: string, replace: string, all: bool): seq<Styled>
    requires find != ""
    decreases |t|, 1
  {
    if all then StyledReplaced(t, find, replace, all) else t
  }

  lemma {:induction false} SpanSplit(texts: seq<string>, lo: nat, mid: nat, hi: nat)
    requires lo <= mid <= hi <= |texts|
    ensures Span(texts, lo, hi) == Span(texts, lo, mid) + Span(texts, mid, hi)
    decreases hi
  {
    if mid < hi {
      SpanSplit(texts, lo, mid, hi - 1);
    }
  }

  lemma {:induction false} SpanLength(texts: seq<string>, lo: nat, hi: nat)
    requires lo <= hi <= |texts|
    ensures |Span(texts, lo, hi)| == Left(texts, hi) - Left(texts, lo)
    decreases hi
  {
    if lo < hi {
      SpanLength(texts, lo, hi - 1);
    }
  }

  lemma {:induction false} SpanOfSame(a: seq<string>, b: seq<string>, lo: nat, hi: nat)
    requires lo <= hi <= |a| && hi <= |b|
    requires forall i | lo <= i < hi :: a[i] == b[i]
    ensures Span(a, lo, hi) == Span(b, lo, hi)
    decreases hi
  {
    if lo < hi {
      SpanOfSame(a, b, lo, hi - 1);
    }
  }

  lemma {:induction false} SpanOfEmpty(texts: seq<string>, lo: nat, hi: nat)
    requires lo <= hi <= |texts|
    requires forall i | lo <= i < hi :: texts[i] == ""
    ensures Span(texts, lo, hi) == []
    decreases hi
  {
    if lo < hi {
      SpanOfEmpty(texts, lo, hi - 1);
    }
  }

  lemma OccursInTail(a: string, b: string, find: string, i: int)
    ensures OccursAt(a + b, find, |a| + i) && i >= 0 <==> OccursAt(b, find, i)
  {
    if 0 <= i <= |b| - |find| {
      assert (a + b)[|a| + i..|a| + i + |find|] == b[i..i + |find|];
    }
  }

  /** Searching from inside the tail is searching the tail. */
  lemma FindInTail(a: string, b: string, find: string, from: nat)
    ensures Find(a + b, find, |a| + from) == if Find(b, find, from) < 0 then -1 else |a| + Find(b, find, from)
  {
    var i, k := Find(b, find, from), Find(a + b, find, |a| + from);
    OccursInTail(a, b, find, i);
    OccursInTail(a, b, find, k - |a|);
    if i >= 0 {
      FindOccurs(b, find, from);
      FindIsLeftmost(a + b, find, |a| + from, |a| + i);
    }
    if k >= 0 {
      FindOccurs(a + b, find, |a| + from);
      FindIsLeftmost(b, find, from, k - |a|);
    }
  }

  lemma {:induction false} CharsOfConcat(a: seq<Styled>, b: seq<Styled>)
    ensures Chars(a + b) == Chars(a) + Chars(b)
    decreases |b|
  {
    if b == [] {
      assert a + b == a;
    } else {
      CharsOfConcat(a, b[..|b| - 1]);
      assert (a + b)[..|a + b| - 1] == a + b[..|b| - 1];
    }
  }

  lemma CharsOfCut(t: seq<Styled>, i: nat)
    requires i <= |t|
    ensures Chars(t[..i]) == Chars(t)[..i] && Chars(t[i..]) == Chars(t)[i..]
  {
    assert t == t[..i] + t[i..];
    CharsOfConcat(t[..i], t[i..]);
  }

  lemma CharsOfSlices(t: seq<Styled>, i: nat, j: nat)
    requires i <= |t| && j <= |t|
    ensures Chars(t[..i]) == Chars(t)[..i] && Chars(t[j..]) == Chars(t)[j..]
  {
    CharsOfCut(t, i);
    CharsOfCut(t, j);
  }

  lemma {:induction false} CharsOfTag(s: string, run: nat)
    ensures Chars(Tag(s, run)) == s
  {
    if s != "" {
      CharsOfTag(s[..|s| - 1], run);
      assert Tag(s, run)[..|s| - 1] == Tag(s[..|s| - 1], run);
    }
  }

  /** The definitions, one step. */
  lemma FirstReplacement(rest: seq<Styled>, i: nat, find: string, replace: string, all: bool)
    requires find != "" && i == Find(Chars(rest), find, 0)
    ensures var tail := rest[i + |find|..];
            StyledReplaced(rest, find, replace, all) ==
              rest[..i] + Tag(replace, rest[i].run) + StyledRest(tail, find, replace, all)
  {
    hide Chars, Tag, Find, StyledRest;
  }

  lemma FirstPlainReplacement(s: string, i: nat, find: string, replace: string, all: bool)
    requires find != "" && i == Find(s, find, 0)
    ensures var tail := s[i + |find|..];
            Replaced(s, find, replace, all) == s[..i] + replace + PlainRest(tail, find, replace, all)
  {
    hide Find, PlainRest;
  }

  /** Forgetting runs, styled replacement is Python's own replacement of the joined text. */
  lemma {:induction false} StyledIsPlain(t: seq<Styled>, find: string, replace: string, all: bool)
    requires find != ""
    ensures Chars(StyledReplaced(t, find, replace, all)) == Replaced(Chars(t), find, replace, all)
    decreases |t|
  {
    var i := Find(Chars(t), find, 0);
    if i >= 0 {
      if all {
        StyledIsPlain(t[i + |find|..], find, replace, true);
      }
      AfterTheFirst(t, i, find, replace, all);
    }
  }

  lemma AfterTheFirst(t: seq<Styled>, i: nat, find: string, replace: string, all: bool)
    requires find != "" && i == Find(Chars(t), find, 0)
    requires var tail := t[i + |find|..];
             Chars(StyledRest(tail, find, replace, all)) == PlainRest(Chars(tail), find, replace, all)
    ensures Chars(StyledReplaced(t, find, replace, all)) == Replaced(Chars(t), find, replace, all)
  {
    hide *;
    var j := i + |find|;
    FirstReplacement(t, i, find, replace, all);
    FirstPlainReplacement(Chars(t), i, find, replace, all);
    CharsOfCut(t, j);
    CharsOfPieces(t, i, j, replace, StyledRest(t[j..], find, replace, all));
  }

  lemma CharsOfPieces(t: seq<Styled>, i: nat, j: nat, replace: string, tail: seq<Styled>)
    requires i < j <= |t|
    ensures Chars(t[..i] + Tag(replace, t[i].run) + tail) == Chars(t)[..i] + replace + Chars(tail)
  {
    CharsOfSlices(t, i, j);
    CharsOfTag(replace, t[i].run);
    CharsOfConcat(t[..i] + Tag(replace, t[i].run), tail);
    CharsOfConcat(t[..i], Tag(replace, t[i].run));
  }

  lemma TagRuns(s: string, run: nat)
    ensures forall i | 0 <= i < |s| :: Tag(s, run)[i].run == run
  {
    forall i | 0 <= i < |s|
      ensures Tag(s, run)[i].run == run
    {
      TagAt(s, run, i);
    }
  }

  lemma {:induction false} SpanRuns(texts: seq<string>, lo: nat, hi: nat)
    requires lo <= hi <= |texts|
    ensures forall i | 0 <= i < |Span(texts, lo, hi)| :: lo <= Span(texts, lo, hi)[i].run < hi
    decreases hi
  {
    if lo < hi {
      SpanRuns(texts, lo, hi - 1);
      TagRuns(texts[hi - 1], hi - 1);
    }
  }

  /** The characters before position `k` are those of earlier runs. */
  ghost predicate SplitsAt(t: seq<Styled>, k: nat, run: nat) {
    k <= |t| && forall i | 0 <= i < |t| :: i < k <==> t[i].run < run
  }

  lemma SplitsAtOnePlace(t: seq<Styled>, k: nat, m: nat, run: nat)
    requires SplitsAt(t, k, run) && SplitsAt(t, m, run)
    ensures k == m
  {
    var x := if k < |t| then t[k].run else 0;
    var y := if m < |t| then t[m].run else 0;
  }

  lemma SplitsWhereJoined(a: seq<Styled>, b: seq<Styled>, run: nat)
    requires forall i | 0 <= i < |a| :: a[i].run < run
    requires forall i | 0 <= i < |b| :: b[i].run == run
    ensures SplitsAt(a + b, |a|, run) && (a + b)[..|a|] == a && (a + b)[|a|..] == b
  {}

  lemma LastRunSplits(texts: seq<string>, n: nat)
    requires 1 <= n <= |texts|
    ensures SplitsAt(Span(texts, 0, n), Left(texts, n - 1), n - 1)
    ensures var t := Span(texts, 0, n);
            t[..Left(texts, n - 1)] == Span(texts, 0, n - 1) && Chars(t[Left(texts, n - 1)..]) == texts[n - 1]
  {
    SpanLength(texts, 0, n - 1);
    SpanRuns(texts, 0, n - 1);
    TagRuns(texts[n - 1], n - 1);
    SplitsWhereJoined(Span(texts, 0, n - 1), Tag(texts[n - 1], n - 1), n - 1);
    CharsOfTag(texts[n - 1], n - 1);
  }

  /** Nothing is lost by looking at paragraphs this way: the styled text determines every run. */
  lemma {:induction false} ParagraphDeterminesRuns(a: seq<string>, b: seq<string>, n: nat)
    requires n <= |a| && n <= |b| && Span(a, 0, n) == Span(b, 0, n)
    ensures a[..n] == b[..n]
  {
    if n > 0 {
      LastRunSplits(a, n);
      LastRunSplits(b, n);
      SplitsAtOnePlace(Span(a, 0, n), Left(a, n - 1), Left(b, n - 1), n - 1);
      ParagraphDeterminesRuns(a, b, n - 1);
      assert a[..n] == a[..n - 1] + [a[n - 1]] && b[..n] == b[..n - 1] + [b[n - 1]];
    }
  }
}
