/** Replacement across runs, in place (app/docx_production.py, `_replace_across_runs`). */
module RunText {
  import opened StyledText

  /** The run texts joined: what the source searches. */
  function Joined(texts: seq<string>, n: nat): string
    requires n <= |texts|
  {
    if n == 0 then "" else Joined(texts, n - 1) + texts[n - 1]
  }

  lemma {:induction false} JoinedIsChars(texts: seq<string>, n: nat)
    requires n <= |texts|
    ensures Joined(texts, n) == Chars(Span(texts, 0, n))
  {
    if n > 0 {
      JoinedIsChars(texts, n - 1);
      CharsOfConcat(Span(texts, 0, n - 1), Tag(texts[n - 1], n - 1));
      CharsOfTag(texts[n - 1], n - 1);
    }
  }

  /** (begin, end) of every run in the visible text. */
  method Offsets(texts: seq<string>) returns (offsets: seq<(nat, nat)>)
    ensures |offsets| == |texts|
    ensures forall i | 0 <= i < |texts| :: offsets[i] == (Left(texts, i), Left(texts, i + 1))
  {
    offsets := [];
    var cursor := 0;
    for i := 0 to |texts|
      invariant |offsets| == i && cursor == Left(texts, i)
      invariant forall j | 0 <= j < i :: offsets[j] == (Left(texts, j), Left(texts, j + 1))
    {
      offsets := offsets + [(cursor, cursor + |texts[i]|)];
      cursor := cursor + |texts[i]|;
    }
  }

  lemma {:induction false} LeftGrows(texts: seq<string>, i: nat, j: nat)
    requires i <= j <= |texts|
    ensures Left(texts, i) <= Left(texts, j)
    decreases j
  {
    if i < j {
      LeftGrows(texts, i, j - 1);
    }
  }

  /** The first run that ends at `pos` or later. */
  method FirstReaching(texts: seq<string>, offsets: seq<(nat, nat)>, pos: nat) returns (i: nat)
    requires |offsets| == |texts|
    requires forall i | 0 <= i < |texts| :: offsets[i] == (Left(texts, i), Left(texts, i + 1))
    requires 0 < pos <= Left(texts, |texts|)
    ensures i < |texts| && Left(texts, i) < pos <= Left(texts, i + 1)
  {
    i := 0;
    while i < |texts| && offsets[i].1 < pos
      invariant i <= |texts| && Left(texts, i) < pos
    {
      i := i + 1;
    }
  }

  lemma Regroup(whole: seq<Styled>, front: seq<Styled>, head: seq<Styled>, a: seq<Styled>, b: seq<Styled>,
                tail: seq<Styled>)
    requires whole == front + tail && front == head + (a + b)
    ensures whole[..|head| + |a|] == head + a && whole[|head| + |a|..] == b + tail
  {
    assert whole == (head + a) + (b + tail);
  }

  /** Cutting a paragraph at a place inside run `i`. */
  lemma CutAt(texts: seq<string>, i: nat, pos: nat)
    requires i < |texts| && Left(texts, i) <= pos <= Left(texts, i + 1)
    ensures |Paragraph(texts)| == Left(texts, |texts|) >= pos
    ensures Paragraph(texts)[..pos] == Span(texts, 0, i) + Tag(texts[i][..pos - Left(texts, i)], i)
    ensures Paragraph(texts)[pos..] == Tag(texts[i][pos - Left(texts, i)..], i) + Span(texts, i + 1, |texts|)
  {
    var k := pos - Left(texts, i);
    SpanSplit(texts, 0, i + 1, |texts|);
    SpanLength(texts, 0, |texts|);
    SpanLength(texts, 0, i);
    LeftGrows(texts, i + 1, |texts|);
    assert texts[i] == texts[i][..k] + texts[i][k..];
    TagOfConcat(texts[i][..k], texts[i][k..], i);
    Regroup(Paragraph(texts), Span(texts, 0, i + 1), Span(texts, 0, i), Tag(texts[i][..k], i), Tag(texts[i][k..], i),
            Span(texts, i + 1, |texts|));
  }

  /** The character at a place inside run `i` belongs to run `i`. */
  lemma RunAt(texts: seq<string>, i: nat, pos: nat)
    requires i < |texts| && Left(texts, i) <= pos < Left(texts, i + 1)
    ensures pos < |Paragraph(texts)| && Paragraph(texts)[pos].run == i
  {
    CutAt(texts, i, pos);
    LeftGrows(texts, i + 1, |texts|);
    TagAt(texts[i][pos - Left(texts, i)..], i, 0);
    assert Paragraph(texts)[pos] == Paragraph(texts)[pos..][0];
  }

  /** The rewriting of the runs first..last is the rewriting of the characters start..end. */
  lemma Splice(texts: seq<string>, after: seq<string>, first: nat, last: nat, start: nat, end: nat, replace: string)
    requires first <= last < |texts| == |after| && start < end
    requires Left(texts, first) <= start < Left(texts, first + 1)
    requires Left(texts, last) < end <= Left(texts, last + 1)
    requires var prefix, suffix := texts[first][..start - Left(texts, first)], texts[last][end - Left(texts, last)..];
             && after[first] == prefix + replace + (if first == last then suffix else "")
             && (first < last ==> after[last] == suffix)
    requires forall i | first < i < last :: after[i] == ""
    requires forall i | 0 <= i < |texts| && (i < first || i > last) :: after[i] == texts[i]
    ensures end <= |Paragraph(texts)| && Paragraph(texts)[start].run == first
    ensures Paragraph(after) == Paragraph(texts)[..start] + Tag(replace, first) + Paragraph(texts)[end..]
  {
    var prefix, suffix := texts[first][..start - Left(texts, first)], texts[last][end - Left(texts, last)..];
    RunAt(texts, first, start);
    CutAt(texts, first, start);
    CutAt(texts, last, end);
    OutsideUnchanged(texts, after, first, last);
    RewrittenRuns(after, first, last, prefix, replace, suffix);
    Reassemble(Paragraph(texts)[..start], Paragraph(texts)[end..], Paragraph(after), Span(texts, 0, first),
               Span(after, first, last + 1), Span(texts, last + 1, |texts|), Tag(prefix, first), Tag(replace, first),
               Tag(suffix, last));
  }

  lemma OutsideUnchanged(texts: seq<string>, after: seq<string>, first: nat, last: nat)
    requires first <= last < |texts| == |after|
    requires forall i | 0 <= i < |texts| && (i < first || i > last) :: after[i] == texts[i]
    ensures Paragraph(after) == Span(texts, 0, first) + (Span(after, first, last + 1) + Span(texts, last + 1, |texts|))
  {
    SpanOfSame(texts, after, 0, first);
    SpanOfSame(texts, after, last + 1, |texts|);
    SpanSplit(after, 0, first, |after|);
    SpanSplit(after, first, last + 1, |after|);
  }

  lemma Reassemble(front: seq<Styled>, back: seq<Styled>, after: seq<Styled>, head: seq<Styled>, middle: seq<Styled>,
                   tail: seq<Styled>, prefix: seq<Styled>, inserted: seq<Styled>, suffix: seq<Styled>)
    requires front == head + prefix && back == suffix + tail
    requires after == head + (middle + tail) && middle == prefix + inserted + suffix
    ensures after == front + inserted + back
  {}

  lemma RewrittenRuns(after: seq<string>, first: nat, last: nat, prefix: string, replace: string, suffix: string)
    requires first <= last < |after|
    requires after[first] == prefix + replace + if first == last then suffix else ""
    requires first < last ==> after[last] == suffix
    requires forall i | first < i < last :: after[i] == ""
    ensures Span(after, first, last + 1) == Tag(prefix, first) + Tag(replace, first) + Tag(suffix, last)
  {
    if first == last {
      OneRunSpan(after, first);
      TagOfThree(prefix, replace, suffix, first);
    } else {
      FirstAndLast(after, first, last);
      TagOfThree(prefix, replace, "", first);
      NothingAfter(Tag(prefix, first) + Tag(replace, first), Tag("", first));
    }
  }

  lemma TagOfThree(a: string, b: string, c: string, run: nat)
    ensures Tag(a + b + c, run) == Tag(a, run) + Tag(b, run) + Tag(c, run)
  {
    TagOfConcat(a, b, run);
    TagOfConcat(a + b, c, run);
  }

  lemma NothingAfter(a: seq<Styled>, none: seq<Styled>)
    requires |none| == 0
    ensures a + none == a
  {}

  lemma FirstAndLast(texts: seq<string>, first: nat, last: nat)
    requires first < last < |texts|
    requires forall i | first < i < last :: texts[i] == ""
    ensures Span(texts, first, last + 1) == Tag(texts[first], first) + Tag(texts[last], last)
  {
    hide Span, Tag;
    OneRunSpan(texts, first);
    OneRunSpan(texts, last);
    SpanSplit(texts, first, first + 1, last + 1);
    SpanSplit(texts, first + 1, last, last + 1);
    SpanOfEmpty(texts, first + 1, last);
    NothingBetween(Span(texts, first, last + 1), Tag(texts[first], first), Span(texts, first + 1, last + 1),
                   Tag(texts[last], last));
  }

  lemma NothingBetween(whole: seq<Styled>, a: seq<Styled>, rest: seq<Styled>, b: seq<Styled>)
    requires whole == a + rest && rest == [] + b
    ensures whole == a + b
  {}

  lemma OneRunSpan(texts: seq<string>, i: nat)
    requires i < |texts|
    ensures Span(texts, i, i + 1) == Tag(texts[i], i)
  {
    assert Span(texts, i, i + 1) == Span(texts, i, i) + Tag(texts[i], i);
  }

  /** Write the three new texts: into the first and last run of the match, and nothing between. */
  method RewriteRuns(runs: array<string>, first: nat, last: nat, prefix: string, replace: string, suffix: string)
    requires first <= last < runs.Length
    modifies runs
    ensures runs[first] == prefix + replace + if first == last then suffix else ""
    ensures first < last ==> runs[last] == suffix
    ensures forall i | first < i < last :: runs[i] == ""
    ensures forall i | 0 <= i < runs.Length && (i < first || i > last) :: runs[i] == old(runs[i])
  {
    runs[first] := prefix + replace + if first == last then suffix else "";
    var index := first + 1;
    while index < last
      invariant first < index && (first < last ==> index <= last)
      invariant runs[first] == prefix + replace + if first == last then suffix else ""
      invariant forall i | first < i < index && i < last :: runs[i] == ""
      invariant forall i | 0 <= i < runs.Length && (i < first || i > last) :: runs[i] == old(runs[i])
    {
      runs[index] := "";
      index := index + 1;
    }
    if last != first {
      runs[last] := suffix;
    }
  }

  /** Rewrite the runs so that the `find` at `start` of the visible text becomes `replace`. */
  method ReplaceMatch(runs: array<string>, start: nat, find: string, replace: string)
    requires find != "" && start + |find| <= |Paragraph(runs[..])|
    modifies runs
    ensures var t, end := old(Paragraph(runs[..])), start + |find|;
            Paragraph(runs[..]) == t[..start] + Tag(replace, t[start].run) + t[end..]
  {
    var texts := runs[..];
    SpanLength(texts, 0, |texts|);
    var end := start + |find|;
    var offsets := Offsets(texts);
    // start < right is start + 1 <= right
    var first := FirstReaching(texts, offsets, start + 1);
    var last := FirstReaching(texts, offsets, end);
    if last < first {
      LeftGrows(texts, last + 1, first);
    }
    var prefix := texts[first][..start - offsets[first].0];
    var suffix := texts[last][end - offsets[last].0..];
    RewriteRuns(runs, first, last, prefix, replace, suffix);
    Splice(texts, runs[..], first, last, start, end, replace);
  }

  /** Where the next match is, searching the whole text from the end of what is final. */
  lemma NextMatch(now: seq<Styled>, from: nat, find: string)
    requires from <= |now|
    ensures var i := Find(Chars(now[from..]), find, 0);
            && Find(Chars(now), find, from) == (if i < 0 then -1 else from + i)
            && (i >= 0 && find != "" ==> now[from..][i] == now[from + i])
  {
    hide Chars, Find;
    CharsOfSlices(now, from, from);
    assert Chars(now) == Chars(now)[..from] + Chars(now)[from..];
    FindInTail(Chars(now)[..from], Chars(now)[from..], find, 0);
  }

  /**
    One round on plain sequences. `goal` is what is final in `now`, followed by
    what the rest is to become: `rest` up to the match at `i`, the inserted
    text, and `todo`. With the match replaced, the inserted text is final too.
  */
  lemma OneRound(
    goal: seq<Styled>, now: seq<Styled>, from: nat, rest: seq<Styled>, i: nat, n: nat,
    inserted: seq<Styled>, todo: seq<Styled>, after: seq<Styled>)
    requires from <= |now| && rest == now[from..] && i + n <= |rest|
    requires goal == now[..from] + (rest[..i] + inserted + todo)
    requires after == now[..from + i] + inserted + now[from + i + n..]
    ensures goal == after[..from + i + |inserted|] + todo
    ensures from + i + |inserted| <= |after| && after[from + i + |inserted|..] == rest[i + n..]
  {
    assert after[..from + i + |inserted|] == now[..from] + rest[..i] + inserted;
  }

  lemma FirstMatch(rest: seq<Styled>, i: nat, find: string, all: bool)
    requires find != "" && i == Find(Chars(rest), find, 0)
    ensures Matches(Chars(rest), find, all) == 1 + if all then Matches(Chars(rest[i + |find|..]), find, all) else 0
  {
    TailChars(rest, i + |find|);
    MatchesStep(Chars(rest), i, Chars(rest[i + |find|..]), find, all);
  }

  lemma TailChars(t: seq<Styled>, j: nat)
    requires j <= |t|
    ensures Chars(t[j..]) == Chars(t)[j..]
  {
    CharsOfSlices(t, j, j);
  }

  lemma MatchesStep(s: string, i: nat, tail: string, find: string, all: bool)
    requires find != "" && i == Find(s, find, 0) && tail == s[i + |find|..]
    ensures Matches(s, find, all) == 1 + if all then Matches(tail, find, all) else 0
  {
    hide Find;
  }

  /** The source's `visible.find(find, search_from)`. */
  method FindNext(runs: array<string>, searchFrom: nat, find: string) returns (start: int)
    requires find != "" && searchFrom <= |Paragraph(runs[..])|
    ensures var rest := Paragraph(runs[..])[searchFrom..];
            var i := Find(Chars(rest), find, 0);
            && start == (if i < 0 then -1 else searchFrom + i)
            && (i >= 0 ==> rest[i] == Paragraph(runs[..])[start])
  {
    var visible := Joined(runs[..], runs.Length);
    JoinedIsChars(runs[..], runs.Length);
    NextMatch(Paragraph(runs[..]), searchFrom, find);
    start := FindFrom(visible, find, searchFrom);
  }

  method FindFrom(s: string, find: string, from: nat) returns (r: int)
    ensures r == Find(s, find, from)
  {
    r := from;
    while r + |find| <= |s| && s[r..r + |find|] != find
      invariant from <= r && forall i | from <= i < r :: !OccursAt(s, find, i)
      decreases |s| - r
    {
      r := r + 1;
    }
    if r + |find| <= |s| {
      FindIsFirst(s, find, from, r);
    } else {
      r := -1;
    }
  }

  /** Find the next match at or after `searchFrom` and replace it; `next` is where the inserted text ends. */
  method ReplaceNext(runs: array<string>, searchFrom: nat, find: string, replace: string)
    returns (found: bool, next: nat)
    requires find != "" && searchFrom <= |Paragraph(runs[..])|
    modifies runs
    ensures var now := old(Paragraph(runs[..]));
            var i := Find(Chars(now[searchFrom..]), find, 0);
            && found == (i >= 0)
            && if found
               then && next == searchFrom + i + |replace|
                    && Paragraph(runs[..]) ==
                         now[..searchFrom + i] + Tag(replace, now[searchFrom..][i].run) + now[searchFrom + i + |find|..]
               else Paragraph(runs[..]) == now
  {
    var start := FindNext(runs, searchFrom, find);
    found, next := start >= 0, 0;
    if found {
      ReplaceMatch(runs, start, find, replace);
      next := start + |replace|;
    }
  }

  /**
    What the loop still has to do: replacing in the text from `from` on makes the
    paragraph the `goal`, and takes `left` replacements.
  */
  ghost predicate Owes(now: seq<Styled>, from: nat, searching: bool, find: string, replace: string, all: bool,
                       goal: seq<Styled>, left: nat)
    requires find != ""
  {
    && from <= |now|
    && if searching
       then && goal == now[..from] + StyledReplaced(now[from..], find, replace, all)
            && left == Matches(Chars(now[from..]), find, all)
       else goal == now && left == 0
  }

  lemma OwesAll(t: seq<Styled>, find: string, replace: string, all: bool)
    requires find != ""
    ensures Owes(t, 0, true, find, replace, all, StyledReplaced(t, find, replace, all), Matches(Chars(t), find, all))
  {
    assert t[0..] == t;
  }

  lemma NothingLeft(now: seq<Styled>, from: nat, find: string, replace: string, all: bool, goal: seq<Styled>, left: nat)
    requires find != "" && Owes(now, from, true, find, replace, all, goal, left)
    requires Find(Chars(now[from..]), find, 0) < 0
    ensures Owes(now, from, false, find, replace, all, goal, left)
  {
    assert now == now[..from] + now[from..];
  }

  lemma OneLess(now: seq<Styled>, from: nat, rest: seq<Styled>, i: nat, find: string, replace: string, all: bool,
                goal: seq<Styled>, left: nat, after: seq<Styled>)
    requires find != "" && from <= |now| && rest == now[from..]
    requires goal == now[..from] + StyledReplaced(rest, find, replace, all) && left == Matches(Chars(rest), find, all)
    requires i == Find(Chars(rest), find, 0)
    requires after == now[..from + i] + Tag(replace, rest[i].run) + now[from + i + |find|..]
    ensures left > 0 && Owes(after, from + i + |replace|, all, find, replace, all, goal, left - 1)
    ensures |after| - (from + i + |replace|) < |now| - from
  {
    hide *;
    FirstReplacement(rest, i, find, replace, all);
    FirstMatch(rest, i, find, all);
    Settled(now, from, rest, i, |find|, Tag(replace, rest[i].run), rest[i + |find|..],
            find, replace, all, goal, after, left);
  }

  lemma Settled(now: seq<Styled>, from: nat, rest: seq<Styled>, i: nat, n: nat, inserted: seq<Styled>,
                tail: seq<Styled>,
                find: string, replace: string, all: bool, goal: seq<Styled>, after: seq<Styled>, left: nat)
    requires find != "" && from <= |now| && rest == now[from..] && 0 < n && i + n <= |rest| && tail == rest[i + n..]
    requires goal == now[..from] + (rest[..i] + inserted + StyledRest(tail, find, replace, all))
    requires left == 1 + if all then Matches(Chars(tail), find, all) else 0
    requires after == now[..from + i] + inserted + now[from + i + n..]
    ensures Owes(after, from + i + |inserted|, all, find, replace, all, goal, left - 1)
    ensures |after| - (from + i + |inserted|) < |now| - from
  {
    OneRound(goal, now, from, rest, i, n, inserted, StyledRest(tail, find, replace, all), after);
    if !all {
      assert after == after[..from + i + |inserted|] + tail;
    }
  }

  /** One pass of the loop body. */
  method Round(runs: array<string>, searchFrom: nat, find: string, replace: string, replaceAll: bool,
               ghost goal: seq<Styled>, ghost left: nat)
    returns (searching: bool, next: nat, replaced: nat)
    requires find != "" && Owes(Paragraph(runs[..]), searchFrom, true, find, replace, replaceAll, goal, left)
    modifies runs
    ensures replaced <= left && next <= |Paragraph(runs[..])|
    ensures Owes(Paragraph(runs[..]), next, searching, find, replace, replaceAll, goal, left - replaced)
    ensures searching ==> |Paragraph(runs[..])| - next < old(|Paragraph(runs[..])|) - searchFrom
  {
    ghost var now := Paragraph(runs[..]);
    searching, next := ReplaceNext(runs, searchFrom, find, replace);
    if searching {
      ghost var rest := now[searchFrom..];
      OneLess(now, searchFrom, rest, Find(Chars(rest), find, 0), find, replace, replaceAll, goal, left,
              Paragraph(runs[..]));
      searching, replaced := replaceAll, 1;
    } else {
      NothingLeft(now, searchFrom, find, replace, replaceAll, goal, left);
      next, replaced := searchFrom, 0;
    }
  }

  /**
    The loop of the source: replace at or after `searchFrom`, move past the
    inserted text, until nothing is found. It ends because every round takes a
    match away from the text still to be searched.
  */
  method ReplaceAcrossRuns(runs: array<string>, find: string, replace: string, replaceAll: bool) returns (count: nat)
    requires find != ""
    modifies runs
    ensures Paragraph(runs[..]) == StyledReplaced(old(Paragraph(runs[..])), find, replace, replaceAll)
    ensures count == Matches(Chars(old(Paragraph(runs[..]))), find, replaceAll)
  {
    ghost var now := Paragraph(runs[..]);
    ghost var goal, total := StyledReplaced(now, find, replace, replaceAll), Matches(Chars(now), find, replaceAll);
    OwesAll(now, find, replace, replaceAll);
    count := 0;
    var searchFrom: nat, searching := 0, true;
    while searching
      invariant count <= total
      invariant searchFrom <= |Paragraph(runs[..])|
      invariant Owes(Paragraph(runs[..]), searchFrom, searching, find, replace, replaceAll, goal, total - count)
      decreases searching, |Paragraph(runs[..])| - searchFrom
    {
      var replaced;
      searching, searchFrom, replaced := Round(runs, searchFrom, find, replace, replaceAll, goal, total - count);
      count := count + replaced;
    }
  }
}
