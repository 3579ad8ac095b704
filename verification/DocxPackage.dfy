/** Text replacement over a whole package (app/docx_production.py, `DocxPackage._replace_text`). */
module DocxPackage {
  import opened StyledText
  import opened RunText
  import opened Clearing
  import opened Placeholders

  /** The texts of a paragraph's w:t elements. */
  type Runs = seq<string>

  /** A content part: the body, a header or a footer, in the order the package lists them. */
  datatype Part = Part(location: string, paragraphs: seq<Runs>)

  datatype Query = Query(find: string, replace: string, location: string, all: bool) {
    predicate Selects(part: Part) {
      location == "all" || part.location == location
    }
  }

  type Search = q: Query | q.find != "" witness Query("?", "", "all", true)

  ghost function Text(runs: Runs): string {
    Chars(Paragraph(runs))
  }

  /** Same runs, with the text replaced in them. */
  ghost predicate Became(before: Runs, after: Runs, q: Search) {
    |after| == |before| && Paragraph(after) == StyledReplaced(Paragraph(before), q.find, q.replace, q.all)
  }

  /** Replacements made in the first `n` paragraphs, given whether an earlier one stops the search. */
  ghost function Found(paragraphs: seq<Runs>, n: nat, q: Search): nat
    requires n <= |paragraphs|
  {
    if n == 0 then 0
    else
      var earlier := Found(paragraphs, n - 1, q);
      earlier + if q.all || earlier == 0 then Matches(Text(paragraphs[n - 1]), q.find, q.all) else 0
  }

  ghost predicate Reached(paragraphs: seq<Runs>, j: nat, q: Search)
    requires j <= |paragraphs|
  {
    q.all || Found(paragraphs, j, q) == 0
  }

  /** What becomes of paragraph `j` of a part that the search enters. */
  ghost predicate ParagraphBecame(before: seq<Runs>, j: nat, runs: Runs, q: Search)
    requires j < |before|
  {
    if Reached(before, j, q) then Became(before[j], runs, q) else runs == before[j]
  }

  ghost predicate Rewritten(before: seq<Runs>, after: seq<Runs>, n: nat, q: Search) {
    n <= |before| == |after| && forall j: nat | j < n :: ParagraphBecame(before, j, after[j], q)
  }

  ghost function FoundIn(parts: seq<Part>, n: nat, q: Search): nat
    requires n <= |parts|
  {
    if n == 0 then 0
    else
      var earlier, part := FoundIn(parts, n - 1, q), parts[n - 1];
      earlier + if q.Selects(part) && (q.all || earlier == 0) then Found(part.paragraphs, |part.paragraphs|, q) else 0
  }

  ghost predicate Entered(parts: seq<Part>, p: nat, q: Search)
    requires p < |parts|
  {
    q.Selects(parts[p]) && (q.all || FoundIn(parts, p, q) == 0)
  }

  /** What one part becomes. */
  ghost predicate PartBecame(parts: seq<Part>, p: nat, after: Part, q: Search)
    requires p < |parts|
  {
    var part := parts[p];
    if Entered(parts, p, q)
    then after.location == part.location && Rewritten(part.paragraphs, after.paragraphs, |part.paragraphs|, q)
    else after == part
  }

  /** The first `n` parts are done, the others as they were. */
  ghost predicate PartsBecame(before: seq<Part>, after: seq<Part>, n: nat, q: Search) {
    && n <= |before| == |after|
    && forall p: nat | p < |before| ::
         if p < n then PartBecame(before, p, after[p], q) else after[p] == before[p]
  }

  lemma OneMorePart(before: seq<Part>, after: seq<Part>, n: nat, part: Part, q: Search)
    requires n < |before| && PartsBecame(before, after, n, q) && PartBecame(before, n, part, q)
    ensures after[n] == before[n] && PartsBecame(before, after[n := part], n + 1, q)
  {}

  /** One w:p element: its runs are rewritten in place. */
  method ReplaceParagraph(runs: Runs, q: Search) returns (after: Runs, replaced: nat)
    ensures Became(runs, after, q)
    ensures replaced == Matches(Text(runs), q.find, q.all)
  {
    var nodes := new string[|runs|](i requires 0 <= i < |runs| => runs[i]);
    assert nodes[..] == runs;
    replaced := ReplaceAcrossRuns(nodes, q.find, q.replace, q.all);
    after := nodes[..];
  }

  method VisitParagraph(paragraphs: seq<Runs>, n: nat, found: nat, q: Search) returns (runs: Runs, count: nat)
    requires n < |paragraphs| && found == Found(paragraphs, n, q)
    ensures ParagraphBecame(paragraphs, n, runs, q)
    ensures count == Found(paragraphs, n + 1, q)
  {
    runs, count := paragraphs[n], found;
    if q.all || found == 0 {
      var replaced;
      runs, replaced := ReplaceParagraph(runs, q);
      count := found + replaced;
    }
  }

  /** The paragraphs of one part; without `all`, up to the first that has a match. */
  method ReplaceInPart(paragraphs: seq<Runs>, q: Search) returns (after: seq<Runs>, count: nat)
    ensures Rewritten(paragraphs, after, |paragraphs|, q)
    ensures count == Found(paragraphs, |paragraphs|, q)
  {
    after, count := paragraphs, 0;
    for n := 0 to |paragraphs|
      invariant Rewritten(paragraphs, after, n, q) && count == Found(paragraphs, n, q)
    {
      var runs;
      runs, count := VisitParagraph(paragraphs, n, count, q);
      ghost var was := after;
      after := after[n := runs];
      OneMoreParagraph(paragraphs, was, n, runs, q);
    }
  }

  lemma OneMoreParagraph(before: seq<Runs>, after: seq<Runs>, n: nat, runs: Runs, q: Search)
    requires n < |before| && Rewritten(before, after, n, q) && ParagraphBecame(before, n, runs, q)
    ensures Rewritten(before, after[n := runs], n + 1, q)
  {}

  method VisitPart(part: Part, found: nat, q: Search, ghost parts: seq<Part>, ghost p: nat)
    returns (after: Part, count: nat)
    requires p < |parts| && part == parts[p] && found == FoundIn(parts, p, q)
    ensures PartBecame(parts, p, after, q)
    ensures count == FoundIn(parts, p + 1, q)
  {
    after, count := part, found;
    if q.Selects(part) && (q.all || found == 0) {
      var paragraphs, replaced := ReplaceInPart(part.paragraphs, q);
      after, count := part.(paragraphs := paragraphs), found + replaced;
    }
  }

  /** The same place with every paragraph's text replaced, its runs kept. */
  ghost predicate IsReplaced(before: Part, after: Part, q: Search) {
    && after.location == before.location && |after.paragraphs| == |before.paragraphs|
    && forall j | 0 <= j < |before.paragraphs| :: Became(before.paragraphs[j], after.paragraphs[j], q)
  }

  /** Other locations stay as they are; with `all`, the right ones are replaced throughout. */
  lemma OnlyThatLocation(before: seq<Part>, after: seq<Part>, q: Search)
    requires PartsBecame(before, after, |before|, q)
    ensures forall p | 0 <= p < |before| && q.location != "all" && before[p].location != q.location ::
              after[p] == before[p]
    ensures q.all ==> forall p | 0 <= p < |before| && (q.location == "all" || before[p].location == q.location) ::
              IsReplaced(before[p], after[p], q)
  {
    hide Became, Rewritten;
    forall p: nat | p < |before|
      ensures q.location != "all" && before[p].location != q.location ==> after[p] == before[p]
      ensures q.all && (q.location == "all" || before[p].location == q.location) ==> IsReplaced(before[p], after[p], q)
    {
      assert PartBecame(before, p, after[p], q);
      if q.all && (q.location == "all" || before[p].location == q.location) {
        RewrittenThroughout(before[p].paragraphs, after[p].paragraphs, q);
      }
    }
  }

  lemma RewrittenThroughout(before: seq<Runs>, after: seq<Runs>, q: Search)
    requires q.all && Rewritten(before, after, |before|, q)
    ensures |after| == |before| && forall j | 0 <= j < |before| :: Became(before[j], after[j], q)
  {
    hide Became;
    forall j: nat | j < |before|
      ensures Became(before[j], after[j], q)
    {
      assert ParagraphBecame(before, j, after[j], q);
    }
  }

  predicate IsIn(part: Part, location: string) {
    location == "all" || part.location == location
  }

  /** A match stands earlier: in an earlier part that is searched, or earlier in the same part. */
  ghost predicate HasEarlier(parts: seq<Part>, p: nat, j: nat, q: Search)
    requires p < |parts| && j <= |parts[p].paragraphs|
  {
    || (exists e :: 0 <= e < p && IsIn(parts[e], q.location) && !PartLacks(parts[e], q.find))
    || (exists i :: 0 <= i < j && !Lacks(Text(parts[p].paragraphs[i]), q.find))
  }

  /** Of the paragraphs searched, the first that has the text is replaced, at its first match, and no other. */
  ghost predicate OnlyTheFirst(before: seq<Part>, after: seq<Part>, q: Search) {
    |after| == |before| &&
    forall p: nat, j: nat | p < |before| && j < |before[p].paragraphs| &&
                            (q.location == "all" || before[p].location == q.location) ::
      && |after[p].paragraphs| == |before[p].paragraphs|
      && if HasEarlier(before, p, j, q) then after[p].paragraphs[j] == before[p].paragraphs[j]
         else Became(before[p].paragraphs[j], after[p].paragraphs[j], q)
  }

  lemma FirstMatchOnly(before: seq<Part>, after: seq<Part>, q: Search)
    requires !q.all && PartsBecame(before, after, |before|, q)
    ensures OnlyTheFirst(before, after, q)
  {
    hide Became, Lacks, Found, FoundIn;
    forall p: nat, j: nat | p < |before| && j < |before[p].paragraphs| &&
                            (q.location == "all" || before[p].location == q.location)
      ensures |after[p].paragraphs| == |before[p].paragraphs|
      ensures if HasEarlier(before, p, j, q) then after[p].paragraphs[j] == before[p].paragraphs[j]
              else Became(before[p].paragraphs[j], after[p].paragraphs[j], q)
    {
      assert PartBecame(before, p, after[p], q);
      CountMeansFound(before, p, q);
      FoundNone(before[p].paragraphs, j, q);
      if FoundIn(before, p, q) == 0 {
        assert ParagraphBecame(before[p].paragraphs, j, after[p].paragraphs[j], q);
      }
    }
  }

  lemma NothingYet(parts: seq<Part>, q: Search)
    ensures PartsBecame(parts, parts, 0, q) && FoundIn(parts, 0, q) == 0
  {}

  class DocxPackage {
    var parts: seq<Part>

    constructor (parts: seq<Part>)
      ensures this.parts == parts
    {
      this.parts := parts;
    }

    /** Replaces in the selected parts, everywhere or at the first match only. */
    method ReplaceText(q: Search) returns (count: nat)
      modifies this
      ensures PartsBecame(old(parts), parts, |parts|, q)
      ensures count == FoundIn(old(parts), |old(parts)|, q)
      ensures |parts| == |old(parts)|
      ensures forall p | 0 <= p < |parts| && q.location != "all" && old(parts)[p].location != q.location ::
                parts[p] == old(parts)[p]
      ensures q.all ==> forall p | 0 <= p < |parts| && (q.location == "all" || old(parts)[p].location == q.location) ::
                IsReplaced(old(parts)[p], parts[p], q)
      ensures count == 0 <==>
              forall p | 0 <= p < |parts| && (q.location == "all" || old(parts)[p].location == q.location) ::
                PartLacks(old(parts)[p], q.find)
      ensures !q.all ==> count <= 1 && OnlyTheFirst(old(parts), parts, q)
    {
      hide PartBecame, OnlyTheFirst, IsReplaced, PartLacks, FoundIn;
      ghost var before := parts;
      count := 0;
      NothingYet(before, q);
      for p := 0 to |parts|
        invariant count == FoundIn(before, p, q)
        invariant PartsBecame(before, parts, p, q)
      {
        var part;
        part, count := VisitPart(parts[p], count, q, before, p);
        OneMorePart(before, parts, p, part, q);
        parts := parts[p := part];
      }
      OnlyThatLocation(before, parts, q);
      CountMeansFound(before, |before|, q);
      if !q.all {
        FirstMatchOnly(before, parts, q);
      }
    }
  }

  /** What a reached paragraph reads like afterwards. */
  lemma TextBecame(before: Runs, after: Runs, q: Search)
    requires Became(before, after, q)
    ensures Text(after) == Replaced(Text(before), q.find, q.replace, q.all)
  {
    StyledIsPlain(Paragraph(before), q.find, q.replace, q.all);
  }

  /** Nothing to replace, nothing changed: not even how the text is spread over the runs. */
  lemma UnmatchedIsUntouched(before: Runs, after: Runs, q: Search)
    requires Became(before, after, q) && Matches(Text(before), q.find, q.all) == 0
    ensures after == before
  {
    assert Paragraph(after) == Paragraph(before);
    ParagraphDeterminesRuns(before, after, |before|);
    assert before[..|before|] == before && after[..|before|] == after;
  }

  ghost predicate PartLacks(part: Part, find: string) {
    forall j | 0 <= j < |part.paragraphs| :: Lacks(Text(part.paragraphs[j]), find)
  }

  lemma SelectedPartIsCleared(parts: seq<Part>, p: nat, after: Part, q: Search)
    requires p < |parts| && q.all && q.Selects(parts[p]) && PartBecame(parts, p, after, q)
    requires NeverRestores(q.find, q.replace)
    ensures PartLacks(after, q.find)
  {
    var paragraphs := parts[p].paragraphs;
    forall j: nat | j < |paragraphs|
      ensures Lacks(Text(after.paragraphs[j]), q.find)
    {
      assert ParagraphBecame(paragraphs, j, after.paragraphs[j], q);
      TextBecame(paragraphs[j], after.paragraphs[j], q);
      ReplacedLacks(Text(paragraphs[j]), q.find, q.replace);
    }
  }

  /** A replacement that can restore the text does so in some document: a selected part still has it. */
  lemma SomePartIsNotCleared(q: Search) returns (part: Part)
    requires q.all && !NeverRestores(q.find, q.replace)
    ensures q.Selects(part) && forall after | PartBecame([part], 0, after, q) :: !PartLacks(after, q.find)
  {
    var d :| Restores(q.find, q.replace, d);
    var s := Snare(q.find, q.replace, d);
    part := Part(q.location, [[s]]);
    OneRun(s);
    SnareCatches(q.find, q.replace, d);
    forall after | PartBecame([part], 0, after, q)
      ensures !PartLacks(after, q.find)
    {
      assert ParagraphBecame(part.paragraphs, 0, after.paragraphs[0], q);
      TextBecame([s], after.paragraphs[0], q);
    }
  }

  lemma OneRun(s: string)
    ensures Text([s]) == s
  {
    assert Span([s], 0, 0) == [] && Span([s], 0, 1) == Tag(s, 0);
    CharsOfTag(s, 0);
  }

  ghost predicate AllLack(parts: seq<Part>, find: string) {
    forall p: nat | p < |parts| :: PartLacks(parts[p], find)
  }

  ghost predicate UnselectedLack(parts: seq<Part>, q: Search) {
    forall p: nat | p < |parts| && !q.Selects(parts[p]) :: PartLacks(parts[p], q.find)
  }

  /**
    The read-back looks at every part, whatever the location. With a replacement
    as above the text is gone exactly when the parts that were not searched had none.
  */
  lemma ReadBackPasses(parts: seq<Part>, after: seq<Part>, q: Search)
    requires q.all && NeverRestores(q.find, q.replace) && PartsBecame(parts, after, |parts|, q)
    ensures AllLack(after, q.find) <==> UnselectedLack(parts, q)
  {
    forall p: nat | p < |parts|
      ensures PartLacks(after[p], q.find) <==> (q.Selects(parts[p]) || PartLacks(parts[p], q.find))
    {
      assert PartBecame(parts, p, after[p], q);
      if q.Selects(parts[p]) {
        SelectedPartIsCleared(parts, p, after[p], q);
      }
    }
  }

  ghost function ParagraphTexts(paragraphs: seq<Runs>): (texts: seq<string>)
    ensures |texts| == |paragraphs| && forall j | 0 <= j < |texts| :: texts[j] == Text(paragraphs[j])
  {
    seq(|paragraphs|, j requires 0 <= j < |paragraphs| => Text(paragraphs[j]))
  }

  /** The texts of all paragraphs, part after part. */
  ghost function Texts(parts: seq<Part>): seq<string> {
    if parts == [] then [] else Texts(parts[..|parts| - 1]) + ParagraphTexts(parts[|parts| - 1].paragraphs)
  }

  ghost predicate EachLacks(texts: seq<string>, find: string) {
    forall i | 0 <= i < |texts| :: Lacks(texts[i], find)
  }

  lemma EachOfConcat(a: seq<string>, b: seq<string>, find: string)
    ensures EachLacks(a + b, find) <==> EachLacks(a, find) && EachLacks(b, find)
  {
    hide Lacks;
    assert forall i | 0 <= i < |a| :: (a + b)[i] == a[i];
    assert forall i | 0 <= i < |b| :: (a + b)[|a| + i] == b[i];
  }

  lemma {:induction false} TextsLack(parts: seq<Part>, find: string)
    ensures AllLack(parts, find) <==> EachLacks(Texts(parts), find)
  {
    hide Lacks;
    if parts != [] {
      var n := |parts| - 1;
      TextsLack(parts[..n], find);
      EachOfConcat(Texts(parts[..n]), ParagraphTexts(parts[n].paragraphs), find);
      assert forall p | 0 <= p < n :: parts[..n][p] == parts[p];
    }
  }

  /**
    The check of the file read back, for a placeholder whose replacement never
    meets it: it passes exactly when the parts that were not searched had none.
  */
  lemma PlaceholderReadBack(parts: seq<Part>, after: seq<Part>, q: Search)
    requires IsPlaceholder(q.find) && q.all && PartsBecame(parts, after, |parts|, q)
    requires NeverMeet(q.find, q.replace)
    ensures q.find !in FindAll(Lines(Texts(after)), 0) <==> UnselectedLack(parts, q)
  {
    ReadBackPasses(parts, after, q);
    TextsLack(after, q.find);
    CheckFindsIff(Texts(after), q.find);
  }

  lemma FoundNone(paragraphs: seq<Runs>, n: nat, q: Search)
    requires n <= |paragraphs|
    ensures Found(paragraphs, n, q) == 0 <==> forall j | 0 <= j < n :: Lacks(Text(paragraphs[j]), q.find)
    ensures !q.all ==> Found(paragraphs, n, q) <= 1
  {
    if n > 0 {
      FoundNone(paragraphs, n - 1, q);
      MatchesNone(Text(paragraphs[n - 1]), q);
    }
  }

  lemma MatchesNone(s: string, q: Search)
    ensures Matches(s, q.find, q.all) == 0 <==> Lacks(s, q.find)
    ensures !q.all ==> Matches(s, q.find, q.all) <= 1
  {
    LacksIsNotFound(s, q.find);
  }

  /**
    The count is what the caller takes it for: zero ("not found") exactly when
    no selected part has the text, and never above one for the first occurrence.
  */
  lemma {:induction false} CountMeansFound(parts: seq<Part>, n: nat, q: Search)
    requires n <= |parts|
    ensures FoundIn(parts, n, q) == 0 <==> forall p | 0 <= p < n && q.Selects(parts[p]) :: PartLacks(parts[p], q.find)
    ensures !q.all ==> FoundIn(parts, n, q) <= 1
  {
    if n > 0 {
      CountMeansFound(parts, n - 1, q);
      FoundNone(parts[n - 1].paragraphs, |parts[n - 1].paragraphs|, q);
    }
  }
}
