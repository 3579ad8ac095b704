/**
  The text of a Google Doc, cut at a limit while it streams
  (app/adapters/google_workspace/docs.py, `_bounded_text`).
*/
module BoundedText {

  /**
    A structural element: a paragraph's text runs, a table's rows of cells, a table of
    contents; what is absent is empty.
  */
  datatype Element = Element(runs: seq<string>, rows: seq<Row>, contents: seq<Element>)

  datatype Row = Row(cells: seq<Cell>)

  datatype Cell = Cell(content: seq<Element>)

  datatype Tab = Tab(content: seq<Element>, children: seq<Tab>)

  /** With tabs the body is not looked at. */
  datatype Document = Document(tabs: seq<Tab>, body: seq<Element>)

  // ---- the whole text, depth first ----

  function TextOf(elements: seq<Element>): string
    decreases elements
  {
    if elements == [] then ""
    else
      var e := elements[0];
      Join(e.runs) + TextOfRows(e.rows) + TextOf(e.contents) + TextOf(elements[1..])
  }

  function TextOfRows(rows: seq<Row>): string
    decreases rows
  {
    if rows == [] then "" else TextOfCells(rows[0].cells) + TextOfRows(rows[1..])
  }

  function TextOfCells(cells: seq<Cell>): string
    decreases cells
  {
    if cells == [] then "" else TextOf(cells[0].content) + TextOfCells(cells[1..])
  }

  function TextOfTabs(tabs: seq<Tab>): string
    decreases tabs
  {
    if tabs == [] then "" else TextOf(tabs[0].content) + TextOfTabs(tabs[0].children) + TextOfTabs(tabs[1..])
  }

  function DocumentText(d: Document): string {
    if d.tabs != [] then TextOfTabs(d.tabs) else TextOf(d.body)
  }

  // ---- the chunks the walk yields ----

  function Join(chunks: seq<string>): string {
    if chunks == [] then "" else Join(chunks[..|chunks| - 1]) + chunks[|chunks| - 1]
  }

  function RunChunks(runs: seq<string>): seq<string> {
    if runs == [] then []
    else RunChunks(runs[..|runs| - 1]) + if runs[|runs| - 1] != "" then [runs[|runs| - 1]] else []
  }

  function Chunks(elements: seq<Element>): seq<string>
    decreases elements
  {
    if elements == [] then []
    else
      var e := elements[0];
      RunChunks(e.runs) + ChunksOfRows(e.rows) + Chunks(e.contents) + Chunks(elements[1..])
  }

  function ChunksOfRows(rows: seq<Row>): seq<string>
    decreases rows
  {
    if rows == [] then [] else ChunksOfCells(rows[0].cells) + ChunksOfRows(rows[1..])
  }

  function ChunksOfCells(cells: seq<Cell>): seq<string>
    decreases cells
  {
    if cells == [] then [] else Chunks(cells[0].content) + ChunksOfCells(cells[1..])
  }

  function ChunksOfTabs(tabs: seq<Tab>): seq<string>
    decreases tabs
  {
    if tabs == [] then [] else Chunks(tabs[0].content) + ChunksOfTabs(tabs[0].children) + ChunksOfTabs(tabs[1..])
  }

  function DocumentChunks(d: Document): seq<string> {
    if d.tabs != [] then ChunksOfTabs(d.tabs) else Chunks(d.body)
  }

  /** Chunks that are the pieces of a text, none empty. */
  ghost predicate Cut(chunks: seq<string>, text: string) {
    Join(chunks) == text && forall i | 0 <= i < |chunks| :: chunks[i] != ""
  }

  lemma {:induction false} JoinOfConcat(a: seq<string>, b: seq<string>)
    ensures Join(a + b) == Join(a) + Join(b)
    decreases |b|
  {
    if b == [] {
      assert a + b == a;
    } else {
      JoinOfConcat(a, b[..|b| - 1]);
      assert (a + b)[..|a + b| - 1] == a + b[..|b| - 1];
    }
  }

  lemma CutOfConcat(a: seq<string>, s: string, b: seq<string>, t: string)
    requires Cut(a, s) && Cut(b, t)
    ensures Cut(a + b, s + t)
  {
    JoinOfConcat(a, b);
  }

  lemma {:induction false} RunsAreCut(runs: seq<string>)
    ensures Cut(RunChunks(runs), Join(runs))
  {
    if runs != [] {
      var n := |runs| - 1;
      RunsAreCut(runs[..n]);
      var last := if runs[n] != "" then [runs[n]] else [];
      assert Join(last) == runs[n] by {
        if runs[n] != "" {
          assert last[..0] == [];
        }
      }
      CutOfConcat(RunChunks(runs[..n]), Join(runs[..n]), last, runs[n]);
    }
  }

  lemma {:induction false} ElementsAreCut(elements: seq<Element>)
    ensures Cut(Chunks(elements), TextOf(elements))
    decreases elements
  {
    if elements != [] {
      var e := elements[0];
      RunsAreCut(e.runs);
      RowsAreCut(e.rows);
      ElementsAreCut(e.contents);
      ElementsAreCut(elements[1..]);
      CutOfConcat(RunChunks(e.runs), Join(e.runs), ChunksOfRows(e.rows), TextOfRows(e.rows));
      CutOfConcat(RunChunks(e.runs) + ChunksOfRows(e.rows), Join(e.runs) + TextOfRows(e.rows),
                  Chunks(e.contents), TextOf(e.contents));
      CutOfConcat(RunChunks(e.runs) + ChunksOfRows(e.rows) + Chunks(e.contents),
                  Join(e.runs) + TextOfRows(e.rows) + TextOf(e.contents), Chunks(elements[1..]), TextOf(elements[1..]));
    }
  }

  lemma {:induction false} RowsAreCut(rows: seq<Row>)
    ensures Cut(ChunksOfRows(rows), TextOfRows(rows))
    decreases rows
  {
    if rows != [] {
      CellsAreCut(rows[0].cells);
      RowsAreCut(rows[1..]);
      CutOfConcat(ChunksOfCells(rows[0].cells), TextOfCells(rows[0].cells), ChunksOfRows(rows[1..]),
                  TextOfRows(rows[1..]));
    }
  }

  lemma {:induction false} CellsAreCut(cells: seq<Cell>)
    ensures Cut(ChunksOfCells(cells), TextOfCells(cells))
    decreases cells
  {
    if cells != [] {
      ElementsAreCut(cells[0].content);
      CellsAreCut(cells[1..]);
      CutOfConcat(Chunks(cells[0].content), TextOf(cells[0].content), ChunksOfCells(cells[1..]),
                  TextOfCells(cells[1..]));
    }
  }

  lemma {:induction false} TabsAreCut(tabs: seq<Tab>)
    ensures Cut(ChunksOfTabs(tabs), TextOfTabs(tabs))
    decreases tabs
  {
    if tabs != [] {
      var t := tabs[0];
      ElementsAreCut(t.content);
      TabsAreCut(t.children);
      TabsAreCut(tabs[1..]);
      CutOfConcat(Chunks(t.content), TextOf(t.content), ChunksOfTabs(t.children), TextOfTabs(t.children));
      CutOfConcat(Chunks(t.content) + ChunksOfTabs(t.children), TextOf(t.content) + TextOfTabs(t.children),
                  ChunksOfTabs(tabs[1..]), TextOfTabs(tabs[1..]));
    }
  }

  /** However tabs, tables and contents are nested, the walk yields the whole text in non-empty pieces. */
  lemma DocumentIsCut(d: Document)
    ensures Cut(DocumentChunks(d), DocumentText(d))
  {
    TabsAreCut(d.tabs);
    ElementsAreCut(d.body);
  }

  // ---- truncation ----

  function Prefix(s: string, n: nat): string {
    if |s| <= n then s else s[..n]
  }

  /** The first `k` chunks fill the limit, and the walk goes on. */
  ghost predicate FillsAt(chunks: seq<string>, limit: nat, k: nat) {
    0 < k < |chunks| && |Join(chunks[..k])| == limit
  }

  /** The limit is not reached by the first `n` chunks. */
  ghost predicate NotFilled(chunks: seq<string>, limit: nat, n: nat) {
    n <= |chunks| && forall k: nat | k <= n && k + limit > 0 :: |Join(chunks[..k])| < limit
  }

  lemma {:induction false} JoinGrows(chunks: seq<string>, k: nat)
    requires k <= |chunks|
    ensures Join(chunks[..k]) <= Join(chunks)
    decreases |chunks|
  {
    if k < |chunks| {
      JoinGrows(chunks[..|chunks| - 1], k);
      assert chunks[..|chunks| - 1][..k] == chunks[..k];
    } else {
      assert chunks[..k] == chunks;
    }
  }

  lemma NextChunk(chunks: seq<string>, i: nat)
    requires i < |chunks|
    ensures Join(chunks[..i + 1]) == Join(chunks[..i]) + chunks[i]
    ensures Join(chunks[..i + 1]) <= Join(chunks)
  {
    assert chunks[..i + 1][..i] == chunks[..i];
    JoinGrows(chunks, i + 1);
  }

  /**
    The loop of `_bounded_text`. It flags truncation when text is left over, and
    also when the limit is filled exactly and any chunk follows, empty or not.
    `used` is how many chunks it asked for.
  */
  method Bounded(chunks: seq<string>, limit: nat) returns (text: string, truncated: bool, ghost used: nat)
    ensures text == Prefix(Join(chunks), limit)
    ensures truncated <==> |Join(chunks)| > limit || exists k: nat :: FillsAt(chunks, limit, k)
    ensures used <= |chunks| && (limit > 0 && used > 1 ==> |Join(chunks[..used - 2])| < limit)
    ensures limit == 0 && chunks != [] && chunks[0] != "" ==> used == 1
  {
    text, used := "", 0;
    var remaining := limit;
    assert chunks[..0] == [];
    for i := 0 to |chunks|
      invariant text == Join(chunks[..i]) && remaining == limit - |text| && used == i
      invariant i > 0 ==> remaining > 0
      invariant NotFilled(chunks, limit, i)
    {
      NextChunk(chunks, i);
      used := i + 1;
      if |chunks[i]| > remaining {
        return text + chunks[i][..remaining], true, used;
      }
      text, remaining := text + chunks[i], remaining - |chunks[i]|;
      if remaining == 0 {
        if i + 1 < |chunks| {
          assert FillsAt(chunks, limit, i + 1);
          used := i + 2;
        } else {
          assert chunks[..i + 1] == chunks;
        }
        return text, i + 1 < |chunks|, used;
      }
    }
    assert chunks[..|chunks|] == chunks;
    truncated := false;
  }

  lemma {:induction false} FilledMeansLonger(chunks: seq<string>, text: string, limit: nat, k: nat)
    requires Cut(chunks, text) && FillsAt(chunks, limit, k)
    ensures |text| > limit
  {
    NextChunk(chunks, k);
  }

  lemma {:induction false} EachChunkHasText(chunks: seq<string>)
    requires forall i | 0 <= i < |chunks| :: chunks[i] != ""
    ensures |Join(chunks)| >= |chunks|
  {
    if chunks != [] {
      EachChunkHasText(chunks[..|chunks| - 1]);
    }
  }

  /**
    A document's text: its first `limit` characters, flagged exactly when there
    are more, after asking for at most limit + 1 pieces of it.
  */
  method GetText(d: Document, limit: nat) returns (text: string, truncated: bool, ghost used: nat)
    ensures text == Prefix(DocumentText(d), limit)
    ensures truncated <==> |DocumentText(d)| > limit
    ensures used <= limit + 1
  {
    var chunks := DocumentChunks(d);
    DocumentIsCut(d);
    text, truncated, used := Bounded(chunks, limit);
    if k: nat :| FillsAt(chunks, limit, k) {
      FilledMeansLonger(chunks, DocumentText(d), limit, k);
    }
    if limit > 0 && used > 1 {
      EachChunkHasText(chunks[..used - 2]);
    }
  }

  /** It does rest on that: after an empty piece, text that fits exactly would be flagged. */
  lemma EmptyPieceWouldBeFlagged()
    ensures FillsAt(["ab", ""], 2, 1) && |Join(["ab", ""])| == 2
  {
    assert ["ab", ""][..1] == ["ab"] && ["ab"][..0] == [];
  }
}
