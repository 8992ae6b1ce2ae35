/** What a document contributes to its extracted text, written from the document's own words. */
module TextAnswers {
  import opened Collections
  import opened Text
  import opened TextCollector

  /** Two texts with the separator between them, if there is anything to separate. */
  function Glue(separator: string, a: string, b: string): string {
    if a == "" then b else if b == "" then a else a + separator + b
  }

  function GlueAll(separator: string, texts: seq<string>): string {
    if texts == [] then "" else Glue(separator, texts[0], GlueAll(separator, texts[1..]))
  }

  /** The trimmed texts of cells or paragraphs, in order; a missing one is empty. */
  function Trims(texts: seq<Option<string>>): (r: seq<string>)
    ensures |r| == |texts|
  {
    if texts == [] then [] else [if texts[0] == None then "" else Strip(texts[0].value)] + Trims(texts[1..])
  }

  /** The rows of a table in order, each as its cells with tabs between the nonempty ones. */
  function TableRows(table: seq<seq<Option<string>>>): seq<string> {
    if table == [] then [] else [GlueAll("\t", Trims(table[0]))] + TableRows(table[1..])
  }

  function AllRows(tables: seq<seq<seq<Option<string>>>>): seq<string> {
    if tables == [] then [] else TableRows(tables[0]) + AllRows(tables[1..])
  }

  /** The document's pieces of text: its paragraphs, then the rows of its tables. */
  function Words(d: Document): seq<string> {
    Trims(d.paragraphs) + AllRows(d.tables)
  }

  function TotalLength(texts: seq<string>): nat {
    if texts == [] then 0 else TotalLength(texts[..|texts| - 1]) + |texts[|texts| - 1]|
  }

  lemma {:induction false} TrimsAreCleanTexts(texts: seq<Option<string>>)
    ensures Trims(texts) == Map(CleanText(), texts)
  {
    if texts != [] { TrimsAreCleanTexts(texts[1..]); }
  }

  lemma {:induction false} JoinFront(separator: string, x: string, rest: seq<string>)
    ensures Join(separator, [x] + rest) == if rest == [] then x else x + separator + Join(separator, rest)
    decreases |rest|
  {
    if |rest| > 0 {
      var front := rest[..|rest| - 1];
      JoinFront(separator, x, front);
      assert ([x] + rest)[..|rest|] == [x] + front;
    }
  }

  lemma {:induction false} JoinIsSomething(separator: string, parts: seq<string>)
    requires parts != [] && parts[0] != ""
    ensures Join(separator, parts) != ""
  {
    if |parts| > 1 { JoinIsSomething(separator, parts[..|parts| - 1]); }
  }

  lemma FilterOne(x: string)
    ensures Filter(NonEmpty(), [x]) == if x == "" then [] else [x]
  {
  }

  lemma {:induction false} GluedIsJoined(separator: string, texts: seq<string>)
    ensures GlueAll(separator, texts) == Join(separator, Filter(NonEmpty(), texts))
    ensures Filter(NonEmpty(), texts) != [] ==> Filter(NonEmpty(), texts)[0] != ""
  {
    if texts != [] {
      var rest := texts[1..];
      GluedIsJoined(separator, rest);
      assert texts == [texts[0]] + rest;
      FilterJoin(NonEmpty(), [texts[0]], rest);
      FilterOne(texts[0]);
      var kept := Filter(NonEmpty(), rest);
      if kept != [] { JoinIsSomething(separator, kept); }
      if texts[0] != "" { JoinFront(separator, texts[0], kept); } else { assert [] + kept == kept; }
    }
  }

  lemma {:induction false} TableRowsAreRowTexts(table: seq<seq<Option<string>>>)
    ensures TableRows(table) == Map(RowText(), table)
  {
    if table != [] {
      TrimsAreCleanTexts(table[0]);
      GluedIsJoined("\t", Trims(table[0]));
      TableRowsAreRowTexts(table[1..]);
    }
  }

  lemma {:induction false} AllRowsAreRowTexts(tables: seq<seq<seq<Option<string>>>>)
    ensures AllRows(tables) == FlatMap(RowTexts(), tables)
  {
    if tables != [] {
      TableRowsAreRowTexts(tables[0]);
      AllRowsAreRowTexts(tables[1..]);
      assert tables == [tables[0]] + tables[1..];
      FlatMapJoin(RowTexts(), [tables[0]], tables[1..]);
      assert FlatMap(RowTexts(), [tables[0]]) == RowTexts()(tables[0]);
    }
  }

  /** What is offered to the collection is the trimmed paragraphs, then every row's nonempty trimmed cells between tabs. */
  lemma PiecesAreTheDocument(d: Document)
    ensures DocxPieces(d) == Words(d)
  {
    TrimsAreCleanTexts(d.paragraphs);
    AllRowsAreRowTexts(d.tables);
  }

  lemma FlatOfOneMore(kept: seq<string>, piece: string)
    ensures Flat(kept + [piece]) == Flat(kept) + piece
  {
  }

  lemma {:induction false} OfferedLength(pieces: seq<string>)
    ensures |Flat(Filter(NonEmpty(), pieces))| == TotalLength(pieces)
  {
    if pieces != [] {
      var n := |pieces| - 1;
      OfferedLength(pieces[..n]);
      var kept := Filter(NonEmpty(), pieces[..n]);
      if pieces[n] == "" {
        assert kept + [] == kept;
      } else {
        FlatOfOneMore(kept, pieces[n]);
      }
    }
  }

  /**
   A document whose pieces have at most 200000 characters is extracted whole: the text is its nonempty paragraphs and rows,
   one line each, and it is not marked as truncated; a longer one is marked.
   */
  lemma ShortDocumentsAreExtractedWhole(d: Document)
    ensures TotalLength(Words(d)) <= 200_000 ==> DocxText(d) == GlueAll("\n", Words(d))
    ensures AddAll(NOTHING_COLLECTED, DocxPieces(d)).truncated <==> TotalLength(Words(d)) > 200_000
  {
    PiecesAreTheDocument(d);
    OfferedLength(DocxPieces(d));
    GluedIsJoined("\n", DocxPieces(d));
    CollectionIsBoundedPrefix(DocxPieces(d));
    NoTextMeansNoPiece(d);
    if Offered(d) != [] { TextKeepsToTheLimit(d); }
  }

  /** A page's text is offered as it is; a page without text offers nothing. */
  lemma PagesAreOfferedAsTheyAre(pages: seq<Option<string>>, i: nat)
    requires i < |pages|
    ensures Map(RawText(), pages)[i] == if pages[i] == None then "" else pages[i].value
  {
  }
}
