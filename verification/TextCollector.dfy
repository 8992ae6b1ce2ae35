/** The bounded text collection of the DOCX and PDF parsers. */
module TextCollector {
  import opened Collections
  import opened Paging
  import opened Text

  const MAX_CHARS := 200_000
  const MAX_PDF_PAGES := 50

  datatype Collected = Collected(pieces: seq<string>, used: nat, truncated: bool)

  const NOTHING_COLLECTED := Collected([], 0, false)

  /** What one more piece does: nothing when empty or when the collection was cut already, otherwise keep what fits. */
  function Add(c: Collected, piece: string): Collected {
    if c.truncated || piece == [] then c
    else if c.used >= MAX_CHARS then c.(truncated := true)
    else if |piece| > MAX_CHARS - c.used then Collected(c.pieces + [piece[..MAX_CHARS - c.used]], MAX_CHARS, true)
    else Collected(c.pieces + [piece], c.used + |piece|, false)
  }

  function AddAll(c: Collected, pieces: seq<string>): Collected {
    if pieces == [] then c else Add(AddAll(c, pieces[..|pieces| - 1]), pieces[|pieces| - 1])
  }

  lemma AddAllLast(c: Collected, pieces: seq<string>, piece: string)
    ensures AddAll(c, pieces + [piece]) == Add(AddAll(c, pieces), piece)
  {
  }

  lemma {:induction false} AddAllJoin(c: Collected, a: seq<string>, b: seq<string>)
    ensures AddAll(c, a + b) == AddAll(AddAll(c, a), b)
  {
    if b == [] {
      assert a + b == a;
    } else {
      var n := |b| - 1;
      AddAllJoin(c, a, b[..n]);
      assert a + b == (a + b[..n]) + [b[n]];
      AddAllLast(c, a + b[..n], b[n]);
    }
  }

  lemma {:induction false} CutIsFinal(c: Collected, pieces: seq<string>)
    requires c.truncated
    ensures AddAll(c, pieces) == c
  {
    if pieces != [] { CutIsFinal(c, pieces[..|pieces| - 1]); }
  }

  /** One round of a collecting loop; once something was cut, the rest of the pieces cannot matter. */
  lemma Advance(c: Collected, all: seq<string>, i: nat)
    requires i < |all|
    ensures AddAll(c, all[..i + 1]) == Add(AddAll(c, all[..i]), all[i])
    ensures AddAll(c, all[..i + 1]).truncated ==> AddAll(c, all) == AddAll(c, all[..i + 1])
  {
    assert all[..i + 1] == all[..i] + [all[i]];
    AddAllLast(c, all[..i], all[i]);
    assert all == all[..i + 1] + all[i + 1..];
    AddAllJoin(c, all[..i + 1], all[i + 1..]);
    if AddAll(c, all[..i + 1]).truncated { CutIsFinal(AddAll(c, all[..i + 1]), all[i + 1..]); }
  }

  // ----- the parsers' loops -----

  /** A document: paragraph texts, and tables of rows of cell texts; a missing text is None. */
  datatype Document = Document(paragraphs: seq<Option<string>>, tables: seq<seq<seq<Option<string>>>>)

  /** `(text or "").strip()`. */
  function CleanText(): Option<string> -> string {
    (t: Option<string>) => if t.None? then "" else Strip(t.value)
  }

  function Join(separator: string, parts: seq<string>): string {
    if parts == [] then "" else if |parts| == 1 then parts[0]
    else Join(separator, parts[..|parts| - 1]) + separator + parts[|parts| - 1]
  }

  function NonEmpty(): string -> bool {
    (s: string) => s != []
  }

  /** The nonempty cells of a row, joined with tabs. */
  function RowText(): seq<Option<string>> -> string {
    (row: seq<Option<string>>) => Join("\t", Filter(NonEmpty(), Map(CleanText(), row)))
  }

  function RowTexts(): seq<seq<Option<string>>> -> seq<string> {
    (table: seq<seq<Option<string>>>) => Map(RowText(), table)
  }

  /** All pieces in the order they are offered: paragraphs, then the rows of every table. */
  function DocxPieces(d: Document): seq<string> {
    Map(CleanText(), d.paragraphs) + FlatMap(RowTexts(), d.tables)
  }

  method CollectParagraphs(paragraphs: seq<Option<string>>) returns (c: Collected)
    ensures c == AddAll(NOTHING_COLLECTED, Map(CleanText(), paragraphs))
  {
    ghost var all := Map(CleanText(), paragraphs);
    var collected: seq<string>, used: nat := [], 0;
    for i := 0 to |paragraphs|
      invariant used <= MAX_CHARS && Collected(collected, used, false) == AddAll(NOTHING_COLLECTED, all[..i])
    {
      var piece := CleanText()(paragraphs[i]);
      Advance(NOTHING_COLLECTED, all, i);
      if piece == [] { continue; }
      var remaining := MAX_CHARS - used;
      if remaining <= 0 { return Collected(collected, used, true); }
      if |piece| > remaining { return Collected(collected + [piece[..remaining]], used + remaining, true); }
      collected, used := collected + [piece], used + |piece|;
    }
    assert all[..|paragraphs|] == all;
    c := Collected(collected, used, false);
  }

  /** The rows of one table, continuing what was collected. */
  method CollectRows(table: seq<seq<Option<string>>>, before: Collected) returns (c: Collected)
    requires !before.truncated && before.used <= MAX_CHARS
    ensures c == AddAll(before, Map(RowText(), table))
  {
    ghost var all := Map(RowText(), table);
    var collected, used: nat := before.pieces, before.used;
    for i := 0 to |table|
      invariant used <= MAX_CHARS && Collected(collected, used, false) == AddAll(before, all[..i])
    {
      var piece := RowText()(table[i]);
      Advance(before, all, i);
      if piece == [] { continue; }
      var remaining := MAX_CHARS - used;
      if remaining <= 0 { return Collected(collected, used, true); }
      if |piece| > remaining { return Collected(collected + [piece[..remaining]], used + remaining, true); }
      collected, used := collected + [piece], used + |piece|;
    }
    assert all[..|table|] == all;
    c := Collected(collected, used, false);
  }

  lemma {:induction false} CollectedIsBounded(c: Collected, pieces: seq<string>)
    requires c.used <= MAX_CHARS
    ensures AddAll(c, pieces).used <= MAX_CHARS
  {
    if pieces != [] { CollectedIsBounded(c, pieces[..|pieces| - 1]); }
  }

  /** One more table; once something was cut, the remaining tables cannot matter. */
  lemma AdvanceTable(c: Collected, tables: seq<seq<seq<Option<string>>>>, t: nat)
    requires t < |tables|
    ensures AddAll(c, FlatMap(RowTexts(), tables[..t + 1]))
         == AddAll(AddAll(c, FlatMap(RowTexts(), tables[..t])), Map(RowText(), tables[t]))
    ensures AddAll(c, FlatMap(RowTexts(), tables[..t + 1])).truncated ==>
      AddAll(c, FlatMap(RowTexts(), tables)) == AddAll(c, FlatMap(RowTexts(), tables[..t + 1]))
  {
    var before, upTo, later := FlatMap(RowTexts(), tables[..t]), FlatMap(RowTexts(), tables[..t + 1]), FlatMap(RowTexts(), tables[t + 1..]);
    assert tables[..t + 1] == tables[..t] + [tables[t]];
    FlatMapLast(RowTexts(), tables[..t], tables[t]);
    AddAllJoin(c, before, Map(RowText(), tables[t]));
    assert tables == tables[..t + 1] + tables[t + 1..];
    FlatMapJoin(RowTexts(), tables[..t + 1], tables[t + 1..]);
    AddAllJoin(c, upTo, later);
    if AddAll(c, upTo).truncated { CutIsFinal(AddAll(c, upTo), later); }
  }

  method CollectTables(tables: seq<seq<seq<Option<string>>>>, before: Collected) returns (c: Collected)
    requires !before.truncated && before.used <= MAX_CHARS
    ensures c == AddAll(before, FlatMap(RowTexts(), tables))
  {
    c := before;
    for t := 0 to |tables|
      invariant !c.truncated && c.used <= MAX_CHARS && c == AddAll(before, FlatMap(RowTexts(), tables[..t]))
    {
      AdvanceTable(before, tables, t);
      CollectedIsBounded(c, Map(RowText(), tables[t]));
      c := CollectRows(tables[t], c);
      if c.truncated { return; }
    }
    assert tables[..|tables|] == tables;
  }

  /** `parse_docx_attachment`, the collection: tables are only looked at while nothing has been cut. */
  method CollectDocx(d: Document) returns (c: Collected)
    ensures c == AddAll(NOTHING_COLLECTED, DocxPieces(d))
  {
    c := CollectParagraphs(d.paragraphs);
    CollectedIsBounded(NOTHING_COLLECTED, Map(CleanText(), d.paragraphs));
    AddAllJoin(NOTHING_COLLECTED, Map(CleanText(), d.paragraphs), FlatMap(RowTexts(), d.tables));
    if c.truncated {
      CutIsFinal(c, FlatMap(RowTexts(), d.tables));
    } else {
      c := CollectTables(d.tables, c);
    }
  }

  function RawText(): Option<string> -> string {
    (t: Option<string>) => if t.None? then "" else t.value
  }

  /** `parse_pdf_attachment`, the page limit and the collection; None is the limit error. */
  method CollectPdf(pages: seq<Option<string>>) returns (c: Option<Collected>)
    ensures c == if |pages| > MAX_PDF_PAGES then None else Some(AddAll(NOTHING_COLLECTED, Map(RawText(), pages)))
  {
    if |pages| > MAX_PDF_PAGES { return None; }
    ghost var all := Map(RawText(), pages);
    var collected: seq<string>, used: nat := [], 0;
    for i := 0 to |pages|
      invariant used <= MAX_CHARS && Collected(collected, used, false) == AddAll(NOTHING_COLLECTED, all[..i])
    {
      var piece := RawText()(pages[i]);
      Advance(NOTHING_COLLECTED, all, i);
      if piece == [] { continue; }
      var remaining := MAX_CHARS - used;
      if remaining <= 0 { return Some(Collected(collected, used, true)); }
      if |piece| > remaining { return Some(Collected(collected + [piece[..remaining]], used + remaining, true)); }
      collected, used := collected + [piece], used + |piece|;
    }
    assert all[..|pages|] == all;
    c := Some(Collected(collected, used, false));
  }

  // ----- what is collected -----

  function Flat(pieces: seq<string>): string {
    if pieces == [] then "" else Flat(pieces[..|pieces| - 1]) + pieces[|pieces| - 1]
  }

  /** `kept` holds the first pieces whole, except that the last one may be a nonempty beginning of its piece. */
  predicate KeepsWhole(kept: seq<string>, offered: seq<string>) {
    && |kept| <= |offered|
    && (forall i :: 0 <= i < |kept| ==> kept[i] != [] && kept[i] <= offered[i])
    && (forall i :: 0 <= i < |kept| - 1 ==> kept[i] == offered[i])
  }

  /** What is true of a collection of the offered nonempty pieces. */
  predicate IsBoundedPrefix(c: Collected, offered: seq<string>) {
    var total := |Flat(offered)|;
    && c.used == Min(total, MAX_CHARS) && Flat(c.pieces) == Flat(offered)[..c.used]
    && KeepsWhole(c.pieces, offered)
    && (c.truncated <==> total > MAX_CHARS)
    && (!c.truncated ==> c.pieces == offered)
  }

  lemma CutKeepsPrefix(c: Collected, offered: seq<string>, piece: string)
    requires IsBoundedPrefix(c, offered) && piece != [] && c.used == MAX_CHARS
    ensures IsBoundedPrefix(c.(truncated := true), offered + [piece])
  {
  }

  lemma WholePiecesExtend(kept: seq<string>, offered: seq<string>, piece: string, fits: nat)
    requires KeepsWhole(kept, offered) && kept == offered && 0 < fits <= |piece|
    ensures KeepsWhole(kept + [piece[..fits]], offered + [piece])
  {
  }

  lemma FittingFlat(offered: seq<string>, piece: string, fits: nat)
    requires fits <= |piece|
    ensures Flat(offered + [piece[..fits]]) == Flat(offered + [piece])[..|Flat(offered)| + fits]
    ensures |Flat(offered + [piece])| == |Flat(offered)| + |piece|
  {
  }

  lemma FittingKeepsPrefix(c: Collected, offered: seq<string>, piece: string, fits: nat)
    requires IsBoundedPrefix(c, offered) && piece != [] && !c.truncated && c.used < MAX_CHARS
    requires fits == Min(|piece|, MAX_CHARS - c.used)
    ensures IsBoundedPrefix(Collected(c.pieces + [piece[..fits]], c.used + fits, fits < |piece|), offered + [piece])
  {
    FittingFlat(offered, piece, fits);
    WholePiecesExtend(c.pieces, offered, piece, fits);
    if fits == |piece| { assert piece[..fits] == piece; }
  }

  lemma AddKeepsPrefix(c: Collected, offered: seq<string>, piece: string)
    requires IsBoundedPrefix(c, offered) && piece != []
    ensures IsBoundedPrefix(Add(c, piece), offered + [piece])
  {
    if c.truncated || c.used >= MAX_CHARS {
      CutKeepsPrefix(c, offered, piece);
    } else {
      var fits := Min(|piece|, MAX_CHARS - c.used);
      FittingKeepsPrefix(c, offered, piece, fits);
      assert piece[..|piece|] == piece;
    }
  }

  /**
   The collectors keep exactly a prefix of the nonempty pieces, only the last one possibly cut, with lengths summing to
   min(total, 200000); the flag is set exactly when the total exceeds 200000.
   */
  lemma {:induction false} CollectionIsBoundedPrefix(pieces: seq<string>)
    ensures IsBoundedPrefix(AddAll(NOTHING_COLLECTED, pieces), Filter(NonEmpty(), pieces))
  {
    if pieces != [] {
      var n := |pieces| - 1;
      var before, offered := AddAll(NOTHING_COLLECTED, pieces[..n]), Filter(NonEmpty(), pieces[..n]);
      CollectionIsBoundedPrefix(pieces[..n]);
      if pieces[n] == [] {
        assert offered + [] == offered;
      } else {
        AddKeepsPrefix(before, offered, pieces[n]);
      }
    }
  }

  // ----- the joined text -----

  lemma {:induction false} JoinLength(parts: seq<string>)
    ensures |Join("\n", parts)| == |Flat(parts)| + if parts == [] then 0 else |parts| - 1
  {
    if |parts| > 1 {
      JoinLength(parts[..|parts| - 1]);
    } else if |parts| == 1 {
      assert parts[..0] == [];
    }
  }

  /** `"\n".join(collected).strip()`; an empty text is an error. */
  function DocxText(d: Document): string {
    Strip(Join("\n", AddAll(NOTHING_COLLECTED, DocxPieces(d)).pieces))
  }

  // ----- every offered piece is trimmed -----

  lemma {:induction false} JoinIsTrimmed(separator: string, parts: seq<string>)
    requires forall i :: 0 <= i < |parts| ==> Normal(parts[i])
    ensures Trimmed(Join(separator, parts)) && (parts != [] ==> Join(separator, parts) != [])
  {
    if |parts| > 1 { JoinIsTrimmed(separator, parts[..|parts| - 1]); }
  }

  lemma CellsAreTrimmed(cells: seq<string>)
    requires forall i :: 0 <= i < |cells| ==> Trimmed(cells[i])
    ensures Trimmed(Join("\t", Filter(NonEmpty(), cells)))
  {
    var kept := Filter(NonEmpty(), cells);
    forall i | 0 <= i < |kept| ensures Normal(kept[i]) {
      FilterKeepsExactly(NonEmpty(), cells, kept[i]);
    }
    JoinIsTrimmed("\t", kept);
  }

  lemma CleanTextIsTrimmed(t: Option<string>)
    ensures Trimmed(CleanText()(t))
  {
    if t.Some? { var i, j := StripCutsOnlyBlanks(t.value); }
  }

  lemma RowIsTrimmed(row: seq<Option<string>>)
    ensures Trimmed(RowText()(row))
  {
    var cells := Map(CleanText(), row);
    forall i | 0 <= i < |cells| ensures Trimmed(cells[i]) {
      CleanTextIsTrimmed(row[i]);
    }
    CellsAreTrimmed(cells);
  }

  lemma {:induction false} RowsAreTrimmed(tables: seq<seq<seq<Option<string>>>>, k: nat)
    requires k < |FlatMap(RowTexts(), tables)|
    ensures Trimmed(FlatMap(RowTexts(), tables)[k])
  {
    var n := |tables| - 1;
    var front := FlatMap(RowTexts(), tables[..n]);
    if k < |front| {
      RowsAreTrimmed(tables[..n], k);
    } else {
      RowIsTrimmed(tables[n][k - |front|]);
    }
  }

  /** The pieces that are not empty, in order. */
  function Offered(d: Document): seq<string> {
    Filter(NonEmpty(), DocxPieces(d))
  }

  lemma PieceIsTrimmed(d: Document, k: nat)
    requires k < |DocxPieces(d)|
    ensures Trimmed(DocxPieces(d)[k])
  {
    if k < |d.paragraphs| {
      CleanTextIsTrimmed(d.paragraphs[k]);
    } else {
      RowsAreTrimmed(d.tables, k - |d.paragraphs|);
    }
  }

  lemma OfferedAreNormal(d: Document, i: nat)
    requires i < |Offered(d)|
    ensures Normal(Offered(d)[i])
  {
    FilterKeepsExactly(NonEmpty(), DocxPieces(d), Offered(d)[i]);
    var pieces := DocxPieces(d);
    var k :| 0 <= k < |pieces| && pieces[k] == Offered(d)[i];
    PieceIsTrimmed(d, k);
  }

  // ----- the extracted text in terms of the offered pieces -----

  lemma FlatGrows(pieces: seq<string>, i: nat)
    requires i < |pieces|
    ensures |Flat(pieces[..i + 1])| == |Flat(pieces[..i])| + |pieces[i]|
  {
    assert pieces[..i + 1][..i] == pieces[..i];
  }

  lemma {:induction false} FlatIsMonotone(pieces: seq<string>, i: nat, j: nat)
    requires i <= j <= |pieces|
    ensures |Flat(pieces[..i])| <= |Flat(pieces[..j])|
    decreases j
  {
    if i < j {
      FlatIsMonotone(pieces, i, j - 1);
      FlatGrows(pieces, j - 1);
    }
  }

  /** The collection ends with piece `k`: there was room before it, and none after it unless it is the last. */
  predicate EndsWith(pieces: seq<string>, k: nat) {
    && 0 < k <= |pieces| && |Flat(pieces[..k - 1])| < MAX_CHARS
    && (k == |pieces| || |Flat(pieces[..k])| >= MAX_CHARS)
  }

  /** How many of the pieces are reached before the limit is. */
  function KeptCount(pieces: seq<string>): (k: nat)
    requires pieces != []
    ensures EndsWith(pieces, k)
  {
    var front := pieces[..|pieces| - 1];
    if |Flat(front)| < MAX_CHARS then |pieces| else
      var k := KeptCount(front);
      assert front[..k - 1] == pieces[..k - 1] && front[..k] == pieces[..k];
      k
  }

  lemma EndIsUnique(pieces: seq<string>, i: nat, j: nat)
    requires EndsWith(pieces, i) && EndsWith(pieces, j)
    ensures i == j
  {
    if i < j { FlatIsMonotone(pieces, i, j - 1); }
    if j < i { FlatIsMonotone(pieces, j, i - 1); }
  }

  /** What the limit leaves of the last piece reached. */
  function LastKept(pieces: seq<string>): string
    requires pieces != []
  {
    var k := KeptCount(pieces);
    pieces[k - 1][..Min(|pieces[k - 1]|, MAX_CHARS - |Flat(pieces[..k - 1])|)]
  }

  lemma KeptLength(kept: seq<string>, offered: seq<string>)
    requires KeepsWhole(kept, offered) && kept != []
    ensures var k := |kept|;
      && kept[..k - 1] == offered[..k - 1] && kept[k - 1] <= offered[k - 1]
      && |Flat(kept)| == |Flat(offered[..k - 1])| + |kept[k - 1]|
      && |Flat(offered[..k])| == |Flat(offered[..k - 1])| + |offered[k - 1]|
  {
    var k := |kept|;
    assert kept[..k - 1] == offered[..k - 1];
    FlatGrows(offered, k - 1);
  }

  lemma KeptEnds(kept: seq<string>, offered: seq<string>)
    requires KeepsWhole(kept, offered) && kept != [] && |Flat(kept)| == Min(|Flat(offered)|, MAX_CHARS)
    requires |Flat(offered)| <= MAX_CHARS ==> kept == offered
    ensures EndsWith(offered, |kept|)
    ensures var k := |kept|; |kept[k - 1]| == Min(|offered[k - 1]|, MAX_CHARS - |Flat(offered[..k - 1])|)
  {
    KeptLength(kept, offered);
  }

  lemma LastIsLastKept(last: string, offered: seq<string>)
    requires offered != []
    requires var k := KeptCount(offered);
      last <= offered[k - 1] && |last| == Min(|offered[k - 1]|, MAX_CHARS - |Flat(offered[..k - 1])|)
    ensures last == LastKept(offered)
  {
    PrefixIsTake(last, offered[KeptCount(offered) - 1]);
  }

  lemma FrontAndLast(kept: seq<string>, front: seq<string>, last: string)
    requires kept != [] && kept[..|kept| - 1] == front && kept[|kept| - 1] == last
    ensures kept == front + [last]
  {
  }

  lemma KeptInClosedForm(kept: seq<string>, offered: seq<string>, k: nat)
    requires |kept| == k && EndsWith(offered, k) && kept[..k - 1] == offered[..k - 1]
    requires kept[k - 1] <= offered[k - 1] && |kept[k - 1]| == Min(|offered[k - 1]|, MAX_CHARS - |Flat(offered[..k - 1])|)
    ensures KeptCount(offered) == k && kept == offered[..k - 1] + [LastKept(offered)]
  {
    EndIsUnique(offered, k, KeptCount(offered));
    LastIsLastKept(kept[k - 1], offered);
    FrontAndLast(kept, offered[..k - 1], LastKept(offered));
  }

  lemma PrefixIsTake(a: string, b: string)
    requires a <= b
    ensures a == b[..|a|]
  {
  }

  /** A nonempty collection is the pieces before the last one reached, and what the limit leaves of that one. */
  lemma CollectedInClosedForm(c: Collected, offered: seq<string>)
    requires IsBoundedPrefix(c, offered) && offered != [] && offered[0] != []
    ensures var k := KeptCount(offered); c.pieces == offered[..k - 1] + [LastKept(offered)]
  {
    SomethingIsKept(c, offered);
    assert |Flat(c.pieces)| == c.used;
    KeptLength(c.pieces, offered);
    KeptEnds(c.pieces, offered);
    KeptInClosedForm(c.pieces, offered, |c.pieces|);
  }

  lemma {:induction false} StripRightAfter(a: string, b: string)
    requires b != [] && !IsSpace(b[0])
    ensures StripRight(a + b) == a + StripRight(b)
    decreases |b|
  {
    if IsSpace(b[|b| - 1]) {
      StripRightAfter(a, b[..|b| - 1]);
      assert (a + b)[..|a + b| - 1] == a + b[..|b| - 1];
    }
  }

  lemma {:induction false} JoinKeepsFirst(parts: seq<string>)
    requires parts != [] && parts[0] != []
    ensures Join("\n", parts) != [] && Join("\n", parts)[0] == parts[0][0]
  {
    if |parts| > 1 { JoinKeepsFirst(parts[..|parts| - 1]); }
  }

  /** Stripping the joined text strips nothing but the end of its last piece. */
  lemma StripOfJoin(front: seq<string>, last: string)
    requires last != [] && !IsSpace(last[0])
    requires front != [] ==> front[0] != [] && !IsSpace(front[0][0])
    ensures Strip(Join("\n", front + [last])) == Join("\n", front + [StripRight(last)])
  {
    var whole := Join("\n", front + [last]);
    JoinKeepsFirst(front + [last]);
    assert StripLeft(whole) == whole;
    assert (front + [last])[..|front|] == front && (front + [StripRight(last)])[..|front|] == front;
    if front != [] {
      StripRightAfter(Join("\n", front) + "\n", last);
    }
  }

  /**
   The extracted text is the offered pieces up to the limit, one line each, where the last one reached is cut to what the
   limit leaves of it and loses its trailing blanks.
   */
  lemma TextIsTheOfferedPieces(d: Document)
    requires Offered(d) != []
    ensures var o := Offered(d);
      DocxText(d) == Join("\n", o[..KeptCount(o) - 1] + [StripRight(LastKept(o))])
    ensures StripRight(LastKept(Offered(d))) != []
  {
    var o := Offered(d);
    var k := KeptCount(o);
    CollectionIsBoundedPrefix(DocxPieces(d));
    forall i | 0 <= i < |o| ensures Normal(o[i]) { OfferedAreNormal(d, i); }
    CollectedInClosedForm(AddAll(NOTHING_COLLECTED, DocxPieces(d)), o);
    var last := LastKept(o);
    assert last != [] && last[0] == o[k - 1][0];
    StripOfJoin(o[..k - 1], last);
    StripRightAfter([], last);
    var n := StripRightCuts(last);
  }

  /** How much longer than the limit the text can be: one newline between any two pieces, less the blanks at the cut. */
  lemma TextLength(d: Document)
    requires Offered(d) != []
    ensures var o := Offered(d);
      var k := KeptCount(o);
      |DocxText(d)| == |Flat(o[..k - 1])| + |StripRight(LastKept(o))| + (k - 1)
  {
    var o := Offered(d);
    var k := KeptCount(o);
    TextIsTheOfferedPieces(d);
    var parts := o[..k - 1] + [StripRight(LastKept(o))];
    JoinLength(parts);
    FlatGrows(parts, k - 1);
    assert parts[..k] == parts && parts[..k - 1] == o[..k - 1];
  }

  lemma EverythingFits(pieces: seq<string>)
    requires pieces != [] && |Flat(pieces)| <= MAX_CHARS && forall i :: 0 <= i < |pieces| ==> pieces[i] != []
    ensures KeptCount(pieces) == |pieces| && LastKept(pieces) == pieces[|pieces| - 1]
  {
    var n := |pieces|;
    assert pieces[..n] == pieces;
    FlatGrows(pieces, n - 1);
    EndIsUnique(pieces, n, KeptCount(pieces));
  }

  lemma NothingMoreFits(pieces: seq<string>)
    requires pieces != [] && |Flat(pieces)| > MAX_CHARS
    ensures |Flat(pieces[..KeptCount(pieces) - 1])| + |LastKept(pieces)| == MAX_CHARS
  {
    var k := KeptCount(pieces);
    FlatGrows(pieces, k - 1);
    assert pieces[..|pieces|] == pieces;
  }

  lemma FittingText(d: Document)
    requires Offered(d) != [] && |Flat(Offered(d))| <= MAX_CHARS
    ensures var o := Offered(d);
      DocxText(d) == Join("\n", o) && |DocxText(d)| == |Flat(o)| + |o| - 1
  {
    var o := Offered(d);
    var n := |o|;
    forall i | 0 <= i < n ensures Normal(o[i]) { OfferedAreNormal(d, i); }
    EverythingFits(o);
    TextIsTheOfferedPieces(d);
    assert o[..n - 1] + [o[n - 1]] == o;
    JoinLength(o);
  }

  /**
   When the extracted text keeps to 200000 characters. If all pieces fit, the text is all of them, unmarked, and keeps to
   the limit exactly when the pieces and the newlines between them do. Otherwise the text is marked as truncated, and keeps
   to the limit exactly when the cut leaves at least as many trailing blanks as there are newlines.
   */
  lemma TextKeepsToTheLimit(d: Document)
    requires Offered(d) != []
    ensures var o := Offered(d);
      var truncated := AddAll(NOTHING_COLLECTED, DocxPieces(d)).truncated;
      if |Flat(o)| <= MAX_CHARS then
        && !truncated && DocxText(d) == Join("\n", o)
        && (|DocxText(d)| <= MAX_CHARS <==> |Flat(o)| + |o| - 1 <= MAX_CHARS)
      else
        && truncated
        && (|DocxText(d)| <= MAX_CHARS <==> KeptCount(o) - 1 <= |LastKept(o)| - |StripRight(LastKept(o))|)
  {
    CollectionIsBoundedPrefix(DocxPieces(d));
    if |Flat(Offered(d))| <= MAX_CHARS {
      FittingText(d);
    } else {
      TextLength(d);
      NothingMoreFits(Offered(d));
    }
  }

  /** The extracted text is empty exactly when the document offers no nonempty piece. */
  lemma NoTextMeansNoPiece(d: Document)
    ensures DocxText(d) == [] <==> Offered(d) == []
  {
    CollectionIsBoundedPrefix(DocxPieces(d));
    if Offered(d) != [] { TextLength(d); TextIsTheOfferedPieces(d); }
  }

  lemma SomethingIsKept(c: Collected, offered: seq<string>)
    requires IsBoundedPrefix(c, offered) && offered != [] && offered[0] != []
    ensures c.pieces != []
  {
  }

  lemma JoinTwo(a: string, b: string)
    ensures Join("\n", [a, b]) == a + "\n" + b
  {
  }

  lemma CollectTwo(a: string, b: string)
    requires a != [] && b != [] && |a| + |b| == MAX_CHARS
    ensures AddAll(NOTHING_COLLECTED, [a, b]) == Collected([a, b], MAX_CHARS, false)
  {
    assert [a, b][..1] == [a] && [a][..0] == [];
    assert AddAll(NOTHING_COLLECTED, [a]) == Collected([a], |a|, false);
  }

  /** Two paragraphs of together 200000 characters give a text of 200001 characters that is not marked as truncated. */
  lemma UntruncatedTextMayExceedTheLimit(a: string, b: string)
    requires Normal(a) && Normal(b) && |a| + |b| == MAX_CHARS
    ensures var d := Document([Some(a), Some(b)], []);
      |DocxText(d)| == MAX_CHARS + 1 && !AddAll(NOTHING_COLLECTED, DocxPieces(d)).truncated
  {
    var d := Document([Some(a), Some(b)], []);
    TrimmedIsFixed(a);
    TrimmedIsFixed(b);
    assert DocxPieces(d) == [a, b];
    CollectTwo(a, b);
    JoinTwo(a, b);
    TrimmedIsFixed(a + "\n" + b);
  }
}
