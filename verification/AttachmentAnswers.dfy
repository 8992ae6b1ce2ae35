/** When an inventory lists an archive, and when content of each kind is accepted, spelled out. */
module AttachmentAnswers {
  import opened AttachmentPolicy
  import opened ByteStrings
  import opened Collections
  import opened Text

  // ----- names -----

  function Joined(parts: seq<string>): string
    requires parts != []
  {
    if |parts| == 1 then parts[0] else parts[0] + "/" + Joined(parts[1..])
  }

  lemma {:induction false} ComponentsHaveNoSlash(s: string)
    ensures forall i :: 0 <= i < |Components(s)| ==> '/' !in Components(s)[i]
    decreases |s|
  {
    if s != [] { ComponentsHaveNoSlash(s[1..]); }
  }

  lemma {:induction false} ComponentsJoinAgain(s: string)
    ensures Joined(Components(s)) == s
    decreases |s|
  {
    if s != [] {
      var rest := Components(s[1..]);
      ComponentsJoinAgain(s[1..]);
      assert s == [s[0]] + s[1..];
      if s[0] == '/' {
        assert Components(s)[1..] == rest;
        assert Joined(Components(s)) == "" + "/" + s[1..];
      } else {
        var parts := Components(s);
        assert parts[1..] == rest[1..];
        assert |rest| > 1 ==> Joined(parts) == ([s[0]] + rest[0]) + "/" + Joined(rest[1..]);
      }
    }
  }

  /** Splitting a name at its slashes: no part has a slash, and joining them gives the name back. */
  lemma ComponentsSplitAtSlashes(s: string)
    ensures forall i :: 0 <= i < |Components(s)| ==> '/' !in Components(s)[i]
    ensures Joined(Components(s)) == s
  {
    ComponentsHaveNoSlash(s);
    ComponentsJoinAgain(s);
  }

  // ----- the inventory -----

  /** A name that stays relative: not absolute and without a climbing part. */
  predicate RelativeName(name: string) {
    (name == [] || name[0] != '/') && ".." !in Components(name)
  }

  /** What the strict check asks of a member on its own. */
  predicate PlainMember(m: Member) {
    && !m.encrypted && '\\' !in m.filename && ':' !in NameOf(m) && "." !in Components(NameOf(m))
    && m.original == m.filename && (m.compression == Stored || m.compression == Deflated)
  }

  /** The size is within the single limit and, where there is one, within the ratio to the packed size. */
  predicate ModestMember(l: Limits, m: Member) {
    m.size <= l.single && (l.ratio.Some? && m.packed > 0 ==> m.size <= m.packed * l.ratio.value)
  }

  predicate ListableMember(l: Limits, m: Member) {
    RelativeName(NameOf(m)) && ModestMember(l, m) && (l.strict ==> PlainMember(m))
  }

  lemma UnrefusedMembers(l: Limits, m: Member, seen: set<string>, before: nat)
    ensures Refusal(l, m, seen, before).None? <==>
      ListableMember(l, m) && before + m.size <= l.total && (l.strict ==> NameOf(m) !in seen)
  {
  }

  /** Which limit a refused member broke: a size is only blamed on a member whose name, and for the total whose ratio, is in order. */
  lemma RefusalsNameTheirReason(l: Limits, m: Member, seen: set<string>, before: nat)
    ensures Refusal(l, m, seen, before) == Some(ExceedsLimit) <==>
      && RelativeName(NameOf(m)) && (l.strict ==> PlainMember(m) && NameOf(m) !in seen)
      && (m.size > l.single || (ModestMember(l, m) && before + m.size > l.total))
    ensures Refusal(l, m, seen, before) != Some(Invalid)
  {
  }

  lemma {:induction false} TotalsGrow(members: seq<Member>, k: nat)
    requires k <= |members|
    ensures Total(members[..k]) <= Total(members)
    decreases |members| - k
  {
    if k < |members| {
      assert members[..k + 1][..k] == members[..k];
      TotalsGrow(members, k + 1);
    } else {
      assert members[..k] == members;
    }
  }

  predicate RepeatsAName(members: seq<Member>) {
    exists i, j :: 0 <= i < j < |members| && NameOf(members[i]) == NameOf(members[j])
  }

  lemma SeenNames(members: seq<Member>, k: nat)
    requires k < |members|
    ensures NameOf(members[k]) in Names(members[..k]) <==> exists i :: 0 <= i < k && NameOf(members[i]) == NameOf(members[k])
  {
    assert forall i :: 0 <= i < k ==> members[..k][i] == members[i];
    if i :| 0 <= i < k && NameOf(members[i]) == NameOf(members[k]) {
      assert NameOf(members[..k][i]) in Names(members[..k]);
    }
  }

  /** An archive is listed exactly when its members are few enough, listable one by one, small enough in all, and named apart. */
  lemma ListedExactly(l: Limits, members: seq<Member>)
    ensures InventoryOf(l, members).Listed? <==>
      && |members| <= l.entries && (forall k :: 0 <= k < |members| ==> ListableMember(l, members[k]))
      && Total(members) <= l.total && (l.strict ==> !RepeatsAName(members))
  {
    if InventoryOf(l, members).Listed? {
      ListedTotalIsBounded(l, members);
      forall k | 0 <= k < |members| ensures ListableMember(l, members[k]) {
        ListedRefusesNobody(l, members, k);
        UnrefusedMembers(l, members[k], Names(members[..k]), Total(members[..k]));
      }
      if l.strict && RepeatsAName(members) {
        var i, j :| 0 <= i < j < |members| && NameOf(members[i]) == NameOf(members[j]);
        ListedRefusesNobody(l, members, j);
        SeenNames(members, j);
      }
    } else if |members| <= l.entries {
      var k := SomeoneIsRefused(l, members);
      UnrefusedMembers(l, members[k], Names(members[..k]), Total(members[..k]));
      SeenNames(members, k);
      assert members[..k + 1][..k] == members[..k];
      TotalsGrow(members, k + 1);
    }
  }

  lemma SomeoneIsRefused(l: Limits, members: seq<Member>) returns (k: nat)
    requires InventoryOf(l, members).Refused? && |members| <= l.entries
    ensures k < |members| && RefusalAt(l, members, k).Some?
  {
    k :| k < |members| && RefusalAt(l, members, k) == Some(InventoryOf(l, members).error);
  }

  // ----- the content policy -----

  /** Too little, too much, too much announced, or more than was announced. */
  lemma SizesAnswer(rd: Reader, c: Content)
    ensures SizeError(c).None? <==> 1 <= |c.bytes| <= 5 * 1024 * 1024 && |c.bytes| <= c.reported <= 5 * 1024 * 1024
    ensures c.bytes == [] ==> Evaluate(rd, c) == Rejected(Unsupported)
    ensures c.bytes != [] && (|c.bytes| > 5 * 1024 * 1024 || c.reported > 5 * 1024 * 1024) ==> Evaluate(rd, c) == Rejected(ExceedsLimit)
    ensures 1 <= |c.bytes| <= 5 * 1024 * 1024 && c.reported < |c.bytes| ==> Evaluate(rd, c) == Rejected(Invalid)
  {
  }

  /** Content of acceptable size is accepted as what it is declared to be, or unsupported. */
  lemma OtherRefusalsAreUnsupported(rd: Reader, c: Content)
    requires SizeError(c).None?
    ensures (c.declared.Some? && Evaluate(rd, c) == Accepted(c.declared.value)) || Evaluate(rd, c) == Rejected(Unsupported)
  {
    SignaturesExclude(c.bytes);
  }

  /** The byte is the character, or, ignoring case, its capital. */
  predicate IsLetter(b: Byte, c: char, anyCase: bool) {
    (b as int) as char == c || (anyCase && 65 <= b <= 90 && ((b + 32) as int) as char == c)
  }

  /** The text stands at position `k`, before the end of the first 8192 bytes. */
  predicate StandsAt(p: Bytes, text: string, k: nat, anyCase: bool) {
    k + |text| <= |p| && k + |text| <= 8192 && forall j :: 0 <= j < |text| ==> IsLetter(p[k + j], text[j], anyCase)
  }

  predicate Shows(p: Bytes, text: string, anyCase: bool) {
    exists k :: 0 <= k <= |p| && StandsAt(p, text, k, anyCase)
  }

  predicate Spells(part: Bytes, text: string) {
    |part| == |text| && forall j :: 0 <= j < |part| ==> (part[j] as int) as char == text[j]
  }

  function Head(p: Bytes): Bytes {
    p[..if |p| < PDF_WINDOW then |p| else PDF_WINDOW]
  }

  lemma OccursLetterwise(p: Bytes, part: Bytes, k: nat)
    ensures OccursAt(p, part, k) <==> k + |part| <= |p| && forall j :: 0 <= j < |part| ==> p[k + j] == part[j]
  {
  }

  lemma ContainsIsShows(p: Bytes, part: Bytes, text: string)
    requires Spells(part, text)
    ensures Contains(Head(p), part) <==> Shows(p, text, false)
  {
    forall k: nat ensures OccursAt(Head(p), part, k) <==> StandsAt(p, text, k, false) {
      if k + |part| <= |Head(p)| {
        OccursLetterwise(Head(p), part, k);
      }
    }
  }

  lemma LoweredContainsIsShows(p: Bytes, part: Bytes, text: string)
    requires Spells(part, text) && forall j :: 0 <= j < |part| ==> !(65 <= part[j] <= 90)
    ensures Contains(Map(LowerByte, Head(p)), part) <==> Shows(p, text, true)
  {
    var lowered := Map(LowerByte, Head(p));
    forall k: nat ensures OccursAt(lowered, part, k) <==> StandsAt(p, text, k, true) {
      if k + |part| <= |lowered| {
        OccursLetterwise(lowered, part, k);
      }
    }
  }

  /** A PDF is accepted exactly when its first 8192 bytes show neither an encryption dictionary nor active markup. */
  lemma PdfAcceptance(rd: Reader, c: Content)
    requires SizeError(c).None? && c.declared == Some(Pdf)
    ensures Evaluate(rd, c) == Accepted(Pdf) <==>
      && HasPrefix(c.bytes, [0x25, 0x50, 0x44, 0x46, 0x2D]) && !Shows(c.bytes, "/Encrypt", false)
      && !Shows(c.bytes, "<html", true) && !Shows(c.bytes, "<script", true) && !Shows(c.bytes, "javascript:", true)
  {
    ContainsIsShows(c.bytes, [0x2F, 0x45, 0x6E, 0x63, 0x72, 0x79, 0x70, 0x74], "/Encrypt");
    LoweredContainsIsShows(c.bytes, [0x3C, 0x68, 0x74, 0x6D, 0x6C], "<html");
    LoweredContainsIsShows(c.bytes, [0x3C, 0x73, 0x63, 0x72, 0x69, 0x70, 0x74], "<script");
    LoweredContainsIsShows(c.bytes, [0x6A, 0x61, 0x76, 0x61, 0x73, 0x63, 0x72, 0x69, 0x70, 0x74, 0x3A], "javascript:");
  }

  /** Images are accepted by their signature; a JPEG needs a nonzero byte behind it. */
  lemma ImageAcceptance(rd: Reader, c: Content)
    requires SizeError(c).None?
    ensures c.declared == Some(Jpeg) ==>
      (Evaluate(rd, c) == Accepted(Jpeg) <==> HasPrefix(c.bytes, [0xFF, 0xD8, 0xFF]) && |c.bytes| >= 4 && c.bytes[3] != 0)
    ensures c.declared == Some(Png) ==>
      (Evaluate(rd, c) == Accepted(Png) <==> HasPrefix(c.bytes, [0x89, 0x50, 0x4E, 0x47, 0x0D, 0x0A, 0x1A, 0x0A]))
  {
  }

  /** The signatures no plain text may begin with. */
  const SIGNATURES: seq<Bytes> := [[0x25, 0x50, 0x44, 0x46, 0x2D], [0xFF, 0xD8, 0xFF], [0x89, 0x50, 0x4E, 0x47, 0x0D, 0x0A, 0x1A, 0x0A],
                                   [0x50, 0x4B, 0x03, 0x04], [0x50, 0x4B, 0x05, 0x06], [0xD0, 0xCF, 0x11, 0xE0], [0x4D, 0x5A],
                                   [0x7F, 0x45, 0x4C, 0x46], [0x52, 0x61, 0x72, 0x21], [0x37, 0x7A, 0xBC, 0xAF, 0x27, 0x1C], [0x1F, 0x8B]]

  predicate Signed(p: Bytes) {
    exists k :: 0 <= k < |SIGNATURES| && HasPrefix(p, SIGNATURES[k])
  }

  lemma SignedMeans(p: Bytes)
    ensures Signed(p) <==> HasPrefix(p, PDF) || HasPrefix(p, JPEG) || HasPrefix(p, PNG) || IsZip(p) || IsHostile(p)
  {
    assert SIGNATURES[..5] == [PDF, JPEG, PNG, ZIP_LOCAL, ZIP_EMPTY] && SIGNATURES[5..] == HOSTILE;
    assert forall k :: 0 <= k < 6 ==> SIGNATURES[5..][k] == SIGNATURES[5 + k];
    assert forall k :: 0 <= k < 5 ==> SIGNATURES[..5][k] == SIGNATURES[k];
    if k :| 0 <= k < |HOSTILE| && HasPrefix(p, HOSTILE[k]) { assert HasPrefix(p, SIGNATURES[5 + k]); }
    if k :| 0 <= k < |SIGNATURES| && HasPrefix(p, SIGNATURES[k]) {
      if k >= 5 { assert HasPrefix(p, HOSTILE[k - 5]); }
    }
    assert HasPrefix(p, PDF) ==> HasPrefix(p, SIGNATURES[0]);
    assert HasPrefix(p, JPEG) ==> HasPrefix(p, SIGNATURES[1]);
    assert HasPrefix(p, PNG) ==> HasPrefix(p, SIGNATURES[2]);
    assert HasPrefix(p, ZIP_LOCAL) ==> HasPrefix(p, SIGNATURES[3]);
    assert HasPrefix(p, ZIP_EMPTY) ==> HasPrefix(p, SIGNATURES[4]);
  }

  /** Plain text is accepted exactly when it begins with no known signature and decodes to characters without NUL. */
  lemma TextAcceptance(rd: Reader, c: Content)
    requires SizeError(c).None? && c.declared == Some(Txt)
    ensures Evaluate(rd, c) == Accepted(Txt) <==>
      !Signed(c.bytes) && rd.decode(c.bytes).Some? && '\0' !in rd.decode(c.bytes).value
  {
    SignedMeans(c.bytes);
  }

  predicate HasMember(members: seq<Member>, name: string) {
    exists k :: 0 <= k < |members| && NameOf(members[k]) == name
  }

  predicate ZipOf(rd: Reader, p: Bytes, members: seq<Member>) {
    (HasPrefix(p, [0x50, 0x4B, 0x03, 0x04]) || HasPrefix(p, [0x50, 0x4B, 0x05, 0x06])) && rd.directory(p) == Some(members)
  }

  lemma ListedNames(l: Limits, members: seq<Member>, name: string)
    requires InventoryOf(l, members).Listed?
    ensures name in InventoryOf(l, members).names <==> HasMember(members, name)
  {
  }

  /** The bounds of a word processing archive: 256 members, 8 MiB each, 20 MiB together, every name relative. */
  predicate DocxArchive(members: seq<Member>) {
    && |members| <= 256 && Total(members) <= 20 * 1024 * 1024
    && forall k :: 0 <= k < |members| ==> RelativeName(NameOf(members[k])) && members[k].size <= 8 * 1024 * 1024
  }

  /** The bounds of a spreadsheet archive: 512 plain members besides, packed at most 100 to 1, no name twice. */
  predicate XlsxArchive(members: seq<Member>) {
    && |members| <= 512 && Total(members) <= 20 * 1024 * 1024 && !RepeatsAName(members)
    && forall k :: 0 <= k < |members| ==>
         && RelativeName(NameOf(members[k])) && PlainMember(members[k]) && members[k].size <= 8 * 1024 * 1024
         && (members[k].packed > 0 ==> members[k].size <= 100 * members[k].packed)
  }

  lemma ArchivesAreListed(members: seq<Member>)
    ensures InventoryOf(DOCX_LIMITS, members).Listed? <==> DocxArchive(members)
    ensures InventoryOf(XLSX_LIMITS, members).Listed? <==> XlsxArchive(members)
  {
    ListedExactly(DOCX_LIMITS, members);
    ListedExactly(XLSX_LIMITS, members);
    forall k | 0 <= k < |members|
      ensures ListableMember(DOCX_LIMITS, members[k]) <==> RelativeName(NameOf(members[k])) && members[k].size <= 8 * 1024 * 1024
      ensures ListableMember(XLSX_LIMITS, members[k]) <==>
        && RelativeName(NameOf(members[k])) && PlainMember(members[k]) && members[k].size <= 8 * 1024 * 1024
        && (members[k].packed > 0 ==> members[k].size <= 100 * members[k].packed)
    {
    }
  }

  /** The parts a word processing document must and must not have. */
  predicate HasDocxParts(members: seq<Member>) {
    HasMember(members, "[Content_Types].xml") && HasMember(members, "word/document.xml") && !HasMember(members, "xl/workbook.xml")
  }

  predicate HasXlsxParts(members: seq<Member>) {
    HasMember(members, "[Content_Types].xml") && HasMember(members, "xl/workbook.xml") && !HasMember(members, "word/document.xml")
  }

  lemma DocxIsRecognised(rd: Reader, p: Bytes, members: seq<Member>)
    requires rd.directory(p) == Some(members)
    ensures Recognised(rd, p, Docx) <==> ZipOf(rd, p, members) && DocxArchive(members) && HasDocxParts(members)
  {
    ArchivesAreListed(members);
    if DocxArchive(members) {
      ListedNames(DOCX_LIMITS, members, "[Content_Types].xml");
      ListedNames(DOCX_LIMITS, members, "word/document.xml");
      ListedNames(DOCX_LIMITS, members, "xl/workbook.xml");
    }
  }

  lemma XlsxIsRecognised(rd: Reader, p: Bytes, members: seq<Member>)
    requires rd.directory(p) == Some(members)
    ensures Recognised(rd, p, Xlsx) <==> ZipOf(rd, p, members) && XlsxArchive(members) && HasXlsxParts(members)
  {
    ArchivesAreListed(members);
    if XlsxArchive(members) {
      ListedNames(XLSX_LIMITS, members, "[Content_Types].xml");
      ListedNames(XLSX_LIMITS, members, "word/document.xml");
      ListedNames(XLSX_LIMITS, members, "xl/workbook.xml");
    }
  }

  /** Office archives are recognised by their bounds and by having the content types and their own main part, not the other's. */
  lemma OfficeRecognition(rd: Reader, p: Bytes)
    ensures Recognised(rd, p, Docx) <==> exists members :: ZipOf(rd, p, members) && DocxArchive(members) && HasDocxParts(members)
    ensures Recognised(rd, p, Xlsx) <==> exists members :: ZipOf(rd, p, members) && XlsxArchive(members) && HasXlsxParts(members)
  {
    if rd.directory(p).Some? {
      DocxIsRecognised(rd, p, rd.directory(p).value);
      XlsxIsRecognised(rd, p, rd.directory(p).value);
    }
  }

  // ----- what else an office archive may not contain -----

  /** The part of the name that begins at `i` and has no slash before its end. */
  predicate BaseAt(name: string, i: nat) {
    i <= |name| && '/' !in name[i..] && (i == 0 || name[i - 1] == '/')
  }

  lemma {:induction false} NoSlashNoSplit(s: string)
    ensures '/' !in s <==> |Components(s)| == 1
    ensures '/' !in s ==> Components(s) == [s]
    decreases |s|
  {
    if s != [] {
      NoSlashNoSplit(s[1..]);
      assert s == [s[0]] + s[1..];
    }
  }

  /** The last part of a name is what follows its last slash. */
  lemma {:induction false} BaseIsLastComponent(name: string, i: nat)
    requires BaseAt(name, i)
    ensures LastComponent(name) == name[i..]
    decreases |name|
  {
    NoSlashNoSplit(name);
    if i == 0 {
      assert name[0..] == name;
    } else {
      assert name[1..][i - 1..] == name[i..];
      NoSlashNoSplit(name[1..]);
      assert i > 1 ==> name[1..][i - 2] == '/';
      BaseIsLastComponent(name[1..], i - 1);
    }
  }

  lemma {:induction false} EveryNameHasABase(name: string) returns (i: nat)
    ensures BaseAt(name, i)
    decreases |name|
  {
    if name == [] || name[|name| - 1] == '/' {
      i := |name|;
    } else {
      var front := name[..|name| - 1];
      i := EveryNameHasABase(front);
      assert name[i..] == front[i..] + [name[|name| - 1]];
    }
  }

  predicate MarkerAt(rd: Reader, name: string, i: nat) {
    BaseAt(name, i) && (rd.lower(name[i..]) == "encryptioninfo" || rd.lower(name[i..]) == "encryptedpackage")
  }

  predicate Marked(rd: Reader, name: string) {
    exists i :: 0 <= i <= |name| && MarkerAt(rd, name, i)
  }

  /** Some member, in whatever folder, is one of the two parts of an encrypted document. */
  predicate Encrypted(rd: Reader, members: seq<Member>) {
    exists k :: 0 <= k < |members| && Marked(rd, NameOf(members[k]))
  }

  lemma MarkedIsMarker(rd: Reader, name: string)
    ensures Marked(rd, name) <==> rd.lower(LastComponent(name)) in ["encryptioninfo", "encryptedpackage"]
  {
    var i := EveryNameHasABase(name);
    BaseIsLastComponent(name, i);
    assert MarkerAt(rd, name, i) <==> rd.lower(LastComponent(name)) in ["encryptioninfo", "encryptedpackage"];
    if j :| 0 <= j <= |name| && MarkerAt(rd, name, j) { BaseIsLastComponent(name, j); }
  }

  predicate LinksOutside(members: seq<Member>) {
    exists k :: 0 <= k < |members| && "xl/externalLinks/" <= NameOf(members[k])
  }

  lemma ListedMarkers(rd: Reader, members: seq<Member>, names: set<string>)
    requires forall name :: name in names <==> HasMember(members, name)
    ensures HasEncryptionMarker(rd, names) <==> Encrypted(rd, members)
    ensures HasExternalLinks(names) <==> LinksOutside(members)
  {
    forall name { MarkedIsMarker(rd, name); }
    forall k | 0 <= k < |members| ensures NameOf(members[k]) in names {
      assert HasMember(members, NameOf(members[k]));
    }
  }

  /** What is accepted as a word processing document. */
  ghost predicate IsDocx(rd: Reader, p: Bytes, members: seq<Member>) {
    && ZipOf(rd, p, members) && DocxArchive(members) && HasDocxParts(members)
    && !HasMember(members, "word/vbaProject.bin") && !Encrypted(rd, members)
  }

  /** What is accepted as a spreadsheet. */
  ghost predicate IsXlsx(rd: Reader, p: Bytes, members: seq<Member>) {
    && ZipOf(rd, p, members) && XlsxArchive(members) && HasXlsxParts(members)
    && !HasMember(members, "xl/vbaProject.bin") && !HasMember(members, "xl/connections.xml")
    && !Encrypted(rd, members) && !LinksOutside(members) && !rd.macroTypes(p) && !rd.externalLinks(p)
  }

  /** An office document is accepted exactly when its archive is within bounds, of its kind, and free of active or linked parts. */
  lemma OfficeAcceptance(rd: Reader, c: Content)
    requires SizeError(c).None?
    ensures c.declared == Some(Docx) ==> (Evaluate(rd, c) == Accepted(Docx) <==> exists members :: IsDocx(rd, c.bytes, members))
    ensures c.declared == Some(Xlsx) ==> (Evaluate(rd, c) == Accepted(Xlsx) <==> exists members :: IsXlsx(rd, c.bytes, members))
  {
    if rd.directory(c.bytes).Some? {
      var members := rd.directory(c.bytes).value;
      if c.declared == Some(Docx) { DocxIsAccepted(rd, c, members); }
      if c.declared == Some(Xlsx) { XlsxIsAccepted(rd, c, members); }
    }
  }

  lemma ListedAre(rd: Reader, l: Limits, members: seq<Member>)
    requires InventoryOf(l, members).Listed?
    ensures var names := InventoryOf(l, members).names;
      && (forall name :: name in names <==> HasMember(members, name))
      && (HasEncryptionMarker(rd, names) <==> Encrypted(rd, members)) && (HasExternalLinks(names) <==> LinksOutside(members))
  {
    var names := InventoryOf(l, members).names;
    forall name ensures name in names <==> HasMember(members, name) { ListedNames(l, members, name); }
    ListedMarkers(rd, members, names);
  }

  lemma DocxIsAccepted(rd: Reader, c: Content, members: seq<Member>)
    requires SizeError(c).None? && c.declared == Some(Docx) && rd.directory(c.bytes) == Some(members)
    ensures Evaluate(rd, c) == Accepted(Docx) <==> IsDocx(rd, c.bytes, members)
  {
    DocxAcceptance(rd, c);
    DocxIsRecognised(rd, c.bytes, members);
    if Recognised(rd, c.bytes, Docx) { ListedAre(rd, DOCX_LIMITS, members); }
  }

  lemma XlsxNames(rd: Reader, p: Bytes, members: seq<Member>)
    requires InventoryOf(XLSX_LIMITS, members).Listed? && rd.directory(p) == Some(members)
    ensures var names := PayloadInventory(rd, XLSX_LIMITS, p).names;
      (XLSX_VBA !in names && !HasEncryptionMarker(rd, names) && !HasExternalLinks(names) && XLSX_CONNECTIONS !in names) <==>
      (&& !HasMember(members, "xl/vbaProject.bin") && !HasMember(members, "xl/connections.xml")
       && !Encrypted(rd, members) && !LinksOutside(members))
  {
    ListedAre(rd, XLSX_LIMITS, members);
  }

  lemma XlsxIsAccepted(rd: Reader, c: Content, members: seq<Member>)
    requires SizeError(c).None? && c.declared == Some(Xlsx) && rd.directory(c.bytes) == Some(members)
    ensures Evaluate(rd, c) == Accepted(Xlsx) <==> IsXlsx(rd, c.bytes, members)
  {
    XlsxIsRecognised(rd, c.bytes, members);
    if Recognised(rd, c.bytes, Xlsx) {
      ArchivesAreListed(members);
      XlsxAcceptance(rd, c);
      XlsxNames(rd, c.bytes, members);
    }
  }
}
