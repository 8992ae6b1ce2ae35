/** Attachment signatures, the bounded ZIP inventory, kind detection and the content policy built on them. */
module AttachmentPolicy {
  import opened ByteStrings
  import opened Collections
  import opened Text

  datatype Compression = Stored | Deflated | OtherCompression

  /** One central directory record; `original` is the name before the reader normalised it. */
  datatype Member = Member(filename: string, original: string, encrypted: bool, size: nat, packed: nat, compression: Compression)

  datatype Limits = Limits(entries: nat, single: nat, total: nat, ratio: Option<nat>, strict: bool)

  const DOCX_LIMITS := Limits(256, 8 * 1024 * 1024, 20 * 1024 * 1024, None, false)
  const XLSX_LIMITS := Limits(512, 8 * 1024 * 1024, 20 * 1024 * 1024, Some(100), true)

  datatype Error = Unsupported | ExceedsLimit | Invalid

  datatype Inventory = Listed(names: set<string>, count: nat, total: nat) | Refused(error: Error)

  // ----- names -----

  /** `replace("\\", "/")`. */
  function Slashed(s: string): (r: string)
    ensures |r| == |s|
    ensures forall k :: 0 <= k < |s| ==> r[k] == if s[k] == '\\' then '/' else s[k]
  {
    seq(|s|, k requires 0 <= k < |s| => if s[k] == '\\' then '/' else s[k])
  }

  /** `split("/")`. */
  function Components(s: string): (r: seq<string>)
    ensures |r| >= 1
    decreases |s|
  {
    if s == [] then [[]]
    else if s[0] == '/' then [[]] + Components(s[1..])
    else var rest := Components(s[1..]); [[s[0]] + rest[0]] + rest[1..]
  }

  function NameOf(m: Member): string {
    Slashed(m.filename)
  }

  function Names(members: seq<Member>): set<string> {
    set k | 0 <= k < |members| :: NameOf(members[k])
  }

  function Total(members: seq<Member>): nat {
    if members == [] then 0 else Total(members[..|members| - 1]) + members[|members| - 1].size
  }

  // ----- the inventory -----

  /** What the strict container check refuses about one member, given the names seen before it. */
  predicate StrictlyRefused(m: Member, seen: set<string>) {
    || m.encrypted || NameOf(m) in seen || '\\' in m.filename || ':' in NameOf(m) || "." in Components(NameOf(m))
    || m.original != m.filename || m.compression == OtherCompression
  }

  predicate Overcompressed(l: Limits, m: Member) {
    l.ratio.Some? && m.packed > 0 && m.size > m.packed * l.ratio.value
  }

  /** The first check one member fails, in the order they are made. */
  function Refusal(l: Limits, m: Member, seen: set<string>, before: nat): Option<Error> {
    if l.strict && StrictlyRefused(m, seen) then Some(Unsupported)
    else if (NameOf(m) != [] && NameOf(m)[0] == '/') || ".." in Components(NameOf(m)) then Some(Unsupported)
    else if m.size > l.single then Some(ExceedsLimit)
    else if Overcompressed(l, m) then Some(Unsupported)
    else if before + m.size > l.total then Some(ExceedsLimit)
    else None
  }

  /** The refusal of the k-th member, with what was seen before it. */
  function RefusalAt(l: Limits, members: seq<Member>, k: nat): Option<Error>
    requires k < |members|
  {
    Refusal(l, members[k], Names(members[..k]), Total(members[..k]))
  }

  /** `_zip_member_inventory`: the exact result, or the error of the first member that is refused. */
  ghost predicate IsInventory(l: Limits, members: seq<Member>, r: Inventory) {
    if |members| > l.entries then r == Refused(Unsupported) else
      match r
      case Listed(names, count, total) =>
        && names == Names(members) && count == |members| && total == Total(members)
        && forall k :: 0 <= k < |members| ==> RefusalAt(l, members, k).None?
      case Refused(error) =>
        exists k :: 0 <= k < |members| && RefusalAt(l, members, k) == Some(error)
                    && forall j :: 0 <= j < k ==> RefusalAt(l, members, j).None?
  }

  method MemberInventory(l: Limits, members: seq<Member>) returns (r: Inventory)
    ensures IsInventory(l, members, r)
  {
    if |members| > l.entries { return Refused(Unsupported); }
    var total, names := 0, {};
    for k := 0 to |members|
      invariant names == Names(members[..k]) && total == Total(members[..k])
      invariant forall j :: 0 <= j < k ==> RefusalAt(l, members, j).None?
    {
      var m := members[k];
      var name := NameOf(m);
      assert RefusalAt(l, members, k) == Refusal(l, m, names, total);
      if l.strict && StrictlyRefused(m, names) { return Refused(Unsupported); }
      if (name != [] && name[0] == '/') || ".." in Components(name) { return Refused(Unsupported); }
      if m.size > l.single { return Refused(ExceedsLimit); }
      if Overcompressed(l, m) { return Refused(Unsupported); }
      total := total + m.size;
      if total > l.total { return Refused(ExceedsLimit); }
      AddName(members, k);
      assert members[..k + 1][..k] == members[..k];
      names := names + {name};
    }
    assert members[..|members|] == members;
    r := Listed(names, |members|, total);
  }

  lemma AddName(members: seq<Member>, k: nat)
    requires k < |members|
    ensures Names(members[..k + 1]) == Names(members[..k]) + {NameOf(members[k])}
  {
  }

  /** There is only one inventory. */
  lemma InventoryIsUnique(l: Limits, members: seq<Member>, q: Inventory, r: Inventory)
    requires IsInventory(l, members, q) && IsInventory(l, members, r)
    ensures q == r
  {
  }

  /** The inventory as a value. */
  ghost function InventoryOf(l: Limits, members: seq<Member>): (r: Inventory)
    ensures IsInventory(l, members, r)
  {
    InventoryExists(l, members);
    var r :| IsInventory(l, members, r);
    r
  }

  lemma InventoryExists(l: Limits, members: seq<Member>)
    ensures exists r :: IsInventory(l, members, r)
  {
    if |members| > l.entries {
      assert IsInventory(l, members, Refused(Unsupported));
    } else if forall k :: 0 <= k < |members| ==> RefusalAt(l, members, k).None? {
      assert IsInventory(l, members, Listed(Names(members), |members|, Total(members)));
    } else {
      var k := FirstRefused(l, members);
      assert IsInventory(l, members, Refused(RefusalAt(l, members, k).value));
    }
  }

  lemma FirstRefused(l: Limits, members: seq<Member>) returns (k: nat)
    requires exists j :: 0 <= j < |members| && RefusalAt(l, members, j).Some?
    ensures k < |members| && RefusalAt(l, members, k).Some? && forall j :: 0 <= j < k ==> RefusalAt(l, members, j).None?
  {
    k := 0;
    while RefusalAt(l, members, k).None?
      invariant k < |members| && forall j :: 0 <= j < k ==> RefusalAt(l, members, j).None?
      invariant exists j :: k <= j < |members| && RefusalAt(l, members, j).Some?
      decreases |members| - k
    {
      k := k + 1;
    }
  }

  // ----- what a successful inventory guarantees -----

  lemma NotRefusedMeansBounded(l: Limits, m: Member, seen: set<string>, before: nat)
    requires Refusal(l, m, seen, before).None?
    ensures m.size <= l.single && before + m.size <= l.total && !Overcompressed(l, m)
    ensures ".." !in Components(NameOf(m)) && (NameOf(m) == [] || NameOf(m)[0] != '/')
  {
  }

  lemma ListedRefusesNobody(l: Limits, members: seq<Member>, k: nat)
    requires InventoryOf(l, members).Listed? && k < |members|
    ensures |members| <= l.entries && RefusalAt(l, members, k).None?
  {
  }

  lemma ListedTotalIsBounded(l: Limits, members: seq<Member>)
    requires InventoryOf(l, members).Listed?
    ensures Total(members) <= l.total
  {
    if members != [] {
      var n := |members| - 1;
      ListedRefusesNobody(l, members, n);
      NotRefusedMeansBounded(l, members[n], Names(members[..n]), Total(members[..n]));
    }
  }

  /** Every per-member, ratio and total bound holds, and no name is absolute or climbs. */
  lemma ListedMembersAreBounded(l: Limits, members: seq<Member>, k: nat)
    requires InventoryOf(l, members).Listed? && k < |members|
    ensures |members| <= l.entries && members[k].size <= l.single && Total(members) <= l.total && !Overcompressed(l, members[k])
    ensures ".." !in Components(NameOf(members[k])) && (NameOf(members[k]) == [] || NameOf(members[k])[0] != '/')
  {
    ListedRefusesNobody(l, members, k);
    ListedTotalIsBounded(l, members);
    NotRefusedMeansBounded(l, members[k], Names(members[..k]), Total(members[..k]));
  }

  /** In strict mode the names are pairwise distinct, so the count is the number of names. */
  lemma StrictNamesAreDistinct(l: Limits, members: seq<Member>)
    requires l.strict && InventoryOf(l, members).Listed?
    ensures Distinct(Map(NameOf, members))
    ensures |Names(members)| == |members|
  {
    var names := Map(NameOf, members);
    forall i, j | 0 <= i < j < |names| ensures names[i] != names[j] {
      assert RefusalAt(l, members, j).None?;
      assert members[..j][i] == members[i];
      assert names[i] in Names(members[..j]);
    }
    DistinctCount(names);
    assert Elements(names) == Names(members) by {
      forall n | n in Names(members) ensures n in names {
        var k :| 0 <= k < |members| && n == NameOf(members[k]);
        assert names[k] == n;
      }
      forall n | n in names ensures n in Names(members) {
        var k :| 0 <= k < |names| && names[k] == n;
      }
    }
  }

  /** Walking a relative path from the root: the directories below the root, or None once it leaves the root. */
  function Walk(path: seq<string>): Option<seq<string>> {
    if path == [] then Some([]) else
      match Walk(path[..|path| - 1])
      case None => None
      case Some(at) =>
        var step := path[|path| - 1];
        if step == "" || step == "." then Some(at)
        else if step != ".." then Some(at + [step])
        else if at == [] then None
        else Some(at[..|at| - 1])
  }

  lemma {:induction false} WalkWithoutClimbing(path: seq<string>)
    requires ".." !in path
    ensures Walk(path).Some? && |Walk(path).value| <= |path|
  {
    if path != [] {
      var n := |path| - 1;
      assert path[n] in path;
      WalkWithoutClimbing(path[..n]);
    }
  }

  /** Every listed name is relative and stays inside the root at every step of its path. */
  lemma ListedNamesStayInside(l: Limits, members: seq<Member>, k: nat, steps: nat)
    requires InventoryOf(l, members).Listed? && k < |members| && steps <= |Components(NameOf(members[k]))|
    ensures Walk(Components(NameOf(members[k]))[..steps]).Some?
  {
    ListedMembersAreBounded(l, members, k);
    WalkWithoutClimbing(Components(NameOf(members[k]))[..steps]);
  }

  // ----- kinds -----

  datatype Kind = Pdf | Docx | Jpeg | Png | Txt | Xlsx

  const PDF: Bytes := [0x25, 0x50, 0x44, 0x46, 0x2D]
  const JPEG: Bytes := [0xFF, 0xD8, 0xFF]
  const PNG: Bytes := [0x89, 0x50, 0x4E, 0x47, 0x0D, 0x0A, 0x1A, 0x0A]
  const ZIP_LOCAL: Bytes := [0x50, 0x4B, 0x03, 0x04]
  const ZIP_EMPTY: Bytes := [0x50, 0x4B, 0x05, 0x06]

  /** OLE, MZ, ELF, RAR, 7z and gzip. */
  const HOSTILE: seq<Bytes> := [[0xD0, 0xCF, 0x11, 0xE0], [0x4D, 0x5A], [0x7F, 0x45, 0x4C, 0x46], [0x52, 0x61, 0x72, 0x21],
                                [0x37, 0x7A, 0xBC, 0xAF, 0x27, 0x1C], [0x1F, 0x8B]]

  const CONTENT_TYPES := "[Content_Types].xml"
  const DOCX_DOCUMENT := "word/document.xml"
  const DOCX_VBA := "word/vbaProject.bin"
  const XLSX_WORKBOOK := "xl/workbook.xml"
  const XLSX_VBA := "xl/vbaProject.bin"
  const XLSX_CONNECTIONS := "xl/connections.xml"
  const XLSX_EXTERNAL := "xl/externalLinks/"

  /** The libraries that look inside a payload: ZIP directory, text decoders, lower case and the two XML inspections. */
  datatype Reader = Reader(directory: Bytes -> Option<seq<Member>>, decode: Bytes -> Option<string>, lower: string -> string,
                           macroTypes: Bytes -> bool, externalLinks: Bytes -> bool)

  predicate IsZip(p: Bytes) {
    HasPrefix(p, ZIP_LOCAL) || HasPrefix(p, ZIP_EMPTY)
  }

  predicate IsHostile(p: Bytes) {
    exists k :: 0 <= k < |HOSTILE| && HasPrefix(p, HOSTILE[k])
  }

  /** The inventory of a payload; a payload that is not a ZIP archive is unsupported. */
  ghost function PayloadInventory(rd: Reader, l: Limits, p: Bytes): Inventory {
    match rd.directory(p)
    case None => Refused(Unsupported)
    case Some(members) => InventoryOf(l, members)
  }

  ghost predicate LooksLikeDocx(rd: Reader, p: Bytes) {
    var r := PayloadInventory(rd, DOCX_LIMITS, p);
    r.Listed? && CONTENT_TYPES in r.names && DOCX_DOCUMENT in r.names && XLSX_WORKBOOK !in r.names
  }

  ghost predicate LooksLikeXlsx(rd: Reader, p: Bytes) {
    var r := PayloadInventory(rd, XLSX_LIMITS, p);
    r.Listed? && CONTENT_TYPES in r.names && XLSX_WORKBOOK in r.names && DOCX_DOCUMENT !in r.names
  }

  predicate LooksLikeTxt(rd: Reader, p: Bytes) {
    && p != [] && !HasPrefix(p, PDF) && !HasPrefix(p, JPEG) && !HasPrefix(p, PNG) && !IsZip(p) && !IsHostile(p)
    && rd.decode(p).Some? && '\0' !in rd.decode(p).value
  }

  /** Each kind's own recogniser, as if it were alone. */
  ghost predicate Recognised(rd: Reader, p: Bytes, k: Kind) {
    match k
    case Pdf => HasPrefix(p, PDF)
    case Jpeg => HasPrefix(p, JPEG)
    case Png => HasPrefix(p, PNG)
    case Docx => IsZip(p) && LooksLikeDocx(rd, p)
    case Xlsx => IsZip(p) && LooksLikeXlsx(rd, p)
    case Txt => LooksLikeTxt(rd, p)
  }

  method InventoryPayload(rd: Reader, l: Limits, p: Bytes) returns (r: Inventory)
    ensures r == PayloadInventory(rd, l, p)
  {
    var directory := rd.directory(p);
    if directory.None? { return Refused(Unsupported); }
    r := MemberInventory(l, directory.value);
    InventoryIsUnique(l, directory.value, r, InventoryOf(l, directory.value));
  }

  /** `detect_attachment_kind`: collect the matches, accept only a single one. */
  method DetectKind(rd: Reader, p: Bytes) returns (kind: Option<Kind>)
    ensures forall k :: kind == Some(k) <==> Recognised(rd, p, k)
  {
    SignaturesExclude(p);
    if p == [] { return None; }
    var matches: seq<Kind> := [];
    if HasPrefix(p, PDF) { matches := matches + [Pdf]; }
    if HasPrefix(p, JPEG) { matches := matches + [Jpeg]; }
    if HasPrefix(p, PNG) { matches := matches + [Png]; }
    if IsZip(p) {
      DocxIsNotXlsx(rd, p);
      var docx := InventoryPayload(rd, DOCX_LIMITS, p);
      if docx.Listed? && CONTENT_TYPES in docx.names && DOCX_DOCUMENT in docx.names && XLSX_WORKBOOK !in docx.names {
        matches := matches + [Docx];
      }
      var xlsx := InventoryPayload(rd, XLSX_LIMITS, p);
      if xlsx.Listed? && CONTENT_TYPES in xlsx.names && XLSX_WORKBOOK in xlsx.names && DOCX_DOCUMENT !in xlsx.names {
        matches := matches + [Xlsx];
      }
    }
    if LooksLikeTxt(rd, p) && matches == [] { matches := matches + [Txt]; }
    if |matches| != 1 { return None; }
    kind := Some(matches[0]);
  }

  /** No payload begins with two of the signatures. */
  lemma SignaturesExclude(p: Bytes)
    ensures !(HasPrefix(p, PDF) && HasPrefix(p, JPEG)) && !(HasPrefix(p, PDF) && HasPrefix(p, PNG))
    ensures !(HasPrefix(p, JPEG) && HasPrefix(p, PNG))
    ensures IsZip(p) ==> !HasPrefix(p, PDF) && !HasPrefix(p, JPEG) && !HasPrefix(p, PNG) && !IsHostile(p)
    ensures HasPrefix(p, PDF) || HasPrefix(p, JPEG) || HasPrefix(p, PNG) || IsZip(p) ==> p != []
  {
    PrefixesExclude(p, PDF, JPEG, 0);
    PrefixesExclude(p, PDF, PNG, 0);
    PrefixesExclude(p, JPEG, PNG, 0);
    forall zip | zip in [ZIP_LOCAL, ZIP_EMPTY]
      ensures HasPrefix(p, zip) ==> !HasPrefix(p, PDF) && !HasPrefix(p, JPEG) && !HasPrefix(p, PNG) && !IsHostile(p)
    {
      PrefixesExclude(p, zip, PDF, 0);
      PrefixesExclude(p, zip, JPEG, 0);
      PrefixesExclude(p, zip, PNG, 0);
      forall k | 0 <= k < |HOSTILE| ensures !(HasPrefix(p, zip) && HasPrefix(p, HOSTILE[k])) {
        PrefixesExclude(p, zip, HOSTILE[k], 0);
      }
    }
  }

  /** Both inventories list the same names, so the workbook cannot be both absent and present. */
  lemma DocxIsNotXlsx(rd: Reader, p: Bytes)
    ensures !(LooksLikeDocx(rd, p) && LooksLikeXlsx(rd, p))
  {
  }

  /** At most one recogniser matches any payload: the polyglot guard never has to choose. */
  lemma AtMostOneRecogniser(rd: Reader, p: Bytes, a: Kind, b: Kind)
    requires Recognised(rd, p, a) && Recognised(rd, p, b)
    ensures a == b
  {
    SignaturesExclude(p);
    DocxIsNotXlsx(rd, p);
  }

  // ----- the content policy -----

  const MAX_CONTENT := 5 * 1024 * 1024

  /** `declared` is None when the file name and media type do not agree on an allowed kind. */
  datatype Content = Content(bytes: Bytes, reported: int, declared: Option<Kind>)

  datatype Verdict = Accepted(kind: Kind) | Rejected(error: Error)

  function SizeError(c: Content): Option<Error> {
    if |c.bytes| == 0 then Some(Unsupported)
    else if |c.bytes| > MAX_CONTENT then Some(ExceedsLimit)
    else if c.reported > MAX_CONTENT then Some(ExceedsLimit)
    else if |c.bytes| > c.reported then Some(Invalid)
    else None
  }

  function LastComponent(name: string): string {
    var parts := Components(name);
    parts[|parts| - 1]
  }

  /** A member whose own name is one of the two encryption markers. */
  predicate HasEncryptionMarker(rd: Reader, names: set<string>) {
    exists n :: n in names && rd.lower(LastComponent(n)) in ["encryptioninfo", "encryptedpackage"]
  }

  predicate HasExternalLinks(names: set<string>) {
    exists n :: n in names && |XLSX_EXTERNAL| <= |n| && n[..|XLSX_EXTERNAL|] == XLSX_EXTERNAL
  }

  /** `_validate_docx_container`. */
  ghost function DocxError(rd: Reader, p: Bytes): Option<Error> {
    if IsHostile(p) || !IsZip(p) then Some(Unsupported) else
      match PayloadInventory(rd, DOCX_LIMITS, p)
      case Refused(error) => Some(error)
      case Listed(names, _, _) =>
        if DOCX_VBA in names || HasEncryptionMarker(rd, names) || CONTENT_TYPES !in names || DOCX_DOCUMENT !in names
        then Some(Unsupported) else None
  }

  /** `validate_xlsx_container`. */
  ghost function XlsxError(rd: Reader, p: Bytes): Option<Error> {
    if IsHostile(p) || !IsZip(p) then Some(Unsupported) else
      match PayloadInventory(rd, XLSX_LIMITS, p)
      case Refused(error) => Some(error)
      case Listed(names, _, _) =>
        if || XLSX_VBA in names || HasEncryptionMarker(rd, names) || CONTENT_TYPES !in names || XLSX_WORKBOOK !in names
           || DOCX_DOCUMENT in names || HasExternalLinks(names) || XLSX_CONNECTIONS in names
           || rd.macroTypes(p) || rd.externalLinks(p)
        then Some(Unsupported) else None
  }

  const PDF_WINDOW := 8192

  predicate OccursAt(s: Bytes, part: Bytes, k: nat) {
    k + |part| <= |s| && s[k..k + |part|] == part
  }

  predicate Contains(s: Bytes, part: Bytes) {
    exists k :: 0 <= k <= |s| && OccursAt(s, part, k)
  }

  function LowerByte(b: Byte): Byte {
    if 65 <= b <= 90 then b + 32 else b
  }

  /** `_validate_pdf_prefix`: an encryption dictionary or active markup in the first 8192 bytes. */
  predicate PdfRefused(p: Bytes) {
    var window := p[..if |p| < PDF_WINDOW then |p| else PDF_WINDOW];
    var lowered := Map(LowerByte, window);
    || Contains(window, [0x2F, 0x45, 0x6E, 0x63, 0x72, 0x79, 0x70, 0x74])
    || Contains(lowered, [0x3C, 0x68, 0x74, 0x6D, 0x6C]) || Contains(lowered, [0x3C, 0x73, 0x63, 0x72, 0x69, 0x70, 0x74])
    || Contains(lowered, [0x6A, 0x61, 0x76, 0x61, 0x73, 0x63, 0x72, 0x69, 0x70, 0x74, 0x3A])
  }

  /** The check that follows detection, kind by kind. */
  ghost function KindError(rd: Reader, p: Bytes, k: Kind): Option<Error> {
    match k
    case Docx => DocxError(rd, p)
    case Xlsx => XlsxError(rd, p)
    case Txt => if LooksLikeTxt(rd, p) then None else Some(Unsupported)
    case Pdf => if !HasPrefix(p, PDF) || PdfRefused(p) then Some(Unsupported) else None
    case Jpeg => if |p| < 4 || !HasPrefix(p, JPEG) || p[3] == 0 then Some(Unsupported) else None
    case Png => None
  }

  /** `evaluate_attachment_content`. */
  ghost function Evaluate(rd: Reader, c: Content): Verdict {
    if SizeError(c).Some? then Rejected(SizeError(c).value)
    else if c.declared.None? || !Recognised(rd, c.bytes, c.declared.value) then Rejected(Unsupported)
    else match KindError(rd, c.bytes, c.declared.value)
      case Some(error) => Rejected(error)
      case None => Accepted(c.declared.value)
  }

  /** An accepted content is of the declared kind, within every size bound, and no other recogniser matches it. */
  lemma AcceptedMeansRecognised(rd: Reader, c: Content)
    requires Evaluate(rd, c).Accepted?
    ensures var k := Evaluate(rd, c).kind;
      && c.declared == Some(k) && Recognised(rd, c.bytes, k) && (forall other :: Recognised(rd, c.bytes, other) ==> other == k)
      && 1 <= |c.bytes| <= MAX_CONTENT && |c.bytes| <= c.reported <= MAX_CONTENT
  {
    forall other | Recognised(rd, c.bytes, other) ensures other == Evaluate(rd, c).kind {
      AtMostOneRecogniser(rd, c.bytes, other, Evaluate(rd, c).kind);
    }
  }

  /** After detection the DOCX container check can fail for two reasons only: a macro project or an encryption marker. */
  lemma DocxAcceptance(rd: Reader, c: Content)
    requires SizeError(c).None? && c.declared == Some(Docx)
    ensures Evaluate(rd, c) == Accepted(Docx) <==>
      && Recognised(rd, c.bytes, Docx)
      && var names := PayloadInventory(rd, DOCX_LIMITS, c.bytes).names;
         DOCX_VBA !in names && !HasEncryptionMarker(rd, names)
  {
    SignaturesExclude(c.bytes);
  }

  /** After detection the XLSX container check fails only for active or linked content or an encryption marker. */
  lemma XlsxAcceptance(rd: Reader, c: Content)
    requires SizeError(c).None? && c.declared == Some(Xlsx)
    ensures Evaluate(rd, c) == Accepted(Xlsx) <==>
      && Recognised(rd, c.bytes, Xlsx)
      && var names := PayloadInventory(rd, XLSX_LIMITS, c.bytes).names;
         && XLSX_VBA !in names && !HasEncryptionMarker(rd, names) && !HasExternalLinks(names) && XLSX_CONNECTIONS !in names
         && !rd.macroTypes(c.bytes) && !rd.externalLinks(c.bytes)
  {
    SignaturesExclude(c.bytes);
  }

  // ----- the processing budget -----

  /** `AttachmentContentBudget`. */
  class Budget {
    const limit: int
    var consumed: int

    constructor (limit: int, consumed: int)
      ensures this.limit == limit && this.consumed == consumed
    {
      this.limit, this.consumed := limit, consumed;
    }

    method Consume(size: int) returns (error: Option<Error>)
      modifies this`consumed
      ensures consumed == Spend(limit, old(consumed), size)
      ensures error == if size < 0 then Some(Invalid) else if size > old(limit - consumed) then Some(ExceedsLimit) else None
      ensures error.Some? ==> consumed == old(consumed)
    {
      if size < 0 { return Some(Invalid); }
      if consumed + size > limit { return Some(ExceedsLimit); }
      consumed := consumed + size;
      error := None;
    }
  }

  function Spend(limit: int, consumed: int, size: int): int {
    if size < 0 || consumed + size > limit then consumed else consumed + size
  }

  function SpendAll(limit: int, consumed: int, sizes: seq<int>): int {
    if sizes == [] then consumed else Spend(limit, SpendAll(limit, consumed, sizes[..|sizes| - 1]), sizes[|sizes| - 1])
  }

  /** However many payloads are offered, the budget is never overdrawn and never given back. */
  lemma {:induction false} BudgetIsNeverOverdrawn(limit: int, consumed: int, sizes: seq<int>)
    requires 0 <= consumed <= limit
    ensures consumed <= SpendAll(limit, consumed, sizes) <= limit
  {
    if sizes != [] {
      BudgetIsNeverOverdrawn(limit, consumed, sizes[..|sizes| - 1]);
    }
  }
}
