/** Creation intents, their order-independent hash, and why the request's hash and the server's hash agree. */
module WorkItemCreation {
  import opened Collections
  import opened Provenance
  import opened Text
  import opened WorkItemJournal
  import opened WorkItemModel
  import opened WorkItemSources

  /** `CreationIntent`; also the mapping that is hashed. Due values are canonical already. */
  datatype Intent = Intent(origin: Origin, kind: Kind, title: string, description: Option<string>, due: Due,
                           context: Option<Id>, sources: seq<Source>, candidate: Option<Locator>, confirmed: bool)

  /** The digests in use, and the canonical JSON text a source is sorted by. */
  datatype Hashes = Hashes(observation: Digester, intent: Intent -> string, source: Source -> string,
                           locator: Locator -> string, text: Source -> string)

  /**
   SHA-256 yields 64 hexadecimal digits; canonical JSON never gives two sources the same text. No digest is assumed to
   be free of collisions: there are finitely many digests. Results that need two digests to differ name the two.
   */
  ghost predicate Proper(h: Hashes) {
    && Digests(h.observation) && (forall x :: DigestOk(h.intent(x))) && (forall l :: DigestOk(h.locator(l)))
    && (forall a :: DigestOk(h.source(a))) && Injective(h.text)
  }

  ghost predicate Injective(text: Encoder) {
    forall a, b :: text(a) == text(b) ==> a == b
  }

  // ----- sorting by text -----

  type Encoder = Source -> string

  predicate Sorted(text: Encoder, s: seq<Source>) {
    forall i, j :: 0 <= i < j < |s| ==> LexLe(text(s[i]), text(s[j]))
  }

  function Insert(text: Encoder, x: Source, s: seq<Source>): seq<Source> {
    if s == [] || LexLe(text(x), text(s[0])) then [x] + s else [s[0]] + Insert(text, x, s[1..])
  }

  /** `sorted(sources, key=canonical_json)`. */
  function SortSources(text: Encoder, s: seq<Source>): seq<Source> {
    if s == [] then [] else Insert(text, s[0], SortSources(text, s[1..]))
  }

  lemma {:induction false} InsertPermutes(text: Encoder, x: Source, s: seq<Source>)
    ensures multiset(Insert(text, x, s)) == multiset{x} + multiset(s)
  {
    if s != [] && !LexLe(text(x), text(s[0])) {
      InsertPermutes(text, x, s[1..]);
      assert s == [s[0]] + s[1..];
    }
  }

  lemma {:induction false} InsertKeepsSorted(text: Encoder, x: Source, s: seq<Source>)
    requires Sorted(text, s)
    ensures Sorted(text, Insert(text, x, s))
  {
    var r := Insert(text, x, s);
    if s == [] {
    } else if LexLe(text(x), text(s[0])) {
      forall j | 0 < j < |r| ensures LexLe(text(x), text(r[j])) {
        assert j > 1 ==> LexLe(text(s[0]), text(s[j - 1]));
        if j > 1 { LexTransitive(text(x), text(s[0]), text(s[j - 1])); }
      }
    } else {
      var tail := Insert(text, x, s[1..]);
      InsertKeepsSorted(text, x, s[1..]);
      InsertPermutes(text, x, s[1..]);
      LexTotal(text(x), text(s[0]));
      forall y | y in tail ensures LexLe(text(s[0]), text(y)) {
        assert y in multiset(tail);
        assert y != x ==> y in s[1..];
      }
      assert forall j :: 0 < j < |r| ==> r[j] == tail[j - 1];
    }
  }

  lemma {:induction false} SortSorts(text: Encoder, s: seq<Source>)
    ensures multiset(SortSources(text, s)) == multiset(s)
    ensures Sorted(text, SortSources(text, s))
  {
    if s != [] {
      SortSorts(text, s[1..]);
      InsertPermutes(text, s[0], SortSources(text, s[1..]));
      InsertKeepsSorted(text, s[0], SortSources(text, s[1..]));
      assert s == [s[0]] + s[1..];
    }
  }

  lemma HeadIsLeast(text: Encoder, s: seq<Source>, x: Source)
    requires Sorted(text, s) && x in s
    ensures LexLe(text(s[0]), text(x))
  {
    LexTotal(text(s[0]), text(s[0]));
  }

  /** With distinct texts there is only one sorted arrangement of the same sources. */
  lemma {:induction false} SortedIsUnique(text: Encoder, a: seq<Source>, b: seq<Source>)
    requires Injective(text)
    requires Sorted(text, a) && Sorted(text, b) && multiset(a) == multiset(b)
    ensures a == b
    decreases |a|
  {
    assert |multiset(a)| == |multiset(b)|;
    if a != [] {
      assert a[0] in multiset(b) && b[0] in multiset(a);
      HeadIsLeast(text, a, b[0]);
      HeadIsLeast(text, b, a[0]);
      LexTotal(text(a[0]), text(b[0]));
      HeadCounts(a);
      HeadCounts(b);
      SortedIsUnique(text, a[1..], b[1..]);
    }
  }

  lemma SortForgetsOrder(text: Encoder, a: seq<Source>, b: seq<Source>)
    requires Injective(text)
    ensures SortSources(text, a) == SortSources(text, b) <==> multiset(a) == multiset(b)
  {
    SortSorts(text, a);
    SortSorts(text, b);
    if multiset(a) == multiset(b) {
      SortedIsUnique(text, SortSources(text, a), SortSources(text, b));
    }
  }

  // ----- the hash -----

  function RequestedAll(sources: seq<Source>): seq<Source> {
    Map(Requested, sources)
  }

  /** `creation_request_hash`. */
  function IntentHash(h: Hashes, x: Intent): string {
    h.intent(x.(sources := SortSources(h.text, RequestedAll(x.sources))))
  }

  /** The loop of `creation_request_hash`: server-loaded columns are emptied for every source but plain communications. */
  method CreationRequestHash(h: Hashes, x: Intent) returns (digest: string)
    ensures digest == IntentHash(h, x)
  {
    var sources: seq<Source> := [];
    for i := 0 to |x.sources|
      invariant sources == RequestedAll(x.sources[..i])
    {
      var value := x.sources[i];
      if value.kind != Communication {
        value := value.(account := None);
        value := value.(message := None);
        value := value.(attachment := None);
      }
      assert x.sources[..i + 1][..i] == x.sources[..i];
      sources := sources + [value];
    }
    assert x.sources[..|x.sources|] == x.sources;
    digest := h.intent(x.(sources := SortSources(h.text, sources)));
  }

  // ----- requests -----

  datatype Request = Request(key: string, kind: Kind, title: string, description: Option<string>, due: Due,
                             context: Option<Id>, sources: seq<Reference>, candidate: Option<Locator>, confirmed: bool)

  /** The candidate's own analysis comes first. */
  function References(q: Request): seq<Reference> {
    if q.candidate.None? then q.sources
    else [AnalysisReference(q.candidate.value.kind, q.candidate.value.source, q.candidate)] + q.sources
  }

  function ValuesAll(refs: seq<Reference>): seq<Source> {
    Map(SourceValues, refs)
  }

  /** A request both models accept: texts, key, distinct sources, and an explicit confirmation exactly with a candidate. */
  predicate RequestOk(q: Request) {
    && KeyOk(q.key) && TitleOk(q.title) && DescriptionOk(q.description) && DueOk(q.due)
    && |q.sources| <= (if q.candidate.Some? then 9 else 10)
    && (q.candidate.Some? ==> LocatorOk(q.candidate.value)) && (q.confirmed <==> q.candidate.Some?)
    && (forall i :: 0 <= i < |q.sources| ==> ReferenceOk(q.sources[i]))
    && Distinct(ValuesAll(References(q)))
  }

  /** A request names at most ten references, its candidate's one included, all well formed and distinct in what they say. */
  lemma RequestsNameTenReferences(q: Request)
    ensures RequestOk(q) <==>
      && KeyOk(q.key) && TitleText(q.title) == Some(q.title) && DescriptionText(q.description) == Some(q.description) && DueOk(q.due)
      && q.confirmed == q.candidate.Some? && |References(q)| < 11
      && (forall r :: r in References(q) ==> ReferenceOk(r))
      && (forall i, j :: 0 <= i < j < |References(q)| ==> SourceValues(References(q)[i]) != SourceValues(References(q)[j]))
  {
    TitleTextNormalises(q.title);
    DescriptionTextNormalises(q.description);
    AllReferences(q);
    DistinctValues(References(q));
  }

  lemma AllReferences(q: Request)
    ensures |References(q)| == |q.sources| + if q.candidate.Some? then 1 else 0
    ensures (forall r :: r in References(q) ==> ReferenceOk(r)) <==>
      (q.candidate.Some? ==> LocatorOk(q.candidate.value)) && forall i :: 0 <= i < |q.sources| ==> ReferenceOk(q.sources[i])
  {
    if q.candidate.Some? {
      var first := AnalysisReference(q.candidate.value.kind, q.candidate.value.source, q.candidate);
      assert References(q) == [first] + q.sources && first in References(q);
      assert ReferenceOk(first) <==> LocatorOk(q.candidate.value);
    }
    assert forall i :: 0 <= i < |q.sources| ==> q.sources[i] in References(q);
  }

  lemma DistinctValues(refs: seq<Reference>)
    ensures Distinct(ValuesAll(refs)) <==> forall i, j :: 0 <= i < j < |refs| ==> SourceValues(refs[i]) != SourceValues(refs[j])
  {
    assert forall i :: 0 <= i < |refs| ==> ValuesAll(refs)[i] == SourceValues(refs[i]);
  }

  /** The intent of a request with the given sources. */
  function IntentOf(q: Request, sources: seq<Source>): Intent {
    Intent(if q.candidate.Some? then AiConfirmed else Manual, q.kind, q.title, q.description, q.due, q.context,
           sources, q.candidate, q.confirmed)
  }

  /** `WorkItemCreateRequest.request_hash`: nothing but the client's own words. */
  function RequestHash(h: Hashes, q: Request): string {
    IntentHash(h, IntentOf(q, ValuesAll(References(q))))
  }

  // ----- verified sources -----

  /** `sources` is what the server loaded for the references. */
  ghost predicate Verifies(h: Hashes, db: Database, owner: Id, refs: seq<Reference>, sources: seq<Source>) {
    && |sources| == |refs|
    && forall i :: 0 <= i < |refs| ==> VerifyReference(h.observation, db, owner, refs[i]) == VerifiedSource(sources[i])
  }

  predicate ReferencesOk(refs: seq<Reference>) {
    forall i :: 0 <= i < |refs| ==> ReferenceOk(refs[i])
  }

  lemma RequestedReferencesAreOk(q: Request)
    requires RequestOk(q)
    ensures ReferencesOk(References(q)) && |References(q)| <= 10
  {
  }

  lemma VerifiedSourcesKeepTheRequest(h: Hashes, db: Database, owner: Id, refs: seq<Reference>, sources: seq<Source>)
    requires ReferencesOk(refs) && Verifies(h, db, owner, refs, sources)
    ensures RequestedAll(sources) == ValuesAll(refs)
  {
  }

  lemma RequestedValuesAreThemselves(refs: seq<Reference>)
    ensures RequestedAll(ValuesAll(refs)) == ValuesAll(refs)
  {
  }

  /**
   For every request whose references verify, the hash of the client's request equals the hash of the intent built from
   what the server loaded, whatever the server loaded.
   */
  lemma HashesAgree(h: Hashes, db: Database, owner: Id, q: Request, sources: seq<Source>)
    requires RequestOk(q) && Verifies(h, db, owner, References(q), sources)
    ensures IntentHash(h, IntentOf(q, sources)) == RequestHash(h, q)
  {
    RequestedReferencesAreOk(q);
    VerifiedSourcesKeepTheRequest(h, db, owner, References(q), sources);
    RequestedValuesAreThemselves(References(q));
  }

  lemma ReferencesPermute(q: Request, sources: seq<Reference>)
    requires multiset(q.sources) == multiset(sources)
    ensures multiset(References(q)) == multiset(References(q.(sources := sources)))
  {
  }

  /** Two requests with the same words and the same sources in any order have the same hash. */
  lemma HashIgnoresSourceOrder(h: Hashes, q: Request, sources: seq<Reference>)
    requires Injective(h.text) && multiset(q.sources) == multiset(sources)
    ensures RequestHash(h, q) == RequestHash(h, q.(sources := sources))
  {
    var p := q.(sources := sources);
    var a, b := ValuesAll(References(q)), ValuesAll(References(p));
    ReferencesPermute(q, sources);
    MapPermutes(SourceValues, References(q), References(p));
    RequestedValuesAreThemselves(References(q));
    RequestedValuesAreThemselves(References(p));
    SortForgetsOrder(h.text, a, b);
  }

  /** The very mapping whose digest is the request's hash. */
  function HashedIntent(h: Hashes, q: Request): Intent {
    IntentOf(q, SortSources(h.text, ValuesAll(References(q))))
  }

  /** The two requests are not a hash collision. */
  predicate NoCollision(h: Hashes, q: Request, p: Request) {
    h.intent(HashedIntent(h, q)) == h.intent(HashedIntent(h, p)) ==> HashedIntent(h, q) == HashedIntent(h, p)
  }

  /** The same words and the same sources; the key and the order of the sources may differ. */
  predicate SameRequest(q: Request, p: Request) {
    p == q.(key := p.key, sources := p.sources) && multiset(q.sources) == multiset(p.sources)
  }

  lemma RequestHashIsOfHashedIntent(h: Hashes, q: Request)
    ensures RequestHash(h, q) == h.intent(HashedIntent(h, q))
  {
    RequestedValuesAreThemselves(References(q));
  }

  lemma ReferenceValuesDiffer(q: Request, p: Request)
    requires RequestOk(q) && RequestOk(p) && q.candidate == p.candidate
    ensures multiset(ValuesAll(References(q))) == multiset(ValuesAll(References(p))) <==> multiset(q.sources) == multiset(p.sources)
  {
    var a, b := References(q), References(p);
    RequestedReferencesAreOk(q);
    RequestedReferencesAreOk(p);
    forall x, y | x in a && y in b && SourceValues(x) == SourceValues(y) ensures x == y {
      SourceValuesAreFaithful(x, y);
    }
    if multiset(ValuesAll(a)) == multiset(ValuesAll(b)) { MapReflects(SourceValues, a, b); }
    if multiset(a) == multiset(b) { MapPermutes(SourceValues, a, b); }
    CommonHeadCounts(a[..|a| - |q.sources|], q.sources, p.sources);
  }

  /** The hash ignores nothing but the order of the sources: short of a collision, equal hashes mean the same request. */
  lemma EqualHashesMeanEqualRequests(h: Hashes, q: Request, p: Request)
    requires Injective(h.text) && RequestOk(q) && RequestOk(p) && NoCollision(h, q, p)
    ensures RequestHash(h, q) == RequestHash(h, p) <==> SameRequest(q, p)
  {
    var a, b := ValuesAll(References(q)), ValuesAll(References(p));
    RequestHashIsOfHashedIntent(h, q);
    RequestHashIsOfHashedIntent(h, p);
    SortForgetsOrder(h.text, a, b);
    if q.candidate == p.candidate { ReferenceValuesDiffer(q, p); }
  }

  // ----- the intent's own validator -----

  /** `source_key`. */
  function SourceKeys(h: Hashes, sources: seq<Source>): seq<string> {
    Map(h.source, sources)
  }

  /** `CreationIntent` with `provenance`. */
  predicate IntentOk(h: Hashes, x: Intent) {
    && TitleOk(x.title) && DescriptionOk(x.description) && DueOk(x.due)
    && (forall i :: 0 <= i < |x.sources| ==> SourceOk(x.sources[i]))
    && |x.sources| <= 10 && Distinct(SourceKeys(h, x.sources))
    && (x.origin == Manual ==> !x.confirmed && x.candidate.None?)
    && (x.origin == AiConfirmed ==>
          && x.confirmed && x.candidate.Some? && LocatorOk(x.candidate.value)
          && exists i :: 0 <= i < |x.sources| && LocatorOf(x.sources[i]) == x.candidate)
  }

  /** An intent is confirmed exactly when a candidate is its origin, and then one of its at most ten sources designates it. */
  lemma IntentsNameTheirOrigin(h: Hashes, x: Intent)
    ensures IntentOk(h, x) <==>
      && TitleText(x.title) == Some(x.title) && DescriptionText(x.description) == Some(x.description) && DueOk(x.due)
      && |x.sources| < 11 && (forall s :: s in x.sources ==> SourceOk(s)) && Distinct(SourceKeys(h, x.sources))
      && x.confirmed == (x.origin == AiConfirmed) && x.candidate.Some? == (x.origin == AiConfirmed)
      && (x.candidate.Some? ==> LocatorOk(x.candidate.value) && exists s :: s in x.sources && LocatorOf(s) == x.candidate)
  {
    TitleTextNormalises(x.title);
    DescriptionTextNormalises(x.description);
  }

  /** No two of the sources share a SHA-256 key. */
  predicate KeysApart(h: Hashes, sources: seq<Source>) {
    Distinct(SourceKeys(h, sources))
  }

  /**
   A request with distinct references whose references verify yields at most ten distinct sources, the designated
   origin among them; the intent is valid exactly when the keys of these sources do not collide.
   */
  lemma VerifiedRequestsMakeValidIntents(h: Hashes, db: Database, owner: Id, q: Request, sources: seq<Source>)
    requires Proper(h) && RequestOk(q) && Verifies(h, db, owner, References(q), sources)
    ensures Distinct(sources)
    ensures IntentOk(h, IntentOf(q, sources)) <==> KeysApart(h, sources)
  {
    var refs := References(q);
    RequestedReferencesAreOk(q);
    forall i | 0 <= i < |sources|
      ensures SourceOk(sources[i]) && Requested(sources[i]) == ValuesAll(refs)[i]
      ensures refs[i].AnalysisReference? ==> LocatorOf(sources[i]) == refs[i].candidate
    {
      VerificationKeepsTheRequest(h.observation, db, owner, refs[i]);
    }
    assert q.candidate.Some? ==> refs[0].AnalysisReference? && refs[0].candidate == q.candidate;
  }

  // ----- creating the item -----

  /** The item a creation builds, before validation. */
  function NewItem(h: Hashes, id: Id, owner: Id, key: string, x: Intent, now: Instant): Item {
    Item(id, owner, x.kind, x.title, x.description, x.context, x.due, Open, 1, None, None, None, now, now, x.origin,
         if x.confirmed then Some(owner) else None, if x.confirmed then Some(now) else None, key, IntentHash(h, x),
         if x.candidate.Some? then Some(h.locator(x.candidate.value)) else None)
  }

  /** `BusinessWorkItem.create`; None is a validation error. */
  function Create(h: Hashes, id: Id, owner: Id, key: string, x: Intent, now: Instant): Option<Tracking> {
    match Validate(NewItem(h, id, owner, key, x, now))
    case None => None
    case Some(valid) =>
      if EventOk(CreatedEventOf(valid)) then Some(Tracking(valid, [CreatedEventOf(valid)])) else None
  }

  lemma NewItemsAreValid(h: Hashes, id: Id, owner: Id, key: string, x: Intent, now: Instant)
    requires Proper(h) && IntentOk(h, x) && KeyOk(key)
    ensures Valid(NewItem(h, id, owner, key, x, now))
  {
  }

  /** A valid intent under a valid key always creates a fresh item that carries the intent. */
  lemma CreationSucceeds(h: Hashes, id: Id, owner: Id, key: string, x: Intent, now: Instant)
    requires Proper(h) && IntentOk(h, x) && KeyOk(key)
    ensures var t := Create(h, id, owner, key, x, now);
      && t.Some? && Fresh(t.value)
      && t.value.item.id == id && t.value.item.owner == owner && t.value.item.key == key && t.value.item.hash == IntentHash(h, x)
      && t.value.item.title == x.title && t.value.item.description == x.description && t.value.item.kind == x.kind
      && t.value.item.due == x.due && t.value.item.context == x.context && t.value.item.origin == x.origin
      && t.value.item.createdAt == now && t.value.item.confirmedAt == (if x.origin == AiConfirmed then Some(now) else None)
      && t.value.item.candidateKey == (if x.candidate.Some? then Some(h.locator(x.candidate.value)) else None)
  {
    NewItemsAreValid(h, id, owner, key, x, now);
    ValidationFixesValidItems(NewItem(h, id, owner, key, x, now));
    MetadataFits(CreatedMetadata(x.due, x.origin));
  }

  // ----- the assumption on digests can be met -----

  function Ones(n: nat): string {
    seq(n, _ => '1')
  }

  /** A text with its length in front, so that what follows it can be told apart. */
  function Framed(t: string): string {
    Ones(|t|) + "0" + t
  }

  lemma FramesAreRead(a: string, x: string, b: string, y: string)
    requires Framed(a) + x == Framed(b) + y
    ensures a == b && x == y
  {
    var u := Framed(a) + x;
    assert u[|a|] == '0' && u[|b|] == '0';
    assert forall i :: 0 <= i < |a| ==> u[i] == '1';
    assert forall i :: 0 <= i < |b| ==> u[i] == '1';
    assert u[|a| + 1..][..|a|] == a && u[|b| + 1..][..|b|] == b;
    assert u[|a| + 1..][|a|..] == x && u[|b| + 1..][|b|..] == y;
  }

  function IntText(n: Option<int>): string {
    if n.None? then "" else if n.value >= 0 then "+" + Ones(n.value) else "-" + Ones(-n.value)
  }

  function StringText(s: Option<string>): string {
    if s.None? then "" else "=" + s.value
  }

  function FieldText(f: Option<CandidateField>): string {
    match f
    case None => ""
    case Some(ActionItems) => "a"
    case Some(PotentialActionMentions) => "m"
    case Some(PotentialDates) => "d"
  }

  function KindText(k: SourceKind): string {
    match k
    case Communication => "c"
    case CommunicationAnalysis => "a"
    case AttachmentAnalysis => "t"
  }

  lemma IntTextsDiffer(a: Option<int>, b: Option<int>)
    requires IntText(a) == IntText(b)
    ensures a == b
  {
    assert |IntText(a)| == |IntText(b)|;
    if a.Some? && b.Some? { assert IntText(a)[0] == IntText(b)[0]; }
  }

  lemma StringTextsDiffer(a: Option<string>, b: Option<string>)
    requires StringText(a) == StringText(b)
    ensures a == b
  {
    if a.Some? && b.Some? { assert a.value == StringText(a)[1..] && b.value == StringText(b)[1..]; }
  }

  lemma KindTextsDiffer(a: SourceKind, b: SourceKind)
    requires KindText(a) == KindText(b)
    ensures a == b
  {
    assert KindText(a)[0] == KindText(b)[0];
  }

  lemma FieldTextsDiffer(a: Option<CandidateField>, b: Option<CandidateField>)
    requires FieldText(a) == FieldText(b)
    ensures a == b
  {
    assert |FieldText(a)| == |FieldText(b)|;
    if a.Some? && b.Some? { assert FieldText(a)[0] == FieldText(b)[0]; }
  }

  function FramedIds(s: Source): string {
    Framed(IntText(s.analysis)) + (Framed(IntText(s.attachmentAnalysis)) + (Framed(IntText(s.account)) + IntText(s.index)))
  }

  function FramedTexts(s: Source): string {
    Framed(StringText(s.message)) + (Framed(StringText(s.attachment)) + StringText(s.digest))
  }

  /** Some text of a source that no other source has. */
  function FramedSource(s: Source): string {
    Framed(KindText(s.kind)) + (Framed(FieldText(s.field)) + (Framed(FramedIds(s)) + FramedTexts(s)))
  }

  lemma FramedIdsDiffer(a: Source, b: Source)
    requires FramedIds(a) == FramedIds(b)
    ensures a.analysis == b.analysis && a.attachmentAnalysis == b.attachmentAnalysis && a.account == b.account && a.index == b.index
  {
    var x, y := Framed(IntText(a.account)) + IntText(a.index), Framed(IntText(b.account)) + IntText(b.index);
    FramesAreRead(IntText(a.analysis), Framed(IntText(a.attachmentAnalysis)) + x,
                  IntText(b.analysis), Framed(IntText(b.attachmentAnalysis)) + y);
    FramesAreRead(IntText(a.attachmentAnalysis), x, IntText(b.attachmentAnalysis), y);
    FramesAreRead(IntText(a.account), IntText(a.index), IntText(b.account), IntText(b.index));
    IntTextsDiffer(a.analysis, b.analysis);
    IntTextsDiffer(a.attachmentAnalysis, b.attachmentAnalysis);
    IntTextsDiffer(a.account, b.account);
    IntTextsDiffer(a.index, b.index);
  }

  lemma FramedTextsDiffer(a: Source, b: Source)
    requires FramedTexts(a) == FramedTexts(b)
    ensures a.message == b.message && a.attachment == b.attachment && a.digest == b.digest
  {
    var x, y := Framed(StringText(a.attachment)) + StringText(a.digest), Framed(StringText(b.attachment)) + StringText(b.digest);
    FramesAreRead(StringText(a.message), x, StringText(b.message), y);
    FramesAreRead(StringText(a.attachment), StringText(a.digest), StringText(b.attachment), StringText(b.digest));
    StringTextsDiffer(a.message, b.message);
    StringTextsDiffer(a.attachment, b.attachment);
    StringTextsDiffer(a.digest, b.digest);
  }

  lemma FramedSourcesDiffer(a: Source, b: Source)
    requires FramedSource(a) == FramedSource(b)
    ensures a == b
  {
    var x, y := Framed(FramedIds(a)) + FramedTexts(a), Framed(FramedIds(b)) + FramedTexts(b);
    FramesAreRead(KindText(a.kind), Framed(FieldText(a.field)) + x, KindText(b.kind), Framed(FieldText(b.field)) + y);
    FramesAreRead(FieldText(a.field), x, FieldText(b.field), y);
    FramesAreRead(FramedIds(a), FramedTexts(a), FramedIds(b), FramedTexts(b));
    KindTextsDiffer(a.kind, b.kind);
    FieldTextsDiffer(a.field, b.field);
    FramedIdsDiffer(a, b);
    FramedTextsDiffer(a, b);
  }

  /** `Proper` asks nothing impossible. */
  lemma ProperHashesExist()
    ensures exists h :: Proper(h)
  {
    var zeros := seq(64, _ => '0');
    var h := Hashes(_ => zeros, _ => zeros, _ => zeros, _ => zeros, FramedSource);
    forall a, b | h.text(a) == h.text(b) ensures a == b {
      FramedSourcesDiffer(a, b);
    }
    assert Proper(h);
  }
}
