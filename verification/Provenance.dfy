/** Candidate projection and reference verification against persisted analyses; no provider is asked. */
module Provenance {
  import opened Paging
  import opened Text
  import opened WorkItemModel
  import opened WorkItemSources

  /** A persisted observation. `wellFormed` says whether an object is a valid action item. */
  datatype Value = Object(json: string, wellFormed: bool) | TextValue(text: string) | OtherValue(json: string)

  datatype Tabular = Tabular(mentions: seq<Value>, dates: seq<Value>)

  /** One persisted analysis row, of a communication or of an attachment. */
  datatype Row = Row(id: Id, owner: Id, spreadsheet: bool, account: Option<Id>, message: Option<string>,
                     attachment: Option<string>, actionItems: seq<Value>, tabular: Option<Tabular>)

  datatype Observations = Observations(field: CandidateField, values: seq<Value>)

  datatype Candidate = Candidate(locator: Locator, value: Value)

  /** SHA-256 of the canonical JSON of an observation. */
  type Digester = Value -> string

  ghost predicate Digests(sha: Digester) {
    forall v :: DigestOk(sha(v))
  }

  /** `observations`: the arrays of a row in their stable order. */
  function ObservationsOf(row: Row, kind: SourceKind): seq<Observations> {
    if kind == AttachmentAnalysis && row.spreadsheet then
      [Observations(PotentialActionMentions, if row.tabular.Some? then row.tabular.value.mentions else []),
       Observations(PotentialDates, if row.tabular.Some? then row.tabular.value.dates else [])]
    else [Observations(ActionItems, row.actionItems)]
  }

  /** `candidate_digest`; None is a malformed observation. */
  function CandidateDigest(sha: Digester, v: Value, field: CandidateField): Option<string> {
    match v
    case Object(_, wellFormed) => if field == ActionItems && wellFormed then Some(sha(v)) else None
    case TextValue(text) =>
      if field == ActionItems || Strip(text) == [] || |text| > (if field == PotentialActionMentions then 300 else 200)
      then None else Some(sha(v))
    case OtherValue(_) => None
  }

  // ----- the specification: one flat list -----

  datatype Place = Place(field: CandidateField, index: nat, value: Value)

  function Places(o: Observations): seq<Place> {
    seq(|o.values|, i requires 0 <= i < |o.values| => Place(o.field, i, o.values[i]))
  }

  /** Every observation of the row with its field and its index in that field. */
  function Flatten(arrays: seq<Observations>): seq<Place> {
    if arrays == [] then [] else Flatten(arrays[..|arrays| - 1]) + Places(arrays[|arrays| - 1])
  }

  function ToCandidate(sha: Digester, row: Row, kind: SourceKind, p: Place): Option<Candidate> {
    match CandidateDigest(sha, p.value, p.field)
    case None => None
    case Some(digest) => Some(Candidate(Locator(kind, row.id, p.field, p.index, digest), p.value))
  }

  /** All candidates of the places, or None when one of them is malformed. */
  function ToCandidates(sha: Digester, row: Row, kind: SourceKind, places: seq<Place>): (r: Option<seq<Candidate>>)
    ensures r.Some? ==> |r.value| == |places|
  {
    if places == [] then Some([]) else
      var head, last := ToCandidates(sha, row, kind, places[..|places| - 1]), ToCandidate(sha, row, kind, places[|places| - 1]);
      if head.None? || last.None? then None else Some(head.value + [last.value])
  }

  /** A page: flatten, skip, take, and give each place its digest. */
  function Page(sha: Digester, row: Row, kind: SourceKind, limit: nat, offset: nat): Option<seq<Candidate>> {
    ToCandidates(sha, row, kind, Window(Flatten(ObservationsOf(row, kind)), offset, limit))
  }

  lemma {:induction false} ToCandidatesJoin(sha: Digester, row: Row, kind: SourceKind, a: seq<Place>, b: seq<Place>)
    ensures var x, y, z := ToCandidates(sha, row, kind, a), ToCandidates(sha, row, kind, b), ToCandidates(sha, row, kind, a + b);
      z == if x.Some? && y.Some? then Some(x.value + y.value) else None
  {
    if b == [] {
      assert a + b == a;
      var x := ToCandidates(sha, row, kind, a);
      assert x.Some? ==> x.value + [] == x.value;
    } else {
      var c := b[..|b| - 1];
      ToCandidatesJoin(sha, row, kind, a, c);
      assert (a + b)[..|a + b| - 1] == a + c;
      var x, y, z := ToCandidates(sha, row, kind, a), ToCandidates(sha, row, kind, c), ToCandidate(sha, row, kind, b[|b| - 1]);
      assert x.Some? && y.Some? && z.Some? ==> x.value + (y.value + [z.value]) == (x.value + y.value) + [z.value];
    }
  }

  lemma FlattenGrows(arrays: seq<Observations>, i: nat)
    requires i < |arrays|
    ensures Flatten(arrays[..i + 1]) == Flatten(arrays[..i]) + Places(arrays[i])
  {
    assert arrays[..i + 1][..i] == arrays[..i];
  }

  /** One more array: what is still free of the page is filled from it. */
  lemma PageGrows(sha: Digester, row: Row, kind: SourceKind, before: seq<Place>, more: seq<Place>, offset: nat, limit: nat,
                  built: seq<Candidate>)
    requires ToCandidates(sha, row, kind, Window(before, offset, limit)) == Some(built)
    ensures |built| <= limit
    ensures var here := ToCandidates(sha, row, kind, Window(more, Max(0, offset - |before|), limit - |built|));
      ToCandidates(sha, row, kind, Window(before + more, offset, limit))
      == if here.None? then None else Some(built + here.value)
  {
    WindowOfJoin(before, more, offset, limit);
    ToCandidatesJoin(sha, row, kind, Window(before, offset, limit), Window(more, Max(0, offset - |before|), limit - |built|));
  }

  /** Once a page is full or has failed, later arrays cannot change it. */
  lemma SettledPageIsFinal(sha: Digester, row: Row, kind: SourceKind, before: seq<Place>, all: seq<Place>, offset: nat, limit: nat)
    requires before <= all
    requires var page := ToCandidates(sha, row, kind, Window(before, offset, limit)); page.None? || |page.value| == limit
    ensures ToCandidates(sha, row, kind, Window(all, offset, limit)) == ToCandidates(sha, row, kind, Window(before, offset, limit))
  {
    var later := all[|before|..];
    assert all == before + later;
    var page := ToCandidates(sha, row, kind, Window(before, offset, limit));
    assert page.Some? ==> page.value + [] == page.value;
    WindowOfJoin(before, later, offset, limit);
    assert page.Some? ==> Window(later, Max(0, offset - |before|), 0) == [];
    ToCandidatesJoin(sha, row, kind, Window(before, offset, limit),
                     Window(later, Max(0, offset - |before|), limit - |Window(before, offset, limit)|));
  }

  lemma {:induction false} FlattenPrefix(arrays: seq<Observations>, i: nat)
    requires i <= |arrays|
    ensures Flatten(arrays[..i]) <= Flatten(arrays)
    decreases |arrays| - i
  {
    if i == |arrays| {
      assert arrays[..i] == arrays;
    } else {
      FlattenGrows(arrays, i);
      FlattenPrefix(arrays, i + 1);
    }
  }

  /** A malformed observation anywhere in the window spoils the whole page. */
  lemma {:induction false} MalformedSpoils(sha: Digester, row: Row, kind: SourceKind, places: seq<Place>, k: nat)
    requires k < |places| && ToCandidate(sha, row, kind, places[k]).None?
    ensures ToCandidates(sha, row, kind, places).None?
  {
    if k < |places| - 1 {
      MalformedSpoils(sha, row, kind, places[..|places| - 1], k);
    }
  }

  // ----- the loop -----

  /** The indices `from..to` of one array, appended to the page built so far; None aborts on a malformed observation. */
  method AppendRange(sha: Digester, row: Row, kind: SourceKind, o: Observations, from: nat, to: nat, built: seq<Candidate>)
    returns (r: Option<seq<Candidate>>)
    requires from <= to <= |o.values|
    ensures var more := ToCandidates(sha, row, kind, Places(o)[from..to]);
      r == if more.None? then None else Some(built + more.value)
  {
    var result := built;
    for index := from to to
      invariant var more := ToCandidates(sha, row, kind, Places(o)[from..index]); more.Some? && result == built + more.value
    {
      var digest := CandidateDigest(sha, o.values[index], o.field);
      ghost var next := Places(o)[from..index + 1];
      assert next[..|next| - 1] == Places(o)[from..index] && next[|next| - 1] == Place(o.field, index, o.values[index]);
      if digest.None? {
        MalformedSpoils(sha, row, kind, Places(o)[from..to], index - from);
        return None;
      }
      result := result + [Candidate(Locator(kind, row.id, o.field, index, digest.value), o.values[index])];
    }
    r := Some(result);
  }

  /** The page the first `i` arrays alone would give. */
  function PageOfFirst(sha: Digester, row: Row, kind: SourceKind, arrays: seq<Observations>, limit: nat, offset: nat, i: nat)
    : Option<seq<Candidate>>
    requires i <= |arrays|
  {
    ToCandidates(sha, row, kind, Window(Flatten(arrays[..i]), offset, limit))
  }

  function Skipped(arrays: seq<Observations>, offset: nat, i: nat): nat
    requires i <= |arrays|
  {
    Max(0, offset - |Flatten(arrays[..i])|)
  }

  lemma NextArray(sha: Digester, row: Row, kind: SourceKind, arrays: seq<Observations>, limit: nat, offset: nat, i: nat,
                  built: seq<Candidate>)
    requires i < |arrays| && PageOfFirst(sha, row, kind, arrays, limit, offset, i) == Some(built)
    ensures |built| <= limit
    ensures var o, rest := arrays[i], Skipped(arrays, offset, i);
      var here := ToCandidates(sha, row, kind, Window(Places(o), rest, limit - |built|));
      && PageOfFirst(sha, row, kind, arrays, limit, offset, i + 1) == (if here.None? then None else Some(built + here.value))
      && Skipped(arrays, offset, i + 1) == Max(0, rest - |o.values|)
  {
    FlattenGrows(arrays, i);
    PageGrows(sha, row, kind, Flatten(arrays[..i]), Places(arrays[i]), offset, limit, built);
  }

  lemma SkippedArray(sha: Digester, row: Row, kind: SourceKind, arrays: seq<Observations>, limit: nat, offset: nat, i: nat,
                     built: seq<Candidate>)
    requires i < |arrays| && PageOfFirst(sha, row, kind, arrays, limit, offset, i) == Some(built)
    requires Skipped(arrays, offset, i) >= |arrays[i].values|
    ensures PageOfFirst(sha, row, kind, arrays, limit, offset, i + 1) == Some(built)
    ensures Skipped(arrays, offset, i + 1) == Skipped(arrays, offset, i) - |arrays[i].values|
  {
    NextArray(sha, row, kind, arrays, limit, offset, i, built);
    assert Window(Places(arrays[i]), Skipped(arrays, offset, i), limit - |built|) == [];
    assert built + [] == built;
  }

  lemma FilledFromArray(sha: Digester, row: Row, kind: SourceKind, arrays: seq<Observations>, limit: nat, offset: nat, i: nat,
                        built: seq<Candidate>)
    requires i < |arrays| && PageOfFirst(sha, row, kind, arrays, limit, offset, i) == Some(built)
    requires Skipped(arrays, offset, i) < |arrays[i].values|
    ensures |built| <= limit && Skipped(arrays, offset, i + 1) == 0
    ensures var o, rest := arrays[i], Skipped(arrays, offset, i);
      var more := ToCandidates(sha, row, kind, Places(o)[rest..Min(|o.values|, rest + limit - |built|)]);
      PageOfFirst(sha, row, kind, arrays, limit, offset, i + 1) == if more.None? then None else Some(built + more.value)
  {
    var o, rest := arrays[i], Skipped(arrays, offset, i);
    NextArray(sha, row, kind, arrays, limit, offset, i, built);
    assert Window(Places(o), rest, limit - |built|) == Places(o)[rest..Min(|o.values|, rest + limit - |built|)];
  }

  lemma Settled(sha: Digester, row: Row, kind: SourceKind, arrays: seq<Observations>, limit: nat, offset: nat, i: nat)
    requires i <= |arrays|
    requires var page := PageOfFirst(sha, row, kind, arrays, limit, offset, i);
      i == |arrays| || page.None? || |page.value| == limit
    ensures PageOfFirst(sha, row, kind, arrays, limit, offset, |arrays|) == PageOfFirst(sha, row, kind, arrays, limit, offset, i)
  {
    if i < |arrays| {
      assert arrays[..|arrays|] == arrays;
      FlattenPrefix(arrays, i);
      SettledPageIsFinal(sha, row, kind, Flatten(arrays[..i]), Flatten(arrays), offset, limit);
    }
  }

  /** The part of array `i` that fits on the page, appended to what the earlier arrays gave. */
  method FillFrom(sha: Digester, row: Row, kind: SourceKind, arrays: seq<Observations>, limit: nat, offset: nat, i: nat, rest: nat,
                  built: seq<Candidate>)
    returns (r: Option<seq<Candidate>>)
    requires i < |arrays| && PageOfFirst(sha, row, kind, arrays, limit, offset, i) == Some(built)
    requires rest == Skipped(arrays, offset, i) && rest < |arrays[i].values|
    ensures r == PageOfFirst(sha, row, kind, arrays, limit, offset, i + 1) && Skipped(arrays, offset, i + 1) == 0
    ensures r.Some? ==> |r.value| <= limit
  {
    FilledFromArray(sha, row, kind, arrays, limit, offset, i, built);
    r := AppendRange(sha, row, kind, arrays[i], rest, Min(|arrays[i].values|, rest + limit - |built|), built);
  }

  /** The loop of `project`: walk the arrays with a carried-over offset and stop when the page is full. */
  method ProjectArrays(sha: Digester, row: Row, kind: SourceKind, arrays: seq<Observations>, limit: nat, offset: nat)
    returns (r: Option<seq<Candidate>>)
    requires limit >= 1
    ensures r == PageOfFirst(sha, row, kind, arrays, limit, offset, |arrays|)
  {
    var rest: nat, result: seq<Candidate> := offset, [];
    for i := 0 to |arrays|
      invariant rest == Skipped(arrays, offset, i) && |result| < limit
      invariant PageOfFirst(sha, row, kind, arrays, limit, offset, i) == Some(result)
    {
      if rest >= |arrays[i].values| {
        SkippedArray(sha, row, kind, arrays, limit, offset, i, result);
        rest := rest - |arrays[i].values|;
        continue;
      }
      var page := FillFrom(sha, row, kind, arrays, limit, offset, i, rest, result);
      if page.None? || |page.value| == limit {
        Settled(sha, row, kind, arrays, limit, offset, i + 1);
        return page;
      }
      result := page.value;
      rest := 0;
    }
    r := Some(result);
  }

  /** `project`. */
  method Project(sha: Digester, row: Row, kind: SourceKind, limit: nat, offset: nat) returns (r: Option<seq<Candidate>>)
    requires limit >= 1
    ensures r == Page(sha, row, kind, limit, offset)
  {
    var arrays := ObservationsOf(row, kind);
    r := ProjectArrays(sha, row, kind, arrays, limit, offset);
    assert arrays[..|arrays|] == arrays;
  }

  // ----- what the pages mean -----

  /** A page fails exactly when its window holds a malformed observation. */
  lemma {:induction false} PlacesFailOnlyWhenMalformed(sha: Digester, row: Row, kind: SourceKind, places: seq<Place>)
    ensures ToCandidates(sha, row, kind, places).None?
        <==> exists k :: 0 <= k < |places| && CandidateDigest(sha, places[k].value, places[k].field).None?
  {
    if places != [] {
      var head := places[..|places| - 1];
      PlacesFailOnlyWhenMalformed(sha, row, kind, head);
      if k :| 0 <= k < |places| && CandidateDigest(sha, places[k].value, places[k].field).None? {
        MalformedSpoils(sha, row, kind, places, k);
      }
      if ToCandidates(sha, row, kind, head).None? {
        var k :| 0 <= k < |head| && CandidateDigest(sha, head[k].value, head[k].field).None?;
        assert places[k] == head[k];
      }
    }
  }

  /** The k-th candidate of a page is the candidate of the k-th place of its window. */
  lemma {:induction false} CandidateAt(sha: Digester, row: Row, kind: SourceKind, places: seq<Place>, k: nat)
    requires ToCandidates(sha, row, kind, places).Some? && k < |places|
    ensures ToCandidate(sha, row, kind, places[k]) == Some(ToCandidates(sha, row, kind, places).value[k])
  {
    if k < |places| - 1 {
      CandidateAt(sha, row, kind, places[..|places| - 1], k);
    }
  }

  /** Two results one after the other, if neither failed. */
  function Then<T>(a: Option<seq<T>>, b: Option<seq<T>>): Option<seq<T>> {
    if a.None? || b.None? then None else Some(a.value + b.value)
  }

  function Sum(sizes: seq<nat>): nat {
    if sizes == [] then 0 else sizes[0] + Sum(sizes[1..])
  }

  /** A source of pages, by size and offset. */
  type Reader<T> = (nat, nat) -> Option<seq<T>>

  /** Pages of the given sizes, each read where the one before it ended. */
  function ReadAll<T>(read: Reader<T>, offset: nat, sizes: seq<nat>): Option<seq<T>>
    decreases |sizes|
  {
    if sizes == [] then Some([]) else Then(read(sizes[0], offset), ReadAll(read, offset + sizes[0], sizes[1..]))
  }

  /** A page is its first part followed by the page of the rest. */
  predicate Splits<T(==)>(read: Reader<T>, offset: nat, first: nat, second: nat) {
    read(first + second, offset) == Then(read(first, offset), read(second, offset + first))
  }

  lemma {:induction false} ReadsAreOneRead<T>(read: Reader<T>, offset: nat, sizes: seq<nat>)
    requires forall o :: read(0, o) == Some([])
    requires forall o, first, second :: Splits(read, o, first, second)
    ensures ReadAll(read, offset, sizes) == read(Sum(sizes), offset)
    decreases |sizes|
  {
    if sizes != [] {
      ReadsAreOneRead(read, offset + sizes[0], sizes[1..]);
      assert Splits(read, offset, sizes[0], Sum(sizes[1..]));
    }
  }

  function PageReader(sha: Digester, row: Row, kind: SourceKind): Reader<Candidate> {
    (limit: nat, offset: nat) => Page(sha, row, kind, limit, offset)
  }

  lemma PlacesSplit(sha: Digester, row: Row, kind: SourceKind, a: seq<Place>, b: seq<Place>, both: seq<Place>)
    requires both == a + b
    ensures ToCandidates(sha, row, kind, both) == Then(ToCandidates(sha, row, kind, a), ToCandidates(sha, row, kind, b))
  {
    ToCandidatesJoin(sha, row, kind, a, b);
  }

  lemma WindowsJoin(sha: Digester, row: Row, kind: SourceKind, all: seq<Place>, offset: nat, first: nat, second: nat)
    ensures ToCandidates(sha, row, kind, Window(all, offset, first + second))
         == Then(ToCandidates(sha, row, kind, Window(all, offset, first)),
                 ToCandidates(sha, row, kind, Window(all, offset + first, second)))
  {
    WindowSplits(all, offset, first, second);
    PlacesSplit(sha, row, kind, Window(all, offset, first), Window(all, offset + first, second), Window(all, offset, first + second));
  }

  lemma PagesSplit(sha: Digester, row: Row, kind: SourceKind, offset: nat, first: nat, second: nat)
    ensures Splits(PageReader(sha, row, kind), offset, first, second)
  {
    WindowsJoin(sha, row, kind, Flatten(ObservationsOf(row, kind)), offset, first, second);
  }

  lemma EmptyPage(sha: Digester, row: Row, kind: SourceKind, offset: nat)
    ensures PageReader(sha, row, kind)(0, offset) == Some([])
  {
    assert Window(Flatten(ObservationsOf(row, kind)), offset, 0) == [];
  }

  /** All candidates of the row, in order; None when it holds a malformed observation. */
  function AllCandidates(sha: Digester, row: Row, kind: SourceKind): Option<seq<Candidate>> {
    ToCandidates(sha, row, kind, Flatten(ObservationsOf(row, kind)))
  }

  lemma PageOfEverything(sha: Digester, row: Row, kind: SourceKind, limit: nat)
    requires limit >= |Flatten(ObservationsOf(row, kind))|
    ensures PageReader(sha, row, kind)(limit, 0) == AllCandidates(sha, row, kind)
  {
    var all := Flatten(ObservationsOf(row, kind));
    assert Window(all, 0, limit) == all;
  }

  /**
   Any number of consecutive pages of any sizes that reach the end give every candidate of the row once and in order, and
   one of them fails exactly when the row holds a malformed observation anywhere.
   */
  lemma PagesCoverTheRow(sha: Digester, row: Row, kind: SourceKind, sizes: seq<nat>)
    requires Sum(sizes) >= |Flatten(ObservationsOf(row, kind))|
    ensures ReadAll(PageReader(sha, row, kind), 0, sizes) == AllCandidates(sha, row, kind)
  {
    var read := PageReader(sha, row, kind);
    forall o ensures read(0, o) == Some([]) { EmptyPage(sha, row, kind, o); }
    forall o, first, second ensures Splits(read, o, first, second) { PagesSplit(sha, row, kind, o, first, second); }
    ReadsAreOneRead(read, 0, sizes);
    PageOfEverything(sha, row, kind, Sum(sizes));
  }

  datatype Check = CheckOk | InputError | CandidateChanged

  function ValuesOf(arrays: seq<Observations>, field: CandidateField): Option<seq<Value>> {
    if arrays == [] then None
    else if arrays[|arrays| - 1].field == field then Some(arrays[|arrays| - 1].values)
    else ValuesOf(arrays[..|arrays| - 1], field)
  }

  /** `validate_candidate`. */
  function ValidateCandidate(sha: Digester, row: Row, l: Locator): Check {
    match ValuesOf(ObservationsOf(row, l.kind), l.field)
    case None => InputError
    case Some(values) =>
      if l.index < 0 || l.index >= |values| then InputError
      else if CandidateDigest(sha, values[l.index], l.field) != Some(l.digest) then CandidateChanged
      else CheckOk
  }

  lemma PlacesComeFromTheRow(row: Row, kind: SourceKind, k: nat)
    requires k < |Flatten(ObservationsOf(row, kind))|
    ensures var p := Flatten(ObservationsOf(row, kind))[k];
      var values := ValuesOf(ObservationsOf(row, kind), p.field);
      && values.Some? && p.index < |values.value| && values.value[p.index] == p.value
      && (kind == CommunicationAnalysis ==> p.field == ActionItems)
  {
    var arrays := ObservationsOf(row, kind);
    FlattenGrows(arrays, 0);
    if |arrays| == 2 {
      FlattenGrows(arrays, 1);
      assert arrays[..2] == arrays && arrays[..1][..0] == [] && arrays[..1][0] == arrays[0];
    } else {
      assert arrays[..1] == arrays;
    }
    assert arrays[..0] == [];
  }

  /** Every locator a page emits is well formed and passes `validate_candidate` on the same row. */
  lemma EmittedLocatorsValidate(sha: Digester, row: Row, kind: SourceKind, limit: nat, offset: nat, k: nat)
    requires Digests(sha) && kind != Communication
    requires Page(sha, row, kind, limit, offset).Some? && k < |Page(sha, row, kind, limit, offset).value|
    ensures var c := Page(sha, row, kind, limit, offset).value[k];
      && LocatorOk(c.locator) && c.locator.kind == kind && c.locator.source == row.id
      && ValidateCandidate(sha, row, c.locator) == CheckOk
  {
    var all := Flatten(ObservationsOf(row, kind));
    var window := Window(all, offset, limit);
    CandidateAt(sha, row, kind, window, k);
    assert window[k] == all[offset + k];
    PlacesComeFromTheRow(row, kind, offset + k);
  }

  /** A changed observation is noticed: a locator that still validates names an observation with the same digest. */
  lemma ValidatedLocatorsNameTheirObservation(sha: Digester, row: Row, l: Locator)
    ensures ValidateCandidate(sha, row, l) == CheckOk <==>
      var values := ValuesOf(ObservationsOf(row, l.kind), l.field);
      && values.Some? && 0 <= l.index < |values.value|
      && CandidateDigest(sha, values.value[l.index], l.field) == Some(l.digest)
  {
  }

  // ----- verifying references -----

  /** What the server can look up. */
  datatype Database = Database(analyses: map<Id, Row>, attachments: map<Id, Row>, accounts: map<Id, Id>)

  datatype Verified = VerifiedSource(source: Source) | RefusedNotFound | RefusedInput | RefusedChanged

  function RowOf(db: Database, owner: Id, kind: SourceKind, source: Id): Option<Row> {
    var rows := if kind == CommunicationAnalysis then db.analyses else db.attachments;
    if source in rows && rows[source].owner == owner then Some(rows[source]) else None
  }

  /** The value mapping with the provenance columns of the analysis row. */
  function WithProvenance(values: Source, row: Row): Source {
    if values.kind == CommunicationAnalysis
    then values.(account := row.account, message := if row.account.Some? then row.message else None)
    else values.(account := row.account, message := row.message, attachment := row.attachment)
  }

  function TypedSource(db: Database, owner: Id, values: Source): Verified {
    if values.account.Some? && (values.account.value !in db.accounts || db.accounts[values.account.value] != owner) then RefusedNotFound
    else if SourceOk(values) then VerifiedSource(values) else RefusedNotFound
  }

  /** `verify_reference`. */
  function VerifyReference(sha: Digester, db: Database, owner: Id, r: Reference): Verified {
    match r
    case MessageReference(_, _) => TypedSource(db, owner, SourceValues(r))
    case AnalysisReference(kind, source, candidate) =>
      match RowOf(db, owner, kind, source)
      case None => RefusedNotFound
      case Some(row) =>
        var check := if candidate.Some? then ValidateCandidate(sha, row, candidate.value) else CheckOk;
        match check
        case InputError => RefusedInput
        case CandidateChanged => RefusedChanged
        case CheckOk => TypedSource(db, owner, WithProvenance(SourceValues(r), row))
  }

  /** What a source says beyond what the server loaded: mailbox columns count only for plain communications. */
  function Requested(s: Source): Source {
    if s.kind == Communication then s else s.(account := None, message := None, attachment := None)
  }

  /** The mailbox columns of the source are those of the analysis row, as far as the row names a mailbox. */
  predicate CarriesProvenance(s: Source, row: Option<Row>) {
    && row.Some? && s.account == row.value.account && (s.account.Some? ==> s.message == row.value.message)
    && (s.attachment.Some? ==> s.attachment == row.value.attachment)
  }

  /** The candidate still names an observation of the row with the digest the client saw. */
  predicate CandidateStands(sha: Digester, db: Database, owner: Id, r: Reference)
    requires r.AnalysisReference? && r.candidate.Some?
  {
    var row := RowOf(db, owner, r.kind, r.source);
    row.Some? && ValidateCandidate(sha, row.value, r.candidate.value) == CheckOk
  }

  /** Verification adds the provenance of the owner's own row and changes nothing the client asked for. */
  lemma VerificationKeepsTheRequest(sha: Digester, db: Database, owner: Id, r: Reference)
    requires ReferenceOk(r) && VerifyReference(sha, db, owner, r).VerifiedSource?
    ensures var s := VerifyReference(sha, db, owner, r).source;
      && SourceOk(s) && Requested(s) == SourceValues(r)
      && (s.account.Some? ==> s.account.value in db.accounts && db.accounts[s.account.value] == owner)
      && (r.AnalysisReference? ==>
            && LocatorOf(s) == r.candidate && (r.candidate.Some? ==> CandidateStands(sha, db, owner, r))
            && CarriesProvenance(s, RowOf(db, owner, r.kind, r.source)))
  {
  }
}
