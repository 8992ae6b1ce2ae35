/** Which observation a locator names, what a page lists, and every answer of reference verification, spelled out. */
module ProvenanceAnswers {
  import opened Paging
  import opened Provenance
  import opened Text
  import opened WorkItemModel
  import opened WorkItemSources

  // ----- observations -----

  /** The stored array a field of a row stands for: tables have two, everything else has its action items. */
  function FieldArray(row: Row, kind: SourceKind, field: CandidateField): Option<seq<Value>> {
    var tabular := kind == AttachmentAnalysis && row.spreadsheet;
    match field
    case ActionItems => if tabular then None else Some(row.actionItems)
    case PotentialActionMentions => if !tabular then None else Some(if row.tabular.None? then [] else row.tabular.value.mentions)
    case PotentialDates => if !tabular then None else Some(if row.tabular.None? then [] else row.tabular.value.dates)
  }

  lemma ValuesOfOne(a: Observations, field: CandidateField)
    ensures ValuesOf([a], field) == if a.field == field then Some(a.values) else None
  {
    assert [a][..0] == [];
  }

  lemma ValuesOfTwo(a: Observations, b: Observations, field: CandidateField)
    ensures ValuesOf([a, b], field) == if b.field == field then Some(b.values) else ValuesOf([a], field)
  {
    assert [a, b][..1] == [a];
  }

  lemma FieldsNameTheirArrays(row: Row, kind: SourceKind, field: CandidateField)
    ensures ValuesOf(ObservationsOf(row, kind), field) == FieldArray(row, kind, field)
  {
    var arrays := ObservationsOf(row, kind);
    ValuesOfOne(arrays[0], field);
    if |arrays| == 2 {
      assert arrays == [arrays[0], arrays[1]];
      ValuesOfTwo(arrays[0], arrays[1], field);
    } else {
      assert arrays == [arrays[0]];
    }
  }

  /** What a page is cut from: the action items in order, or all mentions and then all dates. */
  lemma ObservationsAreListedInOrder(row: Row, kind: SourceKind, k: nat)
    requires k < |Flatten(ObservationsOf(row, kind))|
    ensures var p := Flatten(ObservationsOf(row, kind))[k];
      if kind == AttachmentAnalysis && row.spreadsheet then
        var mentions := FieldArray(row, kind, PotentialActionMentions).value;
        var dates := FieldArray(row, kind, PotentialDates).value;
        && |Flatten(ObservationsOf(row, kind))| == |mentions| + |dates|
        && p == if k < |mentions| then Place(PotentialActionMentions, k, mentions[k])
                else Place(PotentialDates, k - |mentions|, dates[k - |mentions|])
      else |Flatten(ObservationsOf(row, kind))| == |row.actionItems| && p == Place(ActionItems, k, row.actionItems[k])
  {
    var arrays := ObservationsOf(row, kind);
    FlattenGrows(arrays, 0);
    assert arrays[..0] == [];
    if |arrays| == 2 {
      FlattenGrows(arrays, 1);
      assert arrays[..2] == arrays;
    } else {
      assert arrays[..1] == arrays;
    }
  }

  /** An observation a candidate may name: a valid action item, or a nonblank text of at most 300 or 200 characters. */
  predicate Nameable(v: Value, field: CandidateField) {
    match field
    case ActionItems => v.Object? && v.wellFormed
    case PotentialActionMentions => v.TextValue? && !Blank(v.text) && |v.text| <= 300
    case PotentialDates => v.TextValue? && !Blank(v.text) && |v.text| <= 200
  }

  lemma NameableObservationsHaveDigests(sha: Digester, v: Value, field: CandidateField)
    ensures CandidateDigest(sha, v, field) == if Nameable(v, field) then Some(sha(v)) else None
  {
    if v.TextValue? { RequireTextIsStable(v.text); }
  }

  /** A locator stands exactly when its field has an observation at its index that may be named and has its digest. */
  lemma ValidationAnswers(sha: Digester, row: Row, l: Locator)
    ensures var values := FieldArray(row, l.kind, l.field);
      ValidateCandidate(sha, row, l) ==
        if values.None? || !(0 <= l.index < |values.value|) then InputError
        else if Nameable(values.value[l.index], l.field) && sha(values.value[l.index]) == l.digest then CheckOk
        else CandidateChanged
  {
    FieldsNameTheirArrays(row, l.kind, l.field);
    var values := FieldArray(row, l.kind, l.field);
    if values.Some? && 0 <= l.index < |values.value| { NameableObservationsHaveDigests(sha, values.value[l.index], l.field); }
  }

  // ----- verification -----

  /** The mailbox account is one of the owner's. */
  predicate OwnAccount(db: Database, owner: Id, account: Id) {
    account in db.accounts && db.accounts[account] == owner
  }

  /** The analyses of a kind. */
  function AnalysesOf(db: Database, kind: SourceKind): map<Id, Row> {
    if kind == AttachmentAnalysis then db.attachments else db.analyses
  }

  /** An identifier of somebody else's system: not blank, at most 2048 characters, no NUL; otherwise any text, as it is. */
  predicate Addressable(s: string) {
    !Blank(s) && |s| < 2049 && '\0' !in s
  }

  lemma AddressableIsOpaqueId(s: string)
    ensures Addressable(s) <==> OpaqueId(s)
  {
    RequireTextIsStable(s);
  }

  /** The stored row may be a source of its kind: an attachment needs all its mailbox columns, a mail row only with an account. */
  predicate UsableRow(row: Row, kind: SourceKind) {
    if kind == AttachmentAnalysis then
      && row.account.Some? && row.message.Some? && row.attachment.Some?
      && Addressable(row.message.value) && Addressable(row.attachment.value)
    else row.account.Some? ==> row.message.Some? && Addressable(row.message.value)
  }

  /** The source made of a reference and the row it names. */
  function SourceFrom(kind: SourceKind, id: Id, candidate: Option<Locator>, row: Row): Source {
    var attached := kind == AttachmentAnalysis;
    Source(kind, if attached then None else Some(id), if attached then Some(id) else None, row.account,
           if attached || row.account.Some? then row.message else None, if attached then row.attachment else None,
           if candidate.None? then None else Some(candidate.value.field),
           if candidate.None? then None else Some(candidate.value.index),
           if candidate.None? then None else Some(candidate.value.digest))
  }

  /** A plain message verifies exactly when its account is the owner's and its identifier is addressable. */
  lemma MessageAnswers(sha: Digester, db: Database, owner: Id, account: Id, message: string)
    ensures VerifyReference(sha, db, owner, MessageReference(account, message)) ==
      if OwnAccount(db, owner, account) && Addressable(message)
      then VerifiedSource(Source(Communication, None, None, Some(account), Some(message), None, None, None, None)) else RefusedNotFound
  {
    AddressableIsOpaqueId(message);
  }

  /**
   Every answer to an analysis reference: not found unless the owner's own row of that kind is stored; then the candidate's
   check; then not found unless the row's mailbox account, if any, is the owner's and its columns are usable.
   */
  lemma AnalysisAnswers(sha: Digester, db: Database, owner: Id, kind: SourceKind, source: Id, candidate: Option<Locator>)
    requires ReferenceOk(AnalysisReference(kind, source, candidate))
    ensures var r, rows := VerifyReference(sha, db, owner, AnalysisReference(kind, source, candidate)), AnalysesOf(db, kind);
      if source !in rows || rows[source].owner != owner then r == RefusedNotFound
      else
        var row := rows[source];
        var check := if candidate.Some? then ValidateCandidate(sha, row, candidate.value) else CheckOk;
        if check == InputError then r == RefusedInput
        else if check == CandidateChanged then r == RefusedChanged
        else if row.account.Some? && !OwnAccount(db, owner, row.account.value) then r == RefusedNotFound
        else if !UsableRow(row, kind) then r == RefusedNotFound
        else r == VerifiedSource(SourceFrom(kind, source, candidate, row))
  {
    forall s { AddressableIsOpaqueId(s); }
  }

  /** The source is of the owner's own data: a row of its kind that is the owner's, with its columns, or an account of the owner. */
  predicate OwnSource(db: Database, owner: Id, s: Source) {
    match s.kind
    case Communication => s.account.Some? && OwnAccount(db, owner, s.account.value)
    case CommunicationAnalysis => s.analysis.Some? && OwnRow(db.analyses, db, owner, s.analysis.value, s)
    case AttachmentAnalysis => s.attachmentAnalysis.Some? && OwnRow(db.attachments, db, owner, s.attachmentAnalysis.value, s)
  }

  predicate OwnRow(rows: map<Id, Row>, db: Database, owner: Id, id: Id, s: Source) {
    && id in rows && rows[id].owner == owner && s.account == rows[id].account
    && (s.account.Some? ==> OwnAccount(db, owner, s.account.value) && s.message == rows[id].message)
    && (s.kind == AttachmentAnalysis ==> s.attachment == rows[id].attachment)
  }

  /** Whatever verifies is a source of the owner's own data. */
  lemma VerifiedSourcesAreOwn(sha: Digester, db: Database, owner: Id, r: Reference)
    requires ReferenceOk(r) && VerifyReference(sha, db, owner, r).VerifiedSource?
    ensures OwnSource(db, owner, VerifyReference(sha, db, owner, r).source)
  {
    match r
    case MessageReference(account, message) => MessageAnswers(sha, db, owner, account, message);
    case AnalysisReference(kind, source, candidate) => AnalysisAnswers(sha, db, owner, kind, source, candidate);
  }
}
