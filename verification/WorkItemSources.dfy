/** Typed provenance of work items: stored sources, candidate locators and the references a client may send. */
module WorkItemSources {
  import opened Text
  import opened WorkItemModel

  datatype SourceKind = Communication | CommunicationAnalysis | AttachmentAnalysis

  datatype CandidateField = ActionItems | PotentialActionMentions | PotentialDates

  datatype Locator = Locator(kind: SourceKind, source: Id, field: CandidateField, index: int, digest: string)

  /** Also the untyped value mapping a reference is turned into before the server adds what it loaded. */
  datatype Source = Source(kind: SourceKind, analysis: Option<Id>, attachmentAnalysis: Option<Id>, account: Option<Id>,
                           message: Option<string>, attachment: Option<string>, field: Option<CandidateField>,
                           index: Option<int>, digest: Option<string>)

  datatype Reference = MessageReference(account: Id, message: string)
                     | AnalysisReference(kind: SourceKind, source: Id, candidate: Option<Locator>)

  /** `opaque_id`: nonblank, at most 2048 characters, never normalised. */
  predicate OpaqueId(s: string) {
    Strip(s) != [] && |s| <= 2048 && '\0' !in s
  }

  predicate LocatorOk(l: Locator) {
    && l.kind != Communication && l.index >= 0 && DigestOk(l.digest)
    && (l.kind == CommunicationAnalysis ==> l.field == ActionItems)
  }

  /** `WorkItemSource` with `typed_reference`. */
  predicate SourceOk(s: Source) {
    && (s.message.Some? ==> OpaqueId(s.message.value)) && (s.attachment.Some? ==> OpaqueId(s.attachment.value))
    && (s.index.Some? ==> s.index.value >= 0) && (s.digest.Some? ==> DigestOk(s.digest.value))
    && (s.field.Some? <==> s.index.Some?) && (s.field.Some? <==> s.digest.Some?)
    && (s.account.Some? <==> s.message.Some?)
    && match s.kind
       case Communication =>
         s.account.Some? && s.analysis.None? && s.attachmentAnalysis.None? && s.attachment.None? && s.field.None?
       case CommunicationAnalysis =>
         && s.analysis.Some? && s.attachmentAnalysis.None? && s.attachment.None?
         && (s.field.Some? ==> s.field.value == ActionItems)
       case AttachmentAnalysis => s.analysis.None? && s.attachmentAnalysis.Some? && s.account.Some? && s.attachment.Some?
  }

  /** `WorkItemSource.locator`. */
  function LocatorOf(s: Source): Option<Locator>
    requires SourceOk(s)
  {
    if s.field.None? then None else
      Some(Locator(s.kind, if s.analysis.Some? then s.analysis.value else s.attachmentAnalysis.value,
                   s.field.value, s.index.value, s.digest.value))
  }

  predicate ReferenceOk(r: Reference) {
    match r
    case MessageReference(_, message) => OpaqueId(message)
    case AnalysisReference(kind, source, candidate) =>
      kind != Communication
      && (candidate.Some? ==> LocatorOk(candidate.value) && candidate.value.kind == kind && candidate.value.source == source)
  }

  /** `source_values`: what the client asked for, with every server-loaded field empty. */
  function SourceValues(r: Reference): Source {
    match r
    case MessageReference(account, message) => Source(Communication, None, None, Some(account), Some(message), None, None, None, None)
    case AnalysisReference(kind, source, candidate) =>
      Source(kind, if kind == CommunicationAnalysis then Some(source) else None,
             if kind == CommunicationAnalysis then None else Some(source), None, None, None,
             if candidate.Some? then Some(candidate.value.field) else None,
             if candidate.Some? then Some(candidate.value.index) else None,
             if candidate.Some? then Some(candidate.value.digest) else None)
  }

  /** Distinct well-formed references denote distinct values, and the designated locator can be read back. */
  lemma SourceValuesAreFaithful(r: Reference, q: Reference)
    requires ReferenceOk(r) && ReferenceOk(q)
    ensures SourceValues(r) == SourceValues(q) <==> r == q
  {
  }
}
