/** Which entries a timeline shows, spelled out, and when each of them is dated. */
module TimelineAnswers {
  import opened Collections
  import opened Text
  import opened Timeline
  import opened TimelineService
  import W = WorkflowModel

  lemma {:induction false} FlatMapContains<A, B>(f: A -> seq<B>, s: seq<A>, y: B)
    ensures y in FlatMap(f, s) <==> exists i :: 0 <= i < |s| && y in f(s[i])
  {
    if s != [] {
      var n := |s| - 1;
      FlatMapContains(f, s[..n], y);
      if i :| 0 <= i < |s| && y in f(s[i]) {
        assert i < n ==> s[..n][i] == s[i];
      }
      if i :| 0 <= i < n && y in f(s[..n][i]) { assert s[..n][i] == s[i]; }
    }
  }

  lemma MapContains<A, B>(f: A -> B, s: seq<A>, y: B)
    ensures y in Map(f, s) <==> exists i :: 0 <= i < |s| && y == f(s[i])
  {
  }

  /** The mailbox message is linked to the context. */
  predicate Linked(s: Store, account: Option<Id>, message: Option<string>) {
    account.Some? && message.Some? && exists i :: 0 <= i < |s.links| && LinksTo(s.links[i], account.value, message.value)
  }

  predicate LinksTo(l: Link, account: Id, message: string) {
    l.account == account && l.message == message
  }

  lemma LinkedIsInProvenance(s: Store, account: Id, message: string)
    ensures Linked(s, Some(account), Some(message)) <==> (account, message) in Provenance(s.links)
  {
    var keys := Map(LinkKey(), s.links);
    assert forall i :: 0 <= i < |keys| ==> keys[i] == (s.links[i].account, s.links[i].message);
    if (account, message) in keys {
      var i :| 0 <= i < |keys| && keys[i] == (account, message);
      assert LinksTo(s.links[i], account, message);
    }
  }

  // ----- what each source contributes -----

  predicate FromContext(render: Render, c: Context, e: Entry) {
    || e == Entry("context_created:" + render.uuid(c.id), ContextCreated, c.createdAt, c.id, None, None)
    || (c.archived && c.archivedAt.Some?
        && e == Entry("context_archived:" + render.uuid(c.id) + ":" + render.iso(c.archivedAt.value), ContextArchived,
                      c.archivedAt.value, c.id, None, None))
  }

  predicate FromLink(render: Render, l: Link, e: Entry) {
    e == Entry("association:" + render.uuid(l.id), CommunicationAssociated, l.at, l.id, Some(l.account), Some(l.message))
  }

  predicate FromAnalysis(render: Render, a: Analysis, e: Entry) {
    e == Entry("analysis:" + render.uuid(a.id), AnalysisCompleted, a.at, a.id, a.account, a.message)
  }

  predicate FromAttachment(render: Render, a: Attachment, e: Entry) {
    e == Entry("attachment_analysis:" + render.uuid(a.id), AttachmentAnalysisCompleted, a.at, a.id, Some(a.account), Some(a.message))
  }

  predicate FromEvent(render: Render, v: ItemEvent, e: Entry) {
    e == Entry("work_item_event:" + render.uuid(v.id), WorkItemEvent, v.at, v.item, None, None)
  }

  /** When a reply action made the transition of an entry kind, if it did, and the name of that transition. */
  function MomentOf(r: W.Row, kind: EntryKind): Option<Instant> {
    match kind
    case WorkflowProposed => Some(r.createdAt)
    case WorkflowApproved => r.approvedAt
    case WorkflowRejected => r.rejectedAt
    case WorkflowExecuted => r.executedAt
    case WorkflowFailed => r.failedAt
    case _ => None
  }

  function NameOfTransition(kind: EntryKind): string {
    match kind
    case WorkflowProposed => "pending"
    case WorkflowApproved => "approved"
    case WorkflowRejected => "rejected"
    case WorkflowExecuted => "executed"
    case WorkflowFailed => "failed"
    case _ => ""
  }

  /** An entry of a reply action is dated when the action made that very transition. */
  predicate FromWorkflow(render: Render, r: W.Row, e: Entry) {
    && MomentOf(r, e.kind).Some? && e.at == MomentOf(r, e.kind).value
    && e == Entry("workflow:" + render.uuid(r.id) + ":" + NameOfTransition(e.kind), e.kind, e.at, r.id, r.account, r.message)
  }

  lemma WorkflowEntriesAreDated(render: Render, r: W.Row, e: Entry)
    ensures e in WorkflowEntries(render)(r) <==> FromWorkflow(render, r, e)
  {
    assert e in TransitionEntry(render, r, WorkflowProposed, "pending", Some(r.createdAt)) <==>
      e.kind == WorkflowProposed && FromWorkflow(render, r, e);
    assert e in TransitionEntry(render, r, WorkflowApproved, "approved", r.approvedAt) <==>
      e.kind == WorkflowApproved && FromWorkflow(render, r, e);
    assert e in TransitionEntry(render, r, WorkflowRejected, "rejected", r.rejectedAt) <==>
      e.kind == WorkflowRejected && FromWorkflow(render, r, e);
    assert e in TransitionEntry(render, r, WorkflowExecuted, "executed", r.executedAt) <==>
      e.kind == WorkflowExecuted && FromWorkflow(render, r, e);
    assert e in TransitionEntry(render, r, WorkflowFailed, "failed", r.failedAt) <==>
      e.kind == WorkflowFailed && FromWorkflow(render, r, e);
  }

  lemma AnalysesShown(render: Render, s: Store, e: Entry)
    ensures e in Map(AnalysisEntry(render), Filter(AnalysisIn(Provenance(s.links)), s.analyses)) <==>
      exists i :: 0 <= i < |s.analyses| && Linked(s, s.analyses[i].account, s.analyses[i].message)
          && FromAnalysis(render, s.analyses[i], e)
  {
    var keep := AnalysisIn(Provenance(s.links));
    var kept := Filter(keep, s.analyses);
    MapContains(AnalysisEntry(render), kept, e);
    forall a: Analysis ensures keep(a) <==> Linked(s, a.account, a.message) {
      if a.account.Some? && a.message.Some? { LinkedIsInProvenance(s, a.account.value, a.message.value); }
    }
    forall a ensures a in kept <==> a in s.analyses && keep(a) { FilterKeepsExactly(keep, s.analyses, a); }
    if i :| 0 <= i < |kept| && e == AnalysisEntry(render)(kept[i]) {
      var j :| 0 <= j < |s.analyses| && s.analyses[j] == kept[i];
      assert FromAnalysis(render, s.analyses[j], e);
    }
    if j :| 0 <= j < |s.analyses| && Linked(s, s.analyses[j].account, s.analyses[j].message) && FromAnalysis(render, s.analyses[j], e) {
      assert s.analyses[j] in kept;
    }
  }

  lemma WorkflowsOfLinkedMessages(s: Store, r: W.Row)
    ensures r in Filter(WorkflowIn(Provenance(s.links)), s.workflows) <==> r in s.workflows && Linked(s, r.account, r.message)
  {
    FilterKeepsExactly(WorkflowIn(Provenance(s.links)), s.workflows, r);
    if r.account.Some? && r.message.Some? { LinkedIsInProvenance(s, r.account.value, r.message.value); }
  }

  lemma WorkflowsShown(render: Render, s: Store, e: Entry)
    ensures e in FlatMap(WorkflowEntries(render), Filter(WorkflowIn(Provenance(s.links)), s.workflows)) <==>
      exists i :: 0 <= i < |s.workflows| && Linked(s, s.workflows[i].account, s.workflows[i].message)
        && FromWorkflow(render, s.workflows[i], e)
  {
    var kept := Filter(WorkflowIn(Provenance(s.links)), s.workflows);
    FlatMapContains(WorkflowEntries(render), kept, e);
    if i :| 0 <= i < |kept| && e in WorkflowEntries(render)(kept[i]) {
      WorkflowsOfLinkedMessages(s, kept[i]);
      WorkflowEntriesAreDated(render, kept[i], e);
      var j :| 0 <= j < |s.workflows| && s.workflows[j] == kept[i];
      assert FromWorkflow(render, s.workflows[j], e);
    }
    if j :| 0 <= j < |s.workflows| && Linked(s, s.workflows[j].account, s.workflows[j].message) && FromWorkflow(render, s.workflows[j], e) {
      WorkflowsOfLinkedMessages(s, s.workflows[j]);
      WorkflowEntriesAreDated(render, s.workflows[j], e);
      var i :| 0 <= i < |kept| && kept[i] == s.workflows[j];
      assert e in WorkflowEntries(render)(kept[i]);
    }
  }

  lemma AttachmentsOfLinkedMessages(s: Store, order: seq<Key>, a: Attachment)
    requires Enumerates(order, Provenance(s.links))
    ensures a in FlatMap(AttachmentsFor(s.attachments), order) <==> a in s.attachments && Linked(s, Some(a.account), Some(a.message))
  {
    FlatMapContains(AttachmentsFor(s.attachments), order, a);
    LinkedIsInProvenance(s, a.account, a.message);
    forall key ensures a in AttachmentsFor(s.attachments)(key) <==> a in s.attachments && (a.account, a.message) == key {
      FilterKeepsExactly(AttachmentFor(key), s.attachments, a);
    }
    assert (a.account, a.message) in Elements(order) <==> (a.account, a.message) in order;
  }

  lemma AttachmentsShown(render: Render, s: Store, order: seq<Key>, e: Entry)
    requires Enumerates(order, Provenance(s.links))
    ensures e in Map(AttachmentEntry(render), FlatMap(AttachmentsFor(s.attachments), order)) <==>
      exists i :: 0 <= i < |s.attachments| && Linked(s, Some(s.attachments[i].account), Some(s.attachments[i].message))
                  && FromAttachment(render, s.attachments[i], e)
  {
    var found := FlatMap(AttachmentsFor(s.attachments), order);
    MapContains(AttachmentEntry(render), found, e);
    forall a ensures a in found <==> a in s.attachments && Linked(s, Some(a.account), Some(a.message)) {
      AttachmentsOfLinkedMessages(s, order, a);
    }
    if i :| 0 <= i < |found| && e == AttachmentEntry(render)(found[i]) {
      var j :| 0 <= j < |s.attachments| && s.attachments[j] == found[i];
      assert FromAttachment(render, s.attachments[j], e);
    }
    if j :| 0 <= j < |s.attachments| && FromAttachment(render, s.attachments[j], e) && Linked(s, e.account, e.message) {
      assert s.attachments[j] in found;
    }
  }

  lemma LinksAndEventsShown(render: Render, s: Store, e: Entry)
    ensures e in Map(LinkEntry(render), s.links) <==> exists i :: 0 <= i < |s.links| && FromLink(render, s.links[i], e)
    ensures e in Map(EventEntry(render), s.events) <==> exists i :: 0 <= i < |s.events| && FromEvent(render, s.events[i], e)
  {
    MapContains(LinkEntry(render), s.links, e);
    MapContains(EventEntry(render), s.events, e);
  }

  /**
   A timeline shows exactly: the context's creation and archiving, every link, the analyses, attachment analyses and reply
   actions whose mailbox message is linked, the latter once per transition and dated by it, and every work item event.
   */
  lemma TimelineShowsExactly(render: Render, s: Store, order: seq<Key>, e: Entry)
    requires Enumerates(order, Provenance(s.links))
    ensures e in StableSort(AllEntries(render, s, order)) <==>
      || FromContext(render, s.context, e)
      || (exists i :: 0 <= i < |s.links| && FromLink(render, s.links[i], e))
      || (exists i :: 0 <= i < |s.analyses| && Linked(s, s.analyses[i].account, s.analyses[i].message)
                      && FromAnalysis(render, s.analyses[i], e))
      || (exists i :: 0 <= i < |s.attachments| && Linked(s, Some(s.attachments[i].account), Some(s.attachments[i].message))
                      && FromAttachment(render, s.attachments[i], e))
      || (exists i :: 0 <= i < |s.workflows| && Linked(s, s.workflows[i].account, s.workflows[i].message)
                      && FromWorkflow(render, s.workflows[i], e))
      || (exists i :: 0 <= i < |s.events| && FromEvent(render, s.events[i], e))
  {
    var all := AllEntries(render, s, order);
    StableSortSorts(all);
    assert e in StableSort(all) <==> e in multiset(StableSort(all));
    assert e in all <==> e in multiset(all);
    assert e in ContextEntries(render, s.context) <==> FromContext(render, s.context, e);
    LinksAndEventsShown(render, s, e);
    AnalysesShown(render, s, e);
    AttachmentsShown(render, s, order, e);
    WorkflowsShown(render, s, e);
  }

  /** A page has at least one and at most 100 places, whatever limit is asked for, and starts at the offset, never before the first. */
  lemma LimitsAreClamped(limit: int)
    ensures 1 <= PageLimit(limit) <= 100 && (1 <= limit <= 100 ==> PageLimit(limit) == limit)
    ensures limit < 1 ==> PageLimit(limit) == 1
    ensures limit > 100 ==> PageLimit(limit) == 100
  {
  }
}
