/** `ContextTimelineService`: the loops that drain paged repositories, the assembly, and the page that is returned. */
module TimelineService {
  import opened Collections
  import opened Paging
  import opened Text
  import opened Timeline
  import W = WorkflowModel

  type Key = (Id, string)

  datatype Link = Link(id: Id, account: Id, message: string, at: Instant)

  /** A communication analysis or a reply action may have no mailbox provenance; an attachment analysis always has. */
  datatype Analysis = Analysis(id: Id, account: Option<Id>, message: Option<string>, at: Instant)
  datatype Attachment = Attachment(id: Id, account: Id, message: string, at: Instant)

  datatype ItemEvent = ItemEvent(id: Id, item: Id, at: Instant)

  datatype Context = Context(id: Id, createdAt: Instant, archivedAt: Option<Instant>, archived: bool)

  /** How identifiers and instants are written into entry ids. */
  datatype Render = Render(uuid: Id -> string, iso: Instant -> string)

  /** One user's repositories as they answer during the request: each list is a full result in repository order. */
  datatype Store = Store(context: Context, links: seq<Link>, analyses: seq<Analysis>, attachments: seq<Attachment>,
                         workflows: seq<W.Row>, events: seq<ItemEvent>)

  const SOURCE_PAGE := 100

  // ----- which rows belong to the context -----

  function LinkKey(): Link -> Key {
    (l: Link) => (l.account, l.message)
  }

  ghost function Provenance(links: seq<Link>): set<Key> {
    Elements(Map(LinkKey(), links))
  }

  function AnalysisIn(keys: set<Key>): Analysis -> bool {
    (a: Analysis) => a.account.Some? && a.message.Some? && (a.account.value, a.message.value) in keys
  }

  function AttachmentFor(key: Key): Attachment -> bool {
    (a: Attachment) => (a.account, a.message) == key
  }

  function WorkflowIn(keys: set<Key>): W.Row -> bool {
    (r: W.Row) => r.account.Some? && r.message.Some? && (r.account.value, r.message.value) in keys
  }

  // ----- entries -----

  function LinkEntry(render: Render): Link -> Entry {
    (l: Link) => Entry("association:" + render.uuid(l.id), CommunicationAssociated, l.at, l.id, Some(l.account), Some(l.message))
  }

  function AnalysisEntry(render: Render): Analysis -> Entry {
    (a: Analysis) => Entry("analysis:" + render.uuid(a.id), AnalysisCompleted, a.at, a.id, a.account, a.message)
  }

  function AttachmentEntry(render: Render): Attachment -> Entry {
    (a: Attachment) =>
      Entry("attachment_analysis:" + render.uuid(a.id), AttachmentAnalysisCompleted, a.at, a.id, Some(a.account), Some(a.message))
  }

  function EventEntry(render: Render): ItemEvent -> Entry {
    (e: ItemEvent) => Entry("work_item_event:" + render.uuid(e.id), WorkItemEvent, e.at, e.item, None, None)
  }

  function TransitionEntry(render: Render, r: W.Row, kind: EntryKind, name: string, at: Option<Instant>): seq<Entry> {
    if at.None? then []
    else [Entry("workflow:" + render.uuid(r.id) + ":" + name, kind, at.value, r.id, r.account, r.message)]
  }

  /** `_workflow_entries`: one entry per transition whose timestamp is stored. */
  function WorkflowEntries(render: Render): W.Row -> seq<Entry> {
    (r: W.Row) =>
      TransitionEntry(render, r, WorkflowProposed, "pending", Some(r.createdAt))
      + TransitionEntry(render, r, WorkflowApproved, "approved", r.approvedAt)
      + TransitionEntry(render, r, WorkflowRejected, "rejected", r.rejectedAt)
      + TransitionEntry(render, r, WorkflowExecuted, "executed", r.executedAt)
      + TransitionEntry(render, r, WorkflowFailed, "failed", r.failedAt)
  }

  function ContextEntries(render: Render, c: Context): seq<Entry> {
    [Entry("context_created:" + render.uuid(c.id), ContextCreated, c.createdAt, c.id, None, None)]
    + if c.archived && c.archivedAt.Some? then
        [Entry("context_archived:" + render.uuid(c.id) + ":" + render.iso(c.archivedAt.value), ContextArchived,
               c.archivedAt.value, c.id, None, None)]
      else []
  }

  // ----- the specification -----

  function AttachmentsFor(rows: seq<Attachment>): Key -> seq<Attachment> {
    (key: Key) => Filter(AttachmentFor(key), rows)
  }

  /** Every entry but the work item events; `order` is how the provenance set happens to be enumerated. */
  ghost function Assembled(render: Render, s: Store, order: seq<Key>): seq<Entry> {
    ContextEntries(render, s.context)
    + Map(LinkEntry(render), s.links)
    + Map(AnalysisEntry(render), Filter(AnalysisIn(Provenance(s.links)), s.analyses))
    + Map(AttachmentEntry(render), FlatMap(AttachmentsFor(s.attachments), order))
    + FlatMap(WorkflowEntries(render), Filter(WorkflowIn(Provenance(s.links)), s.workflows))
  }

  /** All entries of the timeline, work item events included. */
  ghost function AllEntries(render: Render, s: Store, order: seq<Key>): seq<Entry> {
    Assembled(render, s, order) + Map(EventEntry(render), s.events)
  }

  function PageLimit(limit: int): nat {
    Max(1, Min(limit, 100))
  }

  ghost predicate Enumerates(order: seq<Key>, keys: set<Key>) {
    Distinct(order) && Elements(order) == keys
  }

  // ----- draining -----

  /** `_load_all_links`: pages until a short one. */
  method LoadAllLinks(rows: seq<Link>) returns (links: seq<Link>)
    ensures links == rows
  {
    links := [];
    var offset := 0;
    while true
      invariant offset <= |rows| && links == rows[..offset]
      decreases |rows| - offset
    {
      var page := Window(rows, offset, SOURCE_PAGE);
      PageExtends(rows, offset, SOURCE_PAGE);
      links := links + page;
      if |page| < SOURCE_PAGE { break; }
      offset := offset + SOURCE_PAGE;
    }
  }

  /** The records of one page whose mailbox message is linked. */
  method LinkedAnalyses(page: seq<Analysis>, keys: set<Key>) returns (matched: seq<Analysis>)
    ensures matched == Filter(AnalysisIn(keys), page)
  {
    matched := [];
    for i := 0 to |page|
      invariant matched == Filter(AnalysisIn(keys), page[..i])
    {
      assert page[..i + 1] == page[..i] + [page[i]];
      FilterLast(AnalysisIn(keys), page[..i], page[i]);
      if page[i].account.Some? && page[i].message.Some? && (page[i].account.value, page[i].message.value) in keys {
        matched := matched + [page[i]];
      }
    }
    assert page[..|page|] == page;
  }

  /** `_matching_analyses`. */
  method MatchingAnalyses(rows: seq<Analysis>, keys: set<Key>) returns (matched: seq<Analysis>)
    ensures matched == Filter(AnalysisIn(keys), rows)
  {
    matched := [];
    var offset := 0;
    while true
      invariant offset <= |rows| && matched == Filter(AnalysisIn(keys), rows[..offset])
      decreases |rows| - offset
    {
      var page := Window(rows, offset, SOURCE_PAGE);
      var linked := LinkedAnalyses(page, keys);
      PageExtends(rows, offset, SOURCE_PAGE);
      FilterJoin(AnalysisIn(keys), rows[..offset], page);
      matched := matched + linked;
      if |page| < SOURCE_PAGE { break; }
      offset := offset + SOURCE_PAGE;
    }
  }

  /** The records of one page whose mailbox message is linked. */
  method LinkedWorkflows(page: seq<W.Row>, keys: set<Key>) returns (matched: seq<W.Row>)
    ensures matched == Filter(WorkflowIn(keys), page)
  {
    matched := [];
    for i := 0 to |page|
      invariant matched == Filter(WorkflowIn(keys), page[..i])
    {
      assert page[..i + 1] == page[..i] + [page[i]];
      FilterLast(WorkflowIn(keys), page[..i], page[i]);
      if page[i].account.Some? && page[i].message.Some? && (page[i].account.value, page[i].message.value) in keys {
        matched := matched + [page[i]];
      }
    }
    assert page[..|page|] == page;
  }

  /** `_matching_workflows`. */
  method MatchingWorkflows(rows: seq<W.Row>, keys: set<Key>) returns (matched: seq<W.Row>)
    ensures matched == Filter(WorkflowIn(keys), rows)
  {
    matched := [];
    var offset := 0;
    while true
      invariant offset <= |rows| && matched == Filter(WorkflowIn(keys), rows[..offset])
      decreases |rows| - offset
    {
      var page := Window(rows, offset, SOURCE_PAGE);
      var linked := LinkedWorkflows(page, keys);
      PageExtends(rows, offset, SOURCE_PAGE);
      FilterJoin(WorkflowIn(keys), rows[..offset], page);
      matched := matched + linked;
      if |page| < SOURCE_PAGE { break; }
      offset := offset + SOURCE_PAGE;
    }
  }

  /** All attachment analyses of one message, page by page. */
  method DrainAttachments(found: seq<Attachment>) returns (all: seq<Attachment>)
    ensures all == found
  {
    all := [];
    var offset := 0;
    while true
      invariant offset <= |found| && all == found[..offset]
      decreases |found| - offset
    {
      var page := Window(found, offset, SOURCE_PAGE);
      PageExtends(found, offset, SOURCE_PAGE);
      all := all + page;
      if |page| < SOURCE_PAGE { break; }
      offset := offset + SOURCE_PAGE;
    }
  }

  /** `_matching_attachment_analyses`: the repository filters, the service drains key by key. */
  method MatchingAttachments(rows: seq<Attachment>, order: seq<Key>) returns (matched: seq<Attachment>)
    ensures matched == FlatMap(AttachmentsFor(rows), order)
  {
    matched := [];
    for k := 0 to |order|
      invariant matched == FlatMap(AttachmentsFor(rows), order[..k])
    {
      var found := DrainAttachments(Filter(AttachmentFor(order[k]), rows));
      assert order[..k + 1] == order[..k] + [order[k]];
      FlatMapLast(AttachmentsFor(rows), order[..k], order[k]);
      matched := matched + found;
    }
    assert order[..|order|] == order;
  }

  // ----- assembling -----

  method EntriesOfWorkflows(render: Render, rows: seq<W.Row>) returns (entries: seq<Entry>)
    ensures entries == FlatMap(WorkflowEntries(render), rows)
  {
    entries := [];
    for i := 0 to |rows|
      invariant entries == FlatMap(WorkflowEntries(render), rows[..i])
    {
      assert rows[..i + 1] == rows[..i] + [rows[i]];
      FlatMapLast(WorkflowEntries(render), rows[..i], rows[i]);
      entries := entries + WorkflowEntries(render)(rows[i]);
    }
    assert rows[..|rows|] == rows;
  }

  /** The loop over the links: their entries, and the set of their keys. */
  method EntriesOfLinks(render: Render, links: seq<Link>) returns (entries: seq<Entry>, keys: set<Key>)
    ensures entries == Map(LinkEntry(render), links) && keys == Provenance(links)
  {
    entries, keys := [], {};
    for i := 0 to |links|
      invariant entries == Map(LinkEntry(render), links[..i]) && keys == Provenance(links[..i])
    {
      var l := links[i];
      assert Map(LinkKey(), links[..i + 1]) == Map(LinkKey(), links[..i]) + [(l.account, l.message)];
      keys := keys + {(l.account, l.message)};
      entries := entries + [LinkEntry(render)(l)];
    }
    assert links[..|links|] == links;
  }

  lemma NothingLinkedNothingMatches(s: Store, order: seq<Key>)
    requires Provenance(s.links) == {} && Enumerates(order, {})
    ensures Filter(AnalysisIn(Provenance(s.links)), s.analyses) == [] && Filter(WorkflowIn(Provenance(s.links)), s.workflows) == []
    ensures FlatMap(AttachmentsFor(s.attachments), order) == []
  {
    FilterNothing(AnalysisIn({}), s.analyses);
    FilterNothing(WorkflowIn({}), s.workflows);
    DistinctCount(order);
  }

  /** `_assemble`. */
  method Assemble(render: Render, s: Store, order: seq<Key>) returns (entries: seq<Entry>)
    requires Enumerates(order, Provenance(s.links))
    ensures entries == Assembled(render, s, order)
  {
    entries := ContextEntries(render, s.context);
    var links := LoadAllLinks(s.links);
    var linked, keys := EntriesOfLinks(render, links);
    entries := entries + linked;
    if keys == {} {
      NothingLinkedNothingMatches(s, order);
      return;
    }
    var analyses := MatchingAnalyses(s.analyses, keys);
    entries := entries + Map(AnalysisEntry(render), analyses);
    var attachments := MatchingAttachments(s.attachments, order);
    entries := entries + Map(AttachmentEntry(render), attachments);
    var workflows := MatchingWorkflows(s.workflows, keys);
    var transitions := EntriesOfWorkflows(render, workflows);
    entries := entries + transitions;
  }

  /** The loop over `range(0, needed, 100)`: at most `needed` events, in bounded pages, until a short one. */
  method LeadingEvents(rows: seq<ItemEvent>, needed: nat) returns (events: seq<ItemEvent>)
    ensures events == Take(rows, needed)
  {
    events := [];
    var offset := 0;
    while offset < needed
      invariant events == Take(rows, Min(offset, needed)) && Min(offset, needed) <= |rows|
      decreases needed - offset
    {
      var size := Min(SOURCE_PAGE, needed - offset);
      var page := Window(rows, offset, size);
      events := events + page;
      if |page| < size { break; }
      offset := offset + SOURCE_PAGE;
    }
  }

  /**
   `list_timeline`: although only offset + limit events are read, the page is the slice of everything sorted.
   The repository contract is that the events arrive in timeline order.
   */
  method ListTimeline(render: Render, s: Store, order: seq<Key>, limit: int, offset: int) returns (page: seq<Entry>)
    requires Enumerates(order, Provenance(s.links)) && Ordered(Map(EventEntry(render), s.events))
    ensures page == Window(StableSort(AllEntries(render, s, order)), Max(0, offset), PageLimit(limit))
  {
    var pageLimit, safeOffset := PageLimit(limit), Max(0, offset);
    var entries := Assemble(render, s, order);
    var events := LeadingEvents(s.events, safeOffset + pageLimit);
    ghost var all := Map(EventEntry(render), s.events);
    assert Map(EventEntry(render), events) == Take(all, safeOffset + pageLimit);
    PrefixPageIsFullPage(entries, all, safeOffset, pageLimit);
    entries := entries + Map(EventEntry(render), events);
    page := Window(StableSort(entries), safeOffset, pageLimit);
  }

  /** The repository's own order, newest first and then by event id, is the timeline order of the entries. */
  lemma RepositoryOrderSuffices(render: Render, events: seq<ItemEvent>)
    requires forall i, j :: 0 <= i < j < |events| ==>
      events[i].at > events[j].at || (events[i].at == events[j].at && LexLe(render.uuid(events[i].id), render.uuid(events[j].id)))
    ensures Ordered(Map(EventEntry(render), events))
  {
    forall i, j | 0 <= i < j < |events| ensures Le(EventEntry(render)(events[i]), EventEntry(render)(events[j])) {
      LexAfterPrefix("work_item_event:", render.uuid(events[i].id), render.uuid(events[j].id));
    }
  }

  // ----- what the pages mean -----

  /** Successive pages of an accepted size concatenate to the whole ordered timeline, with no gap and no repeat. */
  lemma PagesCoverTheTimeline(render: Render, s: Store, order: seq<Key>, limit: nat, n: nat)
    requires 1 <= limit <= 100 && n * limit >= |AllEntries(render, s, order)|
    ensures PageLimit(limit) == limit
    ensures var sorted := StableSort(AllEntries(render, s, order));
      && Pages(sorted, limit, n) == sorted && Ordered(sorted) && multiset(sorted) == multiset(AllEntries(render, s, order))
  {
    var all := AllEntries(render, s, order);
    StableSortSorts(all);
    assert |StableSort(all)| == |all| by { assert |multiset(StableSort(all))| == |multiset(all)|; }
    PagesReachTheEnd(StableSort(all), limit, n);
  }

  ghost predicate DistinctIds(entries: seq<Entry>) {
    forall x, y :: x in entries && y in entries && x.id == y.id ==> x == y
  }

  lemma RestKeepsOrderAndIds(s: seq<Entry>)
    requires Ordered(s) && s != []
    ensures Ordered(s[1..]) && (DistinctIds(s) ==> DistinctIds(s[1..]))
  {
  }

  /** Two ordered arrangements of the same entries with distinct ids are equal. */
  lemma {:induction false} OrderedIsUnique(a: seq<Entry>, b: seq<Entry>)
    requires Ordered(a) && Ordered(b) && multiset(a) == multiset(b) && DistinctIds(a)
    ensures a == b
    decreases |a|
  {
    assert |multiset(a)| == |multiset(b)|;
    if a != [] {
      assert a[0] in multiset(b) && b[0] in multiset(a);
      FirstIsLeast(a, b[0]);
      FirstIsLeast(b, a[0]);
      LeTotal(a[0], b[0]);
      assert a[0] == b[0];
      HeadCounts(a);
      HeadCounts(b);
      RestKeepsOrderAndIds(a);
      RestKeepsOrderAndIds(b);
      OrderedIsUnique(a[1..], b[1..]);
    }
  }

  lemma FirstIsLeast(s: seq<Entry>, x: Entry)
    requires Ordered(s) && x in s
    ensures Le(s[0], x)
  {
    LeTotal(s[0], s[0]);
  }

  lemma AssembledPermutes(render: Render, s: Store, one: seq<Key>, other: seq<Key>)
    requires multiset(one) == multiset(other)
    ensures multiset(AllEntries(render, s, one)) == multiset(AllEntries(render, s, other))
  {
    var a, b := FlatMap(AttachmentsFor(s.attachments), one), FlatMap(AttachmentsFor(s.attachments), other);
    FlatMapPermutes(AttachmentsFor(s.attachments), one, other);
    MapPermutes(AttachmentEntry(render), a, b);
  }

  /** The order in which the provenance set is enumerated never shows, when entry ids are distinct. */
  lemma EnumerationNeverShows(render: Render, s: Store, one: seq<Key>, other: seq<Key>)
    requires Enumerates(one, Provenance(s.links)) && Enumerates(other, Provenance(s.links))
    requires DistinctIds(AllEntries(render, s, one))
    ensures StableSort(AllEntries(render, s, one)) == StableSort(AllEntries(render, s, other))
  {
    EnumerationsPermute(one, other);
    AssembledPermutes(render, s, one, other);
    var a, b := AllEntries(render, s, one), AllEntries(render, s, other);
    StableSortSorts(a);
    StableSortSorts(b);
    SameEntriesSameIds(a, StableSort(a));
    OrderedIsUnique(StableSort(a), StableSort(b));
  }

  lemma SameEntriesSameIds(a: seq<Entry>, b: seq<Entry>)
    requires DistinctIds(a) && multiset(a) == multiset(b)
    ensures DistinctIds(b)
  {
    forall x | x in b ensures x in a {
      assert x in multiset(b);
    }
  }

  /** An analysis is on the timeline exactly when its own mailbox message is linked to the context. */
  lemma AnalysesShownAreLinked(s: Store, a: Analysis)
    ensures a in Filter(AnalysisIn(Provenance(s.links)), s.analyses) <==>
      && a in s.analyses && a.account.Some? && a.message.Some?
      && exists i :: 0 <= i < |s.links| && s.links[i].account == a.account.value && s.links[i].message == a.message.value
  {
    FilterKeepsExactly(AnalysisIn(Provenance(s.links)), s.analyses, a);
    if a.account.Some? && a.message.Some? {
      var keys := Map(LinkKey(), s.links);
      assert forall i :: 0 <= i < |keys| ==> keys[i] == (s.links[i].account, s.links[i].message);
    }
  }

  /** The entries of a stored action tell its lifecycle: proposed, then decided, then its terminal outcome if it has one. */
  lemma WorkflowEntriesTellTheStatus(render: Render, r: W.Row)
    requires W.ValidRow(r)
    ensures var kinds := Map((e: Entry) => e.kind, WorkflowEntries(render)(r));
      kinds == match r.status
               case Pending => [WorkflowProposed]
               case Rejected => [WorkflowProposed, WorkflowRejected]
               case Approved => [WorkflowProposed, WorkflowApproved]
               case Executing => [WorkflowProposed, WorkflowApproved]
               case Executed => [WorkflowProposed, WorkflowApproved, WorkflowExecuted]
               case Failed => [WorkflowProposed, WorkflowApproved, WorkflowFailed]
  {
  }
}
