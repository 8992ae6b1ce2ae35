/** No timeline shows an entry twice. */
module TimelineOnce {
  import opened Collections
  import opened Text
  import opened Timeline
  import opened TimelineService
  import opened TimelineAnswers
  import W = WorkflowModel

  // ----- sequences without repeats -----

  lemma JoinApart<A>(a: seq<A>, b: seq<A>)
    requires Distinct(a) && Distinct(b) && forall x :: x in a ==> x !in b
    ensures Distinct(a + b)
  {
    forall i, j | 0 <= i < j < |a + b| ensures (a + b)[i] != (a + b)[j] {
      if i < |a| <= j { assert a[i] in a && b[j - |a|] in b; }
    }
  }

  lemma MapApart<A, B>(f: A -> B, s: seq<A>)
    requires Distinct(s) && forall x, y :: x in s && y in s && f(x) == f(y) ==> x == y
    ensures Distinct(Map(f, s))
  {
  }

  lemma {:induction false} FilterApart<A>(keep: A -> bool, s: seq<A>)
    requires Distinct(s)
    ensures Distinct(Filter(keep, s))
  {
    if s != [] {
      var n := |s| - 1;
      FilterApart(keep, s[..n]);
      FilterKeepsExactly(keep, s[..n], s[n]);
      if keep(s[n]) { JoinApart(Filter(keep, s[..n]), [s[n]]); }
    }
  }

  lemma {:induction false} FlatMapApart<A, B>(f: A -> seq<B>, s: seq<A>)
    requires Distinct(s) && forall x :: x in s ==> Distinct(f(x))
    requires forall x, y, z :: x in s && y in s && z in f(x) && z in f(y) ==> x == y
    ensures Distinct(FlatMap(f, s))
  {
    if s != [] {
      var n := |s| - 1;
      var front := FlatMap(f, s[..n]);
      FlatMapApart(f, s[..n]);
      forall z | z in front ensures z !in f(s[n]) {
        FlatMapContains(f, s[..n], z);
        var i :| 0 <= i < n && z in f(s[..n][i]);
        assert s[i] != s[n];
      }
      JoinApart(front, f(s[n]));
    }
  }

  lemma PermutingKeepsApart<A>(a: seq<A>, b: seq<A>)
    requires multiset(a) == multiset(b) && Distinct(a)
    ensures Distinct(b)
  {
    assert |multiset(a)| == |multiset(b)|;
    assert forall x :: x in a <==> x in multiset(b);
    assert Elements(a) == Elements(b);
    DistinctCount(a);
    DistinctCount(b);
  }

  // ----- each source contributes each entry once -----

  /** The identifier is the key of its table. */
  predicate Keyed(s: Store) {
    && (forall i, j :: 0 <= i < j < |s.links| ==> s.links[i].id != s.links[j].id)
    && (forall i, j :: 0 <= i < j < |s.analyses| ==> s.analyses[i].id != s.analyses[j].id)
    && (forall i, j :: 0 <= i < j < |s.attachments| ==> s.attachments[i].id != s.attachments[j].id)
    && (forall i, j :: 0 <= i < j < |s.workflows| ==> s.workflows[i].id != s.workflows[j].id)
    && (forall i, j :: 0 <= i < j < |s.events| ==> s.events[i].id != s.events[j].id)
  }

  /** Which of the six sources an entry comes from. */
  function SourceOf(kind: EntryKind): nat {
    match kind
    case ContextCreated => 0
    case ContextArchived => 0
    case CommunicationAssociated => 1
    case AnalysisCompleted => 2
    case AttachmentAnalysisCompleted => 3
    case WorkItemEvent => 5
    case _ => 4
  }

  ghost predicate OnceFrom(source: nat, entries: seq<Entry>) {
    Distinct(entries) && forall e :: e in entries ==> SourceOf(e.kind) == source
  }

  lemma LinksOnce(render: Render, s: Store)
    requires Keyed(s)
    ensures OnceFrom(1, Map(LinkEntry(render), s.links))
  {
    MapApart(LinkEntry(render), s.links);
  }

  lemma AnalysesOnce(render: Render, s: Store)
    requires Keyed(s)
    ensures OnceFrom(2, Map(AnalysisEntry(render), Filter(AnalysisIn(Provenance(s.links)), s.analyses)))
  {
    var keep := AnalysisIn(Provenance(s.links));
    FilterApart(keep, s.analyses);
    forall a { FilterKeepsExactly(keep, s.analyses, a); }
    MapApart(AnalysisEntry(render), Filter(keep, s.analyses));
  }

  lemma FoundFor(s: Store, key: Key, a: Attachment)
    ensures a in AttachmentsFor(s.attachments)(key) <==> a in s.attachments && (a.account, a.message) == key
  {
    FilterKeepsExactly(AttachmentFor(key), s.attachments, a);
  }

  lemma AttachmentsOnce(render: Render, s: Store, order: seq<Key>)
    requires Keyed(s) && Distinct(order)
    ensures OnceFrom(3, Map(AttachmentEntry(render), FlatMap(AttachmentsFor(s.attachments), order)))
  {
    var found := FlatMap(AttachmentsFor(s.attachments), order);
    forall key, a { FoundFor(s, key, a); }
    forall key ensures Distinct(AttachmentsFor(s.attachments)(key)) { FilterApart(AttachmentFor(key), s.attachments); }
    FlatMapApart(AttachmentsFor(s.attachments), order);
    forall a | a in found ensures a in s.attachments { FlatMapContains(AttachmentsFor(s.attachments), order, a); }
    MapApart(AttachmentEntry(render), found);
  }

  lemma TransitionsOnce(render: Render, r: W.Row)
    ensures OnceFrom(4, WorkflowEntries(render)(r)) && forall e :: e in WorkflowEntries(render)(r) ==> e.source == r.id
  {
    forall e { WorkflowEntriesAreDated(render, r, e); }
    var a := TransitionEntry(render, r, WorkflowProposed, "pending", Some(r.createdAt));
    var b := TransitionEntry(render, r, WorkflowApproved, "approved", r.approvedAt);
    var c := TransitionEntry(render, r, WorkflowRejected, "rejected", r.rejectedAt);
    var d := TransitionEntry(render, r, WorkflowExecuted, "executed", r.executedAt);
    var f := TransitionEntry(render, r, WorkflowFailed, "failed", r.failedAt);
    JoinApart(a, b);
    JoinApart(a + b, c);
    JoinApart(a + b + c, d);
    JoinApart(a + b + c + d, f);
  }

  lemma WorkflowsOnce(render: Render, s: Store)
    requires Keyed(s)
    ensures OnceFrom(4, FlatMap(WorkflowEntries(render), Filter(WorkflowIn(Provenance(s.links)), s.workflows)))
  {
    var keep := WorkflowIn(Provenance(s.links));
    FilterApart(keep, s.workflows);
    forall r { FilterKeepsExactly(keep, s.workflows, r); }
    RowsTransitionsOnce(render, Filter(keep, s.workflows));
  }

  lemma RowsTransitionsOnce(render: Render, rows: seq<W.Row>)
    requires Distinct(rows) && forall x, y :: x in rows && y in rows && x.id == y.id ==> x == y
    ensures OnceFrom(4, FlatMap(WorkflowEntries(render), rows))
  {
    forall r { TransitionsOnce(render, r); }
    forall x, y, e | x in rows && y in rows && e in WorkflowEntries(render)(x) && e in WorkflowEntries(render)(y) ensures x == y {
      assert x.id == e.source == y.id;
    }
    FlatMapApart(WorkflowEntries(render), rows);
    forall e { FlatMapContains(WorkflowEntries(render), rows, e); }
  }

  lemma EventsOnce(render: Render, s: Store)
    requires Keyed(s) && forall a, b :: render.uuid(a) == render.uuid(b) ==> a == b
    ensures OnceFrom(5, Map(EventEntry(render), s.events))
  {
    var prefix := "work_item_event:";
    forall x, y | EventEntry(render)(x) == EventEntry(render)(y) ensures x.id == y.id {
      assert (prefix + render.uuid(x.id))[|prefix|..] == render.uuid(x.id);
      assert (prefix + render.uuid(y.id))[|prefix|..] == render.uuid(y.id);
    }
    MapApart(EventEntry(render), s.events);
  }

  lemma SourcesApart(a: seq<Entry>, b: seq<Entry>, source: nat)
    requires Distinct(a) && (forall e :: e in a ==> SourceOf(e.kind) < source) && OnceFrom(source, b)
    ensures Distinct(a + b) && forall e :: e in a + b ==> SourceOf(e.kind) < source + 1
  {
    JoinApart(a, b);
  }

  /**
   No entry is shown twice: with row identifiers that are keys and identifiers written apart, the whole timeline repeats
   nothing, however the provenance set is enumerated.
   */
  lemma NothingIsShownTwice(render: Render, s: Store, order: seq<Key>)
    requires Keyed(s) && Enumerates(order, Provenance(s.links)) && forall a, b :: render.uuid(a) == render.uuid(b) ==> a == b
    ensures Distinct(StableSort(AllEntries(render, s, order)))
  {
    var p0, p1 := ContextEntries(render, s.context), Map(LinkEntry(render), s.links);
    var p2 := Map(AnalysisEntry(render), Filter(AnalysisIn(Provenance(s.links)), s.analyses));
    var p3 := Map(AttachmentEntry(render), FlatMap(AttachmentsFor(s.attachments), order));
    var p4 := FlatMap(WorkflowEntries(render), Filter(WorkflowIn(Provenance(s.links)), s.workflows));
    var p5 := Map(EventEntry(render), s.events);
    LinksOnce(render, s);
    AnalysesOnce(render, s);
    AttachmentsOnce(render, s, order);
    WorkflowsOnce(render, s);
    EventsOnce(render, s);
    SourcesApart(p0, p1, 1);
    SourcesApart(p0 + p1, p2, 2);
    SourcesApart(p0 + p1 + p2, p3, 3);
    SourcesApart(p0 + p1 + p2 + p3, p4, 4);
    SourcesApart(p0 + p1 + p2 + p3 + p4, p5, 5);
    StableSortSorts(AllEntries(render, s, order));
    PermutingKeepsApart(AllEntries(render, s, order), StableSort(AllEntries(render, s, order)));
  }
}
