/**
 The context timeline: entries from several sources, merged newest first, paged from only a prefix of the one source
 that can be long.
 */
module Timeline {
  import opened Collections
  import opened Paging
  import opened Text
  type Id = int
  type Instant = int

  datatype EntryKind =
    | ContextCreated | ContextArchived | CommunicationAssociated | AnalysisCompleted | AttachmentAnalysisCompleted
    | WorkflowProposed | WorkflowApproved | WorkflowRejected | WorkflowExecuted | WorkflowFailed | WorkItemEvent

  datatype Entry = Entry(id: string, kind: EntryKind, at: Instant, source: Id, account: Option<Id>, message: Option<string>)

  // ----- the order -----

  /** Newest first, then by id. */
  predicate Le(a: Entry, b: Entry) {
    a.at > b.at || (a.at == b.at && LexLe(a.id, b.id))
  }

  lemma LeTotal(a: Entry, b: Entry)
    ensures Le(a, b) || Le(b, a)
    ensures Le(a, b) && Le(b, a) ==> a.at == b.at && a.id == b.id
  {
    LexTotal(a.id, b.id);
  }

  lemma LeTransitive(a: Entry, b: Entry, c: Entry)
    requires Le(a, b) && Le(b, c)
    ensures Le(a, c)
  {
    if a.at == b.at == c.at { LexTransitive(a.id, b.id, c.id); }
  }

  predicate Ordered(s: seq<Entry>) {
    forall i, j :: 0 <= i < j < |s| ==> Le(s[i], s[j])
  }

  /** Insert behind everything that is not greater: what makes the sort stable. */
  function InsertAfter(s: seq<Entry>, x: Entry): seq<Entry> {
    if s == [] then [x] else if Le(s[0], x) then [s[0]] + InsertAfter(s[1..], x) else [x] + s
  }

  /** The stable sort of `entries.sort`. */
  function StableSort(s: seq<Entry>): seq<Entry> {
    if s == [] then [] else InsertAfter(StableSort(s[..|s| - 1]), s[|s| - 1])
  }

  /** Two ordered lists merged, the first one first among equals. */
  function Merge(a: seq<Entry>, b: seq<Entry>): seq<Entry> {
    if a == [] then b else if b == [] then a
    else if Le(a[0], b[0]) then [a[0]] + Merge(a[1..], b) else [b[0]] + Merge(a, b[1..])
  }

  lemma {:induction false} InsertAfterPermutes(s: seq<Entry>, x: Entry)
    ensures multiset(InsertAfter(s, x)) == multiset(s) + multiset{x}
  {
    if s != [] && Le(s[0], x) {
      InsertAfterPermutes(s[1..], x);
      assert s == [s[0]] + s[1..];
    }
  }

  lemma {:induction false} InsertAfterKeepsOrder(s: seq<Entry>, x: Entry)
    requires Ordered(s)
    ensures Ordered(InsertAfter(s, x))
  {
    var r := InsertAfter(s, x);
    if s == [] {
    } else if Le(s[0], x) {
      var tail := InsertAfter(s[1..], x);
      InsertAfterKeepsOrder(s[1..], x);
      InsertAfterPermutes(s[1..], x);
      forall y | y in tail ensures Le(s[0], y) {
        assert y in multiset(tail);
        assert y != x ==> y in s[1..];
      }
      assert forall j :: 0 < j < |r| ==> r[j] == tail[j - 1];
    } else {
      LeTotal(s[0], x);
      forall j | 0 < j < |r| ensures Le(x, r[j]) {
        assert r[j] == s[j - 1];
        if j > 1 { LeTransitive(x, s[0], s[j - 1]); }
      }
    }
  }

  /** The sort orders its input and loses nothing. */
  lemma {:induction false} StableSortSorts(s: seq<Entry>)
    ensures Ordered(StableSort(s)) && multiset(StableSort(s)) == multiset(s)
  {
    if s != [] {
      var n := |s| - 1;
      StableSortSorts(s[..n]);
      InsertAfterKeepsOrder(StableSort(s[..n]), s[n]);
      InsertAfterPermutes(StableSort(s[..n]), s[n]);
      assert s == s[..n] + [s[n]];
    }
  }

  // ----- a prefix of one source is enough -----

  lemma {:induction false} InsertIntoMerge(a: seq<Entry>, b: seq<Entry>, x: Entry)
    requires Ordered(b + [x])
    ensures InsertAfter(Merge(a, b), x) == Merge(a, b + [x])
    decreases |a| + |b|
  {
    assert forall i :: 0 <= i < |b| ==> (b + [x])[i] == b[i] && Le((b + [x])[i], (b + [x])[|b|]);
    if a == [] {
      InsertAtEnd(b, x);
    } else if b == [] {
      if Le(a[0], x) {
        InsertIntoMerge(a[1..], b, x);
        assert Merge(a[1..], b) == a[1..];
      }
    } else if Le(a[0], b[0]) {
      LeTransitive(a[0], b[0], x);
      InsertIntoMerge(a[1..], b, x);
    } else {
      assert (b + [x])[1..] == b[1..] + [x];
      InsertIntoMerge(a, b[1..], x);
    }
  }

  lemma {:induction false} InsertAtEnd(b: seq<Entry>, x: Entry)
    requires forall i :: 0 <= i < |b| ==> Le(b[i], x)
    ensures InsertAfter(b, x) == b + [x]
  {
    if b != [] {
      InsertAtEnd(b[1..], x);
    }
  }

  lemma SortLast(s: seq<Entry>, x: Entry)
    ensures StableSort(s + [x]) == InsertAfter(StableSort(s), x)
  {
  }

  /** Sorting everything is merging the sorted rest with a source that is in order already. */
  lemma {:induction false} SortIsMerge(base: seq<Entry>, events: seq<Entry>)
    requires Ordered(events)
    ensures StableSort(base + events) == Merge(StableSort(base), events)
    decreases |events|
  {
    if events == [] {
      assert base + events == base;
    } else {
      var n := |events| - 1;
      var front, x := events[..n], events[n];
      assert front + [x] == events;
      assert base + events == (base + front) + [x];
      SortIsMerge(base, front);
      SortLast(base + front, x);
      InsertIntoMerge(StableSort(base), front, x);
    }
  }

  lemma {:induction false} MergePrefix(a: seq<Entry>, b: seq<Entry>, n: nat, k: nat)
    requires n <= k
    ensures Take(Merge(a, Take(b, k)), n) == Take(Merge(a, b), n)
    decreases n
  {
    if n == 0 || a == [] || b == [] {
    } else if Le(a[0], b[0]) {
      MergePrefix(a[1..], b, n - 1, k);
      assert Merge(a, Take(b, k)) == [a[0]] + Merge(a[1..], Take(b, k)) && Merge(a, b) == [a[0]] + Merge(a[1..], b);
      TakeCons(a[0], Merge(a[1..], Take(b, k)), n);
      TakeCons(a[0], Merge(a[1..], b), n);
    } else {
      MergePrefix(a, b[1..], n - 1, k - 1);
      assert Take(b, k)[1..] == Take(b[1..], k - 1);
      assert Merge(a, Take(b, k)) == [b[0]] + Merge(a, Take(b[1..], k - 1)) && Merge(a, b) == [b[0]] + Merge(a, b[1..]);
      TakeCons(b[0], Merge(a, Take(b[1..], k - 1)), n);
      TakeCons(b[0], Merge(a, b[1..]), n);
    }
  }

  lemma TakeCons<T>(x: T, s: seq<T>, n: nat)
    requires n > 0
    ensures Take([x] + s, n) == [x] + Take(s, n - 1)
  {
  }

  /**
   The page built from only the first offset + limit events equals the slice of the fully sorted merge of all sources,
   for every offset, limit and number of events, provided the event source is in timeline order.
   */
  lemma PrefixPageIsFullPage(base: seq<Entry>, events: seq<Entry>, offset: nat, limit: nat)
    requires Ordered(events)
    ensures Window(StableSort(base + Take(events, offset + limit)), offset, limit)
         == Window(StableSort(base + events), offset, limit)
  {
    var n := offset + limit;
    SortIsMerge(base, events);
    SortIsMerge(base, Take(events, n));
    var sorted := StableSort(base);
    MergePrefix(sorted, events, n, n);
    EqualPrefixesEqualWindows(Merge(sorted, events), Merge(sorted, Take(events, n)), offset, limit);
  }

  /** The page from the short read is the page of everything. */
  predicate ShortReadSuffices(base: seq<Entry>, events: seq<Entry>, offset: nat, limit: nat) {
    Window(StableSort(base + Take(events, offset + limit)), offset, limit) == Window(StableSort(base + events), offset, limit)
  }

  lemma SortKeepsLength(s: seq<Entry>)
    ensures |StableSort(s)| == |s|
  {
    StableSortSorts(s);
    assert |multiset(StableSort(s))| == |multiset(s)|;
  }

  lemma ReadFromTheStart(events: seq<Entry>, k: nat)
    requires ShortReadSuffices([], events, 0, k) && k <= |events|
    ensures |StableSort(events)| == |events| && StableSort(events)[..k] == StableSort(events[..k])
  {
    SortKeepsLength(events);
    SortKeepsLength(events[..k]);
    assert [] + Take(events, 0 + k) == events[..k] && [] + events == events;
    assert Window(StableSort(events[..k]), 0, k) == StableSort(events[..k]);
    assert Window(StableSort(events), 0, k) == StableSort(events)[..k];
  }

  /** The first `k` events, sorted, are where they belong in the whole. */
  lemma LeadingEventsAreInPlace(events: seq<Entry>, k: nat)
    requires ShortReadSuffices([], events, 0, k) && k <= |events|
    ensures |StableSort(events)| == |events| && multiset(StableSort(events)[..k]) == multiset(events[..k])
  {
    ReadFromTheStart(events, k);
    StableSortSorts(events[..k]);
  }

  lemma OneMoreCounts(s: seq<Entry>, t: seq<Entry>, k: nat)
    requires k < |s| && |s| == |t|
    requires multiset(s[..k]) == multiset(t[..k]) && multiset(s[..k + 1]) == multiset(t[..k + 1])
    ensures s[k] == t[k]
  {
    assert s[..k + 1] == s[..k] + [s[k]] && t[..k + 1] == t[..k] + [t[k]];
    assert multiset{s[k]} == multiset(s[..k + 1]) - multiset(s[..k]);
    assert multiset{t[k]} == multiset(t[..k + 1]) - multiset(t[..k]);
    assert s[k] in multiset{t[k]};
  }

  lemma SufficientReadsMeanOrder(events: seq<Entry>)
    requires forall base, offset, limit :: ShortReadSuffices(base, events, offset, limit)
    ensures Ordered(events)
  {
    var sorted := StableSort(events);
    StableSortSorts(events);
    SortKeepsLength(events);
    forall k | 0 <= k < |events| ensures sorted[k] == events[k] {
      LeadingEventsAreInPlace(events, k);
      LeadingEventsAreInPlace(events, k + 1);
      OneMoreCounts(sorted, events, k);
    }
    assert sorted == events;
  }

  /** The short read gives the right page for every other source, offset and limit exactly when the events are in order. */
  lemma ShortReadsNeedOrder(events: seq<Entry>)
    ensures Ordered(events) <==> forall base, offset, limit :: ShortReadSuffices(base, events, offset, limit)
  {
    if Ordered(events) {
      forall base, offset: nat, limit: nat ensures ShortReadSuffices(base, events, offset, limit) {
        PrefixPageIsFullPage(base, events, offset, limit);
      }
    } else if forall base, offset, limit :: ShortReadSuffices(base, events, offset, limit) {
      SufficientReadsMeanOrder(events);
    }
  }

  /** The order of the event source is needed: with an older event first, the short read picks the wrong entry. */
  lemma UnorderedEventsBreakThePage(past: Entry, recent: Entry)
    requires past.at < recent.at
    ensures Window(StableSort([] + Take([past, recent], 0 + 1)), 0, 1) != Window(StableSort([] + [past, recent]), 0, 1)
  {
  }
}
