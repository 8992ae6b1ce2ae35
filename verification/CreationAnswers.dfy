/** What a whole creation call answers and stores, and whose data the sources of stored items were. */
module CreationAnswers {
  import opened Collections
  import opened CreationProtocol
  import opened CreationResults
  import opened Provenance
  import opened ProvenanceAnswers
  import opened Text
  import opened WorkItemCreation
  import opened WorkItemJournal
  import opened WorkItemModel
  import opened WorkItemSources

  // ----- loading the sources -----

  /** What a refused reference is answered with. */
  predicate RefusedWith(v: Verified, why: Answer) {
    match v
    case VerifiedSource(_) => false
    case RefusedNotFound => why == SourceMissing
    case RefusedInput => why == InputRefused
    case RefusedChanged => why == CandidateGone
  }

  /** Reference `k` is refused, and all before it verify. */
  predicate FirstRefused(h: Hashes, db: Database, owner: Id, refs: seq<Reference>, k: nat, why: Answer) {
    && k < |refs| && RefusedWith(VerifyReference(h.observation, db, owner, refs[k]), why)
    && forall i :: 0 <= i < k ==> VerifyReference(h.observation, db, owner, refs[i]).VerifiedSource?
  }

  lemma LaterRefusalsDoNotMatter(h: Hashes, db: Database, owner: Id, refs: seq<Reference>, n: nat, why: Answer)
    requires n <= |refs| && exists k :: FirstRefused(h, db, owner, refs[..n], k, why)
    ensures exists k :: FirstRefused(h, db, owner, refs, k, why)
  {
    var k: nat :| FirstRefused(h, db, owner, refs[..n], k, why);
    assert forall i :: 0 <= i <= k ==> refs[..n][i] == refs[i];
    assert FirstRefused(h, db, owner, refs, k, why);
  }

  lemma LastRefused(h: Hashes, db: Database, owner: Id, refs: seq<Reference>, sources: seq<Source>, v: Verified)
    requires refs != [] && Verifies(h, db, owner, refs[..|refs| - 1], sources)
    requires v == VerifyReference(h.observation, db, owner, refs[|refs| - 1]) && !v.VerifiedSource?
    ensures FirstRefused(h, db, owner, refs, |refs| - 1, RefusalOf(v))
  {
    assert forall i :: 0 <= i < |refs| - 1 ==> refs[..|refs| - 1][i] == refs[i];
  }

  lemma NextVerified(h: Hashes, db: Database, owner: Id, refs: seq<Reference>, sources: seq<Source>, source: Source)
    requires refs != [] && Verifies(h, db, owner, refs[..|refs| - 1], sources)
    requires VerifyReference(h.observation, db, owner, refs[|refs| - 1]) == VerifiedSource(source)
    ensures Verifies(h, db, owner, refs, sources + [source])
  {
    assert forall i :: 0 <= i < |refs| - 1 ==> refs[..|refs| - 1][i] == refs[i];
  }

  /** Either every reference verifies, and the sources are theirs in order, or the first refused one decides the answer. */
  lemma {:induction false} LoadingAnswers(h: Hashes, db: Database, owner: Id, refs: seq<Reference>)
    ensures var r := LoadSources(h, db, owner, refs);
      && (r.Loaded? ==> Verifies(h, db, owner, refs, r.sources))
      && (r.Refused? ==> exists k :: FirstRefused(h, db, owner, refs, k, r.why))
  {
    if refs != [] {
      var n := |refs| - 1;
      LoadingAnswers(h, db, owner, refs[..n]);
      match LoadSources(h, db, owner, refs[..n])
      case Refused(why) => LaterRefusalsDoNotMatter(h, db, owner, refs, n, why);
      case Loaded(sources) =>
        match VerifyReference(h.observation, db, owner, refs[n])
        case VerifiedSource(source) => NextVerified(h, db, owner, refs, sources, source);
        case other =>
          LastRefused(h, db, owner, refs, sources, other);
          assert FirstRefused(h, db, owner, refs, n, RefusalOf(other));
    }
  }

  /** Everything loaded for an owner is that owner's own data, as it is now. */
  lemma LoadedSourcesAreOwn(h: Hashes, db: Database, owner: Id, refs: seq<Reference>, i: nat)
    requires ReferencesOk(refs) && LoadSources(h, db, owner, refs).Loaded? && i < |LoadSources(h, db, owner, refs).sources|
    ensures OwnSource(db, owner, LoadSources(h, db, owner, refs).sources[i])
  {
    LoadedSourcesVerify(h, db, owner, refs);
    VerifiedSourcesAreOwn(h.observation, db, owner, refs[i]);
  }

  // ----- whose data the sources are -----

  /** Event `n` of the run verified these sources for this caller, and then each was the owner's own data. */
  ghost predicate OwnedAt(h: Hashes, events: seq<CreationProtocol.Event>, n: nat, c: Id, owner: Id, sources: seq<Source>) {
    && n < |events| && events[n] == Verify(c)
    && var db := CreationProtocol.Run(h, Empty(), events[..n]).db;
       forall i :: 0 <= i < |sources| ==> OwnSource(db, owner, sources[i])
  }

  ghost predicate Owned(h: Hashes, events: seq<CreationProtocol.Event>, owner: Id, sources: seq<Source>) {
    exists n, c :: OwnedAt(h, events, n, c, owner, sources)
  }

  ghost predicate CallerOwns(h: Hashes, events: seq<CreationProtocol.Event>, callers: map<Id, Caller>, c: Id) {
    c in callers && callers[c].phase.Ready? ==> Owned(h, events, callers[c].owner, callers[c].phase.sources)
  }

  ghost predicate ItemOwns(h: Hashes, events: seq<CreationProtocol.Event>, items: map<Id, Stored>, id: Id) {
    id in items ==> Owned(h, events, items[id].tracking.item.owner, items[id].sources)
  }

  ghost predicate AllOwned(h: Hashes, events: seq<CreationProtocol.Event>, s: State) {
    (forall c :: CallerOwns(h, events, s.callers, c)) && (forall id :: ItemOwns(h, events, s.items, id))
  }

  lemma OwnedIsKept(h: Hashes, events: seq<CreationProtocol.Event>, e: CreationProtocol.Event, owner: Id, sources: seq<Source>)
    requires Owned(h, events, owner, sources)
    ensures Owned(h, events + [e], owner, sources)
  {
    var n: nat, c :| OwnedAt(h, events, n, c, owner, sources);
    assert (events + [e])[..n] == events[..n];
    assert OwnedAt(h, events + [e], n, c, owner, sources);
  }

  lemma CreatedInsertsEnd(s: State, c: Id, created: Option<Tracking>, commit: Commit)
    requires At(s, c).Ready?
    ensures At(InsertCreated(s, c, created, commit), c).Done?
  {
  }

  lemma NewInsertsEnd(h: Hashes, s: State, c: Id, id: Id, storeOk: bool, now: Instant, commit: Commit)
    requires At(s, c).Ready?
    ensures var t := InsertNew(h, s, c, id, storeOk, now, commit); At(t, c).Done? || t == s
  {
    var me := s.callers[c];
    var created := Create(h, id, me.owner, me.request.key, IntentOf(me.request, me.phase.sources), now);
    if DuplicateOf(h, s, me.owner, me.request.candidate).None? && storeOk && id !in s.items {
      CreatedInsertsEnd(s, c, created, commit);
      assert InsertNew(h, s, c, id, storeOk, now, commit) == InsertCreated(s, c, created, commit);
    }
  }

  lemma InsertsEnd(h: Hashes, s: State, c: Id, id: Id, storeOk: bool, now: Instant, commit: Commit)
    requires At(InsertStep(h, s, c, id, storeOk, now, commit), c).Ready?
    ensures InsertStep(h, s, c, id, storeOk, now, commit) == s
  {
    if At(s, c).Ready? { NewInsertsEnd(h, s, c, id, storeOk, now, commit); }
  }

  /** Only a verification makes a caller ready. */
  lemma OnlyVerifyingMakesReady(h: Hashes, s: State, e: CreationProtocol.Event, c: Id)
    requires At(Step(h, s, e), c).Ready?
    ensures c in s.callers && Step(h, s, e).callers[c].owner == s.callers[c].owner
    ensures Step(h, s, e).callers[c] == s.callers[c] || (e == Verify(c) && At(s, c).Unknown?)
  {
    match e
    case Lookup(k) => ReadsKeepTable(h, s, k);
    case Verify(k) => ReadsKeepTable(h, s, k);
    case Insert(k, id, storeOk, now, commit) =>
      InsertShape(h, s, k, id, storeOk, now, commit);
      if k == c { InsertsEnd(h, s, c, id, storeOk, now, commit); }
    case _ =>
  }

  lemma VerifiedCallersOwn(h: Hashes, events: seq<CreationProtocol.Event>, c: Id)
    requires var s := CreationProtocol.Run(h, Empty(), events);
      Invariant(h, s) && At(s, c).Unknown? && At(VerifyStep(h, s, c), c).Ready?
    ensures CallerOwns(h, events + [Verify(c)], VerifyStep(h, CreationProtocol.Run(h, Empty(), events), c).callers, c)
  {
    var s, all := CreationProtocol.Run(h, Empty(), events), events + [Verify(c)];
    var me := s.callers[c];
    assert CallerOk(h, s.items, s.callers, c);
    RequestedReferencesAreOk(me.request);
    var sources := LoadSources(h, s.db, me.owner, References(me.request)).sources;
    forall i | 0 <= i < |sources| ensures OwnSource(s.db, me.owner, sources[i]) {
      LoadedSourcesAreOwn(h, s.db, me.owner, References(me.request), i);
    }
    assert all[..|events|] == events;
    assert OwnedAt(h, all, |events|, c, me.owner, sources);
  }

  lemma CallerStaysOwning(h: Hashes, events: seq<CreationProtocol.Event>, e: CreationProtocol.Event, c: Id)
    requires var s := CreationProtocol.Run(h, Empty(), events); Invariant(h, s) && AllOwned(h, events, s)
    ensures CallerOwns(h, events + [e], Step(h, CreationProtocol.Run(h, Empty(), events), e).callers, c)
  {
    var s := CreationProtocol.Run(h, Empty(), events);
    if At(Step(h, s, e), c).Ready? {
      OnlyVerifyingMakesReady(h, s, e, c);
      if Step(h, s, e).callers[c] == s.callers[c] {
        assert CallerOwns(h, events, s.callers, c);
        OwnedIsKept(h, events, e, s.callers[c].owner, s.callers[c].phase.sources);
      } else {
        VerifiedCallersOwn(h, events, c);
      }
    }
  }

  lemma AddedItemsAreTheCallers(s: State, t: State, c: Id, created: Option<Tracking>, commit: Commit, id: Id)
    requires At(s, c).Ready? && Added(s, t, c, created, commit) && id in t.items && id !in s.items
    requires created.value.item.owner == s.callers[c].owner
    ensures var x, me := t.items[id], s.callers[c];
      x.sources == me.phase.sources && x.tracking.item.owner == me.owner && x.request == me.request
  {
  }

  lemma InsertedItemsAreTheCallers(h: Hashes, s: State, t: State, c: Id, k: Id, now: Instant, commit: Commit, id: Id)
    requires Proper(h) && Invariant(h, s) && Inserted(h, s, t, c, k, now, commit) && id in t.items && id !in s.items
    ensures var x, me := t.items[id], s.callers[c];
      x.sources == me.phase.sources && x.tracking.item.owner == me.owner && x.request == me.request
  {
    var me := s.callers[c];
    ReadyCallersCreate(h, s, c, k, now);
    AddedItemsAreTheCallers(s, t, c, Create(h, k, me.owner, me.request.key, IntentOf(me.request, me.phase.sources), now), commit, id);
  }

  /** An item that a step adds belongs to a ready caller and has that caller's sources. */
  lemma NewItemsComeFromReadyCallers(h: Hashes, s: State, e: CreationProtocol.Event, id: Id)
    requires Proper(h) && Invariant(h, s) && id in Step(h, s, e).items && id !in s.items
    ensures e.Insert? && At(s, e.caller).Ready?
    ensures var x, me := Step(h, s, e).items[id], s.callers[e.caller];
      x.sources == me.phase.sources && x.tracking.item.owner == me.owner && x.request == me.request
  {
    match e
    case Lookup(c) => ReadsKeepTable(h, s, c);
    case Verify(c) => ReadsKeepTable(h, s, c);
    case Insert(c, k, storeOk, now, commit) =>
      InsertShape(h, s, c, k, storeOk, now, commit);
      InsertedItemsAreTheCallers(h, s, Step(h, s, e), c, k, now, commit, id);
    case _ =>
  }

  lemma ItemStaysOwning(h: Hashes, events: seq<CreationProtocol.Event>, e: CreationProtocol.Event, id: Id)
    requires Proper(h)
    requires var s := CreationProtocol.Run(h, Empty(), events); Invariant(h, s) && AllOwned(h, events, s)
    ensures ItemOwns(h, events + [e], Step(h, CreationProtocol.Run(h, Empty(), events), e).items, id)
  {
    var s := CreationProtocol.Run(h, Empty(), events);
    if id in s.items {
      StepKeepsItems(h, s, e, id);
      assert Persists(s.items, Step(h, s, e).items, id) && ItemOwns(h, events, s.items, id);
      OwnedIsKept(h, events, e, s.items[id].tracking.item.owner, s.items[id].sources);
    } else if id in Step(h, s, e).items {
      NewItemsComeFromReadyCallers(h, s, e, id);
      var me := s.callers[e.caller];
      assert CallerOwns(h, events, s.callers, e.caller);
      OwnedIsKept(h, events, e, me.owner, me.phase.sources);
    }
  }

  lemma {:induction false} RunSnoc(h: Hashes, s: State, events: seq<CreationProtocol.Event>, e: CreationProtocol.Event)
    ensures CreationProtocol.Run(h, s, events + [e]) == Step(h, CreationProtocol.Run(h, s, events), e)
  {
    RunJoins(h, s, events, [e]);
    assert [e][1..] == [];
  }

  lemma {:induction false} RunsOwnTheirSources(h: Hashes, events: seq<CreationProtocol.Event>)
    requires Proper(h)
    ensures AllOwned(h, events, CreationProtocol.Run(h, Empty(), events))
    decreases |events|
  {
    if events != [] {
      var n := |events| - 1;
      var front, e := events[..n], events[n];
      assert events == front + [e];
      RunsOwnTheirSources(h, front);
      CreationProtocol.RunKeepsInvariant(h, Empty(), front);
      RunSnoc(h, Empty(), front, e);
      var t := CreationProtocol.Run(h, Empty(), events);
      forall c ensures CallerOwns(h, events, t.callers, c) { CallerStaysOwning(h, front, e, c); }
      forall id ensures ItemOwns(h, events, t.items, id) { ItemStaysOwning(h, front, e, id); }
    }
  }

  /**
   In every run all sources of a stored item were verified together for its creator, and at that moment each was the item
   owner's own data: the owner's own analysis row with that row's mailbox columns, and an account of the owner.
   */
  lemma SourcesWereTheOwners(h: Hashes, events: seq<CreationProtocol.Event>, id: Id)
    requires Proper(h) && id in CreationProtocol.Run(h, Empty(), events).items
    ensures var x := CreationProtocol.Run(h, Empty(), events).items[id];
      exists n, c :: OwnedAt(h, events, n, c, x.tracking.item.owner, x.sources)
  {
    RunsOwnTheirSources(h, events);
    assert ItemOwns(h, events, CreationProtocol.Run(h, Empty(), events).items, id);
  }

  // ----- the whole call -----

  /** The item stored under this owner and key, if there is one. */
  predicate KeyTakenBy(items: map<Id, Stored>, owner: Id, key: string, taken: Option<Id>) {
    match taken
    case Some(k) => k in items && items[k].tracking.item.owner == owner && items[k].tracking.item.key == key
    case None => forall k :: k in items ==> !(items[k].tracking.item.owner == owner && items[k].tracking.item.key == key)
  }

  lemma IndexedKeysAreTaken(items: map<Id, Stored>, byKey: map<(Id, string), Id>, owner: Id, key: string)
    requires KeyEntryOk(items, byKey, (owner, key)) && (owner, key) in byKey
    ensures KeyTakenBy(items, owner, key, Some(byKey[(owner, key)]))
  {
  }

  lemma ExistingIsTheTaken(h: Hashes, s: State, owner: Id, key: string, taken: Option<Id>)
    requires Invariant(h, s) && KeyTakenBy(s.items, owner, key, taken)
    ensures Existing(s, owner, key) == if taken.Some? then Some(s.items[taken.value]) else None
  {
    assert KeyEntryOk(s.items, s.byKey, (owner, key));
    if taken.Some? {
      assert KeyIndexed(s.items, s.byKey, taken.value);
    } else if (owner, key) in s.byKey {
      IndexedKeysAreTaken(s.items, s.byKey, owner, key);
    }
  }

  /** A caller without the right to read communications may see no source that comes from a mailbox. */
  predicate MayNotSee(permitted: bool, sources: seq<Source>) {
    !permitted && exists i :: 0 <= i < |sources| && sources[i].account.Some?
  }

  /** A taken key: the permission decides first, then whether the request is the same by its hash. */
  function TakenAnswer(h: Hashes, x: Stored, permitted: bool, q: Request): Answer {
    if MayNotSee(permitted, x.sources) then PermissionDenied
    else if RequestHash(h, q) != x.tracking.item.hash then KeyConflict
    else Returned(x.tracking.item, true)
  }

  /** What a new key leads to before the insert: the first refusal, the permission, or the loaded sources. */
  predicate NewKeyPhase(h: Hashes, db: Database, owner: Id, permitted: bool, q: Request, phase: Phase) {
    match LoadSources(h, db, owner, References(q))
    case Refused(why) => phase == Done(why)
    case Loaded(sources) => phase == if MayNotSee(permitted, sources) then Done(PermissionDenied) else Ready(sources)
  }

  /** A call up to its insert, when nobody disturbs it. */
  lemma LookupAndVerifyAnswer(h: Hashes, s: State, c: Id, taken: Option<Id>)
    requires Invariant(h, s) && At(s, c).Started?
    requires KeyTakenBy(s.items, s.callers[c].owner, s.callers[c].request.key, taken)
    ensures var me, t := s.callers[c], VerifyStep(h, LookupStep(h, s, c), c);
      && c in t.callers && t == Goto(s, c, t.callers[c].phase)
      && if taken.Some? then t.callers[c].phase == Done(TakenAnswer(h, s.items[taken.value], me.permitted, me.request))
         else NewKeyPhase(h, s.db, me.owner, me.permitted, me.request, t.callers[c].phase)
  {
    var me := s.callers[c];
    ExistingIsTheTaken(h, s, me.owner, me.request.key, taken);
  }

  /** The item that already tracks the confirmed candidate, if there is one. */
  predicate TrackedBy(h: Hashes, items: map<Id, Stored>, owner: Id, candidate: Option<Locator>, tracked: Option<Id>) {
    match tracked
    case Some(k) =>
      && candidate.Some? && k in items && items[k].tracking.item.owner == owner
      && items[k].tracking.item.candidateKey == Some(h.locator(candidate.value))
    case None =>
      forall k :: k in items && candidate.Some? ==>
        !(items[k].tracking.item.owner == owner && items[k].tracking.item.candidateKey == Some(h.locator(candidate.value)))
  }

  /** Every candidate entry points to the item that carries the candidate's key. */
  predicate CandidateEntryOk(items: map<Id, Stored>, byCandidate: map<(Id, string), Id>, k: (Id, string)) {
    k in byCandidate ==>
      && byCandidate[k] in items && items[byCandidate[k]].tracking.item.owner == k.0
      && items[byCandidate[k]].tracking.item.candidateKey == Some(k.1)
  }

  ghost predicate CandidateEntries(s: State) {
    forall k :: CandidateEntryOk(s.items, s.byCandidate, k)
  }

  lemma AddedKeepsEntries(s: State, t: Tracking, sources: seq<Source>, request: Request)
    requires CandidateEntries(s) && t.item.id !in s.items
    ensures CandidateEntries(AddItem(s, t, sources, request))
  {
    var u := AddItem(s, t, sources, request);
    forall k ensures CandidateEntryOk(u.items, u.byCandidate, k) { assert CandidateEntryOk(s.items, s.byCandidate, k); }
  }

  lemma InsertKeepsEntries(h: Hashes, s: State, c: Id, id: Id, storeOk: bool, now: Instant, commit: Commit)
    requires Proper(h) && Invariant(h, s) && CandidateEntries(s)
    ensures CandidateEntries(InsertStep(h, s, c, id, storeOk, now, commit))
  {
    InsertShape(h, s, c, id, storeOk, now, commit);
    if Inserted(h, s, InsertStep(h, s, c, id, storeOk, now, commit), c, id, now, commit) {
      var me := s.callers[c];
      ReadyCallersCreate(h, s, c, id, now);
      AddedKeepsEntries(s, Create(h, id, me.owner, me.request.key, IntentOf(me.request, me.phase.sources), now).value,
                        me.phase.sources, me.request);
    }
  }

  lemma MutateKeepsEntries(h: Hashes, s: State, id: Id, a: Attempt)
    requires Invariant(h, s) && CandidateEntries(s)
    ensures CandidateEntries(MutateStep(s, id, a))
  {
    var t := MutateStep(s, id, a);
    forall k ensures CandidateEntryOk(t.items, t.byCandidate, k) {
      assert CandidateEntryOk(s.items, s.byCandidate, k);
      if k in s.byCandidate {
        MutateKeepsItems(h, s, id, a, s.byCandidate[k]);
        assert Persists(s.items, t.items, s.byCandidate[k]);
      }
    }
  }

  lemma StepKeepsEntries(h: Hashes, s: State, e: CreationProtocol.Event)
    requires Proper(h) && Invariant(h, s) && CandidateEntries(s)
    ensures CandidateEntries(Step(h, s, e))
  {
    match e
    case Begin(_, _, _, _) =>
    case Lookup(c) => ReadsKeepTable(h, s, c);
    case Verify(c) => ReadsKeepTable(h, s, c);
    case Insert(c, id, storeOk, now, commit) => InsertKeepsEntries(h, s, c, id, storeOk, now, commit);
    case Mutate(id, a) => MutateKeepsEntries(h, s, id, a);
    case ChangeSources(_) =>
  }

  lemma {:induction false} RunKeepsEntries(h: Hashes, s: State, events: seq<CreationProtocol.Event>)
    requires Proper(h) && Invariant(h, s) && CandidateEntries(s)
    ensures CandidateEntries(CreationProtocol.Run(h, s, events))
    decreases |events|
  {
    if events != [] {
      StepKeepsEntries(h, s, events[0]);
      StepKeepsInvariant(h, s, events[0]);
      RunKeepsEntries(h, Step(h, s, events[0]), events[1..]);
    }
  }

  lemma IndexedCandidatesAreTracked(h: Hashes, items: map<Id, Stored>, byCandidate: map<(Id, string), Id>, owner: Id, candidate: Locator)
    requires CandidateEntryOk(items, byCandidate, (owner, h.locator(candidate))) && (owner, h.locator(candidate)) in byCandidate
    ensures TrackedBy(h, items, owner, Some(candidate), Some(byCandidate[(owner, h.locator(candidate))]))
  {
  }

  lemma DuplicateIsTheTracked(h: Hashes, s: State, owner: Id, candidate: Option<Locator>, tracked: Option<Id>)
    requires Invariant(h, s) && CandidateEntries(s) && TrackedBy(h, s.items, owner, candidate, tracked)
    ensures DuplicateOf(h, s, owner, candidate) == tracked
  {
    if candidate.Some? {
      assert CandidateEntryOk(s.items, s.byCandidate, (owner, h.locator(candidate.value)));
      if tracked.Some? {
        assert CandidateIndexed(s.items, s.byCandidate, tracked.value);
      } else if (owner, h.locator(candidate.value)) in s.byCandidate {
        IndexedCandidatesAreTracked(h, s.items, s.byCandidate, owner, candidate.value);
      }
    }
  }

  /** The whole table after an insert, and what it is answered with. */
  predicate InsertAnswered(h: Hashes, s: State, t: State, c: Id, id: Id, now: Instant, commit: Commit)
    requires At(s, c).Ready?
  {
    var me := s.callers[c];
    var made := Create(h, id, me.owner, me.request.key, IntentOf(me.request, me.phase.sources), now);
    && made.Some? && c in t.callers
    && t.items == (if commit == RolledBack then s.items else s.items[id := Stored(made.value, me.phase.sources, me.request)])
    && t.callers == s.callers[c := me.(phase := Done(if commit == Committed then Returned(made.value.item, false) else Unavailable))]
  }

  /**
   The insert of a verified request: what was taken meanwhile is replayed; colliding source keys are invalid; a tracked
   candidate is reported; a refused context or source, or a failed commit, stores nothing; otherwise the new item is stored.
   */
  lemma InsertAnswers(h: Hashes, s: State, c: Id, id: Id, storeOk: bool, now: Instant, commit: Commit, taken: Option<Id>,
                      tracked: Option<Id>)
    requires Proper(h) && Reachable(h, s) && At(s, c).Ready? && id !in s.items
    requires KeyTakenBy(s.items, s.callers[c].owner, s.callers[c].request.key, taken)
    requires TrackedBy(h, s.items, s.callers[c].owner, s.callers[c].request.candidate, tracked)
    ensures var me, t := s.callers[c], InsertStep(h, s, c, id, storeOk, now, commit);
      if !KeysApart(h, me.phase.sources) then t == Goto(s, c, Done(Invalid))
      else if taken.Some? then
        var x := s.items[taken.value];
        if RequestHash(h, me.request) != x.tracking.item.hash then t == Goto(s, c, Done(KeyConflict))
        else if MayNotSee(me.permitted, x.sources) then t == Goto(s, c, Done(PermissionDenied))
        else t == Goto(s, c, Done(if commit == Committed then Returned(x.tracking.item, true) else Unavailable))
      else if tracked.Some? then t == Goto(s, c, Done(AlreadyTracked(tracked.value)))
      else if !storeOk then t == Goto(s, c, Done(StoreRefused))
      else InsertAnswered(h, s, t, c, id, now, commit)
  {
    ReachableIsSafe(h, s);
    ReachableEntries(h, s);
    var me := s.callers[c];
    assert CallerOk(h, s.items, s.callers, c);
    ExistingIsTheTaken(h, s, me.owner, me.request.key, taken);
    DuplicateIsTheTracked(h, s, me.owner, me.request.candidate, tracked);
    if KeysApart(h, me.phase.sources) {
      ReadyCallersCreate(h, s, c, id, now);
      if taken.Some? {
        TakenInsertAnswers(h, s, c, id, storeOk, now, commit, s.items[taken.value]);
      } else {
        NewInsertAnswers(h, s, c, id, storeOk, now, commit, tracked);
      }
    }
  }

  lemma ReachableEntries(h: Hashes, s: State)
    requires Proper(h) && Reachable(h, s)
    ensures CandidateEntries(s)
  {
    var events :| s == CreationProtocol.Run(h, Empty(), events);
    RunKeepsEntries(h, Empty(), events);
  }

  lemma TakenInsertAnswers(h: Hashes, s: State, c: Id, id: Id, storeOk: bool, now: Instant, commit: Commit, x: Stored)
    requires At(s, c).Ready? && IntentOk(h, IntentOf(s.callers[c].request, s.callers[c].phase.sources))
    requires IntentHash(h, IntentOf(s.callers[c].request, s.callers[c].phase.sources)) == RequestHash(h, s.callers[c].request)
    requires Existing(s, s.callers[c].owner, s.callers[c].request.key) == Some(x)
    ensures var me, t := s.callers[c], InsertStep(h, s, c, id, storeOk, now, commit);
      if RequestHash(h, me.request) != x.tracking.item.hash then t == Goto(s, c, Done(KeyConflict))
      else if MayNotSee(me.permitted, x.sources) then t == Goto(s, c, Done(PermissionDenied))
      else t == Goto(s, c, Done(if commit == Committed then Returned(x.tracking.item, true) else Unavailable))
  {
  }

  lemma NewInsertAnswers(h: Hashes, s: State, c: Id, id: Id, storeOk: bool, now: Instant, commit: Commit, tracked: Option<Id>)
    requires At(s, c).Ready? && IntentOk(h, IntentOf(s.callers[c].request, s.callers[c].phase.sources)) && id !in s.items
    requires var me := s.callers[c];
      && Existing(s, me.owner, me.request.key).None? && DuplicateOf(h, s, me.owner, me.request.candidate) == tracked
      && Permitted(me.permitted, me.phase.sources)
      && Create(h, id, me.owner, me.request.key, IntentOf(me.request, me.phase.sources), now).Some?
      && Create(h, id, me.owner, me.request.key, IntentOf(me.request, me.phase.sources), now).value.item.id == id
    ensures var t := InsertStep(h, s, c, id, storeOk, now, commit);
      if tracked.Some? then t == Goto(s, c, Done(AlreadyTracked(tracked.value)))
      else if !storeOk then t == Goto(s, c, Done(StoreRefused))
      else InsertAnswered(h, s, t, c, id, now, commit)
  {
  }
}
