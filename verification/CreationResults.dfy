/** What idempotent creation promises over every run. */
module CreationResults {
  import opened Collections
  import opened CreationProtocol
  import opened Provenance
  import opened Text
  import opened WorkItemCreation
  import opened WorkItemJournal
  import opened WorkItemModel
  import opened WorkItemSources

  ghost predicate Reachable(h: Hashes, s: State) {
    exists events :: s == CreationProtocol.Run(h, Empty(), events)
  }

  lemma ReachableIsSafe(h: Hashes, s: State)
    requires Proper(h) && Reachable(h, s)
    ensures Invariant(h, s)
  {
    var events :| s == CreationProtocol.Run(h, Empty(), events);
    CreationProtocol.RunKeepsInvariant(h, Empty(), events);
  }

  /** At most one item per owner and creation key, and at most one per owner and confirmed candidate. */
  lemma OneItemPerKey(h: Hashes, s: State, i: Id, j: Id)
    requires Proper(h) && Reachable(h, s) && i in s.items && j in s.items && i != j
    requires s.items[i].tracking.item.owner == s.items[j].tracking.item.owner
    ensures s.items[i].tracking.item.key != s.items[j].tracking.item.key
    ensures s.items[i].tracking.item.candidateKey.Some? ==>
      s.items[i].tracking.item.candidateKey != s.items[j].tracking.item.candidateKey
  {
    ReachableIsSafe(h, s);
    assert KeyIndexed(s.items, s.byKey, i) && KeyIndexed(s.items, s.byKey, j);
    assert CandidateIndexed(s.items, s.byCandidate, i) && CandidateIndexed(s.items, s.byCandidate, j);
  }

  // ----- items persist -----

  lemma InsertKeepsItems(h: Hashes, s: State, c: Id, id: Id, storeOk: bool, now: Instant, commit: Commit, k: Id)
    requires Proper(h) && Invariant(h, s)
    ensures Persists(s.items, InsertStep(h, s, c, id, storeOk, now, commit).items, k)
  {
    InsertShape(h, s, c, id, storeOk, now, commit);
    if At(s, c).Ready? {
      InsertedKeepsItems(h, s, InsertStep(h, s, c, id, storeOk, now, commit), c, id, now, commit, k);
    }
  }

  lemma InsertedKeepsItems(h: Hashes, s: State, t: State, c: Id, id: Id, now: Instant, commit: Commit, k: Id)
    requires Proper(h) && Invariant(h, s)
    ensures OnlyPhase(s, t, c) || Inserted(h, s, t, c, id, now, commit) ==> Persists(s.items, t.items, k)
  {
    if Inserted(h, s, t, c, id, now, commit) {
      ReadyCallersCreate(h, s, c, id, now);
      AddedKeepsItems(s, t, c, Create(h, id, s.callers[c].owner, s.callers[c].request.key,
                                      IntentOf(s.callers[c].request, s.callers[c].phase.sources), now), commit, k);
    }
  }

  lemma AddedKeepsItems(s: State, t: State, c: Id, created: Option<Tracking>, commit: Commit, k: Id)
    requires At(s, c).Ready? && Added(s, t, c, created, commit) && created.value.item.id !in s.items
    ensures Persists(s.items, t.items, k)
  {
    var me := s.callers[c];
    NewItemsDisplaceNone(s.items, created.value.item.id, Stored(created.value, me.phase.sources, me.request));
  }

  lemma MutateKeepsItems(h: Hashes, s: State, id: Id, a: Attempt, k: Id)
    requires Invariant(h, s)
    ensures Persists(s.items, MutateStep(s, id, a).items, k)
  {
    if id in s.items && CommandOk(a.command) {
      assert ItemOk(h, s.items, id);
      PerformKeepsSound(s.items[id].tracking, a);
      CreationProtocol.ReplacedItemsPersist(s.items, id, Perform(s.items[id].tracking, a));
    }
  }

  lemma ReadsKeepTable(h: Hashes, s: State, c: Id)
    ensures OnlyPhase(s, LookupStep(h, s, c), c) && OnlyPhase(s, VerifyStep(h, s, c), c)
  {
    if c in s.callers { LoadedSourcesVerify(h, s.db, s.callers[c].owner, References(s.callers[c].request)); }
  }

  lemma StepKeepsItems(h: Hashes, s: State, e: CreationProtocol.Event, k: Id)
    requires Proper(h) && Invariant(h, s)
    ensures Persists(s.items, Step(h, s, e).items, k)
  {
    match e
    case Insert(c, id, storeOk, now, commit) => InsertKeepsItems(h, s, c, id, storeOk, now, commit, k);
    case Mutate(id, a) => MutateKeepsItems(h, s, id, a, k);
    case Lookup(c) => ReadsKeepTable(h, s, c);
    case Verify(c) => ReadsKeepTable(h, s, c);
    case Begin(_, _, _, _) =>
    case ChangeSources(_) =>
  }

  lemma {:induction false} RunKeepsItems(h: Hashes, s: State, events: seq<CreationProtocol.Event>, k: Id)
    requires Proper(h) && Invariant(h, s)
    ensures Persists(s.items, CreationProtocol.Run(h, s, events).items, k)
    decreases |events|
  {
    if events != [] {
      StepKeepsItems(h, s, events[0], k);
      StepKeepsInvariant(h, s, events[0]);
      RunKeepsItems(h, Step(h, s, events[0]), events[1..], k);
    }
  }

  // ----- one creator -----

  predicate Created(callers: map<Id, Caller>, c: Id, id: Id) {
    c in callers && ToldCreated(callers[c].phase) && callers[c].phase.answer.item.id == id
  }

  ghost predicate OneCreator(callers: map<Id, Caller>) {
    forall c, d, id :: Created(callers, c, id) && Created(callers, d, id) ==> c == d
  }

  lemma PhaseKeepsOneCreator(s: State, t: State, c: Id)
    requires OneCreator(s.callers) && OnlyPhase(s, t, c)
    ensures OneCreator(t.callers)
  {
    forall a, b, id | Created(t.callers, a, id) && Created(t.callers, b, id) ensures a == b {
      assert Created(s.callers, a, id) && Created(s.callers, b, id);
    }
  }

  lemma CreatorsHaveItems(h: Hashes, s: State, a: Id, id: Id)
    requires Invariant(h, s) && Created(s.callers, a, id)
    ensures id in s.items
  {
    assert CallerOk(h, s.items, s.callers, a);
  }

  lemma NewIdHasOneCreator(callers: map<Id, Caller>, c: Id, phase: Phase, id: Id)
    requires OneCreator(callers) && c in callers && forall a :: !Created(callers, a, id)
    requires ToldCreated(phase) ==> phase.answer.item.id == id
    ensures OneCreator(callers[c := callers[c].(phase := phase)])
  {
    var next := callers[c := callers[c].(phase := phase)];
    forall a, b, k | Created(next, a, k) && Created(next, b, k) ensures a == b {
      assert !Created(callers, a, id) && !Created(callers, b, id);
      assert a != c ==> Created(callers, a, k);
      assert b != c ==> Created(callers, b, k);
    }
  }

  lemma InsertedKeepsOneCreator(h: Hashes, s: State, t: State, c: Id, id: Id, now: Instant, commit: Commit)
    requires Proper(h) && Invariant(h, s) && OneCreator(s.callers) && Inserted(h, s, t, c, id, now, commit)
    ensures OneCreator(t.callers)
  {
    ReadyCallersCreate(h, s, c, id, now);
    forall a ensures !Created(s.callers, a, id) {
      if Created(s.callers, a, id) { CreatorsHaveItems(h, s, a, id); }
    }
    NewIdHasOneCreator(s.callers, c, t.callers[c].phase, id);
  }

  lemma StepKeepsOneCreator(h: Hashes, s: State, e: CreationProtocol.Event)
    requires Proper(h) && Invariant(h, s) && OneCreator(s.callers)
    ensures OneCreator(Step(h, s, e).callers)
  {
    var t := Step(h, s, e);
    match e
    case Begin(c, owner, permitted, request) =>
      forall a, b, id | Created(t.callers, a, id) && Created(t.callers, b, id) ensures a == b {
        assert Created(s.callers, a, id) && Created(s.callers, b, id);
      }
    case Lookup(c) => ReadsKeepTable(h, s, c); PhaseKeepsOneCreator(s, t, c);
    case Verify(c) => ReadsKeepTable(h, s, c); PhaseKeepsOneCreator(s, t, c);
    case Insert(c, id, storeOk, now, commit) =>
      InsertShape(h, s, c, id, storeOk, now, commit);
      if OnlyPhase(s, t, c) {
        PhaseKeepsOneCreator(s, t, c);
      } else {
        InsertedKeepsOneCreator(h, s, t, c, id, now, commit);
      }
    case Mutate(_, _) =>
    case ChangeSources(_) =>
  }

  lemma {:induction false} RunKeepsOneCreator(h: Hashes, s: State, events: seq<CreationProtocol.Event>)
    requires Proper(h) && Invariant(h, s) && OneCreator(s.callers)
    ensures OneCreator(CreationProtocol.Run(h, s, events).callers)
    decreases |events|
  {
    if events != [] {
      StepKeepsInvariant(h, s, events[0]);
      StepKeepsOneCreator(h, s, events[0]);
      RunKeepsOneCreator(h, Step(h, s, events[0]), events[1..]);
    }
  }

  /** However many callers race on one owner and key, at most one of them is told that it created the item. */
  lemma CreatedAtMostOnce(h: Hashes, s: State, c: Id, d: Id)
    requires Proper(h) && Reachable(h, s) && c in s.callers && d in s.callers
    requires ToldCreated(s.callers[c].phase) && ToldCreated(s.callers[d].phase)
    requires s.callers[c].owner == s.callers[d].owner && s.callers[c].request.key == s.callers[d].request.key
    ensures c == d
  {
    var events :| s == CreationProtocol.Run(h, Empty(), events);
    ReachableIsSafe(h, s);
    RunKeepsOneCreator(h, Empty(), events);
    assert CallerOk(h, s.items, s.callers, c) && CallerOk(h, s.items, s.callers, d);
    var i, j := s.callers[c].phase.answer.item.id, s.callers[d].phase.answer.item.id;
    if i != j { OneItemPerKey(h, s, i, j); }
    assert Created(s.callers, c, i) && Created(s.callers, d, j);
  }

  // ----- truthful answers -----

  /**
   Whatever a caller was returned exists, belongs to it, answers its own request, and it was allowed to see it. A
   validation failure is only ever answered when two distinct sources of the request share a key.
   */
  lemma AnswersAreTruthful(h: Hashes, s: State, c: Id)
    requires Proper(h) && Reachable(h, s) && c in s.callers && s.callers[c].phase.Done?
    ensures s.callers[c].phase.answer == Invalid ==>
      exists sources :: Answers(s.callers[c].request, sources) && !KeysApart(h, sources)
    ensures s.callers[c].phase.answer.Returned? ==>
      var me, item := s.callers[c], s.callers[c].phase.answer.item;
      && item.id in s.items && SameIdentity(item, s.items[item.id].tracking.item)
      && item.owner == me.owner && item.key == me.request.key && item.hash == RequestHash(h, me.request)
      && Permitted(me.permitted, s.items[item.id].sources)
  {
    ReachableIsSafe(h, s);
    assert CallerOk(h, s.items, s.callers, c);
  }

  /** Short of a hash collision, a returned item was created by a request with the same words and the same sources. */
  lemma ReturnedItemsAnswerTheRequest(h: Hashes, s: State, c: Id)
    requires Proper(h) && Reachable(h, s)
    requires c in s.callers && s.callers[c].phase.Done? && s.callers[c].phase.answer.Returned?
    ensures var me, id := s.callers[c].request, s.callers[c].phase.answer.item.id;
      && id in s.items && (NoCollision(h, me, s.items[id].request) ==> SameRequest(me, s.items[id].request))
  {
    ReachableIsSafe(h, s);
    var item := s.callers[c].phase.answer.item;
    assert CallerOk(h, s.items, s.callers, c) && ItemOk(h, s.items, item.id);
    var me, made := s.callers[c].request, s.items[item.id].request;
    if NoCollision(h, me, made) { EqualHashesMeanEqualRequests(h, me, made); }
  }

  /** A stored item's sources are exactly those of its request, its journal reconstructs it, and it never loses its key. */
  lemma StoredItemsAreSound(h: Hashes, s: State, id: Id)
    requires Proper(h) && Reachable(h, s) && id in s.items
    ensures var x := s.items[id];
      && Valid(x.tracking.item) && Replay(UNKNOWN, x.tracking.journal) == Projection(x.tracking.item)
      && |x.sources| <= 10 && Distinct(x.sources)
      && RequestedAll(x.sources) == ValuesAll(References(x.request))
      && x.tracking.item.hash == RequestHash(h, x.request)
  {
    ReachableIsSafe(h, s);
    assert ItemOk(h, s.items, id);
    assert |RequestedAll(s.items[id].sources)| == |s.items[id].sources|;
    RequestedReferencesAreOk(s.items[id].request);
  }

  // ----- replay -----

  /** The lookup of a taken key: permission first, then the hash; the store is never changed. */
  lemma LookupOfTakenKey(h: Hashes, s: State, d: Id, id: Id)
    requires Invariant(h, s) && At(s, d).Started? && id in s.items
    requires s.items[id].tracking.item.owner == s.callers[d].owner && s.items[id].tracking.item.key == s.callers[d].request.key
    ensures var me := s.callers[d];
      var t := LookupStep(h, s, d);
      && t == Goto(s, d, t.callers[d].phase) && t.items == s.items
      && t.callers[d].phase == Done(
           if !Permitted(me.permitted, s.items[id].sources) then PermissionDenied
           else if s.items[id].tracking.item.hash != RequestHash(h, me.request) then KeyConflict
           else Returned(s.items[id].tracking.item, true))
  {
    assert KeyIndexed(s.items, s.byKey, id);
  }

  /**
   Once a request has been answered with an item, an equal request under the same key and with sufficient permission is
   answered with that item as it then is, marked as a replay, and a different request conflicts; neither changes the
   store. This holds after any events: mutations of the item, changes or loss of its sources, other creations.
   */
  lemma ReplaysSurviveAnything(h: Hashes, s: State, c: Id, events: seq<CreationProtocol.Event>, d: Id)
    requires Proper(h) && Reachable(h, s) && c in s.callers
    requires s.callers[c].phase.Done? && s.callers[c].phase.answer.Returned?
    requires s.callers[c].phase.answer.item.id in s.items
    requires var t := CreationProtocol.Run(h, s, events);
      && At(t, d).Started? && t.callers[d].owner == s.callers[c].owner && t.callers[d].request.key == s.callers[c].request.key
      && Permitted(t.callers[d].permitted, s.items[s.callers[c].phase.answer.item.id].sources)
    ensures var t := CreationProtocol.Run(h, s, events);
      var id, u := s.callers[c].phase.answer.item.id, LookupStep(h, t, d);
      && id in t.items && u.items == t.items
      && SameIdentity(s.callers[c].phase.answer.item, t.items[id].tracking.item)
      && u.callers[d].phase == Done(
           if RequestHash(h, t.callers[d].request) == RequestHash(h, s.callers[c].request)
           then Returned(t.items[id].tracking.item, true) else KeyConflict)
  {
    ReachableIsSafe(h, s);
    assert CallerOk(h, s.items, s.callers, c);
    var id := s.callers[c].phase.answer.item.id;
    var t := CreationProtocol.Run(h, s, events);
    CreationProtocol.RunKeepsInvariant(h, s, events);
    RunKeepsItems(h, s, events, id);
    assert Persists(s.items, t.items, id);
    LookupOfTakenKey(h, t, d, id);
  }

  /**
   In terms of the requests themselves: under a key that was answered with an item, another request is given that item
   exactly when it has the same words and the same sources, and conflicts otherwise, short of a hash collision.
   */
  lemma DifferentRequestsConflict(h: Hashes, s: State, c: Id, events: seq<CreationProtocol.Event>, d: Id)
    requires Proper(h) && Reachable(h, s) && c in s.callers
    requires s.callers[c].phase.Done? && s.callers[c].phase.answer.Returned?
    requires s.callers[c].phase.answer.item.id in s.items
    requires var t := CreationProtocol.Run(h, s, events);
      && At(t, d).Started? && t.callers[d].owner == s.callers[c].owner && t.callers[d].request.key == s.callers[c].request.key
      && Permitted(t.callers[d].permitted, s.items[s.callers[c].phase.answer.item.id].sources)
      && NoCollision(h, t.callers[d].request, s.callers[c].request)
    ensures var t := CreationProtocol.Run(h, s, events);
      var id, u := s.callers[c].phase.answer.item.id, LookupStep(h, t, d);
      && id in t.items && u.items == t.items
      && u.callers[d].phase == Done(
           if SameRequest(t.callers[d].request, s.callers[c].request)
           then Returned(t.items[id].tracking.item, true) else KeyConflict)
  {
    ReplaysSurviveAnything(h, s, c, events, d);
    RequestsAreOk(h, s, c);
    var t := CreationProtocol.Run(h, s, events);
    RunStaysReachable(h, s, events);
    RequestsAreOk(h, t, d);
    EqualHashesMeanEqualRequests(h, t.callers[d].request, s.callers[c].request);
  }

  lemma RequestsAreOk(h: Hashes, s: State, c: Id)
    requires Proper(h) && Reachable(h, s) && c in s.callers
    ensures RequestOk(s.callers[c].request)
  {
    ReachableIsSafe(h, s);
    assert CallerOk(h, s.items, s.callers, c);
  }

  lemma {:induction false} RunJoins(h: Hashes, s: State, a: seq<CreationProtocol.Event>, b: seq<CreationProtocol.Event>)
    ensures CreationProtocol.Run(h, s, a + b) == CreationProtocol.Run(h, CreationProtocol.Run(h, s, a), b)
    decreases |a|
  {
    if a == [] {
      assert a + b == b;
    } else {
      RunJoins(h, Step(h, s, a[0]), a[1..], b);
      assert (a + b)[0] == a[0] && (a + b)[1..] == a[1..] + b;
    }
  }

  lemma RunStaysReachable(h: Hashes, s: State, events: seq<CreationProtocol.Event>)
    requires Reachable(h, s)
    ensures Reachable(h, CreationProtocol.Run(h, s, events))
  {
    var before :| s == CreationProtocol.Run(h, Empty(), before);
    RunJoins(h, Empty(), before, events);
  }

  /** Every answer but a returned item, or a commit whose outcome is unknown, leaves the store as it was. */
  lemma RefusalsChangeNothing(h: Hashes, s: State, e: CreationProtocol.Event, c: Id)
    requires Proper(h) && Reachable(h, s) && (e.Lookup? || e.Verify? || e.Insert?) && e.caller == c && c in s.callers
    requires !(At(Step(h, s, e), c).Done? && At(Step(h, s, e), c).answer.Returned?)
    requires !(e.Insert? && e.commit == Unacknowledged)
    ensures Step(h, s, e).items == s.items && Step(h, s, e).byKey == s.byKey && Step(h, s, e).byCandidate == s.byCandidate
  {
    ReadsKeepTable(h, s, c);
    match e
    case Insert(_, id, storeOk, now, commit) => InsertShape(h, s, c, id, storeOk, now, commit);
    case _ =>
  }

  // ----- a creation that nobody disturbs -----

  /** The caller was returned a fresh item of its own, built on exactly the sources its request named. */
  predicate CreatedFor(t: State, c: Id, id: Id, owner: Id, request: Request) {
    && At(t, c).Done? && At(t, c).answer.Returned? && !At(t, c).answer.replayed
    && id in t.items && t.items[id].tracking.item == At(t, c).answer.item
    && Fresh(t.items[id].tracking) && t.items[id].tracking.item.owner == owner
    && RequestedAll(t.items[id].sources) == ValuesAll(References(request))
  }

  /** An acceptable request with a new key, a new candidate and verifiable references creates its item. */
  lemma UndisturbedCreationSucceeds(h: Hashes, s: State, c: Id, id: Id, now: Instant)
    requires Proper(h) && Reachable(h, s) && At(s, c).Started? && id !in s.items
    requires var me := s.callers[c];
      && Existing(s, me.owner, me.request.key).None? && DuplicateOf(h, s, me.owner, me.request.candidate).None?
      && LoadSources(h, s.db, me.owner, References(me.request)).Loaded?
      && Permitted(me.permitted, LoadSources(h, s.db, me.owner, References(me.request)).sources)
      && KeysApart(h, LoadSources(h, s.db, me.owner, References(me.request)).sources)
    ensures CreatedFor(InsertStep(h, VerifyStep(h, LookupStep(h, s, c), c), c, id, true, now, Committed), c, id,
                       s.callers[c].owner, s.callers[c].request)
  {
    ReachableIsSafe(h, s);
    var me := s.callers[c];
    var sources := LoadSources(h, s.db, me.owner, References(me.request)).sources;
    var s1 := LookupStep(h, s, c);
    assert s1 == Goto(s, c, Unknown);
    LookupKeepsInvariant(h, s, c);
    var s2 := VerifyStep(h, s1, c);
    assert s2.callers[c] == me.(phase := Ready(sources)) && s2.items == s.items && s2.byKey == s.byKey && s2.byCandidate == s.byCandidate;
    VerifyKeepsInvariant(h, s1, c);
    CreateFromReady(h, s2, c, id, now);
  }

  lemma InsertTakesEffect(h: Hashes, s: State, c: Id, id: Id, now: Instant)
    requires At(s, c).Ready? && id !in s.items
    requires var me := s.callers[c];
      var intent := IntentOf(me.request, me.phase.sources);
      && Existing(s, me.owner, me.request.key).None? && DuplicateOf(h, s, me.owner, me.request.candidate).None?
      && IntentOk(h, intent) && Permitted(me.permitted, me.phase.sources)
      && Create(h, id, me.owner, me.request.key, intent, now).Some?
    ensures Inserted(h, s, InsertStep(h, s, c, id, true, now, Committed), c, id, now, Committed)
  {
  }

  /** What the insert of a fresh item leaves behind. */
  lemma AddedIsCreatedFor(s: State, t: State, c: Id, created: Option<Tracking>)
    requires At(s, c).Ready? && Added(s, t, c, created, Committed) && Fresh(created.value)
    requires Answers(s.callers[c].request, s.callers[c].phase.sources) && created.value.item.owner == s.callers[c].owner
    ensures CreatedFor(t, c, created.value.item.id, s.callers[c].owner, s.callers[c].request)
  {
  }

  lemma CreateFromReady(h: Hashes, s: State, c: Id, id: Id, now: Instant)
    requires Proper(h) && Invariant(h, s) && At(s, c).Ready? && id !in s.items
    requires var me := s.callers[c];
      Existing(s, me.owner, me.request.key).None? && DuplicateOf(h, s, me.owner, me.request.candidate).None?
      && KeysApart(h, me.phase.sources)
    ensures CreatedFor(InsertStep(h, s, c, id, true, now, Committed), c, id, s.callers[c].owner, s.callers[c].request)
  {
    var me := s.callers[c];
    var created := Create(h, id, me.owner, me.request.key, IntentOf(me.request, me.phase.sources), now);
    assert CallerOk(h, s.items, s.callers, c);
    ReadyCallersCreate(h, s, c, id, now);
    InsertTakesEffect(h, s, c, id, now);
    CreationSucceeds(h, id, me.owner, me.request.key, IntentOf(me.request, me.phase.sources), now);
    AddedIsCreatedFor(s, InsertStep(h, s, c, id, true, now, Committed), c, created);
  }
}
