/**
 Idempotent creation of work items by any number of callers, interleaved with mutations and with changes of the
 sources: look the key up, verify the references, insert under the unique keys, or replay what is there.
 */
module CreationProtocol {
  import opened Collections
  import opened Provenance
  import opened Text
  import opened WorkItemCreation
  import opened WorkItemJournal
  import opened WorkItemModel
  import opened WorkItemSources

  datatype Commit = Committed | RolledBack | Unacknowledged

  datatype Answer = Returned(item: Item, replayed: bool) | KeyConflict | AlreadyTracked(existing: Id) | PermissionDenied
                  | SourceMissing | InputRefused | CandidateGone | StoreRefused | Unavailable | Invalid

  datatype Phase = Started | Unknown | Ready(sources: seq<Source>) | Done(answer: Answer)

  /** `permitted` is the `communications:read` permission of the principal. */
  datatype Caller = Caller(owner: Id, permitted: bool, request: Request, phase: Phase)

  /** A stored item with its immutable sources; `request` records what created it and is never read. */
  datatype Stored = Stored(tracking: Tracking, sources: seq<Source>, request: Request)

  /** `byKey` and `byCandidate` are the two unique indices of the item table. */
  datatype State = State(items: map<Id, Stored>, byKey: map<(Id, string), Id>, byCandidate: map<(Id, string), Id>,
                         db: Database, callers: map<Id, Caller>)

  /** `storeOk` is whether the context is the owner's and active and the verified sources are still as they were. */
  datatype Event =
    | Begin(caller: Id, owner: Id, permitted: bool, request: Request)
    | Lookup(caller: Id)
    | Verify(caller: Id)
    | Insert(caller: Id, id: Id, storeOk: bool, now: Instant, commit: Commit)
    | Mutate(item: Id, attempt: Attempt)
    | ChangeSources(db: Database)

  // ----- the steps -----

  function At(s: State, c: Id): Phase {
    if c in s.callers then s.callers[c].phase else Done(Unavailable)
  }

  function Goto(s: State, c: Id, phase: Phase): State
    requires c in s.callers
  {
    s.(callers := s.callers[c := s.callers[c].(phase := phase)])
  }

  /** `_require_source_permission`. */
  predicate Permitted(permitted: bool, sources: seq<Source>) {
    permitted || forall i :: 0 <= i < |sources| ==> sources[i].account.None?
  }

  /** The item stored under this owner and key. */
  function Existing(s: State, owner: Id, key: string): Option<Stored> {
    if (owner, key) in s.byKey && s.byKey[(owner, key)] in s.items then Some(s.items[s.byKey[(owner, key)]]) else None
  }

  /** Replay is decided by the stored sources and the stored hash; current sources and item state play no part. */
  function ReplayAnswer(stored: Stored, permitted: bool, hash: string): Answer {
    if !Permitted(permitted, stored.sources) then PermissionDenied
    else if stored.tracking.item.hash != hash then KeyConflict
    else Returned(stored.tracking.item, true)
  }

  function BeginStep(s: State, c: Id, owner: Id, permitted: bool, request: Request): State {
    if c in s.callers || !RequestOk(request) then s else s.(callers := s.callers[c := Caller(owner, permitted, request, Started)])
  }

  function LookupStep(h: Hashes, s: State, c: Id): State {
    if !At(s, c).Started? then s else
      var me := s.callers[c];
      match Existing(s, me.owner, me.request.key)
      case Some(stored) => Goto(s, c, Done(ReplayAnswer(stored, me.permitted, RequestHash(h, me.request))))
      case None => Goto(s, c, Unknown)
  }

  datatype Loaded = Loaded(sources: seq<Source>) | Refused(why: Answer)

  function RefusalOf(v: Verified): Answer {
    match v
    case RefusedInput => InputRefused
    case RefusedChanged => CandidateGone
    case _ => SourceMissing
  }

  /** Verify the references one after another; the first refused one decides. */
  function LoadSources(h: Hashes, db: Database, owner: Id, refs: seq<Reference>): Loaded {
    if refs == [] then Loaded([]) else
      match LoadSources(h, db, owner, refs[..|refs| - 1])
      case Refused(why) => Refused(why)
      case Loaded(sources) =>
        match VerifyReference(h.observation, db, owner, refs[|refs| - 1])
        case VerifiedSource(source) => Loaded(sources + [source])
        case other => Refused(RefusalOf(other))
  }

  function VerifyStep(h: Hashes, s: State, c: Id): State {
    if !At(s, c).Unknown? then s else
      var me := s.callers[c];
      match LoadSources(h, s.db, me.owner, References(me.request))
      case Refused(why) => Goto(s, c, Done(why))
      case Loaded(sources) => Goto(s, c, if Permitted(me.permitted, sources) then Ready(sources) else Done(PermissionDenied))
  }

  function DuplicateOf(h: Hashes, s: State, owner: Id, candidate: Option<Locator>): Option<Id> {
    if candidate.Some? && (owner, h.locator(candidate.value)) in s.byCandidate
    then Some(s.byCandidate[(owner, h.locator(candidate.value))]) else None
  }

  /** The committed insert: the row, its sources and both index entries. */
  function AddItem(s: State, t: Tracking, sources: seq<Source>, request: Request): State {
    s.(items := s.items[t.item.id := Stored(t, sources, request)],
       byKey := s.byKey[(t.item.owner, t.item.key) := t.item.id],
       byCandidate := if t.item.candidateKey.None? then s.byCandidate
                      else s.byCandidate[(t.item.owner, t.item.candidateKey.value) := t.item.id])
  }

  /** The key was taken meanwhile: replay the winner, or conflict. */
  function InsertOverExisting(h: Hashes, s: State, c: Id, stored: Stored, hash: string, commit: Commit): State
    requires c in s.callers
  {
    if stored.tracking.item.hash != hash then Goto(s, c, Done(KeyConflict))
    else if !Permitted(s.callers[c].permitted, stored.sources) then Goto(s, c, Done(PermissionDenied))
    else Goto(s, c, Done(if commit == Committed then Returned(stored.tracking.item, true) else Unavailable))
  }

  /** The new row is in; permission is checked once more before the commit. */
  function InsertCreated(s: State, c: Id, created: Option<Tracking>, commit: Commit): State
    requires At(s, c).Ready?
  {
    var me := s.callers[c];
    match created
    case None => Goto(s, c, Done(Invalid))
    case Some(t) =>
      if !Permitted(me.permitted, me.phase.sources) then Goto(s, c, Done(PermissionDenied))
      else if commit == RolledBack then Goto(s, c, Done(Unavailable))
      else Goto(AddItem(s, t, me.phase.sources, me.request), c, Done(if commit == Committed then Returned(t.item, false) else Unavailable))
  }

  function InsertNew(h: Hashes, s: State, c: Id, id: Id, storeOk: bool, now: Instant, commit: Commit): State
    requires At(s, c).Ready?
  {
    var me := s.callers[c];
    var sources := me.phase.sources;
    var duplicate := DuplicateOf(h, s, me.owner, me.request.candidate);
    if duplicate.Some? then Goto(s, c, Done(AlreadyTracked(duplicate.value)))
    else if !storeOk then Goto(s, c, Done(StoreRefused))
    else if id in s.items then s
    else InsertCreated(s, c, Create(h, id, me.owner, me.request.key, IntentOf(me.request, sources), now), commit)
  }

  function InsertStep(h: Hashes, s: State, c: Id, id: Id, storeOk: bool, now: Instant, commit: Commit): State {
    if !At(s, c).Ready? then s else
      var me := s.callers[c];
      var intent := IntentOf(me.request, me.phase.sources);
      if !IntentOk(h, intent) then Goto(s, c, Done(Invalid))
      else match Existing(s, me.owner, me.request.key)
        case Some(stored) => InsertOverExisting(h, s, c, stored, IntentHash(h, intent), commit)
        case None => InsertNew(h, s, c, id, storeOk, now, commit)
  }

  function MutateStep(s: State, id: Id, a: Attempt): State {
    if id !in s.items || !CommandOk(a.command) then s
    else s.(items := s.items[id := s.items[id].(tracking := Perform(s.items[id].tracking, a))])
  }

  function Step(h: Hashes, s: State, e: Event): State {
    match e
    case Begin(c, owner, permitted, request) => BeginStep(s, c, owner, permitted, request)
    case Lookup(c) => LookupStep(h, s, c)
    case Verify(c) => VerifyStep(h, s, c)
    case Insert(c, id, storeOk, now, commit) => InsertStep(h, s, c, id, storeOk, now, commit)
    case Mutate(id, attempt) => MutateStep(s, id, attempt)
    case ChangeSources(db) => s.(db := db)
  }

  function Run(h: Hashes, s: State, events: seq<Event>): State
    decreases |events|
  {
    if events == [] then s else Run(h, Step(h, s, events[0]), events[1..])
  }

  function Empty(): State {
    State(map[], map[], map[], Database(map[], map[], map[]), map[])
  }

  // ----- the invariant -----

  /** A stored item carries its creating request's hash, and its sources are what that request asked for. */
  predicate RecordOk(h: Hashes, x: Item, sources: seq<Source>, request: Request) {
    && RequestOk(request) && x.key == request.key && x.hash == RequestHash(h, request)
    && RequestedAll(sources) == ValuesAll(References(request)) && Distinct(sources)
    && x.candidateKey == (if request.candidate.Some? then Some(h.locator(request.candidate.value)) else None)
  }

  ghost predicate ItemOk(h: Hashes, items: map<Id, Stored>, id: Id) {
    id in items ==>
      && Sound(items[id].tracking) && items[id].tracking.item.id == id
      && RecordOk(h, items[id].tracking.item, items[id].sources, items[id].request)
  }

  ghost predicate Items(h: Hashes, items: map<Id, Stored>) {
    forall id :: ItemOk(h, items, id)
  }

  predicate KeyIndexed(items: map<Id, Stored>, byKey: map<(Id, string), Id>, id: Id) {
    id in items ==>
      var k := (items[id].tracking.item.owner, items[id].tracking.item.key);
      k in byKey && byKey[k] == id
  }

  predicate CandidateIndexed(items: map<Id, Stored>, byCandidate: map<(Id, string), Id>, id: Id) {
    id in items && items[id].tracking.item.candidateKey.Some? ==>
      var k := (items[id].tracking.item.owner, items[id].tracking.item.candidateKey.value);
      k in byCandidate && byCandidate[k] == id
  }

  predicate KeyEntryOk(items: map<Id, Stored>, byKey: map<(Id, string), Id>, k: (Id, string)) {
    k in byKey ==> byKey[k] in items && (items[byKey[k]].tracking.item.owner, items[byKey[k]].tracking.item.key) == k
  }

  ghost predicate Indices(items: map<Id, Stored>, byKey: map<(Id, string), Id>, byCandidate: map<(Id, string), Id>) {
    && (forall id :: KeyIndexed(items, byKey, id))
    && (forall id :: CandidateIndexed(items, byCandidate, id))
    && (forall k :: KeyEntryOk(items, byKey, k))
  }

  /** What a caller was told is about an item that exists, is its own, and answers its own request. */
  predicate ReturnOk(h: Hashes, items: map<Id, Stored>, me: Caller, item: Item) {
    && item.id in items && SameIdentity(item, items[item.id].tracking.item)
    && item.owner == me.owner && item.key == me.request.key && item.hash == RequestHash(h, me.request)
    && Permitted(me.permitted, items[item.id].sources)
  }

  /** `sources` are distinct and say what the request asked for. */
  predicate Answers(request: Request, sources: seq<Source>) {
    RequestedAll(sources) == ValuesAll(References(request)) && Distinct(sources)
  }

  ghost predicate PhaseOk(h: Hashes, items: map<Id, Stored>, me: Caller, phase: Phase) {
    match phase
    case Ready(sources) =>
      && Answers(me.request, sources) && Permitted(me.permitted, sources)
      && (IntentOk(h, IntentOf(me.request, sources)) <==> KeysApart(h, sources))
    case Done(Returned(item, _)) => ReturnOk(h, items, me, item)
    case Done(Invalid) => exists sources :: Answers(me.request, sources) && !KeysApart(h, sources)
    case _ => true
  }

  ghost predicate CallerOk(h: Hashes, items: map<Id, Stored>, callers: map<Id, Caller>, c: Id) {
    c in callers ==> RequestOk(callers[c].request) && PhaseOk(h, items, callers[c], callers[c].phase)
  }

  ghost predicate Callers(h: Hashes, items: map<Id, Stored>, callers: map<Id, Caller>) {
    forall c :: CallerOk(h, items, callers, c)
  }

  ghost predicate Invariant(h: Hashes, s: State) {
    Items(h, s.items) && Indices(s.items, s.byKey, s.byCandidate) && Callers(h, s.items, s.callers)
  }

  lemma {:induction false} LoadedSourcesVerify(h: Hashes, db: Database, owner: Id, refs: seq<Reference>)
    ensures var r := LoadSources(h, db, owner, refs);
      (r.Loaded? ==> Verifies(h, db, owner, refs, r.sources)) && (r.Refused? ==> !r.why.Returned? && !r.why.Invalid?)
  {
    if refs != [] {
      LoadedSourcesVerify(h, db, owner, refs[..|refs| - 1]);
    }
  }

  lemma GotoKeepsInvariant(h: Hashes, s: State, c: Id, phase: Phase)
    requires Invariant(h, s) && c in s.callers && PhaseOk(h, s.items, s.callers[c], phase)
    ensures Invariant(h, Goto(s, c, phase))
  {
    var t := Goto(s, c, phase);
    forall k ensures CallerOk(h, t.items, t.callers, k) {
      assert CallerOk(h, s.items, s.callers, k);
    }
  }

  /** The answer given from a stored item of the caller's own key is truthful. */
  lemma StoredAnswerIsOk(h: Hashes, items: map<Id, Stored>, me: Caller, id: Id, hash: string)
    requires id in items && items[id].tracking.item.id == id && hash == RequestHash(h, me.request)
    requires items[id].tracking.item.owner == me.owner && items[id].tracking.item.key == me.request.key
    ensures PhaseOk(h, items, me, Done(ReplayAnswer(items[id], me.permitted, hash)))
  {
  }

  /** An existing item replays truthfully. */
  lemma ReplayIsOk(h: Hashes, s: State, c: Id)
    requires Invariant(h, s) && c in s.callers && Existing(s, s.callers[c].owner, s.callers[c].request.key).Some?
    ensures var me := s.callers[c];
      PhaseOk(h, s.items, me, Done(ReplayAnswer(Existing(s, me.owner, me.request.key).value, me.permitted, RequestHash(h, me.request))))
  {
    var me := s.callers[c];
    var k := (me.owner, me.request.key);
    assert KeyEntryOk(s.items, s.byKey, k) && ItemOk(h, s.items, s.byKey[k]);
    StoredAnswerIsOk(h, s.items, me, s.byKey[k], RequestHash(h, me.request));
  }

  lemma LookupKeepsInvariant(h: Hashes, s: State, c: Id)
    requires Invariant(h, s)
    ensures Invariant(h, LookupStep(h, s, c))
  {
    if At(s, c).Started? {
      var me := s.callers[c];
      if Existing(s, me.owner, me.request.key).None? {
        GotoKeepsInvariant(h, s, c, Unknown);
      } else {
        ReplayIsOk(h, s, c);
        var stored := Existing(s, me.owner, me.request.key).value;
        GotoKeepsInvariant(h, s, c, Done(ReplayAnswer(stored, me.permitted, RequestHash(h, me.request))));
      }
    }
  }

  lemma VerifyKeepsInvariant(h: Hashes, s: State, c: Id)
    requires Proper(h) && Invariant(h, s)
    ensures Invariant(h, VerifyStep(h, s, c))
  {
    if At(s, c).Unknown? {
      var me := s.callers[c];
      assert CallerOk(h, s.items, s.callers, c);
      var refs := References(me.request);
      var loaded := LoadSources(h, s.db, me.owner, refs);
      LoadedSourcesVerify(h, s.db, me.owner, refs);
      if loaded.Refused? {
        GotoKeepsInvariant(h, s, c, Done(loaded.why));
      } else {
        RequestedReferencesAreOk(me.request);
        VerifiedSourcesKeepTheRequest(h, s.db, me.owner, refs, loaded.sources);
        VerifiedRequestsMakeValidIntents(h, s.db, me.owner, me.request, loaded.sources);
        GotoKeepsInvariant(h, s, c, if Permitted(me.permitted, loaded.sources) then Ready(loaded.sources) else Done(PermissionDenied));
      }
    }
  }

  /** The item is still there, with the same identity, sources and request. */
  predicate Persists(items: map<Id, Stored>, next: map<Id, Stored>, id: Id) {
    id in items ==>
      && id in next && next[id].sources == items[id].sources && next[id].request == items[id].request
      && SameIdentity(items[id].tracking.item, next[id].tracking.item)
  }

  /** What callers know survives any change of the table in which every item persists. */
  lemma CallersSurvive(h: Hashes, items: map<Id, Stored>, next: map<Id, Stored>, callers: map<Id, Caller>)
    requires Callers(h, items, callers) && forall id :: Persists(items, next, id)
    ensures Callers(h, next, callers)
  {
    forall c ensures CallerOk(h, next, callers, c) {
      assert CallerOk(h, items, callers, c);
      if c in callers && callers[c].phase.Done? && callers[c].phase.answer.Returned? {
        assert Persists(items, next, callers[c].phase.answer.item.id);
      }
    }
  }

  lemma AddKeepsIndices(h: Hashes, s: State, t: Tracking, sources: seq<Source>, request: Request)
    requires Indices(s.items, s.byKey, s.byCandidate) && t.item.id !in s.items && (t.item.owner, t.item.key) !in s.byKey
    requires t.item.candidateKey.Some? ==> (t.item.owner, t.item.candidateKey.value) !in s.byCandidate
    ensures var u := AddItem(s, t, sources, request); Indices(u.items, u.byKey, u.byCandidate)
  {
    var u := AddItem(s, t, sources, request);
    forall id ensures KeyIndexed(u.items, u.byKey, id) { assert KeyIndexed(s.items, s.byKey, id); }
    forall id ensures CandidateIndexed(u.items, u.byCandidate, id) { assert CandidateIndexed(s.items, s.byCandidate, id); }
    forall k ensures KeyEntryOk(u.items, u.byKey, k) { assert KeyEntryOk(s.items, s.byKey, k); }
  }

  /** Storing a sound item under its own id keeps every item sound. */
  lemma StoringKeepsItems(h: Hashes, items: map<Id, Stored>, id: Id, x: Stored)
    requires Items(h, items) && Sound(x.tracking) && x.tracking.item.id == id && RecordOk(h, x.tracking.item, x.sources, x.request)
    ensures Items(h, items[id := x])
  {
    var next := items[id := x];
    forall k ensures ItemOk(h, next, k) {
      assert ItemOk(h, items, k);
    }
  }

  lemma NewItemsDisplaceNone(items: map<Id, Stored>, id: Id, x: Stored)
    requires id !in items
    ensures var next := items[id := x]; forall k :: Persists(items, next, k)
  {
  }

  lemma AddKeepsInvariant(h: Hashes, s: State, t: Tracking, sources: seq<Source>, request: Request)
    requires Invariant(h, s) && t.item.id !in s.items && (t.item.owner, t.item.key) !in s.byKey
    requires t.item.candidateKey.Some? ==> (t.item.owner, t.item.candidateKey.value) !in s.byCandidate
    requires Sound(t) && RecordOk(h, t.item, sources, request)
    ensures Invariant(h, AddItem(s, t, sources, request))
  {
    var u := AddItem(s, t, sources, request);
    AddKeepsIndices(h, s, t, sources, request);
    StoringKeepsItems(h, s.items, t.item.id, Stored(t, sources, request));
    NewItemsDisplaceNone(s.items, t.item.id, Stored(t, sources, request));
    CallersSurvive(h, s.items, u.items, s.callers);
  }

  lemma NotIndexedWhenNotExisting(s: State, owner: Id, key: string)
    requires Indices(s.items, s.byKey, s.byCandidate) && Existing(s, owner, key).None?
    ensures (owner, key) !in s.byKey
  {
    assert KeyEntryOk(s.items, s.byKey, (owner, key));
  }

  /** The valid intent of a ready caller hashes to the hash of its request and creates. */
  lemma ReadyCallersCreate(h: Hashes, s: State, c: Id, id: Id, now: Instant)
    requires Proper(h) && Invariant(h, s) && At(s, c).Ready? && IntentOk(h, IntentOf(s.callers[c].request, s.callers[c].phase.sources))
    ensures var me := s.callers[c];
      var intent := IntentOf(me.request, me.phase.sources);
      var t := Create(h, id, me.owner, me.request.key, intent, now);
      && Permitted(me.permitted, me.phase.sources) && IntentHash(h, intent) == RequestHash(h, me.request)
      && t.Some? && Sound(t.value) && RecordOk(h, t.value.item, me.phase.sources, me.request)
      && t.value.item.id == id && t.value.item.owner == me.owner && t.value.item.key == me.request.key
  {
    var me := s.callers[c];
    assert CallerOk(h, s.items, s.callers, c);
    var intent := IntentOf(me.request, me.phase.sources);
    RequestedValuesAreThemselves(References(me.request));
    CreationSucceeds(h, id, me.owner, me.request.key, intent, now);
    FreshIsSound(Create(h, id, me.owner, me.request.key, intent, now).value);
  }

  lemma CreatedIsReturnedTruthfully(h: Hashes, s: State, c: Id, t: Tracking)
    requires Invariant(h, s) && At(s, c).Ready? && RecordOk(h, t.item, s.callers[c].phase.sources, s.callers[c].request)
    requires Permitted(s.callers[c].permitted, s.callers[c].phase.sources) && t.item.owner == s.callers[c].owner
    ensures var me := s.callers[c];
      ReturnOk(h, AddItem(s, t, me.phase.sources, me.request).items, me, t.item)
  {
  }

  lemma InsertCreatedKeepsInvariant(h: Hashes, s: State, c: Id, t: Tracking, phase: Phase)
    requires Invariant(h, s) && At(s, c).Ready? && t.item.id !in s.items
    requires var me := s.callers[c];
      && Existing(s, me.owner, me.request.key).None? && DuplicateOf(h, s, me.owner, me.request.candidate).None?
      && Sound(t) && RecordOk(h, t.item, me.phase.sources, me.request) && Permitted(me.permitted, me.phase.sources)
      && t.item.owner == me.owner
    requires phase == Done(Returned(t.item, false)) || phase == Done(Unavailable)
    ensures Invariant(h, Goto(AddItem(s, t, s.callers[c].phase.sources, s.callers[c].request), c, phase))
  {
    var me := s.callers[c];
    NotIndexedWhenNotExisting(s, me.owner, me.request.key);
    AddKeepsInvariant(h, s, t, me.phase.sources, me.request);
    CreatedIsReturnedTruthfully(h, s, c, t);
    GotoKeepsInvariant(h, AddItem(s, t, me.phase.sources, me.request), c, phase);
  }

  lemma InsertNewKeepsInvariant(h: Hashes, s: State, c: Id, id: Id, storeOk: bool, now: Instant, commit: Commit)
    requires Proper(h) && Invariant(h, s) && At(s, c).Ready? && IntentOk(h, IntentOf(s.callers[c].request, s.callers[c].phase.sources))
    requires Existing(s, s.callers[c].owner, s.callers[c].request.key).None?
    ensures Invariant(h, InsertNew(h, s, c, id, storeOk, now, commit))
  {
    var me := s.callers[c];
    ReadyCallersCreate(h, s, c, id, now);
    var duplicate := DuplicateOf(h, s, me.owner, me.request.candidate);
    if duplicate.Some? {
      GotoKeepsInvariant(h, s, c, Done(AlreadyTracked(duplicate.value)));
    } else if !storeOk {
      GotoKeepsInvariant(h, s, c, Done(StoreRefused));
    } else if id !in s.items && commit == RolledBack {
      GotoKeepsInvariant(h, s, c, Done(Unavailable));
    } else if id !in s.items {
      var t := Create(h, id, me.owner, me.request.key, IntentOf(me.request, me.phase.sources), now).value;
      InsertCreatedKeepsInvariant(h, s, c, t, Done(if commit == Committed then Returned(t.item, false) else Unavailable));
    }
  }

  lemma InsertKeepsInvariant(h: Hashes, s: State, c: Id, id: Id, storeOk: bool, now: Instant, commit: Commit)
    requires Proper(h) && Invariant(h, s)
    ensures Invariant(h, InsertStep(h, s, c, id, storeOk, now, commit))
  {
    if At(s, c).Ready? {
      var me := s.callers[c];
      assert CallerOk(h, s.items, s.callers, c);
      if !IntentOk(h, IntentOf(me.request, me.phase.sources)) {
        GotoKeepsInvariant(h, s, c, Done(Invalid));
        return;
      }
      ReadyCallersCreate(h, s, c, id, now);
      if Existing(s, me.owner, me.request.key).None? {
        InsertNewKeepsInvariant(h, s, c, id, storeOk, now, commit);
      } else {
        InsertOverExistingKeepsInvariant(h, s, c, commit);
      }
    }
  }

  lemma InsertOverExistingKeepsInvariant(h: Hashes, s: State, c: Id, commit: Commit)
    requires Invariant(h, s) && c in s.callers && Existing(s, s.callers[c].owner, s.callers[c].request.key).Some?
    ensures var me := s.callers[c];
      Invariant(h, InsertOverExisting(h, s, c, Existing(s, me.owner, me.request.key).value, RequestHash(h, me.request), commit))
  {
    var me := s.callers[c];
    ReplayIsOk(h, s, c);
    GotoKeepsInvariant(h, s, c, Done(KeyConflict));
    GotoKeepsInvariant(h, s, c, Done(PermissionDenied));
    GotoKeepsInvariant(h, s, c, Done(Unavailable));
    GotoKeepsInvariant(h, s, c, Done(ReplayAnswer(Existing(s, me.owner, me.request.key).value, me.permitted, RequestHash(h, me.request))));
  }

  lemma ReplacedItemsPersist(items: map<Id, Stored>, id: Id, u: Tracking)
    requires id in items && SameIdentity(items[id].tracking.item, u.item)
    ensures var next := items[id := items[id].(tracking := u)]; forall k :: Persists(items, next, k)
  {
  }

  /** Replacing one item's state, not its identity. */
  lemma ReplaceKeepsInvariant(h: Hashes, s: State, id: Id, u: Tracking)
    requires Invariant(h, s) && id in s.items && Sound(u) && SameIdentity(s.items[id].tracking.item, u.item)
    ensures Invariant(h, s.(items := s.items[id := s.items[id].(tracking := u)]))
  {
    var next := s.items[id := s.items[id].(tracking := u)];
    assert ItemOk(h, s.items, id);
    StoringKeepsItems(h, s.items, id, next[id]);
    ReplacedItemsPersist(s.items, id, u);
    IndicesSurvive(s, next);
    CallersSurvive(h, s.items, next, s.callers);
  }

  lemma MutateKeepsInvariant(h: Hashes, s: State, id: Id, a: Attempt)
    requires Invariant(h, s)
    ensures Invariant(h, MutateStep(s, id, a))
  {
    if id in s.items && CommandOk(a.command) {
      assert ItemOk(h, s.items, id);
      PerformKeepsSound(s.items[id].tracking, a);
      ReplaceKeepsInvariant(h, s, id, Perform(s.items[id].tracking, a));
    }
  }

  lemma IndicesSurvive(s: State, next: map<Id, Stored>)
    requires Indices(s.items, s.byKey, s.byCandidate) && next.Keys == s.items.Keys && forall id :: Persists(s.items, next, id)
    ensures Indices(next, s.byKey, s.byCandidate)
  {
    forall id ensures KeyIndexed(next, s.byKey, id) { assert KeyIndexed(s.items, s.byKey, id) && Persists(s.items, next, id); }
    forall id ensures CandidateIndexed(next, s.byCandidate, id) {
      assert CandidateIndexed(s.items, s.byCandidate, id) && Persists(s.items, next, id);
    }
    forall k ensures KeyEntryOk(next, s.byKey, k) {
      assert KeyEntryOk(s.items, s.byKey, k);
      assert k in s.byKey ==> Persists(s.items, next, s.byKey[k]);
    }
  }

  lemma BeginKeepsInvariant(h: Hashes, s: State, c: Id, owner: Id, permitted: bool, request: Request)
    requires Invariant(h, s)
    ensures Invariant(h, BeginStep(s, c, owner, permitted, request))
  {
    var t := BeginStep(s, c, owner, permitted, request);
    forall k ensures CallerOk(h, t.items, t.callers, k) { assert CallerOk(h, s.items, s.callers, k); }
  }

  // ----- what a step can do to the table -----

  /** At most the caller's phase changed, and it was not told that it created anything. */
  predicate OnlyPhase(s: State, t: State, c: Id) {
    t == s || (c in s.callers && t == Goto(s, c, At(t, c)) && !ToldCreated(At(t, c)))
  }

  predicate ToldCreated(phase: Phase) {
    phase.Done? && phase.answer.Returned? && !phase.answer.replayed
  }

  /** The caller's new item was added, and the caller told so unless the commit's outcome is unknown. */
  predicate Inserted(h: Hashes, s: State, t: State, c: Id, id: Id, now: Instant, commit: Commit) {
    && At(s, c).Ready? && id !in s.items
    && var me := s.callers[c];
       && IntentOk(h, IntentOf(me.request, me.phase.sources))
       && Added(s, t, c, Create(h, id, me.owner, me.request.key, IntentOf(me.request, me.phase.sources), now), commit)
  }

  predicate Added(s: State, t: State, c: Id, created: Option<Tracking>, commit: Commit)
    requires At(s, c).Ready?
  {
    && commit != RolledBack && created.Some?
    && t == Goto(AddItem(s, created.value, s.callers[c].phase.sources, s.callers[c].request), c,
                 Done(if commit == Committed then Returned(created.value.item, false) else Unavailable))
  }

  lemma InsertCreatedShape(s: State, c: Id, created: Option<Tracking>, commit: Commit)
    requires At(s, c).Ready?
    ensures OnlyPhase(s, InsertCreated(s, c, created, commit), c) || Added(s, InsertCreated(s, c, created, commit), c, created, commit)
  {
  }

  lemma GotoIsOnlyPhase(s: State, c: Id, phase: Phase)
    requires c in s.callers && !ToldCreated(phase)
    ensures OnlyPhase(s, Goto(s, c, phase), c)
  {
  }

  lemma OverExistingShape(h: Hashes, s: State, c: Id, stored: Stored, hash: string, commit: Commit)
    requires c in s.callers
    ensures OnlyPhase(s, InsertOverExisting(h, s, c, stored, hash, commit), c)
  {
  }

  lemma InsertNewShape(h: Hashes, s: State, c: Id, id: Id, storeOk: bool, now: Instant, commit: Commit)
    requires At(s, c).Ready?
    ensures var me := s.callers[c];
      var created := Create(h, id, me.owner, me.request.key, IntentOf(me.request, me.phase.sources), now);
      var t := InsertNew(h, s, c, id, storeOk, now, commit);
      OnlyPhase(s, t, c) || (id !in s.items && Added(s, t, c, created, commit))
  {
    var me := s.callers[c];
    var created := Create(h, id, me.owner, me.request.key, IntentOf(me.request, me.phase.sources), now);
    var duplicate := DuplicateOf(h, s, me.owner, me.request.candidate);
    if duplicate.Some? {
      GotoIsOnlyPhase(s, c, Done(AlreadyTracked(duplicate.value)));
    } else if !storeOk {
      GotoIsOnlyPhase(s, c, Done(StoreRefused));
    } else {
      InsertCreatedShape(s, c, created, commit);
    }
  }

  lemma InsertShape(h: Hashes, s: State, c: Id, id: Id, storeOk: bool, now: Instant, commit: Commit)
    ensures var t := InsertStep(h, s, c, id, storeOk, now, commit);
      OnlyPhase(s, t, c) || Inserted(h, s, t, c, id, now, commit)
  {
    if At(s, c).Ready? {
      var me := s.callers[c];
      var intent := IntentOf(me.request, me.phase.sources);
      if !IntentOk(h, intent) {
        GotoIsOnlyPhase(s, c, Done(Invalid));
      } else if Existing(s, me.owner, me.request.key).Some? {
        OverExistingShape(h, s, c, Existing(s, me.owner, me.request.key).value, IntentHash(h, intent), commit);
      } else {
        InsertNewShape(h, s, c, id, storeOk, now, commit);
      }
    }
  }

  lemma StepKeepsInvariant(h: Hashes, s: State, e: Event)
    requires Proper(h) && Invariant(h, s)
    ensures Invariant(h, Step(h, s, e))
  {
    match e
    case Begin(c, owner, permitted, request) => BeginKeepsInvariant(h, s, c, owner, permitted, request);
    case Lookup(c) => LookupKeepsInvariant(h, s, c);
    case Verify(c) => VerifyKeepsInvariant(h, s, c);
    case Insert(c, id, storeOk, now, commit) => InsertKeepsInvariant(h, s, c, id, storeOk, now, commit);
    case Mutate(id, attempt) => MutateKeepsInvariant(h, s, id, attempt);
    case ChangeSources(db) =>
  }

  lemma {:induction false} RunKeepsInvariant(h: Hashes, s: State, events: seq<Event>)
    requires Proper(h) && Invariant(h, s)
    ensures Invariant(h, Run(h, s, events))
    decreases |events|
  {
    if events != [] {
      StepKeepsInvariant(h, s, events[0]);
      RunKeepsInvariant(h, Step(h, s, events[0]), events[1..]);
    }
  }
}
