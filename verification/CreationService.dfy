/** The work item service as code that changes the table in place; each method takes exactly one step of the protocol. */
module CreationService {
  import opened CreationProtocol
  import opened Provenance
  import opened Text
  import opened WorkItemCreation
  import opened WorkItemJournal
  import opened WorkItemModel
  import opened WorkItemSources

  class Service {
    const h: Hashes
    var items: map<Id, Stored>
    var byKey: map<(Id, string), Id>
    var byCandidate: map<(Id, string), Id>
    var db: Database
    var callers: map<Id, Caller>

    function Value(): State
      reads this
    {
      State(items, byKey, byCandidate, db, callers)
    }

    constructor (h: Hashes)
      ensures Value() == Empty() && this.h == h
    {
      this.h := h;
      items, byKey, byCandidate, callers := map[], map[], map[], map[];
      db := Database(map[], map[], map[]);
    }

    method Continue(c: Id, phase: Phase)
      requires c in callers
      modifies this`callers
      ensures Value() == Goto(old(Value()), c, phase)
    {
      callers := callers[c := callers[c].(phase := phase)];
    }

    /** `get_by_creation_key_owned`. */
    method GetByCreationKey(owner: Id, key: string) returns (found: Option<Stored>)
      ensures found == Existing(Value(), owner, key)
    {
      if (owner, key) in byKey && byKey[(owner, key)] in items {
        return Some(items[byKey[(owner, key)]]);
      }
      found := None;
    }

    /** `_require_source_permission`: any source with a mailbox account needs the permission. */
    method SourcePermission(permitted: bool, sources: seq<Source>) returns (ok: bool)
      ensures ok == Permitted(permitted, sources)
    {
      if permitted { return true; }
      for i := 0 to |sources|
        invariant forall k :: 0 <= k < i ==> sources[k].account.None?
      {
        if sources[i].account.Some? { return false; }
      }
      ok := true;
    }

    /** The first half of `create_verified`: replay before any source is looked at. */
    method LookupExisting(c: Id)
      modifies this`callers
      ensures Value() == Step(h, old(Value()), Lookup(c))
    {
      if c !in callers || !callers[c].phase.Started? { return; }
      var me := callers[c];
      var existing := GetByCreationKey(me.owner, me.request.key);
      if existing.None? {
        Continue(c, Unknown);
        return;
      }
      var allowed := SourcePermission(me.permitted, existing.value.sources);
      if !allowed {
        Continue(c, Done(PermissionDenied));
      } else if existing.value.tracking.item.hash != RequestHash(h, me.request) {
        Continue(c, Done(KeyConflict));
      } else {
        Continue(c, Done(Returned(existing.value.tracking.item, true)));
      }
    }

    /** Verify the references in order and stop at the first that does not. */
    method VerifyReferences(owner: Id, refs: seq<Reference>) returns (r: Loaded)
      ensures r == LoadSources(h, db, owner, refs)
    {
      var sources := [];
      for i := 0 to |refs|
        invariant LoadSources(h, db, owner, refs[..i]) == Loaded(sources)
      {
        var v := VerifyReference(h.observation, db, owner, refs[i]);
        assert refs[..i + 1][..i] == refs[..i];
        if !v.VerifiedSource? {
          RefusalIsFinal(h, db, owner, refs, i + 1);
          return Refused(RefusalOf(v));
        }
        sources := sources + [v.source];
      }
      assert refs[..|refs|] == refs;
      r := Loaded(sources);
    }

    method VerifySources(c: Id)
      modifies this`callers
      ensures Value() == Step(h, old(Value()), Verify(c))
    {
      if c !in callers || !callers[c].phase.Unknown? { return; }
      var me := callers[c];
      var loaded := VerifyReferences(me.owner, References(me.request));
      if loaded.Refused? {
        Continue(c, Done(loaded.why));
        return;
      }
      var allowed := SourcePermission(me.permitted, loaded.sources);
      Continue(c, if allowed then Ready(loaded.sources) else Done(PermissionDenied));
    }

    /** The key was taken meanwhile. */
    method ReplayWinner(c: Id, stored: Stored, hash: string, commit: Commit)
      requires c in callers
      modifies this`callers
      ensures Value() == InsertOverExisting(h, old(Value()), c, stored, hash, commit)
    {
      if stored.tracking.item.hash != hash {
        Continue(c, Done(KeyConflict));
        return;
      }
      var allowed := SourcePermission(callers[c].permitted, stored.sources);
      if !allowed {
        Continue(c, Done(PermissionDenied));
      } else {
        Continue(c, Done(if commit == Committed then Returned(stored.tracking.item, true) else Unavailable));
      }
    }

    /** The row with its sources, under both unique indices. */
    method StoreItem(t: Tracking, sources: seq<Source>, request: Request)
      modifies this`items, this`byKey, this`byCandidate
      ensures Value() == AddItem(old(Value()), t, sources, request)
    {
      items := items[t.item.id := Stored(t, sources, request)];
      byKey := byKey[(t.item.owner, t.item.key) := t.item.id];
      if t.item.candidateKey.Some? { byCandidate := byCandidate[(t.item.owner, t.item.candidateKey.value) := t.item.id]; }
    }

    /** The permission re-check of a new row, and the commit. */
    method CommitCreated(c: Id, created: Option<Tracking>, commit: Commit)
      requires c in callers && callers[c].phase.Ready?
      modifies this`items, this`byKey, this`byCandidate, this`callers
      ensures Value() == InsertCreated(old(Value()), c, created, commit)
    {
      if created.None? {
        Continue(c, Done(Invalid));
        return;
      }
      var me := callers[c];
      var allowed := SourcePermission(me.permitted, me.phase.sources);
      if !allowed {
        Continue(c, Done(PermissionDenied));
      } else if commit == RolledBack {
        Continue(c, Done(Unavailable));
      } else {
        StoreItem(created.value, me.phase.sources, me.request);
        Continue(c, Done(if commit == Committed then Returned(created.value.item, false) else Unavailable));
      }
    }

    /** `create_owned` when neither the key nor the candidate is taken, and the commit. */
    method CreateOwned(c: Id, id: Id, storeOk: bool, now: Instant, commit: Commit)
      requires c in callers && callers[c].phase.Ready?
      modifies this`items, this`byKey, this`byCandidate, this`callers
      ensures Value() == InsertNew(h, old(Value()), c, id, storeOk, now, commit)
    {
      var me := callers[c];
      var sources := me.phase.sources;
      if me.request.candidate.Some? {
        var k := (me.owner, h.locator(me.request.candidate.value));
        if k in byCandidate {
          Continue(c, Done(AlreadyTracked(byCandidate[k])));
          return;
        }
      }
      if !storeOk {
        Continue(c, Done(StoreRefused));
        return;
      }
      if id in items { return; }
      var created := Create(h, id, me.owner, me.request.key, IntentOf(me.request, sources), now);
      CommitCreated(c, created, commit);
    }

    /** The second half of `create_verified`. */
    method InsertVerified(c: Id, id: Id, storeOk: bool, now: Instant, commit: Commit)
      modifies this`items, this`byKey, this`byCandidate, this`callers
      ensures Value() == Step(h, old(Value()), Insert(c, id, storeOk, now, commit))
    {
      if c !in callers || !callers[c].phase.Ready? { return; }
      var me := callers[c];
      var intent := IntentOf(me.request, me.phase.sources);
      if !IntentOk(h, intent) {
        Continue(c, Done(Invalid));
        return;
      }
      var existing := GetByCreationKey(me.owner, me.request.key);
      if existing.Some? {
        var hash := CreationRequestHash(h, intent);
        ReplayWinner(c, existing.value, hash, commit);
      } else {
        CreateOwned(c, id, storeOk, now, commit);
      }
    }

    /** `mutate_owned` under its row lock: the new version and its events are stored together. */
    method MutateOwned(id: Id, a: Attempt)
      requires CommandOk(a.command)
      modifies this`items
      ensures Value() == Step(h, old(Value()), Mutate(id, a))
    {
      if id !in items { return; }
      var t := items[id].tracking;
      var r := ApplyCommand(t.item, a.owner, a.command, a.now);
      if r.Changed? && (r.item.context == t.item.context || r.item.context.None? || a.contextOk) {
        items := items[id := items[id].(tracking := Tracking(r.item, t.journal + r.events))];
      }
    }
  }

  lemma {:induction false} RefusalIsFinal(h: Hashes, db: Database, owner: Id, refs: seq<Reference>, i: nat)
    requires i <= |refs| && LoadSources(h, db, owner, refs[..i]).Refused?
    ensures LoadSources(h, db, owner, refs) == LoadSources(h, db, owner, refs[..i])
    decreases |refs| - i
  {
    if i == |refs| {
      assert refs[..i] == refs;
    } else {
      assert refs[..i + 1][..i] == refs[..i];
      RefusalIsFinal(h, db, owner, refs, i + 1);
    }
  }
}
