/** What every interleaving of the mailbox saga keeps: the link between the account table and the secret store. */
module SagaSafety {
  import opened Text
  import opened CredentialSaga

  // ----- the invariant -----

  /** Every locator has exactly one callback that minted it, and that callback knows it. */
  ghost predicate Minting(callbacks: map<Uuid, Callback>, mintedBy: map<Locator, Uuid>, lost: set<Locator>) {
    && (forall c :: c in callbacks && callbacks[c].loc.Some? ==>
          callbacks[c].loc.value in mintedBy && mintedBy[callbacks[c].loc.value] == c)
    && (forall l :: l in mintedBy ==> mintedBy[l] in callbacks && callbacks[mintedBy[l]].loc == Some(l))
    && (forall l :: l in lost ==> l !in mintedBy)
  }

  /** A committed row has carried this locator. */
  predicate Written(mintedBy: map<Locator, Uuid>, callbacks: map<Uuid, Callback>, l: Locator) {
    l in mintedBy && mintedBy[l] in callbacks && callbacks[mintedBy[l]].wrote
  }

  ghost predicate Refs(accounts: map<Uuid, Account>, mintedBy: map<Locator, Uuid>, callbacks: map<Uuid, Callback>) {
    && (forall id :: id in accounts && accounts[id].ref.Some? ==> Written(mintedBy, callbacks, accounts[id].ref.value))
    && (forall i, j :: i in accounts && j in accounts && i != j && accounts[i].ref.Some? ==> accounts[i].ref != accounts[j].ref)
  }

  predicate RowShape(a: Account) {
    && (a.status == Disconnected ==> a.ref.None? && a.granted.None?)
    && (a.status != Disconnected ==> a.ref.Some?)
  }

  ghost predicate Rows(accounts: map<Uuid, Account>) {
    && (forall id :: id in accounts ==> RowShape(accounts[id]))
    && (forall i, j :: i in accounts && j in accounts && i != j ==>
          !HasKey(accounts[i], accounts[j].user, accounts[j].provider, accounts[j].external))
  }

  /** What a callback holds in each phase: an unwritten credential is present, a disowned one is gone. */
  predicate CallbackOk(present: set<Locator>, cb: Callback) {
    (cb.removed ==> cb.phase.Exited? && !cb.phase.exit.Attached?) && PhaseOk(present, cb)
  }

  predicate PhaseOk(present: set<Locator>, cb: Callback) {
    match cb.phase
    case Exchanged => cb.loc.None? && !cb.wrote
    case Compensating(raising) =>
      && cb.loc.Some? && (!cb.wrote ==> cb.loc.value in present) && (cb.wrote ==> raising == ServiceUnavailable)
      && !raising.Attached? && !raising.Reused?
    case Exited(exit) =>
      && (exit.Attached? ==> cb.loc.Some? && cb.wrote)
      && (cb.loc.Some? && !exit.Attached? && exit != ServiceUnavailable ==> cb.loc.value !in present)
      && (cb.wrote ==> exit.Attached? || exit == ServiceUnavailable)
    case _ => cb.loc.Some? && !cb.wrote && cb.loc.value in present
  }

  ghost predicate Callbacks(callbacks: map<Uuid, Callback>, present: set<Locator>) {
    forall c :: c in callbacks ==> CallbackOk(present, callbacks[c])
  }

  ghost predicate NotActive(accounts: map<Uuid, Account>, l: Locator) {
    forall id :: id in accounts && accounts[id].ref == Some(l) ==> accounts[id].status != Active
  }

  /** A reauthorization only ever holds, for deletion, a locator that was written and can never be active again. */
  ghost predicate Targets(s: State) {
    forall c :: c in s.callbacks && s.callbacks[c].phase.TargetLoaded? && s.callbacks[c].phase.previous.Some? ==>
      Written(s.mintedBy, s.callbacks, s.callbacks[c].phase.previous.value)
      && NotActive(s.accounts, s.callbacks[c].phase.previous.value)
  }

  predicate DisconnectOk(mintedBy: map<Locator, Uuid>, callbacks: map<Uuid, Callback>, d: Disconnect) {
    && (d.locator.Some? ==> Written(mintedBy, callbacks, d.locator.value))
    && (d.deleted ==> d.locator.Some? && (d.phase.SecretDeleted? || d.phase.DisconnectDone?))
  }

  ghost predicate Disconnects(s: State) {
    forall d :: d in s.disconnects ==> DisconnectOk(s.mintedBy, s.callbacks, s.disconnects[d])
  }

  /** A disconnect that read this locator has removed the secret. */
  ghost predicate DeletedByDisconnect(disconnects: map<Uuid, Disconnect>, l: Locator) {
    exists d :: d in disconnects && disconnects[d].locator == Some(l) && disconnects[d].deleted
  }

  /** The callback wrote the row, was told its commit failed, and its compensation removed the secret. */
  predicate CompensatedAfterLostAcknowledgement(mintedBy: map<Locator, Uuid>, callbacks: map<Uuid, Callback>, l: Locator) {
    && Written(mintedBy, callbacks, l)
    && callbacks[mintedBy[l]].phase == Exited(ServiceUnavailable) && callbacks[mintedBy[l]].removed
  }

  ghost predicate Accounted(s: State, l: Locator) {
    || l in s.present
    || DeletedByDisconnect(s.disconnects, l)
    || CompensatedAfterLostAcknowledgement(s.mintedBy, s.callbacks, l)
  }

  ghost predicate Backed(s: State) {
    forall id :: id in s.accounts && s.accounts[id].status == Active ==>
      s.accounts[id].ref.Some? && Accounted(s, s.accounts[id].ref.value)
  }

  ghost predicate Invariant(s: State) {
    && Minting(s.callbacks, s.mintedBy, s.lost) && Refs(s.accounts, s.mintedBy, s.callbacks) && Rows(s.accounts)
    && Callbacks(s.callbacks, s.present) && Targets(s) && Disconnects(s) && Backed(s)
  }

  // ----- one step -----

  /** Active rows keep their backing when none is added and no account of a secret is lost. */
  lemma BackingSurvives(s: State, t: State)
    requires Backed(s)
    requires forall id :: id in t.accounts && t.accounts[id].status == Active ==>
      id in s.accounts && s.accounts[id].status == Active && s.accounts[id].ref == t.accounts[id].ref
    requires forall l :: Accounted(s, l) ==> Accounted(t, l)
    ensures Backed(t)
  {
  }

  /** Callback bookkeeping that keeps the locator and does not un-write it. */
  lemma GotoKeepsInvariant(s: State, c: Uuid, phase: Phase)
    requires Invariant(s) && c in s.callbacks && CallbackOk(s.present, s.callbacks[c].(phase := phase))
    requires !s.callbacks[c].phase.Exited?
    requires phase.TargetLoaded? && phase.previous.Some? ==>
      Written(s.mintedBy, s.callbacks, phase.previous.value) && NotActive(s.accounts, phase.previous.value)
    ensures Invariant(Goto(s, c, phase))
  {
    var t := Goto(s, c, phase);
    assert forall l :: Written(s.mintedBy, s.callbacks, l) ==> Written(t.mintedBy, t.callbacks, l);
    BackingSurvives(s, t);
  }

  /** Removing a written secret whose absence is accounted for, or that no ACTIVE row carries. */
  lemma RemoveKeepsInvariant(s: State, l: Locator)
    requires Invariant(s) && Written(s.mintedBy, s.callbacks, l)
    requires NotActive(s.accounts, l) || DeletedByDisconnect(s.disconnects, l)
    ensures Invariant(s.(present := s.present - {l}))
  {
  }

  /** A new callback that has minted nothing disturbs neither the locators nor the rows and disconnects that name them. */
  lemma NewCallbackKeepsLinks(s: State, c: Uuid, cb: Callback)
    requires Invariant(s) && c !in s.callbacks && cb.loc.None?
    ensures var next := s.callbacks[c := cb];
      && Minting(next, s.mintedBy, s.lost) && Refs(s.accounts, s.mintedBy, next)
      && (forall d :: d in s.disconnects ==> DisconnectOk(s.mintedBy, next, s.disconnects[d]))
      && (forall l :: Written(s.mintedBy, s.callbacks, l) <==> Written(s.mintedBy, next, l))
  {
  }

  lemma NewCallbackKeepsBacking(s: State, c: Uuid, cb: Callback)
    requires Invariant(s) && c !in s.callbacks
    ensures Backed(s.(callbacks := s.callbacks[c := cb]))
  {
    BackingSurvives(s, s.(callbacks := s.callbacks[c := cb]));
  }

  lemma BeginKeepsInvariant(s: State, c: Uuid, purpose: Purpose, user: Uuid, provider: Provider, external: string,
                            granted: set<Capability>)
    requires Invariant(s)
    ensures Invariant(BeginCallbackStep(s, c, purpose, user, provider, external, granted))
  {
    if c !in s.callbacks {
      var cb := Callback(purpose, user, provider, external, granted, None, false, false, Exchanged);
      NewCallbackKeepsLinks(s, c, cb);
      NewCallbackKeepsBacking(s, c, cb);
    }
  }

  lemma StoreKeepsInvariant(s: State, c: Uuid, l: Locator, creation: Creation)
    requires Invariant(s)
    ensures Invariant(StoreCredentialStep(s, c, l, creation))
  {
    if At(s, c).Exchanged? && l !in s.mintedBy && l !in s.lost {
      assert CallbackOk(s.present, s.callbacks[c]);
      GotoKeepsInvariant(s, c, Exited(AuthorizationFailed));
      GotoKeepsInvariant(s, c, Exited(ServiceUnavailable));
      var u := Goto(s, c, Exited(ServiceUnavailable));
      LostKeepsInvariant(u, l, u.present);
      LostKeepsInvariant(u, l, u.present + {l});
      MintKeepsInvariant(s, c, l);
    }
  }

  lemma LostKeepsInvariant(s: State, l: Locator, present: set<Locator>)
    requires Invariant(s) && l !in s.mintedBy && s.present <= present <= s.present + {l}
    ensures Invariant(s.(present := present, lost := s.lost + {l}))
  {
  }

  lemma MintKeepsInvariant(s: State, c: Uuid, l: Locator)
    requires Invariant(s) && At(s, c).Exchanged? && l !in s.mintedBy && l !in s.lost
    ensures Invariant(s.(present := s.present + {l}, mintedBy := s.mintedBy[l := c],
                         callbacks := s.callbacks[c := s.callbacks[c].(loc := Some(l), phase := Stored)]))
  {
  }

  lemma FindKeepsInvariant(s: State, c: Uuid, found: Option<Uuid>, ok: bool)
    requires Invariant(s)
    ensures Invariant(FindAccountStep(s, c, found, ok))
  {
    if At(s, c).Stored? {
      assert CallbackOk(s.present, s.callbacks[c]);
      GotoKeepsInvariant(s, c, Compensating(ServiceUnavailable));
      GotoKeepsInvariant(s, c, ConnectFound(found));
      if found.Some? { GotoKeepsInvariant(s, c, ConnectReuse(found.value)); }
    }
  }

  /** The row a callback commits: its own unwritten locator, under a key no other row has. */
  ghost predicate Writable(s: State, c: Uuid, id: Uuid, row: Account) {
    && c in s.callbacks && s.callbacks[c].loc.Some? && !s.callbacks[c].wrote && s.callbacks[c].loc.value in s.present
    && !s.callbacks[c].phase.Exited?
    && row.ref == s.callbacks[c].loc && row.status == Active
    && (id in s.accounts ==> s.accounts[id].status != Active && HasKey(s.accounts[id], row.user, row.provider, row.external))
    && (forall j :: j in s.accounts && j != id ==> !HasKey(s.accounts[j], row.user, row.provider, row.external))
  }

  lemma WriteKeepsRows(s: State, c: Uuid, id: Uuid, row: Account)
    requires Invariant(s) && Writable(s, c, id, row)
    ensures var callbacks := s.callbacks[c := s.callbacks[c].(wrote := true)];
      && Rows(s.accounts[id := row]) && Refs(s.accounts[id := row], s.mintedBy, callbacks)
      && forall l :: Written(s.mintedBy, s.callbacks, l) ==> Written(s.mintedBy, callbacks, l) && l != row.ref.value
  {
  }

  lemma WriteRowKeepsInvariant(s: State, c: Uuid, id: Uuid, row: Account, commit: Commit)
    requires Invariant(s) && Writable(s, c, id, row)
    ensures Invariant(WriteRow(s, c, id, row, commit))
  {
    if commit == RolledBack {
      GotoKeepsInvariant(s, c, Compensating(ServiceUnavailable));
    } else {
      var t := WriteRow(s, c, id, row, commit);
      WriteKeepsRows(s, c, id, row);
      assert forall l :: Written(t.mintedBy, t.callbacks, l) <==>
        Written(s.mintedBy, s.callbacks[c := s.callbacks[c].(wrote := true)], l);
      assert Targets(t);
      assert Backed(t) by {
        forall j | j in t.accounts && t.accounts[j].status == Active ensures Accounted(t, t.accounts[j].ref.value) {
          if j != id { assert Accounted(s, s.accounts[j].ref.value); }
        }
      }
    }
  }

  lemma PersistConnectKeepsInvariant(s: State, c: Uuid, newId: Uuid, commit: Commit)
    requires Invariant(s)
    ensures Invariant(PersistConnectStep(s, c, newId, commit))
  {
    if At(s, c).ConnectFound? {
      var cb := s.callbacks[c];
      assert CallbackOk(s.present, cb);
      GotoKeepsInvariant(s, c, Compensating(ServiceUnavailable));
      match cb.phase.existing
      case None =>
        if FindMatches(s.accounts, cb.user, cb.provider, cb.external, None) && newId !in s.accounts {
          WriteRowKeepsInvariant(s, c, newId, NewAccount(cb), commit);
        }
      case Some(id) =>
        if Owned(s.accounts, id, cb.user) && Reactivatable(s.accounts[id]) {
          WriteRowKeepsInvariant(s, c, id, s.accounts[id].(ref := cb.loc, status := Active, granted := Some(cb.granted)), commit);
        }
    }
  }

  lemma LoadTargetKeepsInvariant(s: State, c: Uuid, ok: bool)
    requires Invariant(s)
    ensures Invariant(LoadTargetStep(s, c, ok))
  {
    if At(s, c).Stored? && s.callbacks[c].purpose.Reauthorize? {
      var cb := s.callbacks[c];
      assert CallbackOk(s.present, cb);
      GotoKeepsInvariant(s, c, Compensating(ServiceUnavailable));
      var id := cb.purpose.account;
      match TargetRefusal(s.accounts, id, cb)
      case Some(exit) => GotoKeepsInvariant(s, c, Compensating(exit));
      case None => GotoKeepsInvariant(s, c, TargetLoaded(s.accounts[id].ref));
    }
  }

  lemma DeletePreviousKeepsInvariant(s: State, c: Uuid, delete: Delete)
    requires Invariant(s)
    ensures Invariant(DeletePreviousStep(s, c, delete))
  {
    if At(s, c).TargetLoaded? {
      var cb := s.callbacks[c];
      assert CallbackOk(s.present, cb);
      var previous := cb.phase.previous;
      var u, v := Goto(s, c, PreviousDeleted), Goto(s, c, Compensating(ServiceUnavailable));
      GotoKeepsInvariant(s, c, PreviousDeleted);
      GotoKeepsInvariant(s, c, Compensating(ServiceUnavailable));
      if previous.Some? {
        RemoveKeepsInvariant(u, previous.value);
        RemoveKeepsInvariant(v, previous.value);
      }
    }
  }

  lemma RecheckKeepsInvariant(s: State, c: Uuid, ok: bool)
    requires Invariant(s)
    ensures Invariant(RecheckTargetStep(s, c, ok))
  {
    if At(s, c).PreviousDeleted? && s.callbacks[c].purpose.Reauthorize? {
      assert CallbackOk(s.present, s.callbacks[c]);
      GotoKeepsInvariant(s, c, Compensating(ServiceUnavailable));
      GotoKeepsInvariant(s, c, TargetRechecked);
      var refusal := TargetRefusal(s.accounts, s.callbacks[c].purpose.account, s.callbacks[c]);
      if refusal.Some? { GotoKeepsInvariant(s, c, Compensating(refusal.value)); }
    }
  }

  lemma PersistReauthorizedKeepsInvariant(s: State, c: Uuid, commit: Commit)
    requires Invariant(s)
    ensures Invariant(PersistReauthorizedStep(s, c, commit))
  {
    if At(s, c).TargetRechecked? && s.callbacks[c].purpose.Reauthorize? {
      var cb := s.callbacks[c];
      assert CallbackOk(s.present, cb);
      GotoKeepsInvariant(s, c, Compensating(AccountConflict));
      var id := cb.purpose.account;
      if Owned(s.accounts, id, cb.user) && Reactivatable(s.accounts[id]) {
        WriteRowKeepsInvariant(s, c, id, s.accounts[id].(ref := cb.loc, status := Active, granted := Some(cb.granted)), commit);
      }
    }
  }

  /** Compensation: an unwritten credential is nobody's; a written one was reported as a failed commit. */
  lemma DeleteOwnKeepsInvariant(s: State, c: Uuid, delete: Delete)
    requires Invariant(s)
    ensures Invariant(DeleteOwnStep(s, c, delete))
  {
    if (At(s, c).Compensating? || At(s, c).ConnectReuse?) && s.callbacks[c].loc.Some? {
      assert CallbackOk(s.present, s.callbacks[c]);
      var exit := if s.callbacks[c].phase.ConnectReuse? then Reused(s.callbacks[c].phase.account) else s.callbacks[c].phase.raising;
      CompensationKeepsInvariant(s, c, exit, true);
      CompensationKeepsInvariant(s, c, ServiceUnavailable, true);
      CompensationKeepsInvariant(s, c, ServiceUnavailable, false);
    }
  }

  lemma CompensationKeepsInvariant(s: State, c: Uuid, exit: Exit, gone: bool)
    requires Invariant(s) && c in s.callbacks && !s.callbacks[c].phase.Exited? && s.callbacks[c].loc.Some? && !exit.Attached?
    requires s.callbacks[c].wrote ==> exit == ServiceUnavailable
    requires !gone ==> exit == ServiceUnavailable
    ensures Invariant(EndAfterDelete(s, c, exit, gone))
  {
    var l := s.callbacks[c].loc.value;
    var t := EndAfterDelete(s, c, exit, gone);
    assert forall k :: Written(s.mintedBy, s.callbacks, k) ==> Written(t.mintedBy, t.callbacks, k);
    forall k | k in t.callbacks ensures CallbackOk(t.present, t.callbacks[k]) {
      assert CallbackOk(s.present, s.callbacks[k]);
    }
    assert Backed(t) by {
      forall id | id in t.accounts && t.accounts[id].status == Active ensures Accounted(t, t.accounts[id].ref.value) {
        assert Accounted(s, s.accounts[id].ref.value);
      }
    }
  }

  /** Marking, or clearing, a row takes an ACTIVE locator out of use and never puts one in. */
  lemma RetireRowKeepsInvariant(s: State, id: Uuid, row: Account)
    requires Invariant(s) && id in s.accounts && RowShape(row) && row.status != Active
    requires row.ref.None? || row.ref == s.accounts[id].ref
    requires row.user == s.accounts[id].user && row.provider == s.accounts[id].provider && row.external == s.accounts[id].external
    ensures Invariant(s.(accounts := s.accounts[id := row]))
  {
  }

  lemma MarkReauthKeepsInvariant(s: State, account: Uuid, user: Uuid)
    requires Invariant(s)
    ensures Invariant(MarkReauthStep(s, account, user))
  {
  }

  /** Disconnect bookkeeping never forgets a performed delete. */
  lemma PutDisconnectKeepsInvariant(s: State, d: Uuid, value: Disconnect)
    requires Invariant(s) && DisconnectOk(s.mintedBy, s.callbacks, value)
    requires d in s.disconnects && s.disconnects[d].deleted ==> value.deleted && value.locator == s.disconnects[d].locator
    ensures Invariant(PutDisconnect(s, d, value))
  {
    var t := PutDisconnect(s, d, value);
    forall l | DeletedByDisconnect(s.disconnects, l) ensures DeletedByDisconnect(t.disconnects, l) {
      var k :| k in s.disconnects && s.disconnects[k].locator == Some(l) && s.disconnects[k].deleted;
      assert t.disconnects[k].locator == Some(l) && t.disconnects[k].deleted;
    }
    BackingSurvives(s, t);
  }

  lemma DisconnectReadsKeepInvariant(s: State, d: Uuid, user: Uuid, account: Uuid, ok: bool)
    requires Invariant(s)
    ensures Invariant(BeginDisconnectStep(s, d, user, account))
    ensures Invariant(LoadForDisconnectStep(s, d, ok))
  {
    if d !in s.disconnects {
      PutDisconnectKeepsInvariant(s, d, Disconnect(user, account, None, false, DisconnectStarted));
    }
    if AtDisconnect(s, d).DisconnectStarted? {
      var it := s.disconnects[d];
      assert DisconnectOk(s.mintedBy, s.callbacks, it);
      if !ok || !Owned(s.accounts, it.account, it.user) {
        PutDisconnectKeepsInvariant(s, d, it.(phase := DisconnectDone(false)));
      } else {
        PutDisconnectKeepsInvariant(s, d, it.(locator := s.accounts[it.account].ref, phase := AccountLoaded));
      }
    }
  }

  lemma DeleteSecretKeepsInvariant(s: State, d: Uuid, delete: Delete)
    requires Invariant(s)
    ensures Invariant(DeleteSecretStep(s, d, delete))
  {
    if AtDisconnect(s, d).AccountLoaded? {
      var it := s.disconnects[d];
      assert DisconnectOk(s.mintedBy, s.callbacks, it);
      if it.locator.None? {
        PutDisconnectKeepsInvariant(s, d, it.(phase := SecretDeleted));
      } else {
        var gone := delete.Deleted? || delete.gone;
        var value := it.(deleted := gone, phase := if delete.Deleted? then SecretDeleted else DisconnectDone(false));
        PutDisconnectKeepsInvariant(s, d, value);
        var t := PutDisconnect(s, d, value);
        if gone {
          assert t.disconnects[d].deleted;
          RemoveKeepsInvariant(t, it.locator.value);
        }
      }
    }
  }

  lemma MarkDisconnectedKeepsInvariant(s: State, d: Uuid, commit: Commit)
    requires Invariant(s)
    ensures Invariant(MarkDisconnectedStep(s, d, commit))
  {
    if AtDisconnect(s, d).SecretDeleted? {
      var it := s.disconnects[d];
      assert DisconnectOk(s.mintedBy, s.callbacks, it);
      PutDisconnectKeepsInvariant(s, d, it.(phase := DisconnectDone(false)));
      PutDisconnectKeepsInvariant(s, d, it.(phase := DisconnectDone(commit == Committed)));
      if Owned(s.accounts, it.account, it.user) && commit != RolledBack {
        RetireRowKeepsInvariant(PutDisconnect(s, d, it.(phase := DisconnectDone(commit == Committed))), it.account,
                                s.accounts[it.account].(ref := None, status := Disconnected, granted := None));
      }
    }
  }

  lemma AccountStepKeepsInvariant(s: State, e: Event)
    requires Invariant(s) && (e.MarkReauth? || e.BeginDisconnect? || e.LoadForDisconnect? || e.DeleteSecret? || e.MarkDisconnected?)
    ensures Invariant(Step(s, e))
  {
    match e
    case MarkReauth(account, user) => MarkReauthKeepsInvariant(s, account, user);
    case BeginDisconnect(d, user, account) => DisconnectReadsKeepInvariant(s, d, user, account, true);
    case LoadForDisconnect(d, ok) => DisconnectReadsKeepInvariant(s, d, 0, 0, ok);
    case DeleteSecret(d, delete) => DeleteSecretKeepsInvariant(s, d, delete);
    case MarkDisconnected(d, commit) => MarkDisconnectedKeepsInvariant(s, d, commit);
  }

  lemma StepKeepsInvariant(s: State, e: Event)
    requires Invariant(s)
    ensures Invariant(Step(s, e))
  {
    match e
    case BeginCallback(c, purpose, user, provider, external, granted) =>
      BeginKeepsInvariant(s, c, purpose, user, provider, external, granted);
    case StoreCredential(c, l, creation) => StoreKeepsInvariant(s, c, l, creation);
    case FindAccount(c, found, ok) => FindKeepsInvariant(s, c, found, ok);
    case PersistConnect(c, newId, commit) => PersistConnectKeepsInvariant(s, c, newId, commit);
    case LoadTarget(c, ok) => LoadTargetKeepsInvariant(s, c, ok);
    case DeletePrevious(c, delete) => DeletePreviousKeepsInvariant(s, c, delete);
    case RecheckTarget(c, ok) => RecheckKeepsInvariant(s, c, ok);
    case PersistReauthorized(c, commit) => PersistReauthorizedKeepsInvariant(s, c, commit);
    case DeleteOwn(c, delete) => DeleteOwnKeepsInvariant(s, c, delete);
    case _ => AccountStepKeepsInvariant(s, e);
  }

  lemma {:induction false} RunKeepsInvariant(s: State, events: seq<Event>)
    requires Invariant(s)
    ensures Invariant(Run(s, events))
    decreases |events|
  {
    if events != [] {
      StepKeepsInvariant(s, events[0]);
      RunKeepsInvariant(Step(s, events[0]), events[1..]);
    }
  }
}
