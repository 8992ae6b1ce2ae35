/**
 The mailbox services as code that changes the account table and the secret store in place: each method is one
 store call or one transaction, and is proved to take exactly the step of `CredentialSaga` it stands for.
 */
module MailboxService {
  import opened Text
  import opened CredentialSaga

  class Service {
    var accounts: map<Uuid, Account>
    var present: set<Locator>
    var mintedBy: map<Locator, Uuid>
    var lost: set<Locator>
    var callbacks: map<Uuid, Callback>
    var disconnects: map<Uuid, Disconnect>

    function Value(): State
      reads this
    {
      State(accounts, present, mintedBy, lost, callbacks, disconnects)
    }

    constructor ()
      ensures Value() == Empty()
    {
      accounts, present, mintedBy, lost, callbacks, disconnects := map[], {}, map[], {}, map[], map[];
    }

    method Continue(c: Uuid, phase: Phase)
      requires c in callbacks
      modifies this`callbacks
      ensures Value() == Goto(old(Value()), c, phase)
    {
      callbacks := callbacks[c := callbacks[c].(phase := phase)];
    }

    /** A store delete; what a raised error hides is whether the secret is gone. */
    method DeleteFromStore(l: Locator, delete: Delete) returns (ok: bool)
      modifies this`present
      ensures ok == delete.Deleted?
      ensures present == if ok || delete.gone then old(present) - {l} else old(present)
    {
      ok := delete.Deleted?;
      if ok || delete.gone { present := present - {l}; }
    }

    /** `_store_credential`: only a consent that grants reading is stored. */
    method StoreNewCredential(c: Uuid, l: Locator, creation: Creation)
      modifies this
      ensures Value() == Step(old(Value()), StoreCredential(c, l, creation))
    {
      if c !in callbacks || !callbacks[c].phase.Exchanged? || l in mintedBy || l in lost { return; }
      if MailRead !in callbacks[c].granted {
        Continue(c, Exited(AuthorizationFailed));
      } else if creation.Created? {
        present, mintedBy := present + {l}, mintedBy[l := c];
        callbacks := callbacks[c := callbacks[c].(loc := Some(l), phase := Stored)];
      } else {
        if creation.kept { present := present + {l}; }
        lost := lost + {l};
        Continue(c, Exited(ServiceUnavailable));
      }
    }

    /** `find_by_owner_provider_external_account`. */
    method FindByKey(user: Uuid, provider: Provider, external: string) returns (found: Option<Uuid>)
      ensures FindMatches(accounts, user, provider, external, found)
    {
      if id :| id in accounts && HasKey(accounts[id], user, provider, external) {
        found := Some(id);
      } else {
        found := None;
      }
    }

    /** `_persist_connector_account`, the lookup: an ACTIVE account is reused as it is. */
    method FindExisting(c: Uuid, ok: bool) returns (found: Option<Uuid>)
      modifies this`callbacks
      ensures Value() == Step(old(Value()), FindAccount(c, found, ok))
    {
      found := None;
      if c !in callbacks || !callbacks[c].phase.Stored? || callbacks[c].purpose.Reauthorize? { return; }
      if !ok {
        Continue(c, Compensating(ServiceUnavailable));
        return;
      }
      found := FindByKey(callbacks[c].user, callbacks[c].provider, callbacks[c].external);
      if found.Some? && accounts[found.value].status == Active {
        Continue(c, ConnectReuse(found.value));
      } else {
        Continue(c, ConnectFound(found));
      }
    }

    /** Commit row `id`; a lost acknowledgement leaves the row written and the callback compensating. */
    method CommitRow(c: Uuid, id: Uuid, row: Account, commit: Commit)
      requires c in callbacks
      modifies this`accounts, this`callbacks
      ensures Value() == WriteRow(old(Value()), c, id, row, commit)
    {
      if commit == RolledBack {
        Continue(c, Compensating(ServiceUnavailable));
        return;
      }
      accounts := accounts[id := row];
      var next := if commit == Committed then Exited(Attached(id)) else Compensating(ServiceUnavailable);
      callbacks := callbacks[c := callbacks[c].(wrote := true, phase := next)];
    }

    /** `reactivate_owned`: compare-and-set from DISCONNECTED or REAUTH_REQUIRED. */
    method ReactivateOwned(id: Uuid, user: Uuid, ref: Option<Locator>, granted: set<Capability>) returns (row: Option<Account>)
      ensures row == if Owned(accounts, id, user) && Reactivatable(accounts[id])
                     then Some(accounts[id].(ref := ref, status := Active, granted := Some(granted))) else None
    {
      if id !in accounts || accounts[id].user != user { return None; }
      var stored := accounts[id];
      if stored.status == Active { return None; }
      row := Some(stored.(ref := ref, status := Active, granted := Some(granted)));
    }

    /** `_persist_connector_account`, the write; a unique key violation rolls the insert back. */
    method PersistConnectedAccount(c: Uuid, newId: Uuid, commit: Commit)
      modifies this`accounts, this`callbacks
      ensures Value() == Step(old(Value()), PersistConnect(c, newId, commit))
    {
      if c !in callbacks || !callbacks[c].phase.ConnectFound? || callbacks[c].loc.None? { return; }
      var cb := callbacks[c];
      if cb.phase.existing.None? {
        var duplicate := FindByKey(cb.user, cb.provider, cb.external);
        if duplicate.Some? {
          Continue(c, Compensating(ServiceUnavailable));
        } else if newId !in accounts {
          CommitRow(c, newId, NewAccount(cb), commit);
        }
      } else {
        var id := cb.phase.existing.value;
        var row := ReactivateOwned(id, cb.user, cb.loc, cb.granted);
        if row.None? {
          Continue(c, Compensating(ServiceUnavailable));
        } else {
          CommitRow(c, id, row.value, commit);
        }
      }
    }

    /** The checks of the bound account, in the order they are made. */
    method CheckTarget(c: Uuid) returns (refusal: Option<Exit>)
      requires c in callbacks && callbacks[c].purpose.Reauthorize?
      ensures refusal == TargetRefusal(accounts, callbacks[c].purpose.account, callbacks[c])
    {
      var cb := callbacks[c];
      var id := cb.purpose.account;
      if id !in accounts || accounts[id].user != cb.user { return Some(AuthorizationFailed); }
      var bound := accounts[id];
      if bound.provider != cb.provider { return Some(AuthorizationFailed); }
      if bound.external != cb.external { return Some(IdentityMismatch); }
      if bound.status == Active { return Some(AccountConflict); }
      refusal := None;
    }

    /** `load_reauthorization_target`. */
    method LoadReauthorizationTarget(c: Uuid, ok: bool)
      modifies this`callbacks
      ensures Value() == Step(old(Value()), LoadTarget(c, ok))
    {
      if c !in callbacks || !callbacks[c].phase.Stored? || !callbacks[c].purpose.Reauthorize? { return; }
      if !ok {
        Continue(c, Compensating(ServiceUnavailable));
        return;
      }
      var refusal := CheckTarget(c);
      if refusal.Some? {
        Continue(c, Compensating(refusal.value));
      } else {
        Continue(c, TargetLoaded(accounts[callbacks[c].purpose.account].ref));
      }
    }

    /** The previous credential is deleted before the new one is attached. */
    method DeletePreviousCredential(c: Uuid, delete: Delete)
      modifies this`present, this`callbacks
      ensures Value() == Step(old(Value()), DeletePrevious(c, delete))
    {
      if c !in callbacks || !callbacks[c].phase.TargetLoaded? { return; }
      var previous := callbacks[c].phase.previous;
      if previous.None? || previous == callbacks[c].loc {
        Continue(c, PreviousDeleted);
        return;
      }
      var ok := DeleteFromStore(previous.value, delete);
      Continue(c, if ok then PreviousDeleted else Compensating(ServiceUnavailable));
    }

    /** `persist_reauthorized_connector_account`, the read and its checks. */
    method RecheckReauthorizationTarget(c: Uuid, ok: bool)
      modifies this`callbacks
      ensures Value() == Step(old(Value()), RecheckTarget(c, ok))
    {
      if c !in callbacks || !callbacks[c].phase.PreviousDeleted? || !callbacks[c].purpose.Reauthorize? { return; }
      if !ok {
        Continue(c, Compensating(ServiceUnavailable));
        return;
      }
      var refusal := CheckTarget(c);
      if refusal.Some? {
        Continue(c, Compensating(refusal.value));
      } else {
        Continue(c, TargetRechecked);
      }
    }

    /** `persist_reauthorized_connector_account`, the compare-and-set and its commit. */
    method PersistReauthorizedAccount(c: Uuid, commit: Commit)
      modifies this`accounts, this`callbacks
      ensures Value() == Step(old(Value()), PersistReauthorized(c, commit))
    {
      if c !in callbacks || !callbacks[c].phase.TargetRechecked? || !callbacks[c].purpose.Reauthorize? || callbacks[c].loc.None? {
        return;
      }
      var cb := callbacks[c];
      var row := ReactivateOwned(cb.purpose.account, cb.user, cb.loc, cb.granted);
      if row.None? {
        Continue(c, Compensating(AccountConflict));
      } else {
        CommitRow(c, cb.purpose.account, row.value, commit);
      }
    }

    /** `_compensate_stored_credential` on the callback's own credential. */
    method CompensateStoredCredential(c: Uuid, delete: Delete)
      modifies this`present, this`callbacks
      ensures Value() == Step(old(Value()), DeleteOwn(c, delete))
    {
      if c !in callbacks || callbacks[c].loc.None? { return; }
      var phase := callbacks[c].phase;
      if !phase.Compensating? && !phase.ConnectReuse? { return; }
      var exit := if phase.ConnectReuse? then Reused(phase.account) else phase.raising;
      var ok := DeleteFromStore(callbacks[c].loc.value, delete);
      callbacks := callbacks[c := callbacks[c].(removed := ok || delete.gone, phase := Exited(if ok then exit else ServiceUnavailable))];
    }

    /** `_load_owned` of a disconnect. */
    method LoadOwned(d: Uuid, ok: bool)
      modifies this`disconnects
      ensures Value() == Step(old(Value()), LoadForDisconnect(d, ok))
    {
      if d !in disconnects || !disconnects[d].phase.DisconnectStarted? { return; }
      var it := disconnects[d];
      if !ok || it.account !in accounts || accounts[it.account].user != it.user {
        disconnects := disconnects[d := it.(phase := DisconnectDone(false))];
      } else {
        disconnects := disconnects[d := it.(locator := accounts[it.account].ref, phase := AccountLoaded)];
      }
    }

    /** `_delete_stored_credential`: the secret goes before the row is touched. */
    method DeleteStoredCredential(d: Uuid, delete: Delete)
      modifies this`present, this`disconnects
      ensures Value() == Step(old(Value()), DeleteSecret(d, delete))
    {
      if d !in disconnects || !disconnects[d].phase.AccountLoaded? { return; }
      var it := disconnects[d];
      if it.locator.None? {
        disconnects := disconnects[d := it.(phase := SecretDeleted)];
        return;
      }
      var ok := DeleteFromStore(it.locator.value, delete);
      if ok {
        disconnects := disconnects[d := it.(deleted := true, phase := SecretDeleted)];
      } else {
        disconnects := disconnects[d := it.(deleted := delete.gone, phase := DisconnectDone(false))];
      }
    }

    /** `disconnect_owned` of the repository: whatever locator the row now has is cleared. */
    method DisconnectOwned(d: Uuid, commit: Commit)
      modifies this`accounts, this`disconnects
      ensures Value() == Step(old(Value()), MarkDisconnected(d, commit))
    {
      if d !in disconnects || !disconnects[d].phase.SecretDeleted? { return; }
      var it := disconnects[d];
      if it.account !in accounts || accounts[it.account].user != it.user || commit == RolledBack {
        disconnects := disconnects[d := it.(phase := DisconnectDone(false))];
        return;
      }
      accounts := accounts[it.account := accounts[it.account].(ref := None, status := Disconnected, granted := None)];
      disconnects := disconnects[d := it.(phase := DisconnectDone(commit == Committed))];
    }
  }
}
