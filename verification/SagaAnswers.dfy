/**
 What a whole callback or disconnect that nobody disturbs answers and leaves behind, whichever of its store calls and
 commits fail: for every user, mailbox, grant and account table.
 */
module SagaAnswers {
  import opened Text
  import opened CredentialSaga
  import opened SagaSafety
  import opened SagaResults

  /** A store delete that took the secret out. */
  predicate Gone(delete: Delete) {
    delete == Deleted || delete == DeleteFailed(true)
  }

  /** Since `s` only callback `c`, its secret `l`, the table and the store have changed, to the given values. */
  predicate Left(s: State, t: State, c: Uuid, l: Locator, cb: Callback, accounts: map<Uuid, Account>, present: set<Locator>) {
    t == s.(accounts := accounts, present := present, mintedBy := s.mintedBy[l := c], callbacks := s.callbacks[c := cb])
  }

  /** The exit of a callback that failed with `exit` and then deleted its own secret. */
  function Cleaned(exit: Exit, delete: Delete): Exit {
    if delete == Deleted then exit else ServiceUnavailable
  }

  /** The row an attaching commit writes. */
  function AttachedRow(cb: Callback): Account {
    Account(cb.user, cb.provider, cb.external, cb.loc, Active, Some(cb.granted))
  }

  // ----- the first step of either callback -----

  function BeginAndStore(s: State, c: Uuid, purpose: Purpose, user: Uuid, provider: Provider, external: string,
                         granted: set<Capability>, l: Locator, creation: Creation): State {
    StoreCredentialStep(BeginCallbackStep(s, c, purpose, user, provider, external, granted), c, l, creation)
  }

  /** Without reading nothing is stored; a create that raises ends the callback; otherwise it holds its new secret. */
  lemma StoreAnswers(s: State, c: Uuid, purpose: Purpose, user: Uuid, provider: Provider, external: string,
                     granted: set<Capability>, l: Locator, creation: Creation)
    requires c !in s.callbacks && l !in s.mintedBy && l !in s.lost
    ensures var cb := Callback(purpose, user, provider, external, granted, None, false, false, Exchanged);
      var t := BeginAndStore(s, c, purpose, user, provider, external, granted, l, creation);
      if MailRead !in granted then t == s.(callbacks := s.callbacks[c := cb.(phase := Exited(AuthorizationFailed))])
      else if creation.CreateFailed? then
        t == s.(present := if creation.kept then s.present + {l} else s.present, lost := s.lost + {l},
                callbacks := s.callbacks[c := cb.(phase := Exited(ServiceUnavailable))])
      else Left(s, t, c, l, cb.(loc := Some(l), phase := Stored), s.accounts, s.present + {l})
  {
  }

  /** A callback that owes the deletion of its secret makes it and exits; one that has exited makes no further step. */
  lemma CleanupAnswers(s: State, t: State, c: Uuid, l: Locator, cb: Callback, delete: Delete)
    requires Left(s, t, c, l, cb, t.accounts, t.present) && cb.loc == Some(l)
    requires cb.phase.Compensating? || cb.phase.ConnectReuse? || cb.phase.Exited?
    ensures var u := DeleteOwnStep(t, c, delete);
      match cb.phase
      case Exited(exit) => u == t
      case Compensating(exit) =>
        Left(s, u, c, l, cb.(removed := Gone(delete), phase := Exited(Cleaned(exit, delete))), t.accounts,
             if Gone(delete) then t.present - {l} else t.present)
      case ConnectReuse(id) =>
        Left(s, u, c, l, cb.(removed := Gone(delete), phase := Exited(Cleaned(Reused(id), delete))), t.accounts,
             if Gone(delete) then t.present - {l} else t.present)
  {
  }

  // ----- connecting -----

  /** What the lookup of a connecting callback leads to. */
  function FindPhase(accounts: map<Uuid, Account>, found: Option<Uuid>, ok: bool): Phase
    requires found.Some? ==> found.value in accounts
  {
    if !ok then Compensating(ServiceUnavailable)
    else if found.Some? && accounts[found.value].status == Active then ConnectReuse(found.value)
    else ConnectFound(found)
  }

  lemma FindAnswers(s: State, t: State, c: Uuid, l: Locator, cb: Callback, found: Option<Uuid>, ok: bool)
    requires Left(s, t, c, l, cb, t.accounts, t.present) && cb.phase == Stored && cb.purpose == Connect
    requires FindMatches(t.accounts, cb.user, cb.provider, cb.external, found)
    ensures Left(s, FindAccountStep(t, c, found, ok), c, l, cb.(phase := FindPhase(t.accounts, found, ok)), t.accounts, t.present)
  {
  }

  /** The commit of a connecting callback writes its whole row, over the row of the same mailbox or as a new one. */
  lemma ConnectCommitAnswers(s: State, t: State, c: Uuid, l: Locator, cb: Callback, found: Option<Uuid>, newId: Uuid, commit: Commit)
    requires Left(s, t, c, l, cb, t.accounts, t.present) && cb.phase == ConnectFound(found) && cb.loc == Some(l)
    requires FindMatches(t.accounts, cb.user, cb.provider, cb.external, found) && newId !in t.accounts
    requires found.Some? ==> t.accounts[found.value].status != Active
    ensures var id := if found.Some? then found.value else newId;
      var u := PersistConnectStep(t, c, newId, commit);
      Left(s, u, c, l,
           cb.(wrote := if commit == RolledBack then cb.wrote else true,
               phase := if commit == Committed then Exited(Attached(id)) else Compensating(ServiceUnavailable)),
           if commit == RolledBack then t.accounts else t.accounts[id := AttachedRow(cb)], t.present)
  {
  }

  function ConnectOf(s: State, c: Uuid, user: Uuid, provider: Provider, external: string, granted: set<Capability>, l: Locator,
                     found: Option<Uuid>, ok: bool, newId: Uuid, commit: Commit, delete: Delete): State {
    DeleteOwnStep(
      PersistConnectStep(
        FindAccountStep(BeginAndStore(s, c, Connect, user, provider, external, granted, l, Created), c, found, ok),
        c, newId, commit),
      c, delete)
  }

  /** What the callback reports. */
  function ConnectExit(accounts: map<Uuid, Account>, granted: set<Capability>, found: Option<Uuid>, ok: bool, newId: Uuid,
                       commit: Commit, delete: Delete): Exit
    requires found.Some? ==> found.value in accounts
  {
    if MailRead !in granted then AuthorizationFailed
    else if !ok then ServiceUnavailable
    else if found.Some? && accounts[found.value].status == Active then Cleaned(Reused(found.value), delete)
    else if commit != Committed then ServiceUnavailable
    else Attached(if found.Some? then found.value else newId)
  }

  /** It writes a row exactly when it may read, the mailbox has no ACTIVE row, and the commit is applied. */
  predicate ConnectWrites(accounts: map<Uuid, Account>, granted: set<Capability>, found: Option<Uuid>, ok: bool, commit: Commit)
    requires found.Some? ==> found.value in accounts
  {
    MailRead in granted && ok && (found.Some? ==> accounts[found.value].status != Active) && commit != RolledBack
  }

  lemma FoundConnectAnswers(s: State, t: State, c: Uuid, l: Locator, cb: Callback, found: Option<Uuid>, ok: bool, newId: Uuid,
                            commit: Commit)
    requires Left(s, t, c, l, cb, t.accounts, t.present) && cb.phase == Stored && cb.purpose == Connect && cb.loc == Some(l)
    requires FindMatches(t.accounts, cb.user, cb.provider, cb.external, found) && newId !in t.accounts && !cb.wrote
    ensures var id := if found.Some? then found.value else newId;
      var u := PersistConnectStep(FindAccountStep(t, c, found, ok), c, newId, commit);
      var reused := ok && found.Some? && t.accounts[found.value].status == Active;
      var writes := ok && !reused && commit != RolledBack;
      Left(s, u, c, l,
           cb.(wrote := writes,
               phase := if reused then ConnectReuse(id)
                        else if ok && commit == Committed then Exited(Attached(id)) else Compensating(ServiceUnavailable)),
           if writes then t.accounts[id := AttachedRow(cb)] else t.accounts, t.present)
  {
    FindAnswers(s, t, c, l, cb, found, ok);
    var v := FindAccountStep(t, c, found, ok);
    if ok && !(found.Some? && t.accounts[found.value].status == Active) {
      ConnectCommitAnswers(s, v, c, l, cb.(phase := ConnectFound(found)), found, newId, commit);
    }
  }

  /**
   A whole connecting callback: its exit, the table and the secret store, for every mailbox, grant, lookup, commit and
   cleanup. `found` is the row of that mailbox, if there is one.
   */
  lemma ConnectAnswers(s: State, c: Uuid, user: Uuid, provider: Provider, external: string, granted: set<Capability>, l: Locator,
                       found: Option<Uuid>, ok: bool, newId: Uuid, commit: Commit, delete: Delete)
    requires c !in s.callbacks && l !in s.mintedBy && l !in s.lost && l !in s.present && newId !in s.accounts
    requires FindMatches(s.accounts, user, provider, external, found)
    ensures var t := ConnectOf(s, c, user, provider, external, granted, l, found, ok, newId, commit, delete);
      var exit := ConnectExit(s.accounts, granted, found, ok, newId, commit, delete);
      var row := Account(user, provider, external, Some(l), Active, Some(granted));
      && At(t, c) == Exited(exit)
      && t.accounts == (if ConnectWrites(s.accounts, granted, found, ok, commit)
                        then s.accounts[if found.Some? then found.value else newId := row] else s.accounts)
      && t.present == if MailRead in granted && (exit.Attached? || !Gone(delete)) then s.present + {l} else s.present
  {
    StoreAnswers(s, c, Connect, user, provider, external, granted, l, Created);
    if MailRead in granted {
      var cb := Callback(Connect, user, provider, external, granted, Some(l), false, false, Stored);
      var t := BeginAndStore(s, c, Connect, user, provider, external, granted, l, Created);
      FoundConnectAnswers(s, t, c, l, cb, found, ok, newId, commit);
      var u := PersistConnectStep(FindAccountStep(t, c, found, ok), c, newId, commit);
      CleanupAnswers(s, u, c, l, u.callbacks[c], delete);
      assert s.present + {l} - {l} == s.present;
    } else {
      EndedCallbacksStay(BeginAndStore(s, c, Connect, user, provider, external, granted, l, Created), c, found, ok, newId, commit, delete);
    }
  }

  lemma EndedCallbacksStay(t: State, c: Uuid, found: Option<Uuid>, ok: bool, newId: Uuid, commit: Commit, delete: Delete)
    requires At(t, c).Exited?
    ensures DeleteOwnStep(PersistConnectStep(FindAccountStep(t, c, found, ok), c, newId, commit), c, delete) == t
  {
  }

  // ----- reauthorizing -----

  /** Why a bound account refuses: it must be the user's, of the provider, the very mailbox, and not ACTIVE. */
  function BoundRefusal(accounts: map<Uuid, Account>, id: Uuid, user: Uuid, provider: Provider, external: string): Option<Exit> {
    if id !in accounts || accounts[id].user != user || accounts[id].provider != provider then Some(AuthorizationFailed)
    else if accounts[id].external != external then Some(IdentityMismatch)
    else if accounts[id].status == Active then Some(AccountConflict)
    else None
  }

  /** The first failure of a reauthorization that holds its secret, or None when it commits. */
  function ReauthorizeFailure(accounts: map<Uuid, Account>, id: Uuid, user: Uuid, provider: Provider, external: string,
                              ok: bool, deletePrevious: Delete, okAgain: bool, commit: Commit): Option<Exit> {
    if !ok then Some(ServiceUnavailable)
    else if BoundRefusal(accounts, id, user, provider, external).Some? then BoundRefusal(accounts, id, user, provider, external)
    else if accounts[id].ref.Some? && deletePrevious != Deleted then Some(ServiceUnavailable)
    else if !okAgain || commit != Committed then Some(ServiceUnavailable)
    else None
  }

  /** Whether it gets as far as deleting the previous secret, and as far as its commit. */
  predicate ReachesPrevious(accounts: map<Uuid, Account>, id: Uuid, user: Uuid, provider: Provider, external: string, ok: bool) {
    ok && BoundRefusal(accounts, id, user, provider, external).None?
  }

  predicate ReachesCommit(accounts: map<Uuid, Account>, id: Uuid, user: Uuid, provider: Provider, external: string,
                          ok: bool, deletePrevious: Delete, okAgain: bool) {
    ReauthorizeFailure(accounts, id, user, provider, external, ok, deletePrevious, okAgain, Committed).None?
  }

  lemma LoadAnswers(s: State, t: State, c: Uuid, l: Locator, cb: Callback, id: Uuid, ok: bool)
    requires Left(s, t, c, l, cb, t.accounts, t.present) && cb.phase == Stored && cb.purpose == Reauthorize(id)
    ensures var refusal := BoundRefusal(t.accounts, id, cb.user, cb.provider, cb.external);
      Left(s, LoadTargetStep(t, c, ok), c, l,
           cb.(phase := if !ok then Compensating(ServiceUnavailable)
                        else if refusal.Some? then Compensating(refusal.value) else TargetLoaded(t.accounts[id].ref)),
           t.accounts, t.present)
  {
  }

  lemma PreviousAnswers(s: State, t: State, c: Uuid, l: Locator, cb: Callback, delete: Delete)
    requires Left(s, t, c, l, cb, t.accounts, t.present) && cb.phase.TargetLoaded? && cb.phase.previous != Some(l) && cb.loc == Some(l)
    ensures var previous := cb.phase.previous;
      Left(s, DeletePreviousStep(t, c, delete), c, l,
           cb.(phase := if previous.Some? && delete != Deleted then Compensating(ServiceUnavailable) else PreviousDeleted),
           t.accounts, if previous.Some? && Gone(delete) then t.present - {previous.value} else t.present)
  {
  }

  lemma RecheckAnswers(s: State, t: State, c: Uuid, l: Locator, cb: Callback, id: Uuid, ok: bool)
    requires Left(s, t, c, l, cb, t.accounts, t.present) && cb.phase == PreviousDeleted && cb.purpose == Reauthorize(id)
    ensures var refusal := BoundRefusal(t.accounts, id, cb.user, cb.provider, cb.external);
      Left(s, RecheckTargetStep(t, c, ok), c, l,
           cb.(phase := if !ok then Compensating(ServiceUnavailable)
                        else if refusal.Some? then Compensating(refusal.value) else TargetRechecked),
           t.accounts, t.present)
  {
  }

  lemma ReauthorizeCommitAnswers(s: State, t: State, c: Uuid, l: Locator, cb: Callback, id: Uuid, commit: Commit)
    requires Left(s, t, c, l, cb, t.accounts, t.present) && cb.phase == TargetRechecked && cb.purpose == Reauthorize(id)
    requires cb.loc == Some(l) && BoundRefusal(t.accounts, id, cb.user, cb.provider, cb.external).None?
    ensures Left(s, PersistReauthorizedStep(t, c, commit), c, l,
                 cb.(wrote := if commit == RolledBack then cb.wrote else true,
                     phase := if commit == Committed then Exited(Attached(id)) else Compensating(ServiceUnavailable)),
                 if commit == RolledBack then t.accounts else t.accounts[id := AttachedRow(cb)], t.present)
  {
  }

  /** A row that is gone, somebody else's, or ACTIVE by now can no longer be attached to. */
  predicate LostRow(accounts: map<Uuid, Account>, id: Uuid, user: Uuid) {
    id !in accounts || accounts[id].user != user || accounts[id].status == Active
  }

  predicate KeyTaken(accounts: map<Uuid, Account>, cb: Callback, id: Uuid) {
    id in accounts && accounts[id].user == cb.user && accounts[id].provider == cb.provider && accounts[id].external == cb.external
  }

  /** What a callback raises whose row was won by somebody else since it was read: it writes nothing and owes its clean-up. */
  lemma LostRacesAnswer(t: State, c: Uuid, id: Uuid, newId: Uuid, commit: Commit)
    requires c in t.callbacks && t.callbacks[c].loc.Some?
    ensures var cb := t.callbacks[c];
      cb.phase == TargetRechecked && cb.purpose == Reauthorize(id) && LostRow(t.accounts, id, cb.user) ==>
        PersistReauthorizedStep(t, c, commit) == t.(callbacks := t.callbacks[c := cb.(phase := Compensating(AccountConflict))])
    ensures var cb := t.callbacks[c];
      (cb.phase == ConnectFound(Some(id)) && LostRow(t.accounts, id, cb.user))
      || (cb.phase == ConnectFound(None) && KeyTaken(t.accounts, cb, id)) ==>
        PersistConnectStep(t, c, newId, commit) == t.(callbacks := t.callbacks[c := cb.(phase := Compensating(ServiceUnavailable))])
  {
  }

  /** From the stored secret to the end of the commit. */
  function RebindOf(t: State, c: Uuid, ok: bool, deletePrevious: Delete, okAgain: bool, commit: Commit): State {
    PersistReauthorizedStep(RecheckTargetStep(DeletePreviousStep(LoadTargetStep(t, c, ok), c, deletePrevious), c, okAgain), c, commit)
  }

  lemma FailedRebindStays(t: State, c: Uuid, okAgain: bool, commit: Commit)
    requires At(t, c).Compensating? || At(t, c).Exited?
    ensures PersistReauthorizedStep(RecheckTargetStep(t, c, okAgain), c, commit) == t
    ensures forall delete :: DeletePreviousStep(t, c, delete) == t
  {
  }

  lemma RebindAnswers(s: State, t: State, c: Uuid, l: Locator, cb: Callback, id: Uuid, ok: bool, deletePrevious: Delete,
                      okAgain: bool, commit: Commit)
    requires Left(s, t, c, l, cb, t.accounts, t.present) && cb.phase == Stored && cb.purpose == Reauthorize(id)
    requires cb.loc == Some(l) && !cb.wrote && (id in t.accounts ==> t.accounts[id].ref != Some(l))
    ensures var failure := ReauthorizeFailure(t.accounts, id, cb.user, cb.provider, cb.external, ok, deletePrevious, okAgain, commit);
      var reaches := ReachesPrevious(t.accounts, id, cb.user, cb.provider, cb.external, ok);
      var writes := ReachesCommit(t.accounts, id, cb.user, cb.provider, cb.external, ok, deletePrevious, okAgain) && commit != RolledBack;
      Left(s, RebindOf(t, c, ok, deletePrevious, okAgain, commit), c, l,
           cb.(wrote := writes, phase := if failure.None? then Exited(Attached(id)) else Compensating(failure.value)),
           if writes then t.accounts[id := AttachedRow(cb)] else t.accounts,
           if reaches && t.accounts[id].ref.Some? && Gone(deletePrevious) then t.present - {t.accounts[id].ref.value} else t.present)
  {
    var t1 := LoadTargetStep(t, c, ok);
    LoadAnswers(s, t, c, l, cb, id, ok);
    if !ReachesPrevious(t.accounts, id, cb.user, cb.provider, cb.external, ok) {
      FailedRebindStays(t1, c, okAgain, commit);
    } else {
      var cb1 := cb.(phase := TargetLoaded(t.accounts[id].ref));
      var t2 := DeletePreviousStep(t1, c, deletePrevious);
      PreviousAnswers(s, t1, c, l, cb1, deletePrevious);
      if t.accounts[id].ref.Some? && deletePrevious != Deleted {
        FailedRebindStays(t2, c, okAgain, commit);
      } else {
        LateRebindAnswers(s, t2, c, l, cb.(phase := PreviousDeleted), id, okAgain, commit);
      }
    }
  }

  lemma LateRebindAnswers(s: State, t: State, c: Uuid, l: Locator, cb: Callback, id: Uuid, ok: bool, commit: Commit)
    requires Left(s, t, c, l, cb, t.accounts, t.present) && cb.phase == PreviousDeleted && cb.purpose == Reauthorize(id)
    requires cb.loc == Some(l) && !cb.wrote && BoundRefusal(t.accounts, id, cb.user, cb.provider, cb.external).None?
    ensures var writes := ok && commit != RolledBack;
      Left(s, PersistReauthorizedStep(RecheckTargetStep(t, c, ok), c, commit), c, l,
           cb.(wrote := writes, phase := if ok && commit == Committed then Exited(Attached(id)) else Compensating(ServiceUnavailable)),
           if writes then t.accounts[id := AttachedRow(cb)] else t.accounts, t.present)
  {
    RecheckAnswers(s, t, c, l, cb, id, ok);
    if ok { ReauthorizeCommitAnswers(s, RecheckTargetStep(t, c, ok), c, l, cb.(phase := TargetRechecked), id, commit); }
  }

  function ReauthorizeOf(s: State, c: Uuid, id: Uuid, user: Uuid, provider: Provider, external: string, granted: set<Capability>,
                         l: Locator, ok: bool, deletePrevious: Delete, okAgain: bool, commit: Commit, delete: Delete): State {
    DeleteOwnStep(
      RebindOf(BeginAndStore(s, c, Reauthorize(id), user, provider, external, granted, l, Created), c, ok, deletePrevious, okAgain, commit),
      c, delete)
  }

  /**
   A whole reauthorizing callback that may read: its exit, the table and the secret store, for every bound account, mailbox,
   read, deletion and commit. A refused account is left alone with its secret; a failure after the previous secret went
   leaves the row without one.
   */
  lemma ReauthorizeAnswers(s: State, c: Uuid, id: Uuid, user: Uuid, provider: Provider, external: string, granted: set<Capability>,
                           l: Locator, ok: bool, deletePrevious: Delete, okAgain: bool, commit: Commit, delete: Delete)
    requires Reachable(s) && c !in s.callbacks && l !in s.mintedBy && l !in s.lost && MailRead in granted
    ensures var t := ReauthorizeOf(s, c, id, user, provider, external, granted, l, ok, deletePrevious, okAgain, commit, delete);
      var failure := ReauthorizeFailure(s.accounts, id, user, provider, external, ok, deletePrevious, okAgain, commit);
      var writes := ReachesCommit(s.accounts, id, user, provider, external, ok, deletePrevious, okAgain) && commit != RolledBack;
      var dropped := if ReachesPrevious(s.accounts, id, user, provider, external, ok) && s.accounts[id].ref.Some? && Gone(deletePrevious)
                     then {s.accounts[id].ref.value} else {};
      && At(t, c) == Exited(if failure.None? then Attached(id) else Cleaned(failure.value, delete))
      && t.accounts == (if writes then s.accounts[id := Account(user, provider, external, Some(l), Active, Some(granted))] else s.accounts)
      && t.present == s.present - dropped + if failure.None? || !Gone(delete) then {l} else {}
  {
    NewLocatorsAreNew(s, l);
    StoreAnswers(s, c, Reauthorize(id), user, provider, external, granted, l, Created);
    var cb := Callback(Reauthorize(id), user, provider, external, granted, Some(l), false, false, Stored);
    var t := BeginAndStore(s, c, Reauthorize(id), user, provider, external, granted, l, Created);
    RebindAnswers(s, t, c, l, cb, id, ok, deletePrevious, okAgain, commit);
    var u := RebindOf(t, c, ok, deletePrevious, okAgain, commit);
    var dropped := if ReachesPrevious(s.accounts, id, user, provider, external, ok) && s.accounts[id].ref.Some? && Gone(deletePrevious)
                   then {s.accounts[id].ref.value} else {};
    RebindThenCleanup(s, u, c, l, u.callbacks[c], dropped, delete);
  }

  lemma RebindThenCleanup(s: State, u: State, c: Uuid, l: Locator, cb: Callback, dropped: set<Locator>, delete: Delete)
    requires Left(s, u, c, l, cb, u.accounts, u.present) && u.present == s.present + {l} - dropped && cb.loc == Some(l)
    requires l !in s.present && l !in dropped
    requires (cb.phase.Exited? && cb.phase.exit.Attached?) || cb.phase.Compensating?
    ensures var t := DeleteOwnStep(u, c, delete);
      && t.accounts == u.accounts
      && At(t, c) == Exited(if cb.phase.Exited? then cb.phase.exit else Cleaned(cb.phase.raising, delete))
      && t.present == s.present - dropped + if cb.phase.Exited? || !Gone(delete) then {l} else {}
  {
    CleanupAnswers(s, u, c, l, cb, delete);
    assert s.present + {l} - dropped == s.present - dropped + {l};
    assert s.present + {l} - dropped - {l} == s.present - dropped;
  }

  /** A locator that was never handed out is in no row and not in the store. */
  lemma NewLocatorsAreNew(s: State, l: Locator)
    requires Reachable(s) && l !in s.mintedBy && l !in s.lost
    ensures l !in s.present && forall id :: id in s.accounts ==> s.accounts[id].ref != Some(l)
  {
    ReachableIsSafe(s);
    var events :| s == Run(Empty(), events);
    RunKeepsOnlyAskedFor(Empty(), events);
  }

  // ----- disconnecting and marking -----

  function DisconnectOf(s: State, d: Uuid, user: Uuid, id: Uuid, ok: bool, delete: Delete, commit: Commit): State {
    MarkDisconnectedStep(DeleteSecretStep(LoadForDisconnectStep(BeginDisconnectStep(s, d, user, id), d, ok), d, delete), d, commit)
  }

  /**
   A whole disconnect: it succeeds exactly for the user's own row when every store call and the commit do; the secret goes
   before the row is cleared, and the row is kept whenever the secret's deletion failed.
   */
  lemma DisconnectAnswers(s: State, d: Uuid, user: Uuid, id: Uuid, ok: bool, delete: Delete, commit: Commit)
    requires d !in s.disconnects
    ensures var t := DisconnectOf(s, d, user, id, ok, delete, commit);
      var found := ok && id in s.accounts && s.accounts[id].user == user;
      var cleared := found && (s.accounts[id].ref.Some? ==> delete == Deleted);
      && AtDisconnect(t, d) == DisconnectDone(cleared && commit == Committed)
      && t.accounts == (if cleared && commit != RolledBack
                        then s.accounts[id := s.accounts[id].(ref := None, status := Disconnected, granted := None)] else s.accounts)
      && t.present == (if found && s.accounts[id].ref.Some? && Gone(delete) then s.present - {s.accounts[id].ref.value} else s.present)
      && t.callbacks == s.callbacks && t.mintedBy == s.mintedBy
  {
    var s2 := LoadForDisconnectStep(BeginDisconnectStep(s, d, user, id), d, ok);
    if ok && id in s.accounts && s.accounts[id].user == user {
      LoadedDisconnectAnswers(s2, d, s2.disconnects[d], delete, commit);
    }
  }

  lemma LoadedDisconnectAnswers(s: State, d: Uuid, it: Disconnect, delete: Delete, commit: Commit)
    requires d in s.disconnects && s.disconnects[d] == it && it.phase == AccountLoaded && !it.deleted
    requires Owned(s.accounts, it.account, it.user) && it.locator == s.accounts[it.account].ref
    ensures var t := MarkDisconnectedStep(DeleteSecretStep(s, d, delete), d, commit);
      var cleared := it.locator.Some? ==> delete == Deleted;
      && AtDisconnect(t, d) == DisconnectDone(cleared && commit == Committed)
      && t.accounts == (if cleared && commit != RolledBack
                        then s.accounts[it.account := s.accounts[it.account].(ref := None, status := Disconnected, granted := None)]
                        else s.accounts)
      && t.present == (if it.locator.Some? && Gone(delete) then s.present - {it.locator.value} else s.present)
      && t.callbacks == s.callbacks && t.mintedBy == s.mintedBy
  {
    DeletedSecretAnswers(s, d, it, delete);
    var t := DeleteSecretStep(s, d, delete);
    if t.disconnects[d].phase == SecretDeleted { ClearedRowAnswers(t, d, t.disconnects[d], commit); }
  }

  lemma DeletedSecretAnswers(s: State, d: Uuid, it: Disconnect, delete: Delete)
    requires d in s.disconnects && s.disconnects[d] == it && it.phase == AccountLoaded && !it.deleted
    ensures var t := DeleteSecretStep(s, d, delete);
      && d in t.disconnects && t == s.(disconnects := s.disconnects[d := t.disconnects[d]], present := t.present)
      && t.disconnects[d].user == it.user && t.disconnects[d].account == it.account
      && t.disconnects[d].phase == (if it.locator.Some? && delete != Deleted then DisconnectDone(false) else SecretDeleted)
      && t.present == if it.locator.Some? && Gone(delete) then s.present - {it.locator.value} else s.present
  {
  }

  lemma ClearedRowAnswers(s: State, d: Uuid, it: Disconnect, commit: Commit)
    requires d in s.disconnects && s.disconnects[d] == it && it.phase == SecretDeleted && Owned(s.accounts, it.account, it.user)
    ensures var t := MarkDisconnectedStep(s, d, commit);
      && AtDisconnect(t, d) == DisconnectDone(commit == Committed)
      && t.accounts == (if commit == RolledBack then s.accounts
                        else s.accounts[it.account := s.accounts[it.account].(ref := None, status := Disconnected, granted := None)])
      && t.present == s.present && t.callbacks == s.callbacks && t.mintedBy == s.mintedBy
  {
  }

  /** A reauthorization mark changes the status of the user's own ACTIVE row and nothing else. */
  lemma MarkAnswers(s: State, account: Uuid, user: Uuid)
    ensures MarkReauthStep(s, account, user) ==
      if account in s.accounts && s.accounts[account].user == user && s.accounts[account].status == Active
      then s.(accounts := s.accounts[account := s.accounts[account].(status := ReauthRequired)]) else s
  {
  }
}
