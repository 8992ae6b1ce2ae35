/**
 Mailbox credentials: OAuth callbacks, disconnects and reauthorization marks, interleaved store call by store call
 and transaction by transaction. The secret store and the account table are separate and can each fail at any step.

 The Gmail and Microsoft services are the same code; `provider` is the only difference between their callbacks.
 */
module CredentialSaga {
  import opened Text

  type Uuid = int
  type Locator = int

  datatype Provider = Gmail | MicrosoftGraph
  datatype Capability = MailRead | MailSend
  datatype Status = Active | Disconnected | ReauthRequired

  datatype Account = Account(user: Uuid, provider: Provider, external: string, ref: Option<Locator>, status: Status,
                             granted: Option<set<Capability>>)

  /** `Unacknowledged`: the database applied the commit but the caller was told it failed. */
  datatype Commit = Committed | RolledBack | Unacknowledged

  /** A store delete that raises may still have removed the secret. */
  datatype Delete = Deleted | DeleteFailed(gone: bool)

  /** A store create that raises may still have kept the secret. */
  datatype Creation = Created | CreateFailed(kept: bool)

  datatype Purpose = Connect | Reauthorize(account: Uuid)

  datatype Exit = Attached(account: Uuid) | Reused(account: Uuid) | AuthorizationFailed | IdentityMismatch
                | AccountConflict | ServiceUnavailable

  /** Where a callback stands; `Compensating` still owes the deletion of its own credential before it raises. */
  datatype Phase =
    | Exchanged
    | Stored
    | ConnectFound(existing: Option<Uuid>)
    | ConnectReuse(account: Uuid)
    | TargetLoaded(previous: Option<Locator>)
    | PreviousDeleted
    | TargetRechecked
    | Compensating(raising: Exit)
    | Exited(exit: Exit)

  /**
   `loc` is the locator this callback created; `wrote` records that a committed row has carried it, `removed` that the
   callback's own deletion took its secret out of the store.
   */
  datatype Callback = Callback(purpose: Purpose, user: Uuid, provider: Provider, external: string,
                               granted: set<Capability>, loc: Option<Locator>, wrote: bool, removed: bool, phase: Phase)

  datatype DisconnectPhase = DisconnectStarted | AccountLoaded | SecretDeleted | DisconnectDone(ok: bool)

  /** `locator` is what the disconnect read; `deleted` records that its store delete removed that secret. */
  datatype Disconnect = Disconnect(user: Uuid, account: Uuid, locator: Option<Locator>, deleted: bool, phase: DisconnectPhase)

  datatype State = State(
    accounts: map<Uuid, Account>, present: set<Locator>, mintedBy: map<Locator, Uuid>, lost: set<Locator>,
    callbacks: map<Uuid, Callback>, disconnects: map<Uuid, Disconnect>)

  datatype Event =
    | BeginCallback(c: Uuid, purpose: Purpose, user: Uuid, provider: Provider, external: string, granted: set<Capability>)
    | StoreCredential(c: Uuid, l: Locator, creation: Creation)
    | FindAccount(c: Uuid, found: Option<Uuid>, ok: bool)
    | PersistConnect(c: Uuid, newId: Uuid, commit: Commit)
    | LoadTarget(c: Uuid, ok: bool)
    | DeletePrevious(c: Uuid, delete: Delete)
    | RecheckTarget(c: Uuid, ok: bool)
    | PersistReauthorized(c: Uuid, commit: Commit)
    | DeleteOwn(c: Uuid, delete: Delete)
    | MarkReauth(account: Uuid, user: Uuid)
    | BeginDisconnect(d: Uuid, user: Uuid, account: Uuid)
    | LoadForDisconnect(d: Uuid, ok: bool)
    | DeleteSecret(d: Uuid, delete: Delete)
    | MarkDisconnected(d: Uuid, commit: Commit)

  // ----- the account repository contract -----

  predicate Owned(accounts: map<Uuid, Account>, id: Uuid, user: Uuid) {
    id in accounts && accounts[id].user == user
  }

  predicate Reactivatable(a: Account) {
    a.status == Disconnected || a.status == ReauthRequired
  }

  predicate HasKey(a: Account, user: Uuid, provider: Provider, external: string) {
    a.user == user && a.provider == provider && a.external == external
  }

  /** `find_by_owner_provider_external_account`; the answer is unique because the key is. */
  predicate FindMatches(accounts: map<Uuid, Account>, user: Uuid, provider: Provider, external: string, found: Option<Uuid>) {
    match found
    case None => forall id :: id in accounts ==> !HasKey(accounts[id], user, provider, external)
    case Some(id) => id in accounts && HasKey(accounts[id], user, provider, external)
  }

  function NewAccount(cb: Callback): Account {
    Account(cb.user, cb.provider, cb.external, cb.loc, Active, Some(cb.granted))
  }

  // ----- the steps -----

  function At(s: State, c: Uuid): Phase {
    if c in s.callbacks then s.callbacks[c].phase else Exited(AuthorizationFailed)
  }

  function Goto(s: State, c: Uuid, phase: Phase): State
    requires c in s.callbacks
  {
    s.(callbacks := s.callbacks[c := s.callbacks[c].(phase := phase)])
  }

  /** A transaction that writes the callback's locator into row `id`, and how its commit ends. */
  function WriteRow(s: State, c: Uuid, id: Uuid, row: Account, commit: Commit): State
    requires c in s.callbacks
  {
    match commit
    case RolledBack => Goto(s, c, Compensating(ServiceUnavailable))
    case _ =>
      var next := if commit == Committed then Exited(Attached(id)) else Compensating(ServiceUnavailable);
      s.(accounts := s.accounts[id := row], callbacks := s.callbacks[c := s.callbacks[c].(wrote := true, phase := next)])
  }

  function BeginCallbackStep(s: State, c: Uuid, purpose: Purpose, user: Uuid, provider: Provider, external: string,
                             granted: set<Capability>): State {
    if c in s.callbacks then s
    else s.(callbacks := s.callbacks[c := Callback(purpose, user, provider, external, granted, None, false, false, Exchanged)])
  }

  /** Locators are server-generated and never reused. */
  function StoreCredentialStep(s: State, c: Uuid, l: Locator, creation: Creation): State {
    if !At(s, c).Exchanged? || l in s.mintedBy || l in s.lost then s
    else if MailRead !in s.callbacks[c].granted then Goto(s, c, Exited(AuthorizationFailed))
    else match creation
      case Created =>
        s.(present := s.present + {l}, mintedBy := s.mintedBy[l := c],
           callbacks := s.callbacks[c := s.callbacks[c].(loc := Some(l), phase := Stored)])
      case CreateFailed(kept) =>
        Goto(s, c, Exited(ServiceUnavailable)).(present := if kept then s.present + {l} else s.present, lost := s.lost + {l})
  }

  function FindAccountStep(s: State, c: Uuid, found: Option<Uuid>, ok: bool): State {
    if !At(s, c).Stored? || s.callbacks[c].purpose.Reauthorize? then s
    else if !ok then Goto(s, c, Compensating(ServiceUnavailable))
    else if !FindMatches(s.accounts, s.callbacks[c].user, s.callbacks[c].provider, s.callbacks[c].external, found) then s
    else if found.Some? && s.accounts[found.value].status == Active then Goto(s, c, ConnectReuse(found.value))
    else Goto(s, c, ConnectFound(found))
  }

  function PersistConnectStep(s: State, c: Uuid, newId: Uuid, commit: Commit): State {
    if !At(s, c).ConnectFound? || s.callbacks[c].loc.None? then s else
      var cb := s.callbacks[c];
      match cb.phase.existing
      case None =>
        if !FindMatches(s.accounts, cb.user, cb.provider, cb.external, None) then Goto(s, c, Compensating(ServiceUnavailable))
        else if newId in s.accounts then s
        else WriteRow(s, c, newId, NewAccount(cb), commit)
      case Some(id) =>
        if !Owned(s.accounts, id, cb.user) || !Reactivatable(s.accounts[id]) then Goto(s, c, Compensating(ServiceUnavailable))
        else WriteRow(s, c, id, s.accounts[id].(ref := cb.loc, status := Active, granted := Some(cb.granted)), commit)
  }

  /** The identity, provider and status checks a bound account must pass before a reauthorization touches it. */
  function TargetRefusal(accounts: map<Uuid, Account>, id: Uuid, cb: Callback): Option<Exit> {
    if !Owned(accounts, id, cb.user) then Some(AuthorizationFailed)
    else if accounts[id].provider != cb.provider then Some(AuthorizationFailed)
    else if accounts[id].external != cb.external then Some(IdentityMismatch)
    else if !Reactivatable(accounts[id]) then Some(AccountConflict)
    else None
  }

  function LoadTargetStep(s: State, c: Uuid, ok: bool): State {
    if !At(s, c).Stored? || !s.callbacks[c].purpose.Reauthorize? then s
    else if !ok then Goto(s, c, Compensating(ServiceUnavailable)) else
      var id := s.callbacks[c].purpose.account;
      match TargetRefusal(s.accounts, id, s.callbacks[c])
      case Some(exit) => Goto(s, c, Compensating(exit))
      case None => Goto(s, c, TargetLoaded(s.accounts[id].ref))
  }

  function DeletePreviousStep(s: State, c: Uuid, delete: Delete): State {
    if !At(s, c).TargetLoaded? then s else
      var previous := s.callbacks[c].phase.previous;
      if previous.None? || previous == s.callbacks[c].loc then Goto(s, c, PreviousDeleted)
      else match delete
        case Deleted => Goto(s, c, PreviousDeleted).(present := s.present - {previous.value})
        case DeleteFailed(gone) =>
          Goto(s, c, Compensating(ServiceUnavailable)).(present := if gone then s.present - {previous.value} else s.present)
  }

  function RecheckTargetStep(s: State, c: Uuid, ok: bool): State {
    if !At(s, c).PreviousDeleted? || !s.callbacks[c].purpose.Reauthorize? then s
    else if !ok then Goto(s, c, Compensating(ServiceUnavailable)) else
      match TargetRefusal(s.accounts, s.callbacks[c].purpose.account, s.callbacks[c])
      case Some(exit) => Goto(s, c, Compensating(exit))
      case None => Goto(s, c, TargetRechecked)
  }

  function PersistReauthorizedStep(s: State, c: Uuid, commit: Commit): State {
    if !At(s, c).TargetRechecked? || !s.callbacks[c].purpose.Reauthorize? || s.callbacks[c].loc.None? then s else
      var cb := s.callbacks[c];
      var id := cb.purpose.account;
      if !Owned(s.accounts, id, cb.user) || !Reactivatable(s.accounts[id]) then Goto(s, c, Compensating(AccountConflict))
      else WriteRow(s, c, id, s.accounts[id].(ref := cb.loc, status := Active, granted := Some(cb.granted)), commit)
  }

  function EndAfterDelete(s: State, c: Uuid, exit: Exit, gone: bool): State
    requires c in s.callbacks && s.callbacks[c].loc.Some?
  {
    s.(callbacks := s.callbacks[c := s.callbacks[c].(removed := gone, phase := Exited(exit))],
       present := if gone then s.present - {s.callbacks[c].loc.value} else s.present)
  }

  /** The callback deletes the credential it created: after a failure, or because an ACTIVE account was reused. */
  function DeleteOwnStep(s: State, c: Uuid, delete: Delete): State {
    if !(At(s, c).Compensating? || At(s, c).ConnectReuse?) || s.callbacks[c].loc.None? then s else
      var exit := if s.callbacks[c].phase.ConnectReuse? then Reused(s.callbacks[c].phase.account) else s.callbacks[c].phase.raising;
      match delete
      case Deleted => EndAfterDelete(s, c, exit, true)
      case DeleteFailed(gone) => EndAfterDelete(s, c, ServiceUnavailable, gone)
  }

  function MarkReauthStep(s: State, account: Uuid, user: Uuid): State {
    if !Owned(s.accounts, account, user) || s.accounts[account].status != Active then s
    else s.(accounts := s.accounts[account := s.accounts[account].(status := ReauthRequired)])
  }

  function AtDisconnect(s: State, d: Uuid): DisconnectPhase {
    if d in s.disconnects then s.disconnects[d].phase else DisconnectDone(false)
  }

  function PutDisconnect(s: State, d: Uuid, value: Disconnect): State {
    s.(disconnects := s.disconnects[d := value])
  }

  function BeginDisconnectStep(s: State, d: Uuid, user: Uuid, account: Uuid): State {
    if d in s.disconnects then s else PutDisconnect(s, d, Disconnect(user, account, None, false, DisconnectStarted))
  }

  function LoadForDisconnectStep(s: State, d: Uuid, ok: bool): State {
    if !AtDisconnect(s, d).DisconnectStarted? then s else
      var it := s.disconnects[d];
      if !ok || !Owned(s.accounts, it.account, it.user) then PutDisconnect(s, d, it.(phase := DisconnectDone(false)))
      else PutDisconnect(s, d, it.(locator := s.accounts[it.account].ref, phase := AccountLoaded))
  }

  function DeleteSecretStep(s: State, d: Uuid, delete: Delete): State {
    if !AtDisconnect(s, d).AccountLoaded? then s else
      var it := s.disconnects[d];
      if it.locator.None? then PutDisconnect(s, d, it.(phase := SecretDeleted))
      else match delete
        case Deleted =>
          PutDisconnect(s, d, it.(deleted := true, phase := SecretDeleted)).(present := s.present - {it.locator.value})
        case DeleteFailed(gone) =>
          PutDisconnect(s, d, it.(deleted := gone, phase := DisconnectDone(false)))
          .(present := if gone then s.present - {it.locator.value} else s.present)
  }

  function MarkDisconnectedStep(s: State, d: Uuid, commit: Commit): State {
    if !AtDisconnect(s, d).SecretDeleted? then s else
      var it := s.disconnects[d];
      if !Owned(s.accounts, it.account, it.user) || commit == RolledBack
      then PutDisconnect(s, d, it.(phase := DisconnectDone(false)))
      else PutDisconnect(s, d, it.(phase := DisconnectDone(commit == Committed)))
           .(accounts := s.accounts[it.account := s.accounts[it.account].(ref := None, status := Disconnected, granted := None)])
  }

  function Step(s: State, e: Event): State {
    match e
    case BeginCallback(c, purpose, user, provider, external, granted) =>
      BeginCallbackStep(s, c, purpose, user, provider, external, granted)
    case StoreCredential(c, l, creation) => StoreCredentialStep(s, c, l, creation)
    case FindAccount(c, found, ok) => FindAccountStep(s, c, found, ok)
    case PersistConnect(c, newId, commit) => PersistConnectStep(s, c, newId, commit)
    case LoadTarget(c, ok) => LoadTargetStep(s, c, ok)
    case DeletePrevious(c, delete) => DeletePreviousStep(s, c, delete)
    case RecheckTarget(c, ok) => RecheckTargetStep(s, c, ok)
    case PersistReauthorized(c, commit) => PersistReauthorizedStep(s, c, commit)
    case DeleteOwn(c, delete) => DeleteOwnStep(s, c, delete)
    case MarkReauth(account, user) => MarkReauthStep(s, account, user)
    case BeginDisconnect(d, user, account) => BeginDisconnectStep(s, d, user, account)
    case LoadForDisconnect(d, ok) => LoadForDisconnectStep(s, d, ok)
    case DeleteSecret(d, delete) => DeleteSecretStep(s, d, delete)
    case MarkDisconnected(d, commit) => MarkDisconnectedStep(s, d, commit)
  }

  function Run(s: State, events: seq<Event>): State
    decreases |events|
  {
    if events == [] then s else Run(Step(s, events[0]), events[1..])
  }

  function Empty(): State {
    State(map[], {}, map[], {}, map[], map[])
  }
}
