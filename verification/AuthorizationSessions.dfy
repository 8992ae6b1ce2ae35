/**
 Mailbox authorization sessions: starting a consent, consuming its state once, exchanging the code.

 Starts, callbacks and clean-ups interleave transaction by transaction. SHA-256 and the S256 transformation are
 taken as collision-free, so a digest is represented by what was digested. Random states are never drawn twice.
 */
module AuthorizationSessions {
  import opened Text
  import Saga = CredentialSaga

  type Uuid = int
  type Instant = int
  type Provider = Saga.Provider
  type Commit = Saga.Commit

  datatype Purpose = Connect | ConnectAnother | Reauthorize

  datatype Digest = Sha256(of: string)
  datatype Challenge = S256(verifier: string)

  datatype Account = Account(user: Uuid, provider: Provider, active: bool)

  /** Who consents to what: the part of a session that never changes. */
  datatype Binding = Binding(user: Uuid, provider: Provider, purpose: Purpose, account: Option<Uuid>)

  datatype Session = Session(binding: Binding, verifier: Option<string>, createdAt: Instant, expiresAt: Instant,
                             consumedAt: Option<Instant>)

  /** What the immediate caller of a start is told; the challenge goes to the provider with the raw state. */
  datatype Started = Started(state: string, challenge: Challenge, expiresAt: Instant)

  datatype Failure = UnsupportedProvider | SessionInvalid | AccountNotFound | AccountConflict | Unavailable
                   | AuthorizationDenied | AuthorizationFailed

  datatype Starter = Bound(binding: Binding) | Answered(started: Started) | StartFailed(failure: Failure)

  datatype Callback = Holding(state: string, code: string, binding: Binding, verifier: string)
                    | Exchanged
                    | CallbackFailed(failure: Failure)

  /** One code exchange with the provider. */
  datatype Exchange = Exchange(state: string, code: string, binding: Binding, verifier: string)

  /** What a start generated for one raw state. */
  datatype Grant = Grant(binding: Binding, challenge: Challenge, expiresAt: Instant)

  /**
   The session table is keyed by its unique state hash. `grants` and `taken` record which raw states were generated
   and which of them some transaction has consumed; the service reads neither.
   */
  datatype State = State(
    ttl: int, accounts: map<Uuid, Account>, sessions: map<Digest, Session>, starters: map<Uuid, Starter>,
    callbacks: map<Uuid, Callback>, exchanges: seq<Exchange>, grants: map<string, Grant>, taken: set<string>)

  datatype Event =
    | AddAccount(id: Uuid, record: Account)
    | SetActive(id: Uuid, active: bool)
    | Bind(starter: Uuid, user: Uuid, providerSlug: string, purposeSlug: string, account: Option<Uuid>, readable: bool)
    | CreateSession(starter: Uuid, state: string, verifier: string, now: Instant, commit: Commit)
    | Consume(callback: Uuid, provider: Provider, state: string, code: string, error: bool, now: Instant, commit: Commit)
    | ExchangeCode(callback: Uuid)
    | DeleteExpired(before: Instant, commit: Commit)

  // ----- starting -----

  function ParseProvider(text: string): Option<Provider> {
    if Strip(text) == "gmail" then Some(Saga.Gmail)
    else if Strip(text) == "microsoft_graph" then Some(Saga.MicrosoftGraph) else None
  }

  function ParsePurpose(text: string): Option<Purpose> {
    if Strip(text) == "connect" then Some(Connect)
    else if Strip(text) == "reauthorize" then Some(Reauthorize)
    else if Strip(text) == "connect_another" then Some(ConnectAnother) else None
  }

  /** Only a reauthorization names an account, and it must be the caller's own, of this provider and not ACTIVE. */
  function BindAccount(accounts: map<Uuid, Account>, user: Uuid, provider: Provider, purpose: Purpose,
                       account: Option<Uuid>, readable: bool): Starter {
    if purpose != Reauthorize then
      if account.Some? then StartFailed(SessionInvalid) else Bound(Binding(user, provider, purpose, None))
    else if account.None? then StartFailed(SessionInvalid)
    else if !readable then StartFailed(Unavailable)
    else if account.value !in accounts || accounts[account.value].user != user || accounts[account.value].provider != provider
    then StartFailed(AccountNotFound)
    else if accounts[account.value].active then StartFailed(AccountConflict)
    else Bound(Binding(user, provider, purpose, account))
  }

  function BindStep(s: State, k: Uuid, user: Uuid, provider: string, purpose: string, account: Option<Uuid>, readable: bool): State {
    if k in s.starters then s else
      var answer := match (ParseProvider(provider), ParsePurpose(purpose))
        case (None, _) => StartFailed(UnsupportedProvider)
        case (Some(_), None) => StartFailed(SessionInvalid)
        case (Some(p), Some(q)) => BindAccount(s.accounts, user, p, q, account, readable);
      s.(starters := s.starters[k := answer])
  }

  function CreateSessionStep(s: State, k: Uuid, state: string, verifier: string, now: Instant, commit: Commit): State {
    if k !in s.starters || !s.starters[k].Bound? || state in s.grants then s else
      var binding := s.starters[k].binding;
      var expires := now + s.ttl;
      var answer := if commit == Saga.Committed then Answered(Started(state, S256(verifier), expires)) else StartFailed(Unavailable);
      var t := s.(starters := s.starters[k := answer], grants := s.grants[state := Grant(binding, S256(verifier), expires)]);
      if commit == Saga.RolledBack then t
      else t.(sessions := t.sessions[Sha256(state) := Session(binding, Some(verifier), now, expires, None)])
  }

  // ----- consuming and exchanging -----

  /** The compare-and-set's condition. */
  predicate Consumable(sessions: map<Digest, Session>, provider: Provider, state: string, now: Instant) {
    Sha256(state) in sessions &&
    var x := sessions[Sha256(state)];
    x.binding.provider == provider && x.consumedAt.None? && x.expiresAt > now && x.verifier.Some? && x.verifier.value != ""
  }

  /** The winning transaction marks the session consumed and clears the verifier it hands over. */
  function TakeSession(s: State, state: string, now: Instant): State
    requires Sha256(state) in s.sessions
  {
    var x := s.sessions[Sha256(state)];
    s.(sessions := s.sessions[Sha256(state) := x.(consumedAt := Some(now), verifier := None)], taken := s.taken + {state})
  }

  function EndCallback(s: State, c: Uuid, callback: Callback): State {
    s.(callbacks := s.callbacks[c := callback])
  }

  /** What a callback raises before its state is consumed. */
  function Refusal(sessions: map<Digest, Session>, provider: Provider, state: string, code: string, error: bool, now: Instant,
                   commit: Commit): Option<Failure> {
    if state == "" && error then Some(AuthorizationDenied)
    else if state == "" || (code == "" && !error) then Some(AuthorizationFailed)
    else if commit == Saga.RolledBack then Some(Unavailable)
    else if !Consumable(sessions, provider, state, now) then Some(SessionInvalid)
    else None
  }

  /** What becomes of the callback whose compare-and-set won: only an acknowledged consent goes on to an exchange. */
  function Won(x: Session, state: string, code: string, error: bool, commit: Commit): Callback
    requires x.verifier.Some?
  {
    if commit == Saga.Unacknowledged then CallbackFailed(Unavailable)
    else if error then CallbackFailed(AuthorizationDenied)
    else if x.binding.purpose == Reauthorize && x.binding.account.None? then CallbackFailed(AuthorizationFailed)
    else Holding(state, code, x.binding, x.verifier.value)
  }

  function ConsumeStep(s: State, c: Uuid, provider: Provider, state: string, code: string, error: bool, now: Instant,
                       commit: Commit): State {
    if c in s.callbacks then s else
      match Refusal(s.sessions, provider, state, code, error, now, commit)
      case Some(failure) => EndCallback(s, c, CallbackFailed(failure))
      case None => EndCallback(TakeSession(s, state, now), c, Won(s.sessions[Sha256(state)], state, code, error, commit))
  }

  function ExchangeCodeStep(s: State, c: Uuid): State {
    if c !in s.callbacks || !s.callbacks[c].Holding? then s else
      var h := s.callbacks[c];
      EndCallback(s, c, Exchanged).(exchanges := s.exchanges + [Exchange(h.state, h.code, h.binding, h.verifier)])
  }

  function DeleteExpiredStep(s: State, before: Instant, commit: Commit): State {
    if commit == Saga.RolledBack then s
    else s.(sessions := map d | d in s.sessions && s.sessions[d].expiresAt > before :: s.sessions[d])
  }

  function Step(s: State, e: Event): State {
    match e
    case AddAccount(id, account) => if id in s.accounts then s else s.(accounts := s.accounts[id := account])
    case SetActive(id, active) => if id !in s.accounts then s else s.(accounts := s.accounts[id := s.accounts[id].(active := active)])
    case Bind(k, user, provider, purpose, account, readable) => BindStep(s, k, user, provider, purpose, account, readable)
    case CreateSession(k, state, verifier, now, commit) => CreateSessionStep(s, k, state, verifier, now, commit)
    case Consume(c, provider, state, code, error, now, commit) => ConsumeStep(s, c, provider, state, code, error, now, commit)
    case ExchangeCode(c) => ExchangeCodeStep(s, c)
    case DeleteExpired(before, commit) => DeleteExpiredStep(s, before, commit)
  }

  function Run(s: State, events: seq<Event>): State
    decreases |events|
  {
    if events == [] then s else Run(Step(s, events[0]), events[1..])
  }

  function Empty(ttl: int): State {
    State(ttl, map[], map[], map[], map[], [], map[], {})
  }

  // ----- the invariant -----

  predicate BindingOk(accounts: map<Uuid, Account>, b: Binding) {
    if b.purpose != Reauthorize then b.account.None?
    else b.account.Some? && b.account.value in accounts
         && accounts[b.account.value].user == b.user && accounts[b.account.value].provider == b.provider
  }

  predicate SessionOk(grants: map<string, Grant>, taken: set<string>, ttl: int, d: Digest, x: Session) {
    && d.of in grants && grants[d.of].binding == x.binding && grants[d.of].expiresAt == x.expiresAt == x.createdAt + ttl
    && (x.consumedAt.None? ==> x.verifier.Some? && S256(x.verifier.value) == grants[d.of].challenge && d.of !in taken)
    && (x.consumedAt.Some? ==> x.verifier.None? && d.of in taken && x.consumedAt.value < x.expiresAt)
  }

  predicate UseOk(grants: map<string, Grant>, taken: set<string>, state: string, binding: Binding, verifier: string) {
    state in taken && state in grants && grants[state].binding == binding && grants[state].challenge == S256(verifier)
  }

  ghost predicate Bindings(accounts: map<Uuid, Account>, starters: map<Uuid, Starter>, grants: map<string, Grant>) {
    && (forall k :: k in starters && starters[k].Bound? ==> BindingOk(accounts, starters[k].binding))
    && (forall state :: state in grants ==> BindingOk(accounts, grants[state].binding))
  }

  ghost predicate Sessions(s: State) {
    && (forall d :: d in s.sessions ==> SessionOk(s.grants, s.taken, s.ttl, d, s.sessions[d]))
    && (forall state :: state in s.taken ==> state in s.grants)
  }

  predicate Holds(callbacks: map<Uuid, Callback>, c: Uuid, state: string) {
    c in callbacks && callbacks[c].Holding? && callbacks[c].state == state
  }

  ghost predicate Holders(s: State) {
    && (forall c :: c in s.callbacks && s.callbacks[c].Holding? ==>
          UseOk(s.grants, s.taken, s.callbacks[c].state, s.callbacks[c].binding, s.callbacks[c].verifier))
    && (forall c, d, state :: Holds(s.callbacks, c, state) && Holds(s.callbacks, d, state) ==> c == d)
    && (forall c, i :: 0 <= i < |s.exchanges| ==> !Holds(s.callbacks, c, s.exchanges[i].state))
  }

  ghost predicate Exchanges(s: State) {
    && (forall i :: 0 <= i < |s.exchanges| ==>
          UseOk(s.grants, s.taken, s.exchanges[i].state, s.exchanges[i].binding, s.exchanges[i].verifier))
    && (forall i, j :: 0 <= i < j < |s.exchanges| ==> s.exchanges[i].state != s.exchanges[j].state)
  }

  ghost predicate Invariant(s: State) {
    Bindings(s.accounts, s.starters, s.grants) && Sessions(s) && Holders(s) && Exchanges(s)
  }

  lemma StartKeepsInvariant(s: State, k: Uuid, user: Uuid, provider: string, purpose: string, account: Option<Uuid>, readable: bool)
    requires Invariant(s)
    ensures Invariant(BindStep(s, k, user, provider, purpose, account, readable))
  {
  }

  lemma CreateKeepsInvariant(s: State, k: Uuid, state: string, verifier: string, now: Instant, commit: Commit)
    requires Invariant(s)
    ensures Invariant(CreateSessionStep(s, k, state, verifier, now, commit))
  {
    var t := CreateSessionStep(s, k, state, verifier, now, commit);
    forall d | d in t.sessions ensures SessionOk(t.grants, t.taken, t.ttl, d, t.sessions[d]) {
      assert d in s.sessions ==> SessionOk(s.grants, s.taken, s.ttl, d, s.sessions[d]);
    }
    assert Holders(t) && Exchanges(t);
  }

  /** Ending a callback that holds nothing changes no promise. */
  lemma EndKeepsInvariant(s: State, c: Uuid, callback: Callback)
    requires Invariant(s) && !callback.Holding?
    ensures Invariant(EndCallback(s, c, callback))
  {
    var t := EndCallback(s, c, callback);
    forall a, b, state | Holds(t.callbacks, a, state) && Holds(t.callbacks, b, state) ensures a == b {
      assert Holds(s.callbacks, a, state) && Holds(s.callbacks, b, state);
    }
    forall a, i | 0 <= i < |t.exchanges| ensures !Holds(t.callbacks, a, t.exchanges[i].state) {
      assert !Holds(s.callbacks, a, s.exchanges[i].state);
    }
  }

  /** A consumable state has not been taken, so nobody holds it and nothing was exchanged for it. */
  lemma TakeKeepsInvariant(s: State, provider: Provider, state: string, now: Instant)
    requires Invariant(s) && Consumable(s.sessions, provider, state, now)
    ensures Invariant(TakeSession(s, state, now))
    ensures state !in s.taken && forall c :: !Holds(s.callbacks, c, state)
    ensures forall i :: 0 <= i < |s.exchanges| ==> s.exchanges[i].state != state
  {
  }

  /** The winner of the compare-and-set becomes the only holder of the state. */
  lemma HoldKeepsInvariant(s: State, c: Uuid, h: Callback)
    requires Invariant(s) && h.Holding? && UseOk(s.grants, s.taken, h.state, h.binding, h.verifier)
    requires forall d :: !Holds(s.callbacks, d, h.state)
    requires forall i :: 0 <= i < |s.exchanges| ==> s.exchanges[i].state != h.state
    ensures Invariant(EndCallback(s, c, h))
  {
    var t := EndCallback(s, c, h);
    forall a, b, state | Holds(t.callbacks, a, state) && Holds(t.callbacks, b, state) ensures a == b {
      assert a != c ==> Holds(s.callbacks, a, state);
      assert b != c ==> Holds(s.callbacks, b, state);
    }
    forall a, i | 0 <= i < |t.exchanges| ensures !Holds(t.callbacks, a, t.exchanges[i].state) {
      assert !Holds(s.callbacks, a, s.exchanges[i].state);
    }
  }

  lemma ConsumeKeepsInvariant(s: State, c: Uuid, provider: Provider, state: string, code: string, error: bool, now: Instant, commit: Commit)
    requires Invariant(s)
    ensures Invariant(ConsumeStep(s, c, provider, state, code, error, now, commit))
  {
    var refusal := Refusal(s.sessions, provider, state, code, error, now, commit);
    if refusal.Some? {
      EndKeepsInvariant(s, c, CallbackFailed(refusal.value));
    } else {
      var x := s.sessions[Sha256(state)];
      assert SessionOk(s.grants, s.taken, s.ttl, Sha256(state), x);
      var t, next := TakeSession(s, state, now), Won(x, state, code, error, commit);
      TakeKeepsInvariant(s, provider, state, now);
      if next.Holding? {
        HoldKeepsInvariant(t, c, next);
      } else {
        EndKeepsInvariant(t, c, next);
      }
    }
  }

  lemma ExchangeKeepsInvariant(s: State, c: Uuid)
    requires Invariant(s)
    ensures Invariant(ExchangeCodeStep(s, c))
  {
    if c in s.callbacks && s.callbacks[c].Holding? {
      var h := s.callbacks[c];
      var u := EndCallback(s, c, Exchanged);
      EndKeepsInvariant(s, c, Exchanged);
      var t := ExchangeCodeStep(s, c);
      forall i | 0 <= i < |s.exchanges| ensures s.exchanges[i].state != h.state {
        assert !Holds(s.callbacks, c, s.exchanges[i].state);
      }
      forall a, i | 0 <= i < |t.exchanges| ensures !Holds(t.callbacks, a, t.exchanges[i].state) {
        if i < |s.exchanges| {
          assert !Holds(u.callbacks, a, u.exchanges[i].state);
        } else {
          assert Holds(t.callbacks, a, h.state) ==> Holds(s.callbacks, a, h.state) && Holds(s.callbacks, c, h.state);
        }
      }
    }
  }

  lemma StepKeepsInvariant(s: State, e: Event)
    requires Invariant(s)
    ensures Invariant(Step(s, e))
  {
    match e
    case Bind(k, user, provider, purpose, account, readable) => StartKeepsInvariant(s, k, user, provider, purpose, account, readable);
    case CreateSession(k, state, verifier, now, commit) => CreateKeepsInvariant(s, k, state, verifier, now, commit);
    case Consume(c, provider, state, code, error, now, commit) => ConsumeKeepsInvariant(s, c, provider, state, code, error, now, commit);
    case ExchangeCode(c) => ExchangeKeepsInvariant(s, c);
    case DeleteExpired(before, commit) =>
    case AddAccount(id, account) => AccountsKeepInvariant(s, Step(s, e));
    case SetActive(id, active) => AccountsKeepInvariant(s, Step(s, e));
  }

  predicate SameOwner(accounts: map<Uuid, Account>, next: map<Uuid, Account>, id: Uuid) {
    id in accounts ==> id in next && next[id].user == accounts[id].user && next[id].provider == accounts[id].provider
  }

  /** Accounts may come and change status; they keep their owner and provider. */
  lemma AccountsKeepInvariant(s: State, t: State)
    requires Invariant(s) && t == s.(accounts := t.accounts)
    requires forall id :: SameOwner(s.accounts, t.accounts, id)
    ensures Invariant(t)
  {
    forall b: Binding | BindingOk(s.accounts, b) ensures BindingOk(t.accounts, b) {
      assert b.account.Some? ==> SameOwner(s.accounts, t.accounts, b.account.value);
    }
  }

  lemma {:induction false} RunKeepsInvariant(s: State, events: seq<Event>)
    requires Invariant(s)
    ensures Invariant(Run(s, events))
    decreases |events|
  {
    if events != [] {
      StepKeepsInvariant(s, events[0]);
      RunKeepsInvariant(Step(s, events[0]), events[1..]);
    }
  }

  ghost predicate Reachable(s: State) {
    exists events :: s == Run(Empty(s.ttl), events)
  }

  lemma ReachableIsSafe(s: State)
    requires Reachable(s)
    ensures Invariant(s)
  {
    var events :| s == Run(Empty(s.ttl), events);
    RunKeepsInvariant(Empty(s.ttl), events);
  }

  // ----- main results -----

  /**
   Each authorization state leads to at most one code exchange, and that exchange carries the verifier whose S256
   challenge was generated with the state (sections 4.2 and 4.6 of RFC 7636), for the same user, provider and purpose.
   */
  lemma EachStateIsExchangedOnce(s: State)
    requires Reachable(s)
    ensures forall i, j :: 0 <= i < j < |s.exchanges| ==> s.exchanges[i].state != s.exchanges[j].state
    ensures forall i :: 0 <= i < |s.exchanges| ==>
      var x := s.exchanges[i];
      x.state in s.grants && S256(x.verifier) == s.grants[x.state].challenge && x.binding == s.grants[x.state].binding
  {
    ReachableIsSafe(s);
    forall i | 0 <= i < |s.exchanges|
      ensures var x := s.exchanges[i];
        x.state in s.grants && S256(x.verifier) == s.grants[x.state].challenge && x.binding == s.grants[x.state].binding
    {
      assert UseOk(s.grants, s.taken, s.exchanges[i].state, s.exchanges[i].binding, s.exchanges[i].verifier);
    }
  }

  /** The answer to a start is exactly what was generated: the challenge it sends out is the one exchanges are checked against. */
  lemma AnswersCarryTheGrant(s: State, k: Uuid, state: string, verifier: string, now: Instant, commit: Commit)
    requires k in s.starters && s.starters[k].Bound? && state !in s.grants
    ensures var t := CreateSessionStep(s, k, state, verifier, now, commit);
      && k in t.starters
      && (t.starters[k].Answered? <==> commit == Saga.Committed)
      && (t.starters[k].Answered? ==>
            && state in t.grants && t.starters[k].started.challenge == t.grants[state].challenge
            && t.starters[k].started.expiresAt == t.grants[state].expiresAt == now + s.ttl
            && Consumable(t.sessions, s.starters[k].binding.provider, state, now) == (s.ttl > 0 && verifier != ""))
  {
  }

  /** A consumed state is spent: from then on no callback consumes it again, whatever happens. */
  lemma SpentStatesStaySpent(s: State, events: seq<Event>, state: string, provider: Provider, now: Instant)
    requires Reachable(s) && state in s.taken
    ensures state in Run(s, events).taken
    ensures !Consumable(Run(s, events).sessions, provider, state, now)
  {
    ReachableIsSafe(s);
    RunKeepsInvariant(s, events);
    RunKeepsTaken(s, events, state);
    var t := Run(s, events);
    assert Sha256(state) in t.sessions ==> SessionOk(t.grants, t.taken, t.ttl, Sha256(state), t.sessions[Sha256(state)]);
  }

  lemma {:induction false} RunKeepsTaken(s: State, events: seq<Event>, state: string)
    requires state in s.taken
    ensures state in Run(s, events).taken
    decreases |events|
  {
    if events != [] {
      RunKeepsTaken(Step(s, events[0]), events[1..], state);
    }
  }

  /** After an unacknowledged, denied or failed consumption nobody can exchange the state: it is burned. */
  lemma BurnedStatesAreNeverExchanged(s: State, events: seq<Event>, state: string, i: nat)
    requires Reachable(s) && state in s.taken && (forall c :: !Holds(s.callbacks, c, state)) && i < |Run(s, events).exchanges|
    requires forall k :: 0 <= k < |s.exchanges| ==> s.exchanges[k].state != state
    ensures Run(s, events).exchanges[i].state != state
  {
    ReachableIsSafe(s);
    RunKeepsBurned(s, events, state);
  }

  ghost predicate Burned(s: State, state: string) {
    && state in s.taken && (forall c :: !Holds(s.callbacks, c, state))
    && (forall k :: 0 <= k < |s.exchanges| ==> s.exchanges[k].state != state)
  }

  lemma {:induction false} RunKeepsBurned(s: State, events: seq<Event>, state: string)
    requires Invariant(s) && Burned(s, state)
    ensures Burned(Run(s, events), state)
    decreases |events|
  {
    if events != [] {
      StepKeepsInvariant(s, events[0]);
      StepKeepsBurned(s, events[0], state);
      RunKeepsBurned(Step(s, events[0]), events[1..], state);
    }
  }

  lemma ConsumeKeepsBurned(s: State, c: Uuid, provider: Provider, other: string, code: string, error: bool, now: Instant,
                           commit: Commit, state: string)
    requires Invariant(s) && Burned(s, state)
    ensures Burned(ConsumeStep(s, c, provider, other, code, error, now, commit), state)
  {
    assert Sha256(state) in s.sessions ==> SessionOk(s.grants, s.taken, s.ttl, Sha256(state), s.sessions[Sha256(state)]);
    var t := ConsumeStep(s, c, provider, other, code, error, now, commit);
    var refusal := Refusal(s.sessions, provider, other, code, error, now, commit);
    assert refusal.None? ==> other != state;
    assert t.exchanges == s.exchanges && s.taken <= t.taken;
    forall d ensures !Holds(t.callbacks, d, state) {
      assert !Holds(s.callbacks, d, state);
    }
  }

  lemma ExchangeKeepsBurned(s: State, c: Uuid, state: string)
    requires Burned(s, state)
    ensures Burned(ExchangeCodeStep(s, c), state)
  {
    assert !Holds(s.callbacks, c, state);
    forall d ensures !Holds(ExchangeCodeStep(s, c).callbacks, d, state) {
      assert !Holds(s.callbacks, d, state);
    }
  }

  lemma StepKeepsBurned(s: State, e: Event, state: string)
    requires Invariant(s) && Burned(s, state)
    ensures Burned(Step(s, e), state)
  {
    match e
    case Consume(c, provider, other, code, error, now, commit) =>
      ConsumeKeepsBurned(s, c, provider, other, code, error, now, commit, state);
    case ExchangeCode(c) => ExchangeKeepsBurned(s, c, state);
    case _ => assert Step(s, e).(accounts := s.accounts, sessions := s.sessions, starters := s.starters, grants := s.grants) == s;
  }

  /** A session is consumed only before it expires, and a consumed session keeps no verifier. */
  lemma ConsumedInTimeAndCleared(s: State, d: Digest)
    requires Reachable(s) && d in s.sessions && s.sessions[d].consumedAt.Some?
    ensures s.sessions[d].consumedAt.value < s.sessions[d].createdAt + s.ttl
    ensures s.sessions[d].verifier.None?
  {
    ReachableIsSafe(s);
    assert SessionOk(s.grants, s.taken, s.ttl, d, s.sessions[d]);
  }

  /** How the saga continues after an exchange, once the provider has named the mailbox and its grants. */
  function NextInSaga(x: Exchange, c: Uuid, external: string, granted: set<Saga.Capability>): Saga.Event {
    var purpose := if x.binding.account.Some? then Saga.Reauthorize(x.binding.account.value) else Saga.Connect;
    Saga.BeginCallback(c, purpose, x.binding.user, x.binding.provider, external, granted)
  }

  /**
   The saga callback an exchange leads to acts for the user and provider of the consent; it is a reauthorization exactly
   when the consent was, and then of an account that user owns at that provider.
   */
  lemma ExchangesTargetOwnAccounts(s: State, i: nat, c: Uuid, external: string, granted: set<Saga.Capability>)
    requires Reachable(s) && i < |s.exchanges|
    ensures var x, next := s.exchanges[i], NextInSaga(s.exchanges[i], c, external, granted);
      && x.state in s.grants && next.user == s.grants[x.state].binding.user && next.provider == s.grants[x.state].binding.provider
      && (next.purpose.Reauthorize? <==> s.grants[x.state].binding.purpose == Reauthorize)
      && (next.purpose.Reauthorize? ==>
            && next.purpose.account in s.accounts && s.accounts[next.purpose.account].user == next.user
            && s.accounts[next.purpose.account].provider == next.provider)
  {
    ReachableIsSafe(s);
    assert UseOk(s.grants, s.taken, s.exchanges[i].state, s.exchanges[i].binding, s.exchanges[i].verifier);
    assert BindingOk(s.accounts, s.grants[s.exchanges[i].state].binding);
  }

  /** From the session's creation to its consumption: the callback holds the session's own verifier. */
  lemma TimelyCallbackConsumes(s: State, k: Uuid, c: Uuid, state: string, verifier: string, code: string, now: Instant, later: Instant)
    requires k in s.starters && s.starters[k].Bound? && BindingOk(s.accounts, s.starters[k].binding)
    requires state !in s.grants && c !in s.callbacks
    requires state != "" && code != "" && verifier != "" && later < now + s.ttl
    ensures var b := s.starters[k].binding;
      var t := Step(Step(s, CreateSession(k, state, verifier, now, Saga.Committed)),
                    Consume(c, b.provider, state, code, false, later, Saga.Committed));
      c in t.callbacks && t.callbacks[c] == Holding(state, code, b, verifier) && t.exchanges == s.exchanges
  {
    var b := s.starters[k].binding;
    var s1 := Step(s, CreateSession(k, state, verifier, now, Saga.Committed));
    assert s1.sessions[Sha256(state)] == Session(b, Some(verifier), now, now + s.ttl, None);
  }

  /** A callback in time, at the right provider, with the state just handed out, does exchange its code. */
  lemma TimelyCallbackExchanges(s: State, k: Uuid, c: Uuid, state: string, verifier: string, code: string, now: Instant, later: Instant)
    requires Reachable(s) && k in s.starters && s.starters[k].Bound? && state !in s.grants && c !in s.callbacks
    requires state != "" && code != "" && verifier != "" && later < now + s.ttl
    ensures var b := s.starters[k].binding;
      var t := Run(s, [CreateSession(k, state, verifier, now, Saga.Committed),
                       Consume(c, b.provider, state, code, false, later, Saga.Committed), ExchangeCode(c)]);
      t.exchanges == s.exchanges + [Exchange(state, code, b, verifier)]
  {
    ReachableIsSafe(s);
    var b := s.starters[k].binding;
    var e := [CreateSession(k, state, verifier, now, Saga.Committed),
              Consume(c, b.provider, state, code, false, later, Saga.Committed), ExchangeCode(c)];
    TimelyCallbackConsumes(s, k, c, state, verifier, code, now, later);
    RunCons(s, e[0], [e[1], e[2]]);
    RunCons(Step(s, e[0]), e[1], [e[2]]);
    RunCons(Step(Step(s, e[0]), e[1]), e[2], []);
  }

  lemma RunCons(s: State, e: Event, rest: seq<Event>)
    ensures Run(s, [e] + rest) == Run(Step(s, e), rest)
  {
    assert ([e] + rest)[1..] == rest;
  }

  // ----- the service that changes the table in place -----

  class SessionService {
    const ttl: int
    var accounts: map<Uuid, Account>
    var sessions: map<Digest, Session>
    var starters: map<Uuid, Starter>
    var callbacks: map<Uuid, Callback>
    var exchanges: seq<Exchange>
    var grants: map<string, Grant>
    ghost var taken: set<string>

    ghost function Value(): State
      reads this
    {
      State(ttl, accounts, sessions, starters, callbacks, exchanges, grants, taken)
    }

    constructor (ttl: int)
      requires 60 <= ttl <= 1800
      ensures Value() == Empty(ttl)
    {
      this.ttl := ttl;
      accounts, sessions, starters, callbacks, exchanges, grants, taken := map[], map[], map[], map[], [], map[], {};
    }

    /** `_bind_reauthorize_account`, after the slugs are parsed. */
    method BindStart(k: Uuid, user: Uuid, provider: string, purpose: string, account: Option<Uuid>, readable: bool)
      modifies this`starters
      ensures Value() == Step(old(Value()), Bind(k, user, provider, purpose, account, readable))
    {
      if k in starters { return; }
      var p, q := ParseProvider(provider), ParsePurpose(purpose);
      if p.None? {
        starters := starters[k := StartFailed(UnsupportedProvider)];
      } else if q.None? || (q.value == Reauthorize) == account.None? {
        starters := starters[k := StartFailed(SessionInvalid)];
      } else if q.value == Reauthorize {
        if !readable {
          starters := starters[k := StartFailed(Unavailable)];
        } else if account.value !in accounts || accounts[account.value].user != user || accounts[account.value].provider != p.value {
          starters := starters[k := StartFailed(AccountNotFound)];
        } else if accounts[account.value].active {
          starters := starters[k := StartFailed(AccountConflict)];
        } else {
          starters := starters[k := Bound(Binding(user, p.value, q.value, account))];
        }
      } else {
        starters := starters[k := Bound(Binding(user, p.value, q.value, None))];
      }
    }

    /** The insert of `start_authorization` and what its caller is told. */
    method CreateStarted(k: Uuid, state: string, verifier: string, now: Instant, commit: Commit)
      modifies this`starters, this`sessions, this`grants
      ensures Value() == Step(old(Value()), CreateSession(k, state, verifier, now, commit))
    {
      if k !in starters || !starters[k].Bound? || state in grants { return; }
      var binding := starters[k].binding;
      var expires := now + ttl;
      grants := grants[state := Grant(binding, S256(verifier), expires)];
      if commit != Saga.RolledBack {
        sessions := sessions[Sha256(state) := Session(binding, Some(verifier), now, expires, None)];
      }
      if commit == Saga.Committed {
        starters := starters[k := Answered(Started(state, S256(verifier), expires))];
      } else {
        starters := starters[k := StartFailed(Unavailable)];
      }
    }

    /** `consume_valid`: the conditional update, and the clearing of the verifier it returns. */
    method ConsumeValid(provider: Provider, state: string, now: Instant) returns (won: Option<Session>)
      modifies this`sessions, this`taken
      ensures won.Some? <==> Consumable(old(sessions), provider, state, now)
      ensures won.Some? ==> won.value == old(sessions)[Sha256(state)] && Value() == TakeSession(old(Value()), state, now)
      ensures won.None? ==> Value() == old(Value())
    {
      var hash := Sha256(state);
      if hash !in sessions { return None; }
      var x := sessions[hash];
      if x.binding.provider != provider || x.consumedAt.Some? || x.expiresAt <= now || x.verifier.None? || x.verifier.value == "" {
        return None;
      }
      won := Some(x);
      sessions := sessions[hash := x.(consumedAt := Some(now), verifier := None)];
      taken := taken + {state};
    }

    method End(c: Uuid, callback: Callback)
      modifies this`callbacks
      ensures Value() == EndCallback(old(Value()), c, callback)
    {
      callbacks := callbacks[c := callback];
    }

    /** The first half of `complete_authorization`: refuse, or consume the state before anything leaves the server. */
    method CompleteAuthorization(c: Uuid, provider: Provider, state: string, code: string, error: bool, now: Instant, commit: Commit)
      modifies this`callbacks, this`sessions, this`taken
      ensures Value() == Step(old(Value()), Consume(c, provider, state, code, error, now, commit))
    {
      if c in callbacks { return; }
      if state == "" && error {
        End(c, CallbackFailed(AuthorizationDenied));
      } else if state == "" || (code == "" && !error) {
        End(c, CallbackFailed(AuthorizationFailed));
      } else if commit == Saga.RolledBack {
        End(c, CallbackFailed(Unavailable));
      } else {
        var won := ConsumeValid(provider, state, now);
        if won.None? {
          End(c, CallbackFailed(SessionInvalid));
        } else if commit == Saga.Unacknowledged {
          End(c, CallbackFailed(Unavailable));
        } else if error {
          End(c, CallbackFailed(AuthorizationDenied));
        } else if won.value.binding.purpose == Reauthorize && won.value.binding.account.None? {
          End(c, CallbackFailed(AuthorizationFailed));
        } else {
          End(c, Holding(state, code, won.value.binding, won.value.verifier.value));
        }
      }
    }

    /** The exchange that follows, outside any transaction. */
    method ExchangeAuthorizationCode(c: Uuid)
      modifies this`callbacks, this`exchanges
      ensures Value() == Step(old(Value()), ExchangeCode(c))
    {
      if c !in callbacks || !callbacks[c].Holding? { return; }
      var h := callbacks[c];
      exchanges := exchanges + [Exchange(h.state, h.code, h.binding, h.verifier)];
      End(c, Exchanged);
    }

    method DeleteExpiredSessions(before: Instant, commit: Commit)
      modifies this`sessions
      ensures Value() == Step(old(Value()), DeleteExpired(before, commit))
    {
      if commit == Saga.RolledBack { return; }
      sessions := map d | d in sessions && sessions[d].expiresAt > before :: sessions[d];
    }
  }
}
