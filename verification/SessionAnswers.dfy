/** What every call about an authorization session answers, and how long a session lives. */
module SessionAnswers {
  import opened Text
  import opened AuthorizationSessions
  import Saga = CredentialSaga

  // ----- starting -----

  predicate NamesProvider(slug: string, provider: Provider) {
    (Strip(slug) == "gmail" && provider == Saga.Gmail) || (Strip(slug) == "microsoft_graph" && provider == Saga.MicrosoftGraph)
  }

  predicate NamesPurpose(slug: string, purpose: Purpose) {
    || (Strip(slug) == "connect" && purpose == Connect) || (Strip(slug) == "connect_another" && purpose == ConnectAnother)
    || (Strip(slug) == "reauthorize" && purpose == Reauthorize)
  }

  /** The account is the caller's own, at this provider. */
  predicate OwnAt(accounts: map<Uuid, Account>, account: Uuid, user: Uuid, provider: Provider) {
    account in accounts && accounts[account].user == user && accounts[account].provider == provider
  }

  /** What a start with these well-formed words answers. */
  predicate BindingAnswer(s: State, user: Uuid, p: Provider, q: Purpose, account: Option<Uuid>, readable: bool, answer: Starter) {
    && (q != Reauthorize && account.None? ==> answer == Bound(Binding(user, p, q, None)))
    && ((q == Reauthorize) == account.None? ==> answer == StartFailed(SessionInvalid))
    && (q == Reauthorize && account.Some? && !readable ==> answer == StartFailed(Unavailable))
    && (q == Reauthorize && account.Some? && readable ==>
          && (!OwnAt(s.accounts, account.value, user, p) ==> answer == StartFailed(AccountNotFound))
          && (OwnAt(s.accounts, account.value, user, p) && s.accounts[account.value].active ==> answer == StartFailed(AccountConflict))
          && (OwnAt(s.accounts, account.value, user, p) && !s.accounts[account.value].active ==>
                answer == Bound(Binding(user, p, q, account))))
  }

  lemma SlugsAreParsed(provider: string, purpose: string)
    ensures forall p :: NamesProvider(provider, p) <==> ParseProvider(provider) == Some(p)
    ensures forall q :: NamesPurpose(purpose, q) <==> ParsePurpose(purpose) == Some(q)
  {
  }

  lemma BindingAnswers(s: State, user: Uuid, p: Provider, q: Purpose, account: Option<Uuid>, readable: bool)
    ensures BindingAnswer(s, user, p, q, account, readable, BindAccount(s.accounts, user, p, q, account, readable))
  {
  }

  /** What a start is told, by the words of its request. */
  ghost predicate StartAnswer(s: State, user: Uuid, provider: string, purpose: string, account: Option<Uuid>, readable: bool,
                              answer: Starter) {
    && ((forall p :: !NamesProvider(provider, p)) ==> answer == StartFailed(UnsupportedProvider))
    && ((exists p :: NamesProvider(provider, p)) && (forall q :: !NamesPurpose(purpose, q)) ==> answer == StartFailed(SessionInvalid))
    && (forall p, q :: NamesProvider(provider, p) && NamesPurpose(purpose, q) ==>
          BindingAnswer(s, user, p, q, account, readable, answer))
  }

  lemma BindStepAnswers(s: State, k: Uuid, user: Uuid, provider: string, purpose: string, account: Option<Uuid>, readable: bool)
    requires k !in s.starters
    ensures var t := BindStep(s, k, user, provider, purpose, account, readable);
      && k in t.starters && t == s.(starters := s.starters[k := t.starters[k]])
      && StartAnswer(s, user, provider, purpose, account, readable, t.starters[k])
  {
    SlugsAreParsed(provider, purpose);
    var p, q := ParseProvider(provider), ParsePurpose(purpose);
    if p.Some? && q.Some? { BindingAnswers(s, user, p.value, q.value, account, readable); }
  }

  /** What a start is bound to or refused with; nothing but its own answer changes. */
  lemma StartAnswers(s: State, k: Uuid, user: Uuid, provider: string, purpose: string, account: Option<Uuid>, readable: bool)
    requires k !in s.starters
    ensures var t := Step(s, Bind(k, user, provider, purpose, account, readable));
      && k in t.starters && t == s.(starters := s.starters[k := t.starters[k]])
      && StartAnswer(s, user, provider, purpose, account, readable, t.starters[k])
  {
    BindStepAnswers(s, k, user, provider, purpose, account, readable);
  }

  /** The insert stores one unconsumed session living for `ttl`, unless it is rolled back; only an acknowledged one is answered. */
  lemma CreationStoresTheSession(s: State, k: Uuid, state: string, verifier: string, now: Instant, commit: Commit)
    requires k in s.starters && s.starters[k].Bound? && state !in s.grants
    ensures var t := Step(s, CreateSession(k, state, verifier, now, commit));
      var x := Session(s.starters[k].binding, Some(verifier), now, now + s.ttl, None);
      && t.sessions == (if commit == Saga.RolledBack then s.sessions else s.sessions[Sha256(state) := x])
      && k in t.starters && t.starters == s.starters[k := t.starters[k]]
      && (commit == Saga.Committed ==> t.starters[k] == Answered(Started(state, S256(verifier), now + s.ttl)))
      && (commit != Saga.Committed ==> t.starters[k] == StartFailed(Unavailable))
      && t.grants == s.grants[state := Grant(s.starters[k].binding, S256(verifier), now + s.ttl)]
      && t == s.(sessions := t.sessions, starters := t.starters, grants := t.grants)
  {
  }

  // ----- consuming and exchanging -----

  /** A stored session of this provider, not consumed, not expired, with a verifier. */
  predicate Live(s: State, provider: Provider, state: string, now: Instant) {
    && Sha256(state) in s.sessions && s.sessions[Sha256(state)].binding.provider == provider
    && s.sessions[Sha256(state)].consumedAt == None && now < s.sessions[Sha256(state)].expiresAt
    && s.sessions[Sha256(state)].verifier.Some? && s.sessions[Sha256(state)].verifier.value != ""
  }

  /** The callback carries a state, and a code unless the provider reported an error. */
  predicate Complete(state: string, code: string, error: bool) {
    state != "" && (error || code != "")
  }

  /** What a callback answers. A binding that asks for a reauthorization names its account. */
  predicate CallbackAnswer(s: State, provider: Provider, state: string, code: string, error: bool, now: Instant, commit: Commit,
                           answer: Callback) {
    && (!Complete(state, code, error) ==> answer == CallbackFailed(if error then AuthorizationDenied else AuthorizationFailed))
    && (Complete(state, code, error) ==>
          && (commit == Saga.RolledBack ==> answer == CallbackFailed(Unavailable))
          && (commit != Saga.RolledBack && !Live(s, provider, state, now) ==> answer == CallbackFailed(SessionInvalid))
          && (commit == Saga.Unacknowledged && Live(s, provider, state, now) ==> answer == CallbackFailed(Unavailable))
          && (commit == Saga.Committed && Live(s, provider, state, now) ==>
                && (error ==> answer == CallbackFailed(AuthorizationDenied))
                && (!error ==>
                      answer == Holding(state, code, s.sessions[Sha256(state)].binding, s.sessions[Sha256(state)].verifier.value))))
  }

  predicate Consumes(s: State, provider: Provider, state: string, code: string, error: bool, now: Instant, commit: Commit) {
    Complete(state, code, error) && commit != Saga.RolledBack && Live(s, provider, state, now)
  }

  lemma CallbackIsAnswered(s: State, c: Uuid, provider: Provider, state: string, code: string, error: bool, now: Instant, commit: Commit)
    requires c !in s.callbacks
    requires Sha256(state) in s.sessions ==>
      var b := s.sessions[Sha256(state)].binding; b.purpose == Reauthorize ==> b.account.Some?
    ensures var t := ConsumeStep(s, c, provider, state, code, error, now, commit);
      && c in t.callbacks && t.callbacks == s.callbacks[c := t.callbacks[c]]
      && CallbackAnswer(s, provider, state, code, error, now, commit, t.callbacks[c])
  {
  }

  lemma CallbackConsumes(s: State, c: Uuid, provider: Provider, state: string, code: string, error: bool, now: Instant, commit: Commit)
    requires c !in s.callbacks
    ensures var t := ConsumeStep(s, c, provider, state, code, error, now, commit);
      && t == s.(callbacks := t.callbacks, sessions := t.sessions, taken := t.taken)
      && (Consumes(s, provider, state, code, error, now, commit) ==>
            && t.sessions == s.sessions[Sha256(state) := s.sessions[Sha256(state)].(consumedAt := Some(now), verifier := None)]
            && t.taken == s.taken + {state})
      && (!Consumes(s, provider, state, code, error, now, commit) ==> t.sessions == s.sessions && t.taken == s.taken)
  {
  }

  /** What a callback answers; it consumes its session exactly when it is complete and not rolled back over a live one. */
  lemma CallbackAnswers(s: State, c: Uuid, provider: Provider, state: string, code: string, error: bool, now: Instant, commit: Commit)
    requires Reachable(s) && c !in s.callbacks
    ensures var t := Step(s, Consume(c, provider, state, code, error, now, commit));
      && c in t.callbacks && t.callbacks == s.callbacks[c := t.callbacks[c]]
      && CallbackAnswer(s, provider, state, code, error, now, commit, t.callbacks[c])
      && t == s.(callbacks := t.callbacks, sessions := t.sessions, taken := t.taken)
      && (Consumes(s, provider, state, code, error, now, commit) ==>
            && t.sessions == s.sessions[Sha256(state) := s.sessions[Sha256(state)].(consumedAt := Some(now), verifier := None)]
            && t.taken == s.taken + {state})
      && (!Consumes(s, provider, state, code, error, now, commit) ==> t.sessions == s.sessions && t.taken == s.taken)
  {
    ReachableIsSafe(s);
    if Sha256(state) in s.sessions {
      assert SessionOk(s.grants, s.taken, s.ttl, Sha256(state), s.sessions[Sha256(state)]);
      assert BindingOk(s.accounts, s.grants[state].binding);
    }
    CallbackIsAnswered(s, c, provider, state, code, error, now, commit);
    CallbackConsumes(s, c, provider, state, code, error, now, commit);
  }

  /** A holder exchanges what it holds, once; anybody else exchanges nothing. */
  lemma ExchangeAnswers(s: State, c: Uuid)
    ensures var t := Step(s, ExchangeCode(c));
      && (c in s.callbacks && s.callbacks[c].Holding? ==>
            var h := s.callbacks[c];
            && t.exchanges == s.exchanges + [Exchange(h.state, h.code, h.binding, h.verifier)]
            && t == s.(exchanges := t.exchanges, callbacks := s.callbacks[c := Exchanged]))
      && (!(c in s.callbacks && s.callbacks[c].Holding?) ==> t == s)
  {
  }

  // ----- how long a session lives -----

  /** A clean-up deletes exactly the sessions whose expiry is at or before its instant, and touches nothing else. */
  lemma CleanUpDeletesExactlyTheExpired(s: State, before: Instant, commit: Commit)
    ensures var t := Step(s, DeleteExpired(before, commit));
      && t == s.(sessions := t.sessions)
      && (forall d :: d in t.sessions <==> d in s.sessions && (commit == Saga.RolledBack || before < s.sessions[d].expiresAt))
      && (forall d :: d in t.sessions ==> t.sessions[d] == s.sessions[d])
  {
  }

  /** The event neither cleans the session up nor brings its state to a callback. */
  predicate Leaves(e: Event, state: string, expiresAt: Instant) {
    (e.DeleteExpired? ==> e.before < expiresAt) && (e.Consume? ==> e.state != state)
  }

  lemma StepLeavesSession(s: State, e: Event, state: string)
    requires Sha256(state) in s.sessions && state in s.grants && Leaves(e, state, s.sessions[Sha256(state)].expiresAt)
    ensures var t := Step(s, e);
      state in t.grants && Sha256(state) in t.sessions && t.sessions[Sha256(state)] == s.sessions[Sha256(state)]
  {
  }

  /** Whatever else happens, a session that is not brought to a callback stays as it is until a clean-up past its expiry. */
  lemma {:induction false} SessionsLiveUntilUsedOrExpired(s: State, events: seq<Event>, state: string)
    requires Sha256(state) in s.sessions && state in s.grants
    requires forall i :: 0 <= i < |events| ==> Leaves(events[i], state, s.sessions[Sha256(state)].expiresAt)
    ensures var t := Run(s, events);
      state in t.grants && Sha256(state) in t.sessions && t.sessions[Sha256(state)] == s.sessions[Sha256(state)]
    decreases |events|
  {
    if events != [] {
      StepLeavesSession(s, events[0], state);
      SessionsLiveUntilUsedOrExpired(Step(s, events[0]), events[1..], state);
    }
  }

  /** So a live session serves its callback after any such run, and the code is exchanged with the session's verifier. */
  lemma LiveSessionsServeTheirCallback(s: State, events: seq<Event>, c: Uuid, provider: Provider, state: string, code: string, now: Instant)
    requires Reachable(s) && Live(s, provider, state, now) && state != "" && code != ""
    requires forall i :: 0 <= i < |events| ==> Leaves(events[i], state, s.sessions[Sha256(state)].expiresAt)
    requires c !in Run(s, events).callbacks
    ensures var x := s.sessions[Sha256(state)];
      var t := Run(s, events);
      var u := Step(t, Consume(c, provider, state, code, false, now, Saga.Committed));
      Step(u, ExchangeCode(c)).exchanges == t.exchanges + [Exchange(state, code, x.binding, x.verifier.value)]
  {
    ReachableIsSafe(s);
    assert SessionOk(s.grants, s.taken, s.ttl, Sha256(state), s.sessions[Sha256(state)]);
    SessionsLiveUntilUsedOrExpired(s, events, state);
    RunKeepsInvariant(s, events);
    var t := Run(s, events);
    assert BindingOk(t.accounts, t.grants[state].binding);
    assert SessionOk(t.grants, t.taken, t.ttl, Sha256(state), t.sessions[Sha256(state)]);
  }
}
