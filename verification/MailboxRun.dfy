/**
 Consents and the saga in one run over one account table: a callback that has consumed its state exchanges its code, and
 exactly then, if the provider names the mailbox, begins in the saga.
 */
module MailboxRun {
  import opened Text
  import Auth = AuthorizationSessions
  import Saga = CredentialSaga
  import SagaSafety
  import SagaRecords
  import SagaResults

  type Uuid = int

  /** `origin` records which exchange a saga callback began with; nothing reads it. */
  datatype State = State(auth: Auth.State, saga: Saga.State, origin: map<Uuid, nat>)

  /** `named`: the provider answered the exchange with a mailbox and its grants. */
  datatype Event =
    | Consent(step: Auth.Event)
    | Exchange(c: Uuid, named: bool, external: string, granted: set<Saga.Capability>)
    | Mailbox(sagaStep: Saga.Event)

  // ----- one account table -----

  /** What the consent side reads of a row. */
  function RowView(a: Saga.Account): Auth.Account {
    Auth.Account(a.user, a.provider, a.status == Saga.Active)
  }

  predicate SameTable(view: map<Uuid, Auth.Account>, accounts: map<Uuid, Saga.Account>) {
    view.Keys == accounts.Keys && forall id :: id in accounts ==> view[id] == RowView(accounts[id])
  }

  /** How the consent side sees what a saga event did to the table. */
  function Seen(auth: Auth.State, s: Saga.State, e: Saga.Event): Auth.State {
    var t, id := Saga.Step(s, e), SagaRecords.RowWritten(s, e);
    if id.None? || id.value !in t.accounts then auth
    else if id.value in s.accounts then Auth.Step(auth, Auth.SetActive(id.value, t.accounts[id.value].status == Saga.Active))
    else Auth.Step(auth, Auth.AddAccount(id.value, RowView(t.accounts[id.value])))
  }

  // ----- the steps -----

  function MailboxStep(j: State, e: Saga.Event): State {
    if e.BeginCallback? then j else State(Seen(j.auth, j.saga, e), Saga.Step(j.saga, e), j.origin)
  }

  function ConsentStep(j: State, e: Auth.Event): State {
    if e.AddAccount? || e.SetActive? || e.ExchangeCode? then j else j.(auth := Auth.Step(j.auth, e))
  }

  function ExchangeStep(j: State, c: Uuid, named: bool, external: string, granted: set<Saga.Capability>): State {
    if c !in j.auth.callbacks || !j.auth.callbacks[c].Holding? then j else
      var auth := Auth.Step(j.auth, Auth.ExchangeCode(c));
      var n := |j.auth.exchanges|;
      if !named then j.(auth := auth)
      else State(auth, Saga.Step(j.saga, Auth.NextInSaga(auth.exchanges[n], c, external, granted)), j.origin[c := n])
  }

  function Step(j: State, e: Event): State {
    match e
    case Consent(a) => ConsentStep(j, a)
    case Exchange(c, named, external, granted) => ExchangeStep(j, c, named, external, granted)
    case Mailbox(a) => MailboxStep(j, a)
  }

  function Run(j: State, events: seq<Event>): State
    decreases |events|
  {
    if events == [] then j else Run(Step(j, events[0]), events[1..])
  }

  function Empty(ttl: int): State {
    State(Auth.Empty(ttl), Saga.Empty(), map[])
  }

  // ----- every step is a step of both sides -----

  lemma SeenKeepsOtherRows(auth: Auth.State, s: Saga.State, e: Saga.Event, id: Uuid)
    requires SagaRecords.RowWritten(s, e) != Some(id)
    ensures id in Seen(auth, s, e).accounts <==> id in auth.accounts
    ensures id in auth.accounts ==> Seen(auth, s, e).accounts[id] == auth.accounts[id]
  {
  }

  lemma SeenRowIsTheRow(auth: Auth.State, t: Saga.State, id: Uuid, was: bool)
    requires id in t.accounts && (was <==> id in auth.accounts)
    requires was ==> auth.accounts[id].user == t.accounts[id].user && auth.accounts[id].provider == t.accounts[id].provider
    ensures var u := if was then Auth.Step(auth, Auth.SetActive(id, t.accounts[id].status == Saga.Active))
                     else Auth.Step(auth, Auth.AddAccount(id, RowView(t.accounts[id])));
      id in u.accounts && u.accounts[id] == RowView(t.accounts[id])
  {
  }

  lemma SeenIsTheTable(auth: Auth.State, s: Saga.State, e: Saga.Event)
    requires SameTable(auth.accounts, s.accounts)
    ensures SameTable(Seen(auth, s, e).accounts, Saga.Step(s, e).accounts)
  {
    var t, view := Saga.Step(s, e), Seen(auth, s, e).accounts;
    forall id ensures id in view <==> id in t.accounts
              ensures id in t.accounts ==> view[id] == RowView(t.accounts[id])
    {
      if SagaRecords.RowWritten(s, e) != Some(id) {
        SagaRecords.OnlyTheRowWrittenChanges(s, e, id);
        SeenKeepsOtherRows(auth, s, e, id);
      } else {
        if id in s.accounts { SagaResults.RowsKeepTheirKey(s, e, id); }
        if id in t.accounts { SeenRowIsTheRow(auth, t, id, id in s.accounts); }
      }
    }
  }

  lemma SeenChangesOnlyTheTable(auth: Auth.State, s: Saga.State, e: Saga.Event)
    ensures Seen(auth, s, e) == auth.(accounts := Seen(auth, s, e).accounts)
    ensures Auth.Reachable(auth) ==> Auth.Reachable(Seen(auth, s, e))
  {
    var t, id := Saga.Step(s, e), SagaRecords.RowWritten(s, e);
    if Auth.Reachable(auth) && id.Some? && id.value in t.accounts {
      AuthStepsOn(auth, Auth.SetActive(id.value, t.accounts[id.value].status == Saga.Active));
      AuthStepsOn(auth, Auth.AddAccount(id.value, RowView(t.accounts[id.value])));
    }
  }

  lemma {:induction false} AuthRunJoins(s: Auth.State, a: seq<Auth.Event>, e: Auth.Event)
    ensures Auth.Run(s, a + [e]) == Auth.Step(Auth.Run(s, a), e)
    decreases |a|
  {
    if a == [] {
      Auth.RunCons(s, e, []);
      assert a + [e] == [e] + [];
    } else {
      AuthRunJoins(Auth.Step(s, a[0]), a[1..], e);
      assert (a + [e])[0] == a[0] && (a + [e])[1..] == a[1..] + [e];
    }
  }

  lemma AuthStepsOn(s: Auth.State, e: Auth.Event)
    requires Auth.Reachable(s)
    ensures Auth.Reachable(Auth.Step(s, e))
  {
    var events :| s == Auth.Run(Auth.Empty(s.ttl), events);
    AuthRunJoins(Auth.Empty(s.ttl), events, e);
    assert Auth.Step(s, e).ttl == s.ttl;
  }

  // ----- the invariant -----

  /** The saga callback is the one its exchange leads to: same user, provider and account. */
  predicate StemsFrom(cb: Saga.Callback, x: Auth.Exchange, c: Uuid) {
    var next := Auth.NextInSaga(x, c, cb.external, cb.granted);
    cb.user == next.user && cb.provider == next.provider && cb.purpose == next.purpose
  }

  predicate OriginOk(exchanges: seq<Auth.Exchange>, authCallbacks: map<Uuid, Auth.Callback>, callbacks: map<Uuid, Saga.Callback>,
                     origin: map<Uuid, nat>, c: Uuid) {
    c in callbacks ==>
      && c in origin && origin[c] < |exchanges| && StemsFrom(callbacks[c], exchanges[origin[c]], c)
      && c in authCallbacks && authCallbacks[c].Exchanged?
  }

  predicate Apart(callbacks: map<Uuid, Saga.Callback>, origin: map<Uuid, nat>, c: Uuid, d: Uuid) {
    c in callbacks && d in callbacks && c in origin && d in origin && origin[c] == origin[d] ==> c == d
  }

  ghost predicate Origins(j: State) {
    && (forall c :: OriginOk(j.auth.exchanges, j.auth.callbacks, j.saga.callbacks, j.origin, c))
    && (forall c, d :: Apart(j.saga.callbacks, j.origin, c, d))
  }

  ghost predicate Invariant(j: State) {
    Auth.Reachable(j.auth) && SagaResults.Reachable(j.saga) && SameTable(j.auth.accounts, j.saga.accounts) && Origins(j)
  }

  lemma MailboxKeepsInvariant(j: State, e: Saga.Event)
    requires Invariant(j) && !e.BeginCallback?
    ensures Invariant(MailboxStep(j, e))
  {
    SagaRecords.StepsStayReachable(j.saga, e);
    SeenIsTheTable(j.auth, j.saga, e);
    SeenChangesOnlyTheTable(j.auth, j.saga, e);
    var k := MailboxStep(j, e);
    forall c ensures OriginOk(k.auth.exchanges, k.auth.callbacks, k.saga.callbacks, k.origin, c) {
      assert OriginOk(j.auth.exchanges, j.auth.callbacks, j.saga.callbacks, j.origin, c);
      SagaRecords.CallbacksKeepTheirPurpose(j.saga, e, c);
    }
    forall c, d ensures Apart(k.saga.callbacks, k.origin, c, d) {
      assert Apart(j.saga.callbacks, j.origin, c, d);
      SagaRecords.CallbacksKeepTheirPurpose(j.saga, e, c);
      SagaRecords.CallbacksKeepTheirPurpose(j.saga, e, d);
    }
  }

  lemma ConsentsKeepExchanges(s: Auth.State, e: Auth.Event, c: Uuid)
    requires !e.AddAccount? && !e.SetActive? && !e.ExchangeCode?
    ensures var t := Auth.Step(s, e);
      && t.exchanges == s.exchanges && t.accounts == s.accounts
      && (c in s.callbacks ==> c in t.callbacks && t.callbacks[c] == s.callbacks[c])
  {
  }

  lemma ConsentKeepsInvariant(j: State, e: Auth.Event)
    requires Invariant(j)
    ensures Invariant(ConsentStep(j, e))
  {
    if !e.AddAccount? && !e.SetActive? && !e.ExchangeCode? {
      AuthStepsOn(j.auth, e);
      ConsentsKeepExchanges(j.auth, e, 0);
      var k := ConsentStep(j, e);
      forall c ensures OriginOk(k.auth.exchanges, k.auth.callbacks, k.saga.callbacks, k.origin, c) {
        assert OriginOk(j.auth.exchanges, j.auth.callbacks, j.saga.callbacks, j.origin, c);
        ConsentsKeepExchanges(j.auth, e, c);
      }
    }
  }

  /** One more exchange: the older ones stay where they are, and its callback has not begun in the saga. */
  lemma ExchangeGrows(j: State, c: Uuid, d: Uuid)
    requires Invariant(j) && c in j.auth.callbacks && j.auth.callbacks[c].Holding?
    ensures var t, h := Auth.Step(j.auth, Auth.ExchangeCode(c)), j.auth.callbacks[c];
      && t.exchanges == j.auth.exchanges + [Auth.Exchange(h.state, h.code, h.binding, h.verifier)]
      && t.accounts == j.auth.accounts && c !in j.saga.callbacks
      && OriginOk(t.exchanges, t.callbacks, j.saga.callbacks, j.origin, d)
      && c in t.callbacks && t.callbacks[c].Exchanged?
  {
    assert OriginOk(j.auth.exchanges, j.auth.callbacks, j.saga.callbacks, j.origin, c);
    assert OriginOk(j.auth.exchanges, j.auth.callbacks, j.saga.callbacks, j.origin, d);
  }

  lemma ExchangeKeepsInvariant(j: State, c: Uuid, named: bool, external: string, granted: set<Saga.Capability>)
    requires Invariant(j)
    ensures Invariant(ExchangeStep(j, c, named, external, granted))
  {
    if c in j.auth.callbacks && j.auth.callbacks[c].Holding? {
      var n := |j.auth.exchanges|;
      var auth := Auth.Step(j.auth, Auth.ExchangeCode(c));
      AuthStepsOn(j.auth, Auth.ExchangeCode(c));
      ExchangeGrows(j, c, c);
      var begin := Auth.NextInSaga(auth.exchanges[n], c, external, granted);
      SagaRecords.StepsStayReachable(j.saga, begin);
      var k := ExchangeStep(j, c, named, external, granted);
      forall d ensures OriginOk(k.auth.exchanges, k.auth.callbacks, k.saga.callbacks, k.origin, d) {
        ExchangeGrows(j, c, d);
      }
      forall d, e ensures Apart(k.saga.callbacks, k.origin, d, e) {
        assert Apart(j.saga.callbacks, j.origin, d, e);
        assert OriginOk(j.auth.exchanges, j.auth.callbacks, j.saga.callbacks, j.origin, d);
        assert OriginOk(j.auth.exchanges, j.auth.callbacks, j.saga.callbacks, j.origin, e);
      }
    }
  }

  lemma StepKeepsInvariant(j: State, e: Event)
    requires Invariant(j)
    ensures Invariant(Step(j, e))
  {
    match e
    case Consent(a) => ConsentKeepsInvariant(j, a);
    case Exchange(c, named, external, granted) => ExchangeKeepsInvariant(j, c, named, external, granted);
    case Mailbox(a) => if !a.BeginCallback? { MailboxKeepsInvariant(j, a); }
  }

  lemma {:induction false} RunKeepsInvariant(j: State, events: seq<Event>)
    requires Invariant(j)
    ensures Invariant(Run(j, events))
    decreases |events|
  {
    if events != [] {
      StepKeepsInvariant(j, events[0]);
      RunKeepsInvariant(Step(j, events[0]), events[1..]);
    }
  }

  lemma EmptyIsSafe(ttl: int)
    ensures Invariant(Empty(ttl))
  {
    assert Auth.Run(Auth.Empty(ttl), []) == Auth.Empty(ttl);
    assert Saga.Run(Saga.Empty(), []) == Saga.Empty();
  }

  // ----- main results -----

  /** Both halves of a joint run are runs of their own machines, over one account table; all their results carry over. */
  lemma HalvesAreReachable(ttl: int, events: seq<Event>)
    ensures var j := Run(Empty(ttl), events);
      Auth.Reachable(j.auth) && SagaResults.Reachable(j.saga) && SameTable(j.auth.accounts, j.saga.accounts)
  {
    EmptyIsSafe(ttl);
    RunKeepsInvariant(Empty(ttl), events);
  }

  /**
   Every saga callback stems from exactly one code exchange, no two from the same state; that state was generated for the
   user and provider the callback acts for, and the callback reauthorizes exactly the account the consent was bound to.
   */
  lemma CallbacksStemFromOneConsent(ttl: int, events: seq<Event>, c: Uuid, d: Uuid)
    requires c in Run(Empty(ttl), events).saga.callbacks && d in Run(Empty(ttl), events).saga.callbacks
    ensures var j := Run(Empty(ttl), events);
      && c in j.origin && d in j.origin && j.origin[c] < |j.auth.exchanges| && j.origin[d] < |j.auth.exchanges|
      && (c != d ==> j.auth.exchanges[j.origin[c]].state != j.auth.exchanges[j.origin[d]].state)
      && var x, cb := j.auth.exchanges[j.origin[c]], j.saga.callbacks[c];
         && x.state in j.auth.grants && Auth.S256(x.verifier) == j.auth.grants[x.state].challenge
         && var consent := j.auth.grants[x.state].binding;
            && cb.user == consent.user && cb.provider == consent.provider
            && (cb.purpose.Reauthorize? <==> consent.purpose == Auth.Reauthorize)
            && (cb.purpose.Reauthorize? ==> consent.account == Some(cb.purpose.account))
  {
    EmptyIsSafe(ttl);
    RunKeepsInvariant(Empty(ttl), events);
    var j := Run(Empty(ttl), events);
    assert OriginOk(j.auth.exchanges, j.auth.callbacks, j.saga.callbacks, j.origin, c);
    assert OriginOk(j.auth.exchanges, j.auth.callbacks, j.saga.callbacks, j.origin, d);
    assert Apart(j.saga.callbacks, j.origin, c, d);
    Auth.EachStateIsExchangedOnce(j.auth);
    Auth.ExchangesTargetOwnAccounts(j.auth, j.origin[c], c, j.saga.callbacks[c].external, j.saga.callbacks[c].granted);
  }

  /**
   From consent to row: a callback that reports an account reports the consenting user's row at the consented provider,
   and after a reauthorization the very row that the consent was bound to.
   */
  lemma ReportedAccountsWereConsentedTo(ttl: int, events: seq<Event>, c: Uuid, id: Uuid)
    requires var j := Run(Empty(ttl), events);
      c in j.saga.callbacks && (Saga.At(j.saga, c) == Saga.Exited(Saga.Attached(id)) || Saga.At(j.saga, c) == Saga.Exited(Saga.Reused(id)))
    ensures var j := Run(Empty(ttl), events);
      && c in j.origin && j.origin[c] < |j.auth.exchanges| && j.auth.exchanges[j.origin[c]].state in j.auth.grants
      && var consent := j.auth.grants[j.auth.exchanges[j.origin[c]].state].binding;
         && id in j.saga.accounts && j.saga.accounts[id].user == consent.user && j.saga.accounts[id].provider == consent.provider
         && (Saga.At(j.saga, c) == Saga.Exited(Saga.Attached(id)) && consent.purpose == Auth.Reauthorize ==> consent.account == Some(id))
  {
    var j := Run(Empty(ttl), events);
    CallbacksStemFromOneConsent(ttl, events, c, c);
    HalvesAreReachable(ttl, events);
    SagaResults.SuccessNamesTheConsentingMailbox(j.saga, c, id);
  }

  // ----- grants -----

  /** Event `k` is the exchange of callback `c`, and the provider answered it with this mailbox and these grants. */
  predicate AnsweredAt(events: seq<Event>, k: nat, c: Uuid, external: string, granted: set<Saga.Capability>) {
    k < |events| && events[k] == Exchange(c, true, external, granted)
  }

  ghost predicate WasAnswered(events: seq<Event>, callbacks: map<Uuid, Saga.Callback>, c: Uuid) {
    c in callbacks ==> exists k :: AnsweredAt(events, k, c, callbacks[c].external, callbacks[c].granted)
  }

  lemma {:induction false} RunSnoc(j: State, events: seq<Event>, e: Event)
    ensures Run(j, events + [e]) == Step(Run(j, events), e)
    decreases |events|
  {
    if events == [] {
      assert [] + [e] == [e] && [e][1..] == [];
    } else {
      RunSnoc(Step(j, events[0]), events[1..], e);
      assert (events + [e])[0] == events[0] && (events + [e])[1..] == events[1..] + [e];
    }
  }

  lemma AnswerIsKept(events: seq<Event>, e: Event, c: Uuid, external: string, granted: set<Saga.Capability>)
    requires exists k :: AnsweredAt(events, k, c, external, granted)
    ensures exists k :: AnsweredAt(events + [e], k, c, external, granted)
  {
    var k: nat :| AnsweredAt(events, k, c, external, granted);
    assert AnsweredAt(events + [e], k, c, external, granted);
  }

  lemma StepKeepsAnswers(events: seq<Event>, j: State, e: Event, c: Uuid)
    requires forall d :: WasAnswered(events, j.saga.callbacks, d)
    ensures WasAnswered(events + [e], Step(j, e).saga.callbacks, c)
  {
    assert WasAnswered(events, j.saga.callbacks, c);
    var t := Step(j, e);
    if c in t.saga.callbacks {
      if e.Mailbox? && !e.sagaStep.BeginCallback? { SagaRecords.CallbacksKeepTheirPurpose(j.saga, e.sagaStep, c); }
      if c in j.saga.callbacks {
        AnswerIsKept(events, e, c, j.saga.callbacks[c].external, j.saga.callbacks[c].granted);
      } else {
        assert AnsweredAt(events + [e], |events|, c, t.saga.callbacks[c].external, t.saga.callbacks[c].granted);
      }
    }
  }

  lemma {:induction false} RunsAreAnswered(ttl: int, events: seq<Event>, c: Uuid)
    ensures WasAnswered(events, Run(Empty(ttl), events).saga.callbacks, c)
    decreases |events|
  {
    if events != [] {
      var n := |events| - 1;
      forall d ensures WasAnswered(events[..n], Run(Empty(ttl), events[..n]).saga.callbacks, d) { RunsAreAnswered(ttl, events[..n], d); }
      assert events == events[..n] + [events[n]];
      RunSnoc(Empty(ttl), events[..n], events[n]);
      StepKeepsAnswers(events[..n], Run(Empty(ttl), events[..n]), events[n], c);
    }
  }

  /**
   From consent to recorded capabilities: a row that names a secret records exactly the grants, reading among them, and the
   mailbox with which the provider answered one code exchange, and belongs to the user and provider of that consent.
   */
  lemma RecordedCapabilitiesWereConsentedTo(ttl: int, events: seq<Event>, id: Uuid)
    requires id in Run(Empty(ttl), events).saga.accounts && Run(Empty(ttl), events).saga.accounts[id].ref.Some?
    ensures var j := Run(Empty(ttl), events);
      var a := j.saga.accounts[id];
      && a.granted.Some? && Saga.MailRead in a.granted.value
      && a.ref.value in j.saga.mintedBy
      && var c := j.saga.mintedBy[a.ref.value];
         && c in j.origin && j.origin[c] < |j.auth.exchanges| && j.auth.exchanges[j.origin[c]].state in j.auth.grants
         && (exists k :: AnsweredAt(events, k, c, a.external, a.granted.value))
         && var consent := j.auth.grants[j.auth.exchanges[j.origin[c]].state].binding;
            a.user == consent.user && a.provider == consent.provider
  {
    var j := Run(Empty(ttl), events);
    HalvesAreReachable(ttl, events);
    SagaRecords.RecordedCapabilitiesWereGranted(j.saga, id);
    var c := j.saga.mintedBy[j.saga.accounts[id].ref.value];
    CallbacksStemFromOneConsent(ttl, events, c, c);
    RunsAreAnswered(ttl, events, c);
    assert WasAnswered(events, j.saga.callbacks, c);
  }
}
