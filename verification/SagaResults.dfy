/** What the saga invariant means for users of the mailbox: backed accounts, settled exits, known leaks, right mailbox. */
module SagaResults {
  import opened Text
  import opened CredentialSaga
  import opened SagaSafety

  ghost predicate Reachable(s: State) {
    exists events :: s == Run(Empty(), events)
  }

  lemma ReachableIsSafe(s: State)
    requires Reachable(s)
    ensures Invariant(s)
  {
    var events :| s == Run(Empty(), events);
    RunKeepsInvariant(Empty(), events);
  }

  // ----- which callback a step touches -----

  /** The callback an event steps, if it steps one. */
  function Stepped(e: Event): Option<Uuid> {
    match e
    case BeginCallback(c, _, _, _, _, _) => Some(c)
    case StoreCredential(c, _, _) => Some(c)
    case FindAccount(c, _, _) => Some(c)
    case PersistConnect(c, _, _) => Some(c)
    case LoadTarget(c, _) => Some(c)
    case DeletePrevious(c, _) => Some(c)
    case RecheckTarget(c, _) => Some(c)
    case PersistReauthorized(c, _) => Some(c)
    case DeleteOwn(c, _) => Some(c)
    case _ => None
  }

  /** All callbacks but `c` are the same. */
  ghost predicate OthersSame(s: State, t: State, c: Uuid) {
    forall k :: k != c ==> (k in t.callbacks <==> k in s.callbacks) && (k in s.callbacks ==> t.callbacks[k] == s.callbacks[k])
  }

  lemma ReadsStepOneCallback(s: State, c: Uuid, found: Option<Uuid>, ok: bool, delete: Delete)
    ensures OthersSame(s, FindAccountStep(s, c, found, ok), c) && OthersSame(s, LoadTargetStep(s, c, ok), c)
    ensures OthersSame(s, RecheckTargetStep(s, c, ok), c) && OthersSame(s, DeletePreviousStep(s, c, delete), c)
  {
  }

  lemma EndingsStepOneCallback(s: State, c: Uuid, l: Locator, creation: Creation, delete: Delete)
    ensures OthersSame(s, StoreCredentialStep(s, c, l, creation), c) && OthersSame(s, DeleteOwnStep(s, c, delete), c)
  {
  }

  lemma WritesStepOneCallback(s: State, c: Uuid, newId: Uuid, commit: Commit)
    ensures OthersSame(s, PersistConnectStep(s, c, newId, commit), c) && OthersSame(s, PersistReauthorizedStep(s, c, commit), c)
  {
  }

  lemma OnlySteppedCallbackChanges(s: State, e: Event, c: Uuid)
    requires Stepped(e) != Some(c)
    ensures c in Step(s, e).callbacks <==> c in s.callbacks
    ensures c in s.callbacks ==> Step(s, e).callbacks[c] == s.callbacks[c]
  {
    match e
    case StoreCredential(k, l, creation) => EndingsStepOneCallback(s, k, l, creation, Deleted);
    case FindAccount(k, found, ok) => ReadsStepOneCallback(s, k, found, ok, Deleted);
    case PersistConnect(k, newId, commit) => WritesStepOneCallback(s, k, newId, commit);
    case LoadTarget(k, ok) => ReadsStepOneCallback(s, k, None, ok, Deleted);
    case DeletePrevious(k, delete) => ReadsStepOneCallback(s, k, None, true, delete);
    case RecheckTarget(k, ok) => ReadsStepOneCallback(s, k, None, ok, Deleted);
    case PersistReauthorized(k, commit) => WritesStepOneCallback(s, k, 0, commit);
    case DeleteOwn(k, delete) => EndingsStepOneCallback(s, k, 0, Created, delete);
    case _ =>
  }

  // ----- ACTIVE accounts are backed by a secret -----

  lemma ActiveAccountsAreAccounted(s: State, id: Uuid)
    requires Reachable(s) && id in s.accounts && s.accounts[id].status == Active
    ensures s.accounts[id].ref.Some? && Accounted(s, s.accounts[id].ref.value)
  {
    ReachableIsSafe(s);
  }

  predicate Acknowledged(e: Event) {
    (e.PersistConnect? ==> e.commit != Unacknowledged) && (e.PersistReauthorized? ==> e.commit != Unacknowledged)
  }

  predicate AttachedIfWritten(t: State, c: Uuid) {
    c in t.callbacks && t.callbacks[c].wrote ==> t.callbacks[c].phase.Exited? && t.callbacks[c].phase.exit.Attached?
  }

  ghost predicate WrittenMeansAttached(s: State) {
    forall c :: AttachedIfWritten(s, c)
  }

  lemma ReadsDoNotWrite(s: State, c: Uuid, found: Option<Uuid>, ok: bool, delete: Delete)
    requires c in s.callbacks && (s.callbacks[c].wrote ==> s.callbacks[c].phase.Exited?)
    ensures KeepsWrote(s, FindAccountStep(s, c, found, ok), c) && KeepsWrote(s, LoadTargetStep(s, c, ok), c)
    ensures KeepsWrote(s, DeletePreviousStep(s, c, delete), c) && KeepsWrote(s, RecheckTargetStep(s, c, ok), c)
  {
  }

  lemma EndingsDoNotWrite(s: State, c: Uuid, l: Locator, creation: Creation, delete: Delete)
    requires c in s.callbacks && (s.callbacks[c].wrote ==> s.callbacks[c].phase.Exited?)
    ensures KeepsWrote(s, StoreCredentialStep(s, c, l, creation), c) && KeepsWrote(s, DeleteOwnStep(s, c, delete), c)
  {
  }

  /** The callback's write flag is the same, and if set so is everything else about the callback. */
  predicate KeepsWrote(s: State, t: State, c: Uuid)
    requires c in s.callbacks
  {
    c in t.callbacks && t.callbacks[c].wrote == s.callbacks[c].wrote
    && (s.callbacks[c].wrote ==> t.callbacks[c] == s.callbacks[c])
  }

  lemma AcknowledgedWritesAttach(s: State, c: Uuid, newId: Uuid, commit: Commit)
    requires AttachedIfWritten(s, c) && commit != Unacknowledged
    ensures AttachedIfWritten(PersistConnectStep(s, c, newId, commit), c)
    ensures AttachedIfWritten(PersistReauthorizedStep(s, c, commit), c)
  {
  }

  lemma AcknowledgedStepAttaches(s: State, e: Event, c: Uuid)
    requires AttachedIfWritten(s, c) && Acknowledged(e)
    ensures AttachedIfWritten(Step(s, e), c)
  {
    if Stepped(e) != Some(c) {
      OnlySteppedCallbackChanges(s, e, c);
    } else if c in s.callbacks {
      match e
      case PersistConnect(_, newId, commit) => AcknowledgedWritesAttach(s, c, newId, commit);
      case PersistReauthorized(_, commit) => AcknowledgedWritesAttach(s, c, 0, commit);
      case StoreCredential(_, l, creation) => EndingsDoNotWrite(s, c, l, creation, Deleted);
      case FindAccount(_, found, ok) => ReadsDoNotWrite(s, c, found, ok, Deleted);
      case LoadTarget(_, ok) => ReadsDoNotWrite(s, c, None, ok, Deleted);
      case DeletePrevious(_, delete) => ReadsDoNotWrite(s, c, None, true, delete);
      case RecheckTarget(_, ok) => ReadsDoNotWrite(s, c, None, ok, Deleted);
      case DeleteOwn(_, delete) => EndingsDoNotWrite(s, c, 0, Created, delete);
      case BeginCallback(_, _, _, _, _, _) =>
    }
  }

  lemma {:induction false} AcknowledgedRunsAttach(s: State, events: seq<Event>)
    requires WrittenMeansAttached(s) && forall k :: 0 <= k < |events| ==> Acknowledged(events[k])
    ensures WrittenMeansAttached(Run(s, events))
    decreases |events|
  {
    if events != [] {
      forall c ensures AttachedIfWritten(Step(s, events[0]), c) {
        AcknowledgedStepAttaches(s, events[0], c);
      }
      AcknowledgedRunsAttach(Step(s, events[0]), events[1..]);
    }
  }

  /** When every attaching commit is acknowledged faithfully, only a disconnect can take an ACTIVE account's secret. */
  lemma BackedWhenCommitsAreAcknowledged(events: seq<Event>, id: Uuid)
    requires forall k :: 0 <= k < |events| ==> Acknowledged(events[k])
    requires var s := Run(Empty(), events); id in s.accounts && s.accounts[id].status == Active
    ensures var s := Run(Empty(), events);
      s.accounts[id].ref.Some? && (s.accounts[id].ref.value in s.present || DeletedByDisconnect(s.disconnects, s.accounts[id].ref.value))
  {
    var s := Run(Empty(), events);
    ActiveAccountsAreAccounted(s, id);
    AcknowledgedRunsAttach(Empty(), events);
    var l := s.accounts[id].ref.value;
    AttachedIsNotCompensated(s, l);
  }

  lemma AttachedIsNotCompensated(s: State, l: Locator)
    requires WrittenMeansAttached(s)
    ensures !CompensatedAfterLostAcknowledgement(s.mintedBy, s.callbacks, l)
  {
    if l in s.mintedBy {
      assert AttachedIfWritten(s, s.mintedBy[l]);
    }
  }

  /** The condition is needed: one lost acknowledgement leaves an ACTIVE account without a secret, and no disconnect. */
  lemma LostAcknowledgementUnbacksAnAccount()
    ensures exists events ::
      var s := Run(Empty(), events);
      0 in s.accounts && s.accounts[0].status == Active && s.accounts[0].ref == Some(7) && s.present == {} && s.disconnects == map[]
  {
    var e0 := BeginCallback(1, Connect, 5, Gmail, "box", {MailRead});
    var e1 := StoreCredential(1, 7, Created);
    var e2 := FindAccount(1, None, true);
    var e3 := PersistConnect(1, 0, Unacknowledged);
    var e4 := DeleteOwn(1, Deleted);
    var s1 := Step(Empty(), e0);
    var s2 := Step(s1, e1);
    var s3 := Step(s2, e2);
    var s4 := Step(s3, e3);
    var s5 := Step(s4, e4);
    assert s4.accounts[0].ref == Some(7) && At(s4, 1) == Compensating(ServiceUnavailable);
    assert s5.present == {};
    RunFive(Empty(), e0, e1, e2, e3, e4);
    assert Run(Empty(), [e0, e1, e2, e3, e4]) == s5;
  }

  lemma RunFive(s: State, a: Event, b: Event, c: Event, d: Event, e: Event)
    ensures Run(s, [a, b, c, d, e]) == Step(Step(Step(Step(Step(s, a), b), c), d), e)
  {
    RunCons(s, a, [b, c, d, e]);
    RunCons(Step(s, a), b, [c, d, e]);
    RunCons(Step(Step(s, a), b), c, [d, e]);
    RunCons(Step(Step(Step(s, a), b), c), d, [e]);
    RunCons(Step(Step(Step(Step(s, a), b), c), d), e, []);
  }

  lemma RunCons(s: State, e: Event, rest: seq<Event>)
    ensures Run(s, [e] + rest) == Run(Step(s, e), rest)
  {
  }

  /** A working grant is never swapped: an ACTIVE row's locator only ever changes by being cleared by a disconnect. */
  lemma ActiveCredentialIsNeverSwapped(s: State, e: Event, id: Uuid)
    requires id in s.accounts && s.accounts[id].status == Active
    ensures var t := Step(s, e);
      id in t.accounts
      && (t.accounts[id].ref == s.accounts[id].ref || (e.MarkDisconnected? && t.accounts[id].ref.None?))
  {
    match e
    case PersistConnect(c, newId, commit) => PersistKeepsActive(s, c, newId, commit, id);
    case PersistReauthorized(c, commit) => PersistKeepsActive(s, c, 0, commit, id);
    case MarkDisconnected(d, commit) =>
    case MarkReauth(account, user) =>
    case _ => OnlyFourEventsTouchRows(s, e);
  }

  lemma PersistKeepsActive(s: State, c: Uuid, newId: Uuid, commit: Commit, id: Uuid)
    requires id in s.accounts && s.accounts[id].status == Active
    ensures id in PersistConnectStep(s, c, newId, commit).accounts
    ensures PersistConnectStep(s, c, newId, commit).accounts[id] == s.accounts[id]
    ensures id in PersistReauthorizedStep(s, c, commit).accounts
    ensures PersistReauthorizedStep(s, c, commit).accounts[id] == s.accounts[id]
  {
  }

  lemma OnlyFourEventsTouchRows(s: State, e: Event)
    requires !e.PersistConnect? && !e.PersistReauthorized? && !e.MarkDisconnected? && !e.MarkReauth?
    ensures Step(s, e).accounts == s.accounts
  {
  }

  // ----- every exit settles the callback's own credential -----

  /** The store holds nothing but locators it was asked to create. */
  ghost predicate OnlyAskedFor(s: State) {
    forall l :: l in s.present ==> l in s.mintedBy || l in s.lost
  }

  lemma OnlyAskedForIsKept(s: State, e: Event)
    requires OnlyAskedFor(s)
    ensures OnlyAskedFor(Step(s, e)) && s.lost <= Step(s, e).lost && s.mintedBy.Keys <= Step(s, e).mintedBy.Keys
  {
  }

  lemma {:induction false} RunKeepsOnlyAskedFor(s: State, events: seq<Event>)
    requires OnlyAskedFor(s)
    ensures OnlyAskedFor(Run(s, events))
    decreases |events|
  {
    if events != [] {
      OnlyAskedForIsKept(s, events[0]);
      RunKeepsOnlyAskedFor(Step(s, events[0]), events[1..]);
    }
  }

  /** An exit before anything was minted: without a grant the store is not asked; a failed create may keep the secret. */
  ghost predicate NothingMinted(s: State, t: State, c: Uuid, l: Locator, creation: Creation, exit: Exit)
    requires c in s.callbacks
  {
    && (forall k :: k in t.mintedBy ==> t.mintedBy[k] != c)
    && if MailRead !in s.callbacks[c].granted then exit == AuthorizationFailed && t.present == s.present
       else
         && creation.CreateFailed? && exit == ServiceUnavailable && l !in s.present
         && t.present == if creation.kept then s.present + {l} else s.present
  }

  /** The secret the callback minted: attached and present, or gone unless its deletion failed. */
  predicate Settled(s: State, t: State, e: Event, c: Uuid, exit: Exit) {
    && c in t.callbacks && t.callbacks[c].loc.Some?
    && var l := t.callbacks[c].loc.value;
       && l in t.mintedBy && t.mintedBy[l] == c
       && if exit.Attached? then
            && l in t.present
            && exit.account in t.accounts && t.accounts[exit.account].ref == Some(l) && t.accounts[exit.account].status == Active
          else
            && (l in t.present <==> FailedCleanup(e, c) && l in s.present)
            && (FailedCleanup(e, c) ==> exit == ServiceUnavailable)
  }

  predicate FailedCleanup(e: Event, c: Uuid) {
    e == DeleteOwn(c, DeleteFailed(false))
  }

  /**
   On every exit after its creation, the secret a callback minted is carried by the row the callback reports and present
   in the store, or it is out of the store, except that a failed deletion leaves it as it was and the callback then
   raises ServiceUnavailable. An exit at the creation minted nothing; a creation that raised may have kept its secret,
   and exactly then the store has grown.
   */
  lemma ExitsSettleTheCredential(s: State, e: Event, c: Uuid)
    requires Reachable(s) && c in s.callbacks && !s.callbacks[c].phase.Exited?
    requires At(Step(s, e), c).Exited?
    ensures var t := Step(s, e);
      if e.StoreCredential? then NothingMinted(s, t, c, e.l, e.creation, At(t, c).exit) else Settled(s, t, e, c, At(t, c).exit)
  {
    ReachableIsSafe(s);
    var events :| s == Run(Empty(), events);
    RunKeepsOnlyAskedFor(Empty(), events);
    assert CallbackOk(s.present, s.callbacks[c]);
    if Stepped(e) != Some(c) {
      OnlySteppedCallbackChanges(s, e, c);
    } else {
      match e
      case StoreCredential(_, l, creation) => StoreExitMintsNothing(s, c, l, creation);
      case PersistConnect(_, newId, commit) => ConnectExitIsSettled(s, c, newId, commit);
      case PersistReauthorized(_, commit) => ReauthorizeExitIsSettled(s, c, commit);
      case DeleteOwn(_, delete) => DeleteExitIsSettled(s, c, delete);
      case FindAccount(_, found, ok) => ReadsDoNotExit(s, c, found, ok, Deleted);
      case LoadTarget(_, ok) => ReadsDoNotExit(s, c, None, ok, Deleted);
      case DeletePrevious(_, delete) => ReadsDoNotExit(s, c, None, true, delete);
      case RecheckTarget(_, ok) => ReadsDoNotExit(s, c, None, ok, Deleted);
      case BeginCallback(_, _, _, _, _, _) =>
    }
  }

  lemma ReadsDoNotExit(s: State, c: Uuid, found: Option<Uuid>, ok: bool, delete: Delete)
    requires c in s.callbacks && !s.callbacks[c].phase.Exited?
    ensures !At(FindAccountStep(s, c, found, ok), c).Exited? && !At(LoadTargetStep(s, c, ok), c).Exited?
    ensures !At(DeletePreviousStep(s, c, delete), c).Exited? && !At(RecheckTargetStep(s, c, ok), c).Exited?
  {
  }

  lemma StoreExitMintsNothing(s: State, c: Uuid, l: Locator, creation: Creation)
    requires Invariant(s) && OnlyAskedFor(s) && c in s.callbacks && !s.callbacks[c].phase.Exited?
    ensures var t := StoreCredentialStep(s, c, l, creation);
      At(t, c).Exited? ==> NothingMinted(s, t, c, l, creation, At(t, c).exit)
  {
    assert CallbackOk(s.present, s.callbacks[c]);
  }

  lemma ConnectExitIsSettled(s: State, c: Uuid, newId: Uuid, commit: Commit)
    requires Invariant(s) && c in s.callbacks && !s.callbacks[c].phase.Exited?
    ensures var t := PersistConnectStep(s, c, newId, commit);
      At(t, c).Exited? ==> Settled(s, t, PersistConnect(c, newId, commit), c, At(t, c).exit)
  {
    assert CallbackOk(s.present, s.callbacks[c]);
  }

  lemma ReauthorizeExitIsSettled(s: State, c: Uuid, commit: Commit)
    requires Invariant(s) && c in s.callbacks && !s.callbacks[c].phase.Exited?
    ensures var t := PersistReauthorizedStep(s, c, commit);
      At(t, c).Exited? ==> Settled(s, t, PersistReauthorized(c, commit), c, At(t, c).exit)
  {
    assert CallbackOk(s.present, s.callbacks[c]);
  }

  lemma DeleteExitIsSettled(s: State, c: Uuid, delete: Delete)
    requires Invariant(s) && c in s.callbacks && !s.callbacks[c].phase.Exited?
    ensures var t := DeleteOwnStep(s, c, delete); At(t, c).Exited? ==> Settled(s, t, DeleteOwn(c, delete), c, At(t, c).exit)
  {
    assert CallbackOk(s.present, s.callbacks[c]);
  }

  // ----- the right mailbox -----

  predicate SameMailbox(accounts: map<Uuid, Account>, id: Uuid, cb: Callback) {
    id in accounts && HasKey(accounts[id], cb.user, cb.provider, cb.external)
  }

  /** The account a callback is about to write belongs to the consenting user and is the mailbox that consented. */
  predicate TargetIsMailbox(accounts: map<Uuid, Account>, cb: Callback) {
    match cb.phase
    case ConnectFound(existing) => cb.purpose.Connect? && (existing.Some? ==> SameMailbox(accounts, existing.value, cb))
    case TargetLoaded(_) => cb.purpose.Reauthorize? && SameMailbox(accounts, cb.purpose.account, cb)
    case PreviousDeleted => cb.purpose.Reauthorize? && SameMailbox(accounts, cb.purpose.account, cb)
    case TargetRechecked => cb.purpose.Reauthorize? && SameMailbox(accounts, cb.purpose.account, cb)
    case Exited(Attached(id)) => SameMailbox(accounts, id, cb) && (cb.purpose.Reauthorize? ==> id == cb.purpose.account)
    case Exited(Reused(id)) => SameMailbox(accounts, id, cb)
    case ConnectReuse(id) => SameMailbox(accounts, id, cb)
    case _ => true
  }

  ghost predicate TargetsAreMailboxes(s: State) {
    forall c :: c in s.callbacks ==> TargetIsMailbox(s.accounts, s.callbacks[c])
  }

  /** Rows are never removed and never change owner, provider or mailbox. */
  lemma RowsKeepTheirKey(s: State, e: Event, id: Uuid)
    requires id in s.accounts
    ensures id in Step(s, e).accounts
    ensures var a, b := s.accounts[id], Step(s, e).accounts[id];
      a.user == b.user && a.provider == b.provider && a.external == b.external
  {
  }

  /** A callback that is not stepped, or keeps what it targets, keeps targeting its mailbox. */
  lemma TargetSurvives(s: State, e: Event, cb: Callback)
    requires TargetIsMailbox(s.accounts, cb)
    ensures TargetIsMailbox(Step(s, e).accounts, cb)
  {
    match cb.phase
    case ConnectFound(Some(id)) => RowsKeepTheirKey(s, e, id);
    case TargetLoaded(_) => RowsKeepTheirKey(s, e, cb.purpose.account);
    case PreviousDeleted => RowsKeepTheirKey(s, e, cb.purpose.account);
    case TargetRechecked => RowsKeepTheirKey(s, e, cb.purpose.account);
    case Exited(Attached(id)) => RowsKeepTheirKey(s, e, id);
    case Exited(Reused(id)) => RowsKeepTheirKey(s, e, id);
    case ConnectReuse(id) => RowsKeepTheirKey(s, e, id);
    case _ =>
  }

  /** The callback is still there and its target is its mailbox. */
  predicate OnTarget(t: State, c: Uuid) {
    c in t.callbacks && TargetIsMailbox(t.accounts, t.callbacks[c])
  }

  lemma FindIsOnTarget(s: State, c: Uuid, found: Option<Uuid>, ok: bool)
    requires OnTarget(s, c)
    ensures OnTarget(FindAccountStep(s, c, found, ok), c)
  {
  }

  lemma LoadIsOnTarget(s: State, c: Uuid, ok: bool)
    requires OnTarget(s, c)
    ensures OnTarget(LoadTargetStep(s, c, ok), c)
  {
  }

  lemma RecheckIsOnTarget(s: State, c: Uuid, ok: bool)
    requires OnTarget(s, c)
    ensures OnTarget(RecheckTargetStep(s, c, ok), c)
  {
  }

  lemma ConnectIsOnTarget(s: State, c: Uuid, newId: Uuid, commit: Commit)
    requires OnTarget(s, c)
    ensures OnTarget(PersistConnectStep(s, c, newId, commit), c)
  {
  }

  lemma ReauthorizeIsOnTarget(s: State, c: Uuid, commit: Commit)
    requires OnTarget(s, c)
    ensures OnTarget(PersistReauthorizedStep(s, c, commit), c)
  {
  }

  lemma DeletePreviousIsOnTarget(s: State, c: Uuid, delete: Delete)
    requires OnTarget(s, c)
    ensures OnTarget(DeletePreviousStep(s, c, delete), c)
  {
  }

  lemma DeleteOwnIsOnTarget(s: State, c: Uuid, delete: Delete)
    requires Invariant(s) && OnTarget(s, c)
    ensures OnTarget(DeleteOwnStep(s, c, delete), c)
  {
    assert CallbackOk(s.present, s.callbacks[c]);
  }

  lemma StoreIsOnTarget(s: State, c: Uuid, l: Locator, creation: Creation)
    requires OnTarget(s, c)
    ensures OnTarget(StoreCredentialStep(s, c, l, creation), c)
  {
  }

  lemma SteppedCallbackIsOnTarget(s: State, e: Event, c: Uuid)
    requires Invariant(s) && OnTarget(s, c) && Stepped(e) == Some(c)
    ensures OnTarget(Step(s, e), c)
  {
    match e
    case FindAccount(_, found, ok) => FindIsOnTarget(s, c, found, ok);
    case PersistConnect(_, newId, commit) => ConnectIsOnTarget(s, c, newId, commit);
    case LoadTarget(_, ok) => LoadIsOnTarget(s, c, ok);
    case DeletePrevious(_, delete) => DeletePreviousIsOnTarget(s, c, delete);
    case RecheckTarget(_, ok) => RecheckIsOnTarget(s, c, ok);
    case PersistReauthorized(_, commit) => ReauthorizeIsOnTarget(s, c, commit);
    case DeleteOwn(_, delete) => DeleteOwnIsOnTarget(s, c, delete);
    case StoreCredential(_, l, creation) => StoreIsOnTarget(s, c, l, creation);
    case BeginCallback(_, purpose, user, provider, external, granted) => assert Step(s, e) == s;
  }

  lemma CallbackTargetsMailbox(s: State, e: Event, c: Uuid)
    requires Invariant(s) && TargetsAreMailboxes(s) && c in Step(s, e).callbacks
    ensures TargetIsMailbox(Step(s, e).accounts, Step(s, e).callbacks[c])
  {
    if Stepped(e) != Some(c) {
      OnlySteppedCallbackChanges(s, e, c);
      TargetSurvives(s, e, s.callbacks[c]);
    } else if c in s.callbacks {
      SteppedCallbackIsOnTarget(s, e, c);
    } else {
      match e
      case BeginCallback(_, purpose, user, provider, external, granted) =>
      case _ =>
    }
  }

  lemma {:induction false} RunTargetsMailboxes(s: State, events: seq<Event>)
    requires Invariant(s) && TargetsAreMailboxes(s)
    ensures TargetsAreMailboxes(Run(s, events))
    decreases |events|
  {
    if events != [] {
      StepKeepsInvariant(s, events[0]);
      forall c | c in Step(s, events[0]).callbacks
        ensures TargetIsMailbox(Step(s, events[0]).accounts, Step(s, events[0]).callbacks[c])
      {
        CallbackTargetsMailbox(s, events[0], c);
      }
      RunTargetsMailboxes(Step(s, events[0]), events[1..]);
    }
  }

  /** A successful callback always reports the consenting user's own row for the very mailbox that consented. */
  lemma SuccessNamesTheConsentingMailbox(s: State, c: Uuid, id: Uuid)
    requires Reachable(s) && c in s.callbacks
    requires At(s, c) == Exited(Attached(id)) || At(s, c) == Exited(Reused(id))
    ensures SameMailbox(s.accounts, id, s.callbacks[c])
    ensures At(s, c) == Exited(Attached(id)) && s.callbacks[c].purpose.Reauthorize? ==> id == s.callbacks[c].purpose.account
    ensures forall other :: other in s.accounts && SameMailbox(s.accounts, other, s.callbacks[c]) ==> other == id
  {
    var events :| s == Run(Empty(), events);
    RunTargetsMailboxes(Empty(), events);
    ReachableIsSafe(s);
    assert TargetIsMailbox(s.accounts, s.callbacks[c]);
  }

  // ----- where secrets can be left behind -----

  /** The callback that minted the secret has not ended. */
  predicate Awaited(mintedBy: map<Locator, Uuid>, callbacks: map<Uuid, Callback>, l: Locator) {
    l in mintedBy && mintedBy[l] in callbacks && !callbacks[mintedBy[l]].phase.Exited?
  }

  ghost predicate Named(accounts: map<Uuid, Account>, l: Locator) {
    exists id :: id in accounts && accounts[id].ref == Some(l)
  }

  /** Some callback still answers for the secret, or a row names it. */
  ghost predicate InUse(s: State, l: Locator) {
    Awaited(s.mintedBy, s.callbacks, l) || Named(s.accounts, l)
  }

  ghost predicate Orphan(s: State, l: Locator) {
    l in s.present && !InUse(s, l)
  }

  ghost predicate DeletedStaysAbsent(s: State) {
    && (forall d :: d in s.disconnects && s.disconnects[d].deleted && s.disconnects[d].locator.Some? ==>
          s.disconnects[d].locator.value !in s.present)
    && (forall d :: d in s.disconnects && s.disconnects[d].phase.SecretDeleted? && s.disconnects[d].locator.Some? ==>
          s.disconnects[d].deleted)
  }

  /** The store only ever gains the locator of the creation being performed, and that locator is new. */
  lemma OnlyCreationAddsSecrets(s: State, e: Event)
    ensures forall l :: l in Step(s, e).present && l !in s.present ==> e.StoreCredential? && e.l == l && l !in s.mintedBy && l !in s.lost
  {
  }

  lemma DisconnectStepsKeepAbsence(s: State, d: Uuid, user: Uuid, account: Uuid, ok: bool, delete: Delete, commit: Commit)
    requires Invariant(s) && DeletedStaysAbsent(s)
    ensures DeletedStaysAbsent(BeginDisconnectStep(s, d, user, account))
    ensures DeletedStaysAbsent(LoadForDisconnectStep(s, d, ok))
    ensures DeletedStaysAbsent(DeleteSecretStep(s, d, delete))
    ensures DeletedStaysAbsent(MarkDisconnectedStep(s, d, commit))
  {
    assert d in s.disconnects ==> DisconnectOk(s.mintedBy, s.callbacks, s.disconnects[d]);
  }

  lemma AbsenceIsKept(s: State, e: Event)
    requires Invariant(s) && DeletedStaysAbsent(s)
    ensures DeletedStaysAbsent(Step(s, e))
  {
    match e
    case BeginDisconnect(d, user, account) => DisconnectStepsKeepAbsence(s, d, user, account, true, Deleted, Committed);
    case LoadForDisconnect(d, ok) => DisconnectStepsKeepAbsence(s, d, 0, 0, ok, Deleted, Committed);
    case DeleteSecret(d, delete) => DisconnectStepsKeepAbsence(s, d, 0, 0, true, delete, Committed);
    case MarkDisconnected(d, commit) => DisconnectStepsKeepAbsence(s, d, 0, 0, true, Deleted, commit);
    case _ =>
      var t := Step(s, e);
      DisconnectsUntouched(s, e);
      OnlyCreationAddsSecrets(s, e);
      forall d | d in t.disconnects && t.disconnects[d].deleted && t.disconnects[d].locator.Some?
        ensures t.disconnects[d].locator.value !in t.present
      {
        assert DisconnectOk(s.mintedBy, s.callbacks, s.disconnects[d]);
      }
  }

  lemma DisconnectsUntouched(s: State, e: Event)
    requires !e.BeginDisconnect? && !e.LoadForDisconnect? && !e.DeleteSecret? && !e.MarkDisconnected?
    ensures Step(s, e).disconnects == s.disconnects
  {
  }

  lemma {:induction false} RunKeepsAbsence(s: State, events: seq<Event>)
    requires Invariant(s) && DeletedStaysAbsent(s)
    ensures DeletedStaysAbsent(Run(s, events))
    decreases |events|
  {
    if events != [] {
      StepKeepsInvariant(s, events[0]);
      AbsenceIsKept(s, events[0]);
      RunKeepsAbsence(Step(s, events[0]), events[1..]);
    }
  }

  // ----- what a callback removed stays removed -----

  predicate RemovedIsAbsent(callbacks: map<Uuid, Callback>, present: set<Locator>, c: Uuid) {
    c in callbacks && callbacks[c].removed && callbacks[c].loc.Some? ==> callbacks[c].loc.value !in present
  }

  ghost predicate RemovedStaysAbsent(s: State) {
    forall c :: RemovedIsAbsent(s.callbacks, s.present, c)
  }

  /** No step but its own deletion marks a callback's secret as removed, and that deletion removes it. */
  lemma ReadsDoNotRemove(s: State, c: Uuid, found: Option<Uuid>, ok: bool, delete: Delete)
    requires c in s.callbacks && !s.callbacks[c].removed
    ensures NotRemoved(FindAccountStep(s, c, found, ok), c) && NotRemoved(LoadTargetStep(s, c, ok), c)
    ensures NotRemoved(DeletePreviousStep(s, c, delete), c) && NotRemoved(RecheckTargetStep(s, c, ok), c)
  {
  }

  lemma WritesDoNotRemove(s: State, c: Uuid, newId: Uuid, l: Locator, creation: Creation, commit: Commit)
    requires c in s.callbacks && !s.callbacks[c].removed
    ensures NotRemoved(PersistConnectStep(s, c, newId, commit), c) && NotRemoved(PersistReauthorizedStep(s, c, commit), c)
    ensures NotRemoved(StoreCredentialStep(s, c, l, creation), c)
  {
  }

  predicate NotRemoved(t: State, c: Uuid) {
    c in t.callbacks && !t.callbacks[c].removed
  }

  lemma SteppedCallbackRemovesItsOwn(s: State, e: Event, c: Uuid)
    requires c in s.callbacks && !s.callbacks[c].removed && Stepped(e) == Some(c)
    ensures RemovedIsAbsent(Step(s, e).callbacks, Step(s, e).present, c)
  {
    match e
    case FindAccount(_, found, ok) => ReadsDoNotRemove(s, c, found, ok, Deleted);
    case LoadTarget(_, ok) => ReadsDoNotRemove(s, c, None, ok, Deleted);
    case DeletePrevious(_, delete) => ReadsDoNotRemove(s, c, None, true, delete);
    case RecheckTarget(_, ok) => ReadsDoNotRemove(s, c, None, ok, Deleted);
    case PersistConnect(_, newId, commit) => WritesDoNotRemove(s, c, newId, 0, Created, commit);
    case PersistReauthorized(_, commit) => WritesDoNotRemove(s, c, 0, 0, Created, commit);
    case StoreCredential(_, l, creation) => WritesDoNotRemove(s, c, 0, l, creation, Committed);
    case DeleteOwn(_, delete) =>
    case BeginCallback(_, _, _, _, _, _) =>
  }

  lemma ExitedCallbacksAreDone(s: State, e: Event, c: Uuid)
    requires c in s.callbacks && s.callbacks[c].phase.Exited? && Stepped(e) == Some(c)
    ensures Step(s, e) == s
  {
  }

  lemma RemovalIsKept(s: State, e: Event)
    requires Invariant(s) && RemovedStaysAbsent(s)
    ensures RemovedStaysAbsent(Step(s, e))
  {
    var t := Step(s, e);
    forall c ensures RemovedIsAbsent(t.callbacks, t.present, c) {
      assert RemovedIsAbsent(s.callbacks, s.present, c);
      if Stepped(e) != Some(c) {
        OnlySteppedCallbackChanges(s, e, c);
        OnlyCreationAddsSecrets(s, e);
      } else if c in s.callbacks {
        assert CallbackOk(s.present, s.callbacks[c]);
        if s.callbacks[c].phase.Exited? {
          ExitedCallbacksAreDone(s, e, c);
        } else {
          SteppedCallbackRemovesItsOwn(s, e, c);
        }
      }
    }
  }

  lemma {:induction false} RunKeepsRemoval(s: State, events: seq<Event>)
    requires Invariant(s) && RemovedStaysAbsent(s)
    ensures RemovedStaysAbsent(Run(s, events))
    decreases |events|
  {
    if events != [] {
      StepKeepsInvariant(s, events[0]);
      RemovalIsKept(s, events[0]);
      RunKeepsRemoval(Step(s, events[0]), events[1..]);
    }
  }

  /**
   In every reachable state an ACTIVE account names a locator, and its secret is missing from the store exactly when a
   disconnect that read that very locator has removed it, or the callback that attached it was told its commit had
   failed and has removed it in compensation.
   */
  lemma ActiveAccountsAreBacked(s: State, id: Uuid)
    requires Reachable(s) && id in s.accounts && s.accounts[id].status == Active
    ensures s.accounts[id].ref.Some?
    ensures var l := s.accounts[id].ref.value;
      l !in s.present <==>
        DeletedByDisconnect(s.disconnects, l) || CompensatedAfterLostAcknowledgement(s.mintedBy, s.callbacks, l)
  {
    ActiveAccountsAreAccounted(s, id);
    var events :| s == Run(Empty(), events);
    RunKeepsInvariant(Empty(), events);
    RunKeepsAbsence(Empty(), events);
    RunKeepsRemoval(Empty(), events);
    var l := s.accounts[id].ref.value;
    assert l in s.mintedBy ==> RemovedIsAbsent(s.callbacks, s.present, s.mintedBy[l]);
  }

  /** The row is the user's, can be reactivated, and is the only one to answer for the stored secret `l`. */
  predicate Displaces(s: State, id: Uuid, user: Uuid, l: Locator) {
    && Owned(s.accounts, id, user) && Reactivatable(s.accounts[id]) && s.accounts[id].ref == Some(l)
    && l in s.present && !Awaited(s.mintedBy, s.callbacks, l)
  }

  /**
   The five ways a stored secret can end up named by no row and awaited by no callback: a create that raised kept it;
   its own deletion failed; a connect or a reauthorization wrote its locator over it; a disconnect, having deleted the
   secret it had read earlier, cleared a row that had meanwhile been given this one.
   */
  ghost predicate LeakCause(s: State, e: Event, l: Locator) {
    match e
    case StoreCredential(c, stored, creation) =>
      && At(s, c).Exchanged? && MailRead in s.callbacks[c].granted && creation == CreateFailed(true)
      && stored == l && l !in s.mintedBy && l !in s.lost
    case DeleteOwn(c, delete) =>
      && (At(s, c).Compensating? || At(s, c).ConnectReuse?) && delete == DeleteFailed(false)
      && s.callbacks[c].loc == Some(l) && l in s.present && !Named(s.accounts, l)
    case PersistConnect(c, _, commit) =>
      && At(s, c).ConnectFound? && s.callbacks[c].phase.existing.Some? && commit != RolledBack
      && Displaces(s, s.callbacks[c].phase.existing.value, s.callbacks[c].user, l)
    case PersistReauthorized(c, commit) =>
      && At(s, c).TargetRechecked? && s.callbacks[c].purpose.Reauthorize? && commit != RolledBack
      && Displaces(s, s.callbacks[c].purpose.account, s.callbacks[c].user, l)
    case MarkDisconnected(d, commit) =>
      && AtDisconnect(s, d).SecretDeleted? && commit != RolledBack
      && Owned(s.accounts, s.disconnects[d].account, s.disconnects[d].user) && s.accounts[s.disconnects[d].account].ref == Some(l)
      && l in s.present && !Awaited(s.mintedBy, s.callbacks, l)
    case _ => false
  }

  /** No row is rewritten, no secret added, and no callback ended. */
  ghost predicate QuietChange(s: State, t: State) {
    && t.accounts == s.accounts && t.mintedBy == s.mintedBy && t.present <= s.present
    && forall c :: StaysOpen(s, t, c)
  }

  predicate StaysOpen(s: State, t: State, c: Uuid) {
    c in s.callbacks && !s.callbacks[c].phase.Exited? ==> c in t.callbacks && !t.callbacks[c].phase.Exited?
  }

  /** Such steps leave nothing behind. */
  lemma QuietStepsLeaveNothing(s: State, t: State, l: Locator)
    requires QuietChange(s, t)
    ensures Orphan(t, l) ==> Orphan(s, l)
  {
    assert l in s.mintedBy ==> StaysOpen(s, t, s.mintedBy[l]);
  }

  /** Writing a row names the writer's locator there, unnames what the row named before, and nothing else. */
  lemma WriteRenames(s: State, c: Uuid, id: Uuid, row: Account, commit: Commit, l: Locator)
    requires Invariant(s) && Writable(s, c, id, row)
    ensures var t := WriteRow(s, c, id, row, commit);
      && t.present == s.present
      && (commit == RolledBack ==> (InUse(t, l) <==> InUse(s, l)))
      && (commit != RolledBack && s.callbacks[c].loc == Some(l) ==> InUse(t, l))
      && (commit != RolledBack && s.callbacks[c].loc != Some(l) ==>
            (InUse(t, l) <==> InUse(s, l) && !(id in s.accounts && s.accounts[id].ref == Some(l) && !Awaited(s.mintedBy, s.callbacks, l))))
  {
    var t := WriteRow(s, c, id, row, commit);
    if commit == RolledBack {
      SameRowsSameUse(s, t, l);
    } else if s.callbacks[c].loc == Some(l) {
      assert t.accounts[id].ref == Some(l);
    } else {
      assert Awaited(t.mintedBy, t.callbacks, l) <==> Awaited(s.mintedBy, s.callbacks, l);
      assert t.accounts[id].ref != Some(l);
      assert forall k :: k != id ==> (k in t.accounts <==> k in s.accounts) && (k in s.accounts ==> t.accounts[k] == s.accounts[k]);
    }
  }

  lemma SameRowsSameUse(s: State, t: State, l: Locator)
    requires t.accounts == s.accounts && t.mintedBy == s.mintedBy
    requires forall c :: StaysOpen(s, t, c) && StaysOpen(t, s, c)
    ensures InUse(t, l) <==> InUse(s, l)
  {
    assert l in s.mintedBy ==> StaysOpen(s, t, s.mintedBy[l]) && StaysOpen(t, s, s.mintedBy[l]);
  }

  /** A secret in use that a commit puts out of use was named by the row just written, and by nothing else. */
  lemma WriteLeavesTheDisplaced(s: State, c: Uuid, id: Uuid, row: Account, commit: Commit, l: Locator)
    requires Invariant(s) && Writable(s, c, id, row) && !Orphan(s, l)
    ensures Orphan(WriteRow(s, c, id, row, commit), l) <==>
      && commit != RolledBack && id in s.accounts && s.accounts[id].ref == Some(l)
      && l in s.present && !Awaited(s.mintedBy, s.callbacks, l)
  {
    WriteRenames(s, c, id, row, commit, l);
    assert id in s.accounts && s.accounts[id].ref == Some(l) ==> Written(s.mintedBy, s.callbacks, l);
  }

  lemma GotoLeavesNothing(s: State, c: Uuid, phase: Phase, l: Locator)
    requires c in s.callbacks && !s.callbacks[c].phase.Exited? && !phase.Exited? && !Orphan(s, l)
    ensures !Orphan(Goto(s, c, phase), l)
  {
    SameRowsSameUse(s, Goto(s, c, phase), l);
  }

  lemma ConnectLeavesTheDisplaced(s: State, c: Uuid, newId: Uuid, commit: Commit, l: Locator)
    requires Invariant(s) && !Orphan(s, l)
    ensures Orphan(PersistConnectStep(s, c, newId, commit), l) <==> LeakCause(s, PersistConnect(c, newId, commit), l)
  {
    if At(s, c).ConnectFound? {
      var cb := s.callbacks[c];
      assert CallbackOk(s.present, cb);
      GotoLeavesNothing(s, c, Compensating(ServiceUnavailable), l);
      match cb.phase.existing
      case None =>
        if FindMatches(s.accounts, cb.user, cb.provider, cb.external, None) && newId !in s.accounts {
          WriteLeavesTheDisplaced(s, c, newId, NewAccount(cb), commit, l);
        }
      case Some(id) =>
        if Owned(s.accounts, id, cb.user) && Reactivatable(s.accounts[id]) {
          WriteLeavesTheDisplaced(s, c, id, s.accounts[id].(ref := cb.loc, status := Active, granted := Some(cb.granted)), commit, l);
        }
    }
  }

  lemma ReauthorizeLeavesTheDisplaced(s: State, c: Uuid, commit: Commit, l: Locator)
    requires Invariant(s) && !Orphan(s, l)
    ensures Orphan(PersistReauthorizedStep(s, c, commit), l) <==> LeakCause(s, PersistReauthorized(c, commit), l)
  {
    if At(s, c).TargetRechecked? && s.callbacks[c].purpose.Reauthorize? {
      var cb := s.callbacks[c];
      assert CallbackOk(s.present, cb);
      GotoLeavesNothing(s, c, Compensating(AccountConflict), l);
      var id := cb.purpose.account;
      if Owned(s.accounts, id, cb.user) && Reactivatable(s.accounts[id]) {
        WriteLeavesTheDisplaced(s, c, id, s.accounts[id].(ref := cb.loc, status := Active, granted := Some(cb.granted)), commit, l);
      }
    }
  }

  lemma CreationLeavesWhatItKept(s: State, c: Uuid, stored: Locator, creation: Creation, l: Locator)
    requires Invariant(s) && !Orphan(s, l)
    ensures Orphan(StoreCredentialStep(s, c, stored, creation), l) <==> LeakCause(s, StoreCredential(c, stored, creation), l)
  {
    if c in s.callbacks { assert CallbackOk(s.present, s.callbacks[c]); }
    var t := StoreCredentialStep(s, c, stored, creation);
    assert Named(t.accounts, l) <==> Named(s.accounts, l);
    assert Named(s.accounts, l) ==> l in s.mintedBy;
    assert l != stored ==> (Awaited(t.mintedBy, t.callbacks, l) <==> Awaited(s.mintedBy, s.callbacks, l));
  }

  lemma DeletionLeavesItsOwn(s: State, c: Uuid, delete: Delete, l: Locator)
    requires Invariant(s) && !Orphan(s, l)
    ensures Orphan(DeleteOwnStep(s, c, delete), l) <==> LeakCause(s, DeleteOwn(c, delete), l)
  {
    if c in s.callbacks { assert CallbackOk(s.present, s.callbacks[c]); }
    var t := DeleteOwnStep(s, c, delete);
    assert Named(t.accounts, l) <==> Named(s.accounts, l);
  }

  lemma DisconnectLeavesTheNewer(s: State, d: Uuid, commit: Commit, l: Locator)
    requires Invariant(s) && !Orphan(s, l)
    ensures Orphan(MarkDisconnectedStep(s, d, commit), l) <==> LeakCause(s, MarkDisconnected(d, commit), l)
  {
    var t := MarkDisconnectedStep(s, d, commit);
    if Orphan(t, l) {
      assert InUse(s, l);
      var k :| k in s.accounts && s.accounts[k].ref == Some(l);
      assert t.accounts[k].ref != Some(l);
    }
  }

  /** A secret is left behind by exactly the listed events in exactly the listed circumstances. */
  lemma OrphansHaveExactlyTheseCauses(s: State, e: Event, l: Locator)
    requires Reachable(s) && !Orphan(s, l)
    ensures Orphan(Step(s, e), l) <==> LeakCause(s, e, l)
  {
    ReachableIsSafe(s);
    if Quiet(e) {
      QuietStep(s, e);
      QuietStepsLeaveNothing(s, Step(s, e), l);
    } else {
      LoudStepsHaveExactlyTheseCauses(s, e, l);
    }
  }

  lemma LoudStepsHaveExactlyTheseCauses(s: State, e: Event, l: Locator)
    requires Invariant(s) && !Orphan(s, l) && !Quiet(e)
    ensures Orphan(Step(s, e), l) <==> LeakCause(s, e, l)
  {
    match e
    case StoreCredential(c, stored, creation) => CreationLeavesWhatItKept(s, c, stored, creation, l);
    case DeleteOwn(c, delete) => DeletionLeavesItsOwn(s, c, delete, l);
    case PersistConnect(c, newId, commit) => ConnectLeavesTheDisplaced(s, c, newId, commit, l);
    case PersistReauthorized(c, commit) => ReauthorizeLeavesTheDisplaced(s, c, commit, l);
    case MarkDisconnected(d, commit) => DisconnectLeavesTheNewer(s, d, commit, l);
    case MarkReauth(account, user) => MarkReauthLeavesNothing(s, account, user, l);
  }

  lemma QuietIsUnused(s: State, e: Event, l: Locator)
    requires Invariant(s) && Quiet(e) && Spent(s, l) && !InUse(s, l)
    ensures Spent(Step(s, e), l) && !InUse(Step(s, e), l)
  {
    QuietStep(s, e);
    if l in s.mintedBy && Stepped(e) != Some(s.mintedBy[l]) {
      OnlySteppedCallbackChanges(s, e, s.mintedBy[l]);
    } else if l in s.mintedBy {
      ExitedCallbacksAreDone(s, e, s.mintedBy[l]);
    }
    assert Spent(Step(s, e), l) by { SpentStaysSpent(s, e, l); }
  }

  lemma SpentStaysSpent(s: State, e: Event, l: Locator)
    requires Spent(s, l)
    ensures Spent(Step(s, e), l)
  {
  }

  lemma CreationIsUnused(s: State, c: Uuid, stored: Locator, creation: Creation, l: Locator)
    requires Invariant(s) && Spent(s, l) && !InUse(s, l)
    ensures var t := StoreCredentialStep(s, c, stored, creation); Spent(t, l) && !InUse(t, l)
  {
  }

  lemma DeletionIsUnused(s: State, c: Uuid, delete: Delete, l: Locator)
    requires Invariant(s) && Spent(s, l) && !InUse(s, l)
    ensures var t := DeleteOwnStep(s, c, delete); Spent(t, l) && !InUse(t, l)
  {
  }

  lemma ConnectIsUnused(s: State, c: Uuid, newId: Uuid, commit: Commit, l: Locator)
    requires Invariant(s) && Spent(s, l) && !InUse(s, l)
    ensures var t := PersistConnectStep(s, c, newId, commit); Spent(t, l) && !InUse(t, l)
  {
    if c in s.callbacks { assert CallbackOk(s.present, s.callbacks[c]); }
  }

  lemma ReauthorizeIsUnused(s: State, c: Uuid, commit: Commit, l: Locator)
    requires Invariant(s) && Spent(s, l) && !InUse(s, l)
    ensures var t := PersistReauthorizedStep(s, c, commit); Spent(t, l) && !InUse(t, l)
  {
    if c in s.callbacks { assert CallbackOk(s.present, s.callbacks[c]); }
  }

  predicate Quiet(e: Event) {
    || e.BeginCallback? || e.FindAccount? || e.LoadTarget? || e.DeletePrevious? || e.RecheckTarget?
    || e.BeginDisconnect? || e.LoadForDisconnect? || e.DeleteSecret?
  }

  lemma QuietStep(s: State, e: Event)
    requires Quiet(e)
    ensures QuietChange(s, Step(s, e))
  {
    match e
    case FindAccount(c, found, ok) => QuietReads(s, c, found, ok, Deleted); PhaseChangesAreQuiet(s, Step(s, e), c);
    case LoadTarget(c, ok) => QuietReads(s, c, None, ok, Deleted); PhaseChangesAreQuiet(s, Step(s, e), c);
    case DeletePrevious(c, delete) => QuietReads(s, c, None, true, delete); PhaseChangesAreQuiet(s, Step(s, e), c);
    case RecheckTarget(c, ok) => QuietReads(s, c, None, ok, Deleted); PhaseChangesAreQuiet(s, Step(s, e), c);
    case BeginDisconnect(d, user, account) => QuietDisconnects(s, d, user, account, true, Deleted);
    case LoadForDisconnect(d, ok) => QuietDisconnects(s, d, 0, 0, ok, Deleted);
    case DeleteSecret(d, delete) => QuietDisconnects(s, d, 0, 0, true, delete);
    case BeginCallback(c, purpose, user, provider, external, granted) => QuietBegin(s, c, purpose, user, provider, external, granted);
  }

  lemma PhaseChangesAreQuiet(s: State, t: State, c: Uuid)
    requires SameOrPhase(s, t, c)
    ensures QuietChange(s, t)
  {
  }

  lemma QuietBegin(s: State, c: Uuid, purpose: Purpose, user: Uuid, provider: Provider, external: string, granted: set<Capability>)
    ensures QuietChange(s, BeginCallbackStep(s, c, purpose, user, provider, external, granted))
  {
  }

  lemma QuietReads(s: State, c: Uuid, found: Option<Uuid>, ok: bool, delete: Delete)
    ensures SameOrPhase(s, FindAccountStep(s, c, found, ok), c) && SameOrPhase(s, LoadTargetStep(s, c, ok), c)
    ensures SameOrPhase(s, DeletePreviousStep(s, c, delete), c) && SameOrPhase(s, RecheckTargetStep(s, c, ok), c)
  {
  }

  lemma QuietDisconnects(s: State, d: Uuid, user: Uuid, account: Uuid, ok: bool, delete: Delete)
    ensures SameAccounts(s, BeginDisconnectStep(s, d, user, account)) && SameAccounts(s, LoadForDisconnectStep(s, d, ok))
    ensures SameAccounts(s, DeleteSecretStep(s, d, delete))
  {
  }

  predicate SameAccounts(s: State, t: State) {
    t.accounts == s.accounts && t.mintedBy == s.mintedBy && t.present <= s.present && t.callbacks == s.callbacks
  }

  /** Nothing changed, or callback `c` moved to another open phase and at most secrets went away. */
  predicate SameOrPhase(s: State, t: State, c: Uuid) {
    t == s || (c in s.callbacks && c in t.callbacks && !t.callbacks[c].phase.Exited?
               && t == Goto(s, c, t.callbacks[c].phase).(present := t.present) && t.present <= s.present)
  }

  lemma MarkReauthLeavesNothing(s: State, account: Uuid, user: Uuid, l: Locator)
    requires !Orphan(s, l)
    ensures !Orphan(MarkReauthStep(s, account, user), l)
  {
    var t := MarkReauthStep(s, account, user);
    if exists id :: id in s.accounts && s.accounts[id].ref == Some(l) {
      var id :| id in s.accounts && s.accounts[id].ref == Some(l);
      assert t.accounts[id].ref == Some(l);
    }
  }

  /** The locator has been handed out once, so it will not be handed out again. */
  predicate Spent(s: State, l: Locator) {
    l in s.mintedBy || l in s.lost
  }

  lemma UnusedStaysUnused(s: State, e: Event, l: Locator)
    requires Invariant(s) && Spent(s, l) && !InUse(s, l)
    ensures Spent(Step(s, e), l) && !InUse(Step(s, e), l)
  {
    if Quiet(e) {
      QuietIsUnused(s, e, l);
    } else {
      match e
      case StoreCredential(c, stored, creation) => CreationIsUnused(s, c, stored, creation, l);
      case DeleteOwn(c, delete) => DeletionIsUnused(s, c, delete, l);
      case PersistConnect(c, newId, commit) => ConnectIsUnused(s, c, newId, commit, l);
      case PersistReauthorized(c, commit) => ReauthorizeIsUnused(s, c, commit, l);
      case MarkDisconnected(d, commit) =>
      case MarkReauth(account, user) =>
    }
  }

  lemma {:induction false} RunKeepsUnused(s: State, events: seq<Event>, l: Locator)
    requires Invariant(s) && Spent(s, l) && !InUse(s, l)
    ensures !InUse(Run(s, events), l)
    decreases |events|
  {
    if events != [] {
      UnusedStaysUnused(s, events[0], l);
      StepKeepsInvariant(s, events[0]);
      RunKeepsUnused(Step(s, events[0]), events[1..], l);
    }
  }

  /** What is left behind is out of reach: in no continuation does a row name it or a callback answer for it again. */
  lemma OrphansAreNeverUsedAgain(s: State, events: seq<Event>, l: Locator)
    requires Reachable(s) && Orphan(s, l)
    ensures !InUse(Run(s, events), l)
  {
    ReachableIsSafe(s);
    var before :| s == Run(Empty(), before);
    RunKeepsOnlyAskedFor(Empty(), before);
    RunKeepsUnused(s, events, l);
  }

  /** CONNECT over a REAUTH_REQUIRED row replaces the old locator without deleting its secret: it stays, unnamed. */
  lemma ConnectAbandonsTheStaleSecret(s: State, c: Uuid, newId: Uuid, id: Uuid, l: Locator)
    requires Reachable(s) && At(s, c) == ConnectFound(Some(id)) && Owned(s.accounts, id, s.callbacks[c].user)
    requires s.accounts[id].status == ReauthRequired && s.accounts[id].ref == Some(l) && l in s.present
    ensures var t := PersistConnectStep(s, c, newId, Committed);
      l in t.present && forall k :: k in t.accounts ==> t.accounts[k].ref != Some(l)
  {
    ReachableIsSafe(s);
    assert CallbackOk(s.present, s.callbacks[c]);
    assert !Written(s.mintedBy, s.callbacks, s.callbacks[c].loc.value);
  }

  // ----- the uninterrupted flows -----

  /** From the consent to the loaded target: the new secret is stored and nothing else has changed. */
  lemma ReauthorizationLoadsItsTarget(s: State, c: Uuid, id: Uuid, l: Locator, granted: set<Capability>)
    requires c !in s.callbacks && l !in s.mintedBy && l !in s.lost && MailRead in granted
    requires id in s.accounts && s.accounts[id].status == ReauthRequired
    ensures var a := s.accounts[id];
      var t := Step(Step(Step(s, BeginCallback(c, Reauthorize(id), a.user, a.provider, a.external, granted)),
                         StoreCredential(c, l, Created)), LoadTarget(c, true));
      && t.accounts == s.accounts && t.present == s.present + {l} && c in t.callbacks
      && t.callbacks[c] == Callback(Reauthorize(id), a.user, a.provider, a.external, granted, Some(l), false, false, TargetLoaded(a.ref))
  {
  }

  /** From the loaded target to the commit: the old secret goes, then the row names the new one. */
  lemma ReauthorizationAttachesItsSecret(s: State, c: Uuid, id: Uuid, l: Locator, previous: Locator)
    requires c in s.callbacks && s.callbacks[c].phase == TargetLoaded(Some(previous)) && previous != l
    requires s.callbacks[c].loc == Some(l) && s.callbacks[c].purpose == Reauthorize(id)
    requires TargetRefusal(s.accounts, id, s.callbacks[c]) == None
    ensures var t := Step(Step(Step(s, DeletePrevious(c, Deleted)), RecheckTarget(c, true)), PersistReauthorized(c, Committed));
      && t.accounts == s.accounts[id := s.accounts[id].(ref := Some(l), status := Active, granted := Some(s.callbacks[c].granted))]
      && t.present == s.present - {previous}
      && At(t, c) == Exited(Attached(id))
  {
  }

  /** Reauthorizing a REAUTH_REQUIRED account removes the old secret before the new one is attached. */
  lemma ReauthorizationReplacesTheSecret(s: State, c: Uuid, id: Uuid, l: Locator, granted: set<Capability>)
    requires Reachable(s) && c !in s.callbacks && l !in s.mintedBy && l !in s.lost && MailRead in granted
    requires id in s.accounts && s.accounts[id].status == ReauthRequired
    ensures var a := s.accounts[id];
      var t := Run(s, [BeginCallback(c, Reauthorize(id), a.user, a.provider, a.external, granted), StoreCredential(c, l, Created),
                       LoadTarget(c, true), DeletePrevious(c, Deleted), RecheckTarget(c, true), PersistReauthorized(c, Committed)]);
      && t.accounts == s.accounts[id := a.(ref := Some(l), status := Active, granted := Some(granted))]
      && a.ref.Some? && t.present == s.present + {l} - {a.ref.value}
      && At(t, c) == Exited(Attached(id))
  {
    ReachableIsSafe(s);
    var a := s.accounts[id];
    assert RowShape(a) && Written(s.mintedBy, s.callbacks, a.ref.value) && a.ref != Some(l);
    var e := [BeginCallback(c, Reauthorize(id), a.user, a.provider, a.external, granted), StoreCredential(c, l, Created),
              LoadTarget(c, true), DeletePrevious(c, Deleted), RecheckTarget(c, true), PersistReauthorized(c, Committed)];
    var s3 := Step(Step(Step(s, e[0]), e[1]), e[2]);
    ReauthorizationLoadsItsTarget(s, c, id, l, granted);
    ReauthorizationAttachesItsSecret(s3, c, id, l, a.ref.value);
    RunSix(s, e);
  }

  lemma RunSix(s: State, e: seq<Event>)
    requires |e| == 6
    ensures Run(s, e) == Step(Step(Step(Step(Step(Step(s, e[0]), e[1]), e[2]), e[3]), e[4]), e[5])
  {
    var s4 := Step(Step(Step(Step(s, e[0]), e[1]), e[2]), e[3]);
    RunFour(s, e[0], e[1], e[2], e[3], e[4..]);
    assert e == [e[0], e[1], e[2], e[3]] + e[4..];
    RunCons(s4, e[4], e[5..]);
    RunCons(Step(s4, e[4]), e[5], []);
    assert e[4..] == [e[4]] + e[5..] && e[5..] == [e[5]] + [];
  }

  lemma RunFour(s: State, a: Event, b: Event, c: Event, d: Event, rest: seq<Event>)
    ensures Run(s, [a, b, c, d] + rest) == Run(Step(Step(Step(Step(s, a), b), c), d), rest)
  {
    RunCons(s, a, [b, c, d] + rest);
    RunCons(Step(s, a), b, [c, d] + rest);
    RunCons(Step(Step(s, a), b), c, [d] + rest);
    RunCons(Step(Step(Step(s, a), b), c), d, rest);
    assert [a] + ([b, c, d] + rest) == [a, b, c, d] + rest && [b] + ([c, d] + rest) == [b, c, d] + rest;
    assert [c] + ([d] + rest) == [c, d] + rest;
  }

  lemma DisconnectReadsAndDeletes(s: State, d: Uuid, id: Uuid)
    requires d !in s.disconnects && id in s.accounts && s.accounts[id].ref.Some?
    ensures var a := s.accounts[id];
      var t := Step(Step(Step(s, BeginDisconnect(d, a.user, id)), LoadForDisconnect(d, true)), DeleteSecret(d, Deleted));
      && t.accounts == s.accounts && t.present == s.present - {a.ref.value}
      && d in t.disconnects && t.disconnects[d] == Disconnect(a.user, id, a.ref, true, SecretDeleted)
  {
  }

  /** Disconnecting removes the secret, then clears the row. */
  lemma DisconnectRemovesTheSecret(s: State, d: Uuid, id: Uuid)
    requires Reachable(s) && d !in s.disconnects && id in s.accounts && s.accounts[id].ref.Some?
    ensures var a := s.accounts[id];
      var t := Run(s, [BeginDisconnect(d, a.user, id), LoadForDisconnect(d, true), DeleteSecret(d, Deleted),
                       MarkDisconnected(d, Committed)]);
      && t.accounts == s.accounts[id := a.(ref := None, status := Disconnected, granted := None)]
      && t.present == s.present - {a.ref.value}
  {
    var a := s.accounts[id];
    var e := [BeginDisconnect(d, a.user, id), LoadForDisconnect(d, true), DeleteSecret(d, Deleted), MarkDisconnected(d, Committed)];
    DisconnectReadsAndDeletes(s, d, id);
    RunFour(s, e[0], e[1], e[2], e[3], []);
    assert e == [e[0], e[1], e[2], e[3]] + [];
  }
}
