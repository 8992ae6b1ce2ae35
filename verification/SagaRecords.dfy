/** What account rows record, and what every callback and disconnect answers, in terms of rows, grants and the secret store. */
module SagaRecords {
  import opened Text
  import opened CredentialSaga
  import opened SagaSafety
  import opened SagaResults

  // ----- what a step leaves alone -----

  /** The only row a saga event may write. */
  function RowWritten(s: State, e: Event): Option<Uuid> {
    match e
    case PersistConnect(c, newId, _) =>
      if !At(s, c).ConnectFound? then None
      else if s.callbacks[c].phase.existing.Some? then s.callbacks[c].phase.existing else Some(newId)
    case PersistReauthorized(c, _) =>
      if !At(s, c).TargetRechecked? || !s.callbacks[c].purpose.Reauthorize? then None else Some(s.callbacks[c].purpose.account)
    case MarkReauth(account, _) => Some(account)
    case MarkDisconnected(d, _) => if d in s.disconnects then Some(s.disconnects[d].account) else None
    case _ => None
  }

  lemma OnlyTheRowWrittenChanges(s: State, e: Event, id: Uuid)
    requires RowWritten(s, e) != Some(id)
    ensures id in Step(s, e).accounts <==> id in s.accounts
    ensures id in s.accounts ==> Step(s, e).accounts[id] == s.accounts[id]
  {
  }

  /** The callback is there or not as before, and acts for the same user, provider, account, mailbox and grants. */
  predicate SamePurpose(s: State, t: State, c: Uuid) {
    && (c in t.callbacks <==> c in s.callbacks)
    && (c in s.callbacks ==>
          var a, b := s.callbacks[c], t.callbacks[c];
          a.user == b.user && a.provider == b.provider && a.purpose == b.purpose && a.external == b.external && a.granted == b.granted)
  }

  /** Reads change no more of a callback than its phase. */
  lemma PhaseChangesKeepPurpose(s: State, t: State, c: Uuid)
    requires SameOrPhase(s, t, c)
    ensures SamePurpose(s, t, c)
  {
  }

  lemma ReadsKeepPurpose(s: State, c: Uuid, found: Option<Uuid>, ok: bool, delete: Delete)
    ensures SamePurpose(s, FindAccountStep(s, c, found, ok), c) && SamePurpose(s, LoadTargetStep(s, c, ok), c)
    ensures SamePurpose(s, RecheckTargetStep(s, c, ok), c) && SamePurpose(s, DeletePreviousStep(s, c, delete), c)
  {
    QuietReads(s, c, found, ok, delete);
    PhaseChangesKeepPurpose(s, FindAccountStep(s, c, found, ok), c);
    PhaseChangesKeepPurpose(s, LoadTargetStep(s, c, ok), c);
    PhaseChangesKeepPurpose(s, RecheckTargetStep(s, c, ok), c);
    PhaseChangesKeepPurpose(s, DeletePreviousStep(s, c, delete), c);
  }

  lemma WriteKeepsPurpose(s: State, c: Uuid, id: Uuid, row: Account, commit: Commit)
    requires c in s.callbacks
    ensures SamePurpose(s, WriteRow(s, c, id, row, commit), c)
  {
  }

  lemma ConnectKeepsPurpose(s: State, c: Uuid, newId: Uuid, commit: Commit)
    ensures SamePurpose(s, PersistConnectStep(s, c, newId, commit), c)
  {
    if At(s, c).ConnectFound? && s.callbacks[c].loc.Some? {
      var cb := s.callbacks[c];
      var t := PersistConnectStep(s, c, newId, commit);
      var failed := Goto(s, c, Compensating(ServiceUnavailable));
      match cb.phase.existing
      case None =>
        assert t == s || t == failed || t == WriteRow(s, c, newId, NewAccount(cb), commit);
        WriteKeepsPurpose(s, c, newId, NewAccount(cb), commit);
      case Some(id) =>
        if Owned(s.accounts, id, cb.user) && Reactivatable(s.accounts[id]) {
          WriteKeepsPurpose(s, c, id, s.accounts[id].(ref := cb.loc, status := Active, granted := Some(cb.granted)), commit);
        } else {
          assert t == failed;
        }
    }
  }

  lemma ReauthorizeKeepsPurpose(s: State, c: Uuid, commit: Commit)
    ensures SamePurpose(s, PersistReauthorizedStep(s, c, commit), c)
  {
  }

  lemma EndsKeepPurpose(s: State, c: Uuid, l: Locator, creation: Creation, delete: Delete)
    ensures SamePurpose(s, StoreCredentialStep(s, c, l, creation), c) && SamePurpose(s, DeleteOwnStep(s, c, delete), c)
  {
  }

  lemma SteppedCallbackKeepsItsPurpose(s: State, e: Event, c: Uuid)
    requires !e.BeginCallback? && Stepped(e) == Some(c)
    ensures SamePurpose(s, Step(s, e), c)
  {
    match e
    case StoreCredential(_, l, creation) => EndsKeepPurpose(s, c, l, creation, Deleted);
    case FindAccount(_, found, ok) => ReadsKeepPurpose(s, c, found, ok, Deleted);
    case PersistConnect(_, newId, commit) => ConnectKeepsPurpose(s, c, newId, commit);
    case LoadTarget(_, ok) => ReadsKeepPurpose(s, c, None, ok, Deleted);
    case DeletePrevious(_, delete) => ReadsKeepPurpose(s, c, None, true, delete);
    case RecheckTarget(_, ok) => ReadsKeepPurpose(s, c, None, ok, Deleted);
    case PersistReauthorized(_, commit) => ReauthorizeKeepsPurpose(s, c, commit);
    case DeleteOwn(_, delete) => EndsKeepPurpose(s, c, 0, Created, delete);
  }

  lemma CallbacksKeepTheirPurpose(s: State, e: Event, c: Uuid)
    requires !e.BeginCallback?
    ensures SamePurpose(s, Step(s, e), c)
  {
    if Stepped(e) != Some(c) {
      OnlySteppedCallbackChanges(s, e, c);
    } else {
      SteppedCallbackKeepsItsPurpose(s, e, c);
    }
  }

  lemma MintersStay(s: State, e: Event, l: Locator)
    requires l in s.mintedBy
    ensures l in Step(s, e).mintedBy && Step(s, e).mintedBy[l] == s.mintedBy[l]
  {
  }

  // ----- what a row records -----

  /** A row that names a secret records the grants and the mailbox of the callback that minted it. */
  predicate RowRecords(accounts: map<Uuid, Account>, mintedBy: map<Locator, Uuid>, callbacks: map<Uuid, Callback>, id: Uuid) {
    id in accounts && accounts[id].ref.Some? ==>
      && accounts[id].ref.value in mintedBy && mintedBy[accounts[id].ref.value] in callbacks
      && var cb := callbacks[mintedBy[accounts[id].ref.value]];
         && accounts[id].granted == Some(cb.granted)
         && accounts[id].user == cb.user && accounts[id].provider == cb.provider && accounts[id].external == cb.external
  }

  /** Only consents that grant reading get as far as a secret. */
  predicate MintedForReading(callbacks: map<Uuid, Callback>, c: Uuid) {
    c in callbacks && callbacks[c].loc.Some? ==> MailRead in callbacks[c].granted
  }

  ghost predicate Records(s: State) {
    && (forall id :: RowRecords(s.accounts, s.mintedBy, s.callbacks, id))
    && (forall c :: MintedForReading(s.callbacks, c))
  }

  /** A row that a step does not write keeps recording what it recorded. */
  lemma UnwrittenRowsRecord(s: State, e: Event, id: Uuid)
    requires Records(s) && RowWritten(s, e) != Some(id)
    ensures RowRecords(Step(s, e).accounts, Step(s, e).mintedBy, Step(s, e).callbacks, id)
  {
    OnlyTheRowWrittenChanges(s, e, id);
    assert RowRecords(s.accounts, s.mintedBy, s.callbacks, id);
    if id in s.accounts && s.accounts[id].ref.Some? {
      SameRowRecords(s, e, id);
    }
  }

  lemma SameRowRecords(s: State, e: Event, id: Uuid)
    requires RowRecords(s.accounts, s.mintedBy, s.callbacks, id) && id in s.accounts && s.accounts[id].ref.Some?
    ensures RowRecords(s.accounts, Step(s, e).mintedBy, Step(s, e).callbacks, id)
  {
    var l := s.accounts[id].ref.value;
    MintersStay(s, e, l);
    if e.BeginCallback? {
    } else {
      CallbacksKeepTheirPurpose(s, e, s.mintedBy[l]);
    }
  }

  /** A committed row records its writer. */
  lemma WrittenRowRecords(s: State, c: Uuid, id: Uuid, row: Account, commit: Commit)
    requires Invariant(s) && Records(s) && c in s.callbacks && s.callbacks[c].loc.Some?
    requires row.ref == s.callbacks[c].loc && row.granted == Some(s.callbacks[c].granted)
    requires HasKey(row, s.callbacks[c].user, s.callbacks[c].provider, s.callbacks[c].external)
    ensures var t := WriteRow(s, c, id, row, commit); RowRecords(t.accounts, t.mintedBy, t.callbacks, id)
  {
    var t := WriteRow(s, c, id, row, commit);
    if commit == RolledBack && id in s.accounts && s.accounts[id].ref.Some? {
      assert RowRecords(s.accounts, s.mintedBy, s.callbacks, id);
    }
  }

  lemma GotoRecords(s: State, c: Uuid, phase: Phase, id: Uuid)
    requires Records(s) && c in s.callbacks
    ensures var t := Goto(s, c, phase); RowRecords(t.accounts, t.mintedBy, t.callbacks, id)
  {
    assert RowRecords(s.accounts, s.mintedBy, s.callbacks, id);
  }

  lemma ConnectRecords(s: State, c: Uuid, newId: Uuid, commit: Commit, id: Uuid)
    requires Invariant(s) && TargetsAreMailboxes(s) && Records(s) && RowWritten(s, PersistConnect(c, newId, commit)) == Some(id)
    ensures var t := PersistConnectStep(s, c, newId, commit); RowRecords(t.accounts, t.mintedBy, t.callbacks, id)
  {
    var cb := s.callbacks[c];
    assert CallbackOk(s.present, cb) && TargetIsMailbox(s.accounts, cb) && RowRecords(s.accounts, s.mintedBy, s.callbacks, id);
    GotoRecords(s, c, Compensating(ServiceUnavailable), id);
    if cb.phase.existing.None? {
      WrittenRowRecords(s, c, id, NewAccount(cb), commit);
    } else if Owned(s.accounts, id, cb.user) {
      WrittenRowRecords(s, c, id, s.accounts[id].(ref := cb.loc, status := Active, granted := Some(cb.granted)), commit);
    }
  }

  lemma ReauthorizeRecords(s: State, c: Uuid, commit: Commit, id: Uuid)
    requires Invariant(s) && TargetsAreMailboxes(s) && Records(s) && RowWritten(s, PersistReauthorized(c, commit)) == Some(id)
    ensures var t := PersistReauthorizedStep(s, c, commit); RowRecords(t.accounts, t.mintedBy, t.callbacks, id)
  {
    var cb := s.callbacks[c];
    assert CallbackOk(s.present, cb) && TargetIsMailbox(s.accounts, cb);
    GotoRecords(s, c, Compensating(AccountConflict), id);
    if Owned(s.accounts, id, cb.user) {
      WrittenRowRecords(s, c, id, s.accounts[id].(ref := cb.loc, status := Active, granted := Some(cb.granted)), commit);
    }
  }

  lemma RetiredRowsRecord(s: State, e: Event, id: Uuid)
    requires Records(s) && (e.MarkReauth? || e.MarkDisconnected?)
    ensures var t := Step(s, e); RowRecords(t.accounts, t.mintedBy, t.callbacks, id)
  {
    assert RowRecords(s.accounts, s.mintedBy, s.callbacks, id);
  }

  lemma StoringIsForReading(s: State, c: Uuid, l: Locator, creation: Creation)
    requires Records(s)
    ensures forall k :: MintedForReading(StoreCredentialStep(s, c, l, creation).callbacks, k)
  {
    assert MintedForReading(s.callbacks, c);
    forall k ensures MintedForReading(StoreCredentialStep(s, c, l, creation).callbacks, k) {
      assert MintedForReading(s.callbacks, k);
    }
  }

  /** Only a store create gives a callback a locator. */
  lemma LocatorsStay(s: State, e: Event, c: Uuid)
    requires !e.StoreCredential? && c in Step(s, e).callbacks && Step(s, e).callbacks[c].loc.Some?
    ensures c in s.callbacks && s.callbacks[c].loc == Step(s, e).callbacks[c].loc
  {
    if e.BeginCallback? {
    } else if Stepped(e) != Some(c) {
      OnlySteppedCallbackChanges(s, e, c);
    } else {
      match e
      case FindAccount(_, found, ok) => QuietReads(s, c, found, ok, Deleted); PhaseKeepsLocator(s, Step(s, e), c);
      case LoadTarget(_, ok) => QuietReads(s, c, None, ok, Deleted); PhaseKeepsLocator(s, Step(s, e), c);
      case DeletePrevious(_, delete) => QuietReads(s, c, None, true, delete); PhaseKeepsLocator(s, Step(s, e), c);
      case RecheckTarget(_, ok) => QuietReads(s, c, None, ok, Deleted); PhaseKeepsLocator(s, Step(s, e), c);
      case PersistConnect(_, newId, commit) => WritesKeepLocator(s, c, newId, commit);
      case PersistReauthorized(_, commit) => WritesKeepLocator(s, c, 0, commit);
      case DeleteOwn(_, delete) =>
    }
  }

  lemma PhaseKeepsLocator(s: State, t: State, c: Uuid)
    requires SameOrPhase(s, t, c) && c in t.callbacks
    ensures c in s.callbacks && t.callbacks[c].loc == s.callbacks[c].loc
  {
  }

  lemma WritesKeepLocator(s: State, c: Uuid, newId: Uuid, commit: Commit)
    ensures var t := PersistConnectStep(s, c, newId, commit);
      c in t.callbacks ==> c in s.callbacks && t.callbacks[c].loc == s.callbacks[c].loc
    ensures var t := PersistReauthorizedStep(s, c, commit);
      c in t.callbacks ==> c in s.callbacks && t.callbacks[c].loc == s.callbacks[c].loc
  {
  }

  lemma StepKeepsReading(s: State, e: Event, c: Uuid)
    requires Records(s)
    ensures MintedForReading(Step(s, e).callbacks, c)
  {
    if e.StoreCredential? {
      StoringIsForReading(s, e.c, e.l, e.creation);
    } else if c in Step(s, e).callbacks && Step(s, e).callbacks[c].loc.Some? {
      LocatorsStay(s, e, c);
      assert MintedForReading(s.callbacks, c);
      if !e.BeginCallback? { CallbacksKeepTheirPurpose(s, e, c); }
    }
  }

  lemma StepKeepsRecords(s: State, e: Event)
    requires Invariant(s) && TargetsAreMailboxes(s) && Records(s)
    ensures Records(Step(s, e))
  {
    var t := Step(s, e);
    forall id ensures RowRecords(t.accounts, t.mintedBy, t.callbacks, id) {
      if RowWritten(s, e) != Some(id) {
        UnwrittenRowsRecord(s, e, id);
      } else {
        match e
        case PersistConnect(c, newId, commit) => ConnectRecords(s, c, newId, commit, id);
        case PersistReauthorized(c, commit) => ReauthorizeRecords(s, c, commit, id);
        case MarkReauth(_, _) => RetiredRowsRecord(s, e, id);
        case MarkDisconnected(_, _) => RetiredRowsRecord(s, e, id);
      }
    }
    forall c ensures MintedForReading(t.callbacks, c) { StepKeepsReading(s, e, c); }
  }

  lemma {:induction false} RunKeepsRecords(s: State, events: seq<Event>)
    requires Invariant(s) && TargetsAreMailboxes(s) && Records(s)
    ensures Records(Run(s, events))
    decreases |events|
  {
    if events != [] {
      var t := Step(s, events[0]);
      StepKeepsRecords(s, events[0]);
      StepKeepsInvariant(s, events[0]);
      forall c | c in t.callbacks ensures TargetIsMailbox(t.accounts, t.callbacks[c]) { CallbackTargetsMailbox(s, events[0], c); }
      RunKeepsRecords(t, events[1..]);
    }
  }

  lemma ReachableRecords(s: State)
    requires Reachable(s)
    ensures Records(s)
  {
    var events :| s == Run(Empty(), events);
    RunKeepsRecords(Empty(), events);
  }

  /**
   Every row that names a secret records exactly the capabilities granted to the callback that minted that secret, reading
   among them, under that callback's user, provider and mailbox; a row without a secret records none.
   */
  lemma RecordedCapabilitiesWereGranted(s: State, id: Uuid)
    requires Reachable(s) && id in s.accounts
    ensures s.accounts[id].ref.None? ==> s.accounts[id].granted.None?
    ensures s.accounts[id].ref.Some? ==>
      var a, l := s.accounts[id], s.accounts[id].ref.value;
      && l in s.mintedBy && s.mintedBy[l] in s.callbacks
      && var cb := s.callbacks[s.mintedBy[l]];
         && a.granted == Some(cb.granted) && MailRead in cb.granted
         && a.user == cb.user && a.provider == cb.provider && a.external == cb.external
  {
    ReachableIsSafe(s);
    ReachableRecords(s);
    assert RowRecords(s.accounts, s.mintedBy, s.callbacks, id);
    if s.accounts[id].ref.Some? { assert MintedForReading(s.callbacks, s.mintedBy[s.accounts[id].ref.value]); }
  }

  lemma {:induction false} RunSnoc(s: State, events: seq<Event>, e: Event)
    ensures Run(s, events + [e]) == Step(Run(s, events), e)
    decreases |events|
  {
    if events == [] {
      RunCons(s, e, []);
      assert events + [e] == [e] + [];
    } else {
      RunSnoc(Step(s, events[0]), events[1..], e);
      assert (events + [e])[0] == events[0] && (events + [e])[1..] == events[1..] + [e];
    }
  }

  lemma StepsStayReachable(s: State, e: Event)
    requires Reachable(s)
    ensures Reachable(Step(s, e))
  {
    var events :| s == Run(Empty(), events);
    RunSnoc(Empty(), events, e);
  }

  /** However a callback attaches its secret, the row it reports then records what that callback was granted. */
  lemma AttachedAccountsRecordTheGrant(s: State, e: Event, c: Uuid, id: Uuid)
    requires Reachable(s) && c in s.callbacks && !s.callbacks[c].phase.Exited? && At(Step(s, e), c) == Exited(Attached(id))
    ensures var t := Step(s, e);
      && id in t.accounts && t.accounts[id].status == Active && t.accounts[id].granted == Some(t.callbacks[c].granted)
      && MailRead in t.callbacks[c].granted
  {
    ExitsSettleTheCredential(s, e, c);
    StepsStayReachable(s, e);
    RecordedCapabilitiesWereGranted(Step(s, e), id);
  }
}
