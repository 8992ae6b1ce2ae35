/** What every reply call answers and stores, in terms of rows and accounts; and that every send was checked first. */
module ReplyAnswers {
  import opened Text
  import opened WorkflowModel
  import opened ReplyProtocol
  import opened ReplySafety

  // ----- commits -----

  /** The table after a transaction that writes one row. */
  function Stored(rows: map<Uuid, Row>, row: Row, commit: Commit): map<Uuid, Row> {
    if commit == RolledBack then rows else rows[row.id := row]
  }

  /** The caller ended, or went on, in `phase`; tables are as given and nothing else changed. */
  predicate EndsIn(s: State, t: State, caller: Uuid, phase: Phase, rows: map<Uuid, Row>, accounts: map<Uuid, Account>) {
    caller in s.callers
    && t == s.(callers := s.callers[caller := s.callers[caller].(phase := phase)], rows := rows, accounts := accounts)
  }

  lemma CommitAnswers(s: State, caller: Uuid, row: Row, commit: Commit, accounts: map<Uuid, Account>, next: Phase)
    requires caller in s.callers
    ensures EndsIn(s, Finish(s, caller, SaveSuccess(row), commit, accounts, next), caller,
                   if commit == Committed then next else Done(Unavailable),
                   Stored(s.rows, row, commit), if commit == RolledBack then s.accounts else accounts)
  {
  }

  // ----- approving and rejecting -----

  /** The decided row: approval copies the proposed text, rejection only dates itself. */
  function Decided(row: Row, approve: bool, now: Instant): Row {
    if approve then row.(status := Approved, approvedAt := Some(now), approvedBody := Some(row.proposed))
    else row.(status := Rejected, rejectedAt := Some(now))
  }

  /** A loaded decision is stored exactly when the row is still PENDING; a lost race is a conflict. */
  lemma DecisionIsStored(s: State, caller: Uuid, now: Instant, commit: Commit)
    requires Invariant(s) && At(s, caller).PendingLoaded?
    ensures var c := s.callers[caller];
      var t, row := SavePendingStep(s, caller, now, commit), Decided(c.phase.copy, c.operation == Approve, now);
      && c.action in s.rows && s.rows[c.action].owner == c.user
      && if c.phase.copy.status != Pending then EndsIn(s, t, caller, Done(InvalidTransition), s.rows, s.accounts)
         else if s.rows[c.action].status != Pending then EndsIn(s, t, caller, Done(Conflict), s.rows, s.accounts)
         else
           && s.rows[c.action] == c.phase.copy
           && EndsIn(s, t, caller, Done(if commit == Committed then Saved(row) else Unavailable),
                     Stored(s.rows, row, commit), s.accounts)
  {
    assert CallerOk(s, caller);
    var c := s.callers[caller];
    var target := PendingTarget(c.operation);
    if c.phase.copy.status == Pending {
      SaveStoresTheMove(s, c, c.phase.copy, target, now, Pending);
      var changed := Move(c.phase.copy, target, now).value;
      assert changed == Decided(c.phase.copy, c.operation == Approve, now);
      CommitAnswers(s, caller, changed, commit, s.accounts, Done(Saved(changed)));
    }
  }

  lemma LoadedDecisionAnswers(s1: State, s2: State, caller: Uuid, row: Row, now: Instant, commit: Commit)
    requires Invariant(s2) && EndsIn(s1, s2, caller, PendingLoaded(row), s1.rows, s1.accounts)
    requires row.id in s1.rows && s1.rows[row.id] == row && s1.callers[caller].action == row.id
    ensures var decided := Decided(row, s1.callers[caller].operation == Approve, now);
      var t := SavePendingStep(s2, caller, now, commit);
      if row.status != Pending then EndsIn(s1, t, caller, Done(InvalidTransition), s1.rows, s1.accounts)
      else EndsIn(s1, t, caller, Done(if commit == Committed then Saved(decided) else Unavailable),
                  Stored(s1.rows, decided, commit), s1.accounts)
  {
    DecisionIsStored(s2, caller, now, commit);
  }

  lemma RunOfThree(s: State, a: Event, b: Event, c: Event)
    ensures Run(s, [a, b, c]) == Step(Step(Step(s, a), b), c)
  {
    RunThree(s, [a, b, c]);
  }

  lemma TwoStepsKeepInvariant(s: State, a: Event, b: Event)
    requires Invariant(s)
    ensures Invariant(Step(Step(s, a), b))
  {
    StepKeepsInvariant(s, a);
    StepKeepsInvariant(Step(s, a), b);
  }

  /** A whole approval or rejection that nobody disturbs, for every action, user and commit. */
  lemma DecisionAnswers(s: State, caller: Uuid, user: Uuid, action: Uuid, approve: bool, now: Instant, commit: Commit)
    requires Invariant(s) && caller !in s.callers
    ensures var operation := if approve then Approve else Reject;
      var s1 := Step(s, Begin(caller, user, action, operation));
      var t := Run(s, [Begin(caller, user, action, operation), LoadPending(caller), SavePending(caller, now, commit)]);
      if action !in s.rows || s.rows[action].owner != user then EndsIn(s1, t, caller, Done(NotFound), s.rows, s.accounts)
      else if s.rows[action].status != Pending then EndsIn(s1, t, caller, Done(InvalidTransition), s.rows, s.accounts)
      else
        var row := Decided(s.rows[action], approve, now);
        EndsIn(s1, t, caller, Done(if commit == Committed then Saved(row) else Unavailable), Stored(s.rows, row, commit), s.accounts)
  {
    var operation := if approve then Approve else Reject;
    RunOfThree(s, Begin(caller, user, action, operation), LoadPending(caller), SavePending(caller, now, commit));
    DecisionSteps(s, caller, user, action, operation, now, commit);
  }

  lemma DecisionSteps(s: State, caller: Uuid, user: Uuid, action: Uuid, operation: Operation, now: Instant, commit: Commit)
    requires Invariant(s) && caller !in s.callers && operation != Execute
    ensures var s1 := BeginStep(s, caller, user, action, operation);
      var t := SavePendingStep(LoadPendingStep(s1, caller), caller, now, commit);
      if action !in s.rows || s.rows[action].owner != user then EndsIn(s1, t, caller, Done(NotFound), s.rows, s.accounts)
      else if s.rows[action].status != Pending then EndsIn(s1, t, caller, Done(InvalidTransition), s.rows, s.accounts)
      else
        var row := Decided(s.rows[action], operation == Approve, now);
        EndsIn(s1, t, caller, Done(if commit == Committed then Saved(row) else Unavailable), Stored(s.rows, row, commit), s.accounts)
  {
    var s1 := BeginStep(s, caller, user, action, operation);
    TwoStepsKeepInvariant(s, Begin(caller, user, action, operation), LoadPending(caller));
    LoadedForDecision(s, caller, user, action, operation);
    if action in s.rows && s.rows[action].owner == user {
      RowsKnowTheirId(s, action);
      LoadedDecisionAnswers(s1, LoadPendingStep(s1, caller), caller, s.rows[action], now, commit);
    }
  }

  lemma RowsKnowTheirId(s: State, action: Uuid)
    requires Invariant(s) && action in s.rows
    ensures s.rows[action].id == action
  {
  }

  lemma LoadedForDecision(s: State, caller: Uuid, user: Uuid, action: Uuid, operation: Operation)
    requires caller !in s.callers && operation != Execute
    ensures var s1 := BeginStep(s, caller, user, action, operation);
      EndsIn(s1, LoadPendingStep(s1, caller), caller,
             if action in s.rows && s.rows[action].owner == user then PendingLoaded(s.rows[action]) else Done(NotFound),
             s.rows, s.accounts)
  {
  }

  // ----- executing: the checks -----

  /** The account may send for the user: its own, ACTIVE, and with MAIL_SEND unless its grants were never recorded. */
  predicate MaySend(a: Account, user: Uuid) {
    a.owner == user && a.active && (a.granted == None || MailSend in a.granted.value)
  }

  /** The account check lets a call go on exactly with an existing account that may send, and an executor for it. */
  lemma CheckAnswers(s: State, caller: Uuid, available: bool)
    requires At(s, caller).ActionLoaded?
    ensures var c := s.callers[caller];
      var t, row := CheckAccountStep(s, caller, available), c.phase.copy;
      EndsIn(s, t, caller,
             if row.account.Some? && row.account.value in s.accounts && MaySend(s.accounts[row.account.value], c.user) && available
             then AccountChecked(row, s.accounts[row.account.value].provider) else Done(NotExecutable),
             s.rows, s.accounts)
  {
  }

  /** What an execution answers before its save, or the row and account it goes on with. */
  lemma LoadAnswers(s: State, caller: Uuid)
    requires At(s, caller).Started? && s.callers[caller].operation == Execute
    ensures var c := s.callers[caller];
      EndsIn(s, LoadActionStep(s, caller), caller,
             if c.action !in s.rows || s.rows[c.action].owner != c.user then Done(NotFound)
             else if s.rows[c.action].status != Approved then Done(InvalidTransition)
             else if s.rows[c.action].account.None? || s.rows[c.action].message.None? then Done(NotExecutable)
             else ActionLoaded(s.rows[c.action]), s.rows, s.accounts)
  {
  }

  /** A checked execution wins exactly while the row is still APPROVED, and then holds the command of the stored row. */
  lemma ExecutingIsStored(s: State, caller: Uuid, commit: Commit)
    requires Invariant(s) && At(s, caller).AccountChecked?
    ensures var c := s.callers[caller];
      var t, copy := SaveExecutingStep(s, caller, commit), c.phase.copy;
      && c.action in s.rows && copy.id == c.action && HasExecutionTarget(copy)
      && if s.rows[c.action].status != Approved then EndsIn(s, t, caller, Done(Conflict), s.rows, s.accounts)
         else
           && s.rows[c.action] == copy
           && EndsIn(s, t, caller,
                     if commit == Committed
                     then Eligible(Command(copy.id, copy.proposed, copy.account.value, copy.message.value, c.phase.provider))
                     else Done(Unavailable),
                     Stored(s.rows, copy.(status := Executing), commit), s.accounts)
  {
    assert CallerOk(s, caller);
    var c := s.callers[caller];
    var copy, provider := c.phase.copy, c.phase.provider;
    SaveStoresTheMove(s, c, copy, Executing, 0, Approved);
    MoveKeepsValidity(copy, Executing, 0);
    var row := Move(copy, Executing, 0).value;
    assert MatchesProposal(s.rows[c.action], s.proposals[c.action]);
    CommandCarriesProposal(row, s.proposals[c.action], provider);
    var command := ExecutionCommand(row, provider).value;
    ExecutingStepShape(s, caller, commit, row, command);
    if s.rows[c.action].status == Approved { CommitAnswers(s, caller, row, commit, s.accounts, Done(Unavailable)); }
  }

  /** What the first half of an undisturbed execution ends in, for every action, user, account and commit. */
  function LaunchPhase(s: State, user: Uuid, action: Uuid, available: bool, commit: Commit): Phase {
    if action !in s.rows || s.rows[action].owner != user then Done(NotFound)
    else if s.rows[action].status != Approved then Done(InvalidTransition)
    else var row := s.rows[action];
      if row.account.None? || row.message.None? then Done(NotExecutable)
      else if row.account.value !in s.accounts || !MaySend(s.accounts[row.account.value], user) || !available then Done(NotExecutable)
      else if commit != Committed then Done(Unavailable)
      else Eligible(Command(action, row.proposed, row.account.value, row.message.value, s.accounts[row.account.value].provider))
  }

  /** Whether it gets as far as its save. */
  predicate Saves(s: State, user: Uuid, action: Uuid, available: bool) {
    action in s.rows && LaunchPhase(s, user, action, available, Committed).Eligible?
  }

  lemma ReadsAnswer(s: State, caller: Uuid, user: Uuid, action: Uuid, available: bool)
    requires caller !in s.callers
    ensures var s1 := BeginStep(s, caller, user, action, Execute);
      var t := CheckAccountStep(LoadActionStep(s1, caller), caller, available);
      EndsIn(s1, t, caller,
             if Saves(s, user, action, available) then AccountChecked(s.rows[action], s.accounts[s.rows[action].account.value].provider)
             else LaunchPhase(s, user, action, available, Committed),
             s.rows, s.accounts)
  {
    var s1 := BeginStep(s, caller, user, action, Execute);
    LoadAnswers(s1, caller);
    var s2 := LoadActionStep(s1, caller);
    if At(s2, caller).ActionLoaded? { CheckAnswers(s2, caller, available); }
  }

  /** The first half of a whole execution that nobody disturbs. */
  lemma LaunchAnswers(s: State, caller: Uuid, user: Uuid, action: Uuid, available: bool, commit: Commit)
    requires Invariant(s) && caller !in s.callers
    ensures var s1 := Step(s, Begin(caller, user, action, Execute));
      EndsIn(s1, LaunchOf(s, caller, user, action, available, commit), caller, LaunchPhase(s, user, action, available, commit),
             if Saves(s, user, action, available) then Stored(s.rows, s.rows[action].(status := Executing), commit) else s.rows,
             s.accounts)
  {
    var s1 := BeginStep(s, caller, user, action, Execute);
    var s3 := CheckAccountStep(LoadActionStep(s1, caller), caller, available);
    ReadsAnswer(s, caller, user, action, available);
    if Saves(s, user, action, available) {
      ReadsKeepInvariant(s, caller, user, action, available);
      CheckedLaunchAnswers(s1, s3, caller, s.rows[action], commit);
    } else {
      EndedLaunchAnswers(s, user, action, available, commit);
      EndedCallsSaveNothing(s3, caller, commit);
    }
  }

  lemma EndedLaunchAnswers(s: State, user: Uuid, action: Uuid, available: bool, commit: Commit)
    requires !Saves(s, user, action, available)
    ensures LaunchPhase(s, user, action, available, commit) == LaunchPhase(s, user, action, available, Committed)
    ensures LaunchPhase(s, user, action, available, commit).Done?
  {
  }

  lemma EndedCallsSaveNothing(s: State, caller: Uuid, commit: Commit)
    requires At(s, caller).Done?
    ensures SaveExecutingStep(s, caller, commit) == s
  {
  }

  lemma CheckedLaunchAnswers(s1: State, s3: State, caller: Uuid, row: Row, commit: Commit)
    requires Invariant(s3) && At(s3, caller).AccountChecked? && At(s3, caller).copy == row
    requires EndsIn(s1, s3, caller, At(s3, caller), s1.rows, s1.accounts)
    requires row.id in s1.rows && s1.rows[row.id] == row && row.status == Approved && s1.callers[caller].action == row.id
    ensures HasExecutionTarget(row)
    ensures EndsIn(s1, SaveExecutingStep(s3, caller, commit), caller,
                   if commit != Committed then Done(Unavailable)
                   else Eligible(Command(row.id, row.proposed, row.account.value, row.message.value, At(s3, caller).provider)),
                   Stored(s1.rows, row.(status := Executing), commit), s1.accounts)
  {
    ExecutingIsStored(s3, caller, commit);
  }

  lemma ReadsKeepInvariant(s: State, caller: Uuid, user: Uuid, action: Uuid, available: bool)
    requires Invariant(s)
    ensures Invariant(CheckAccountStep(LoadActionStep(BeginStep(s, caller, user, action, Execute), caller), caller, available))
  {
    var s1 := BeginStep(s, caller, user, action, Execute);
    BeginKeepsInvariant(s, caller, user, action, Execute);
    ExecuteReadsKeepInvariant(s1, caller, available);
    ExecuteReadsKeepInvariant(LoadActionStep(s1, caller), caller, available);
  }

  // ----- executing: the outcome -----

  /** The row a definite outcome leads to. */
  function Concluded(row: Row, outcome: Outcome, now: Instant): Row {
    if outcome == Returned then row.(status := Executed, executedAt := Some(now)) else row.(status := Failed, failedAt := Some(now))
  }

  /** A failed token refresh takes the caller's own ACTIVE account out of service, and no other outcome touches accounts. */
  function AccountsAfter(accounts: map<Uuid, Account>, account: Uuid, user: Uuid, outcome: Outcome): map<Uuid, Account> {
    if outcome == ReauthorizationRequired && account in accounts && accounts[account].owner == user && accounts[account].active
    then accounts[account := accounts[account].(active := false)] else accounts
  }

  lemma OutcomeIsStored(s: State, caller: Uuid, now: Instant, commit: Commit, outcome: Outcome)
    requires Invariant(s) && At(s, caller).TerminalLoaded? && s.sends[At(s, caller).at].outcome == Some(outcome)
    requires At(s, caller).copy.status == Executing && s.rows[s.callers[caller].action].status == Executing
    ensures var c := s.callers[caller];
      var row := Concluded(s.rows[c.action], outcome, now);
      EndsIn(s, SaveTerminalStep(s, caller, now, commit), caller, Done(if commit == Committed then Saved(row) else Unavailable),
             Stored(s.rows, row, commit),
             if commit == RolledBack then s.accounts
             else AccountsAfter(s.accounts, s.sends[c.phase.at].command.account, c.user, outcome))
  {
    assert CallerOk(s, caller);
    var c := s.callers[caller];
    var target := if outcome == Returned then Executed else Failed;
    SaveStoresTheMove(s, c, c.phase.copy, target, now, Executing);
    var changed := Move(c.phase.copy, target, now).value;
    CommitAnswers(s, caller, changed, commit, AccountsAfter(s.accounts, s.sends[c.phase.at].command.account, c.user, outcome),
                  Done(Saved(changed)));
  }

  /** After the call: what is loaded for its outcome, or the propagated error. */
  lemma CallAnswers(s: State, caller: Uuid, outcome: Outcome)
    requires Invariant(s) && At(s, caller).Eligible?
    requires var c := s.callers[caller]; s.rows[c.action].status == Executing && s.rows[c.action].owner == c.user
    ensures var c, t := s.callers[caller], CallOf(s, caller, outcome);
      t == s.(sends := s.sends + [Send(caller, c.phase.command, Some(outcome))],
              callers := s.callers[caller := c.(phase := if outcome == OtherError then Done(Propagated)
                                                        else TerminalLoaded(|s.sends|, s.rows[c.action]))])
  {
    assert CallerOk(s, caller);
    var c := s.callers[caller];
    var s2 := ReturnStep(InvokeStep(s, caller), caller, outcome);
    CallIsRecorded(s, caller, outcome);
    assert s2 == s.(sends := s2.sends, callers := s.callers[caller := s2.callers[caller]]);
  }

  /**
   The second half of an execution that nobody disturbs, for every outcome and commit: one send; an unknown outcome is
   propagated and leaves the row EXECUTING; a definite one is stored with the account it took out of service.
   */
  lemma ConclusionAnswers(s: State, caller: Uuid, outcome: Outcome, now: Instant, commit: Commit)
    requires Invariant(s) && At(s, caller).Eligible?
    requires var c := s.callers[caller]; s.rows[c.action].status == Executing && s.rows[c.action].owner == c.user
    ensures var c, t := s.callers[caller], ConclusionOf(s, caller, outcome, now, commit);
      var sent := s.(sends := s.sends + [Send(caller, c.phase.command, Some(outcome))]);
      if outcome == OtherError then EndsIn(sent, t, caller, Done(Propagated), s.rows, s.accounts)
      else
        var row := Concluded(s.rows[c.action], outcome, now);
        EndsIn(sent, t, caller, Done(if commit == Committed then Saved(row) else Unavailable), Stored(s.rows, row, commit),
               if commit == RolledBack then s.accounts
               else AccountsAfter(s.accounts, c.phase.command.account, c.user, outcome))
  {
    CallAnswers(s, caller, outcome);
    CallKeepsInvariant(s, caller, outcome);
    var u := CallOf(s, caller, outcome);
    assert ConclusionOf(s, caller, outcome, now, commit) == SaveTerminalStep(u, caller, now, commit);
    if outcome != OtherError { OutcomeIsStored(u, caller, now, commit, outcome); }
  }

  // ----- every send was checked -----

  /**
   Event `k` of the run checked this very account for this caller and found that it may send, that an executor for it was
   available, and which provider it has.
   */
  ghost predicate CheckedAt(events: seq<Event>, k: nat, caller: Uuid, user: Uuid, account: Uuid, provider: string) {
    && k < |events| && events[k] == CheckAccount(caller, true)
    && var s := Run(Empty(), events[..k]);
       && account in s.accounts && MaySend(s.accounts[account], user) && s.accounts[account].provider == provider
  }

  ghost predicate Checked(events: seq<Event>, caller: Uuid, user: Uuid, account: Uuid, provider: string) {
    exists k :: CheckedAt(events, k, caller, user, account, provider)
  }

  /** The callers between their check and their send were checked. */
  ghost predicate CallerWasChecked(events: seq<Event>, s: State, c: Uuid) {
    c in s.callers ==>
      var me := s.callers[c];
      match me.phase
      case AccountChecked(copy, provider) => copy.account.Some? && Checked(events, c, me.user, copy.account.value, provider)
      case Eligible(command) =>
        && Checked(events, c, me.user, command.account, command.provider)
        && command.action == me.action && me.action in s.rows && s.rows[me.action].owner == me.user
      case _ => true
  }

  ghost predicate SendWasChecked(events: seq<Event>, s: State, i: nat) {
    i < |s.sends| ==>
      var send := s.sends[i];
      && send.caller in s.callers
      && Checked(events, send.caller, s.callers[send.caller].user, send.command.account, send.command.provider)
      && send.command.action in s.rows && s.rows[send.command.action].owner == s.callers[send.caller].user
  }

  ghost predicate AllChecked(events: seq<Event>, s: State) {
    (forall c :: CallerWasChecked(events, s, c)) && (forall i :: SendWasChecked(events, s, i))
  }

  lemma {:induction false} RunSnoc(s: State, events: seq<Event>, e: Event)
    ensures Run(s, events + [e]) == Step(Run(s, events), e)
    decreases |events|
  {
    if events == [] {
      assert [] + [e] == [e] && [e][1..] == [];
    } else {
      RunSnoc(Step(s, events[0]), events[1..], e);
      assert (events + [e])[0] == events[0] && (events + [e])[1..] == events[1..] + [e];
    }
  }

  lemma CheckedIsKept(events: seq<Event>, e: Event, caller: Uuid, user: Uuid, account: Uuid, provider: string)
    requires Checked(events, caller, user, account, provider)
    ensures Checked(events + [e], caller, user, account, provider)
  {
    var k: nat :| CheckedAt(events, k, caller, user, account, provider);
    assert (events + [e])[..k] == events[..k];
    assert CheckedAt(events + [e], k, caller, user, account, provider);
  }

  lemma CheckIsRecorded(events: seq<Event>, caller: Uuid, available: bool)
    requires var s := Run(Empty(), events);
      At(s, caller).ActionLoaded? && At(CheckAccountStep(s, caller, available), caller).AccountChecked?
    ensures CallerWasChecked(events + [CheckAccount(caller, available)],
                             CheckAccountStep(Run(Empty(), events), caller, available), caller)
  {
    var s, all := Run(Empty(), events), events + [CheckAccount(caller, available)];
    CheckAnswers(s, caller, available);
    var copy := s.callers[caller].phase.copy;
    assert all[..|events|] == events;
    assert CheckedAt(all, |events|, caller, s.callers[caller].user, copy.account.value, s.accounts[copy.account.value].provider);
  }

  predicate GoesOn(s: State, c: Uuid) {
    At(s, c).AccountChecked? || At(s, c).Eligible?
  }

  predicate SameUser(s: State, t: State, c: Uuid) {
    c in s.callers ==> c in t.callers && t.callers[c].user == s.callers[c].user
  }

  /** Nobody but `caller` changed, users stay, nothing was sent. */
  ghost predicate OnlyCaller(s: State, t: State, caller: Uuid) {
    && t.sends == s.sends && (forall c :: SameUser(s, t, c))
    && (forall c :: c != caller && GoesOn(t, c) ==> c in s.callers && t.callers[c] == s.callers[c])
  }

  lemma GotoIsOnlyCaller(s: State, caller: Uuid, phase: Phase)
    requires caller in s.callers
    ensures OnlyCaller(s, Goto(s, caller, phase), caller)
  {
  }

  lemma BeginsGoOnWithNothing(s: State, caller: Uuid, user: Uuid, action: Uuid, operation: Operation)
    ensures var t := BeginStep(s, caller, user, action, operation);
      OnlyCaller(s, t, caller) && (GoesOn(t, caller) ==> t.callers[caller] == s.callers[caller])
  {
  }

  lemma FinishIsOnlyCaller(s: State, caller: Uuid, result: SaveResult, commit: Commit, accounts: map<Uuid, Account>, next: Phase)
    requires caller in s.callers
    ensures var t := Finish(s, caller, result, commit, accounts, next);
      OnlyCaller(s, t, caller) && (next.Done? ==> !GoesOn(t, caller))
  {
  }

  /** A step that brings its caller no nearer to a send. */
  ghost predicate Aside(s: State, t: State, caller: Uuid) {
    OnlyCaller(s, t, caller) && (GoesOn(t, caller) ==> caller in s.callers && t.callers[caller] == s.callers[caller])
  }

  lemma PendingLoadsGoAside(s: State, caller: Uuid)
    ensures Aside(s, LoadPendingStep(s, caller), caller)
  {
  }

  lemma ActionLoadsGoAside(s: State, caller: Uuid)
    ensures Aside(s, LoadActionStep(s, caller), caller)
  {
  }

  lemma OutcomeLoadsGoAside(s: State, caller: Uuid)
    ensures Aside(s, LoadTerminalStep(s, caller), caller)
  {
  }

  lemma DecisionsGoAside(s: State, caller: Uuid, now: Instant, commit: Commit)
    ensures Aside(s, SavePendingStep(s, caller, now, commit), caller)
  {
    if At(s, caller).PendingLoaded? {
      var changed := Move(s.callers[caller].phase.copy, PendingTarget(s.callers[caller].operation), now);
      if changed.Some? {
        var result := SaveOwned(s.rows, changed.value, Pending);
        FinishIsOnlyCaller(s, caller, result, commit, s.accounts, Done(if result.SaveSuccess? then Saved(result.row) else Unavailable));
      } else {
        GotoIsOnlyCaller(s, caller, Done(InvalidTransition));
      }
    }
  }

  lemma OutcomesGoAside(s: State, caller: Uuid, now: Instant, commit: Commit)
    ensures Aside(s, SaveTerminalStep(s, caller, now, commit), caller)
  {
    if At(s, caller).TerminalLoaded? && s.callers[caller].phase.at < |s.sends| {
      var TerminalLoaded(at, copy) := s.callers[caller].phase;
      var changed := Move(copy, if s.sends[at].outcome == Some(Returned) then Executed else Failed, now);
      if changed.Some? {
        var result := SaveOwned(s.rows, changed.value, Executing);
        var accounts := if s.sends[at].outcome == Some(ReauthorizationRequired)
                        then MarkReauthRequired(s.accounts, s.sends[at].command.account, s.callers[caller].user) else s.accounts;
        FinishIsOnlyCaller(s, caller, result, commit, accounts, Done(if result.SaveSuccess? then Saved(result.row) else Unavailable));
      } else {
        GotoIsOnlyCaller(s, caller, Done(InvalidTransition));
      }
    }
  }

  lemma ChecksAndSavesAreOnlyCaller(s: State, caller: Uuid, available: bool, commit: Commit)
    requires caller in s.callers
    ensures OnlyCaller(s, CheckAccountStep(s, caller, available), caller)
    ensures OnlyCaller(s, SaveExecutingStep(s, caller, commit), caller)
  {
    if At(s, caller).AccountChecked? {
      var phase := s.callers[caller].phase;
      var changed := Move(phase.copy, Executing, 0);
      if changed.Some? {
        var result := SaveOwned(s.rows, changed.value, Approved);
        var command := if result.SaveSuccess? then ExecutionCommand(result.row, phase.provider) else None;
        FinishIsOnlyCaller(s, caller, result, commit, s.accounts, if command.Some? then Eligible(command.value) else Done(Unavailable));
      }
    }
  }

  /** Neither creations, account changes and beginnings nor the steps of decisions and outcomes bring a caller nearer to a send. */
  lemma OtherStepsGoAside(s: State, e: Event)
    requires !e.CheckAccount? && !e.SaveExecuting? && !e.Invoke? && !e.Return? && !e.Create? && !e.ChangeAccount?
    ensures Aside(s, Step(s, e), e.caller)
  {
    match e
    case Begin(caller, user, action, operation) => BeginsGoOnWithNothing(s, caller, user, action, operation);
    case LoadPending(caller) => PendingLoadsGoAside(s, caller);
    case LoadAction(caller) => ActionLoadsGoAside(s, caller);
    case LoadTerminal(caller) => OutcomeLoadsGoAside(s, caller);
    case SavePending(caller, now, commit) => DecisionsGoAside(s, caller, now, commit);
    case SaveTerminal(caller, now, commit) => OutcomesGoAside(s, caller, now, commit);
  }

  lemma SendStepsGoAside(s: State, caller: Uuid, outcome: Outcome, c: Uuid)
    ensures var t := InvokeStep(s, caller);
      SameUser(s, t, c) && (GoesOn(t, c) ==> c in s.callers && t.callers[c] == s.callers[c])
    ensures var t := ReturnStep(s, caller, outcome);
      SameUser(s, t, c) && (GoesOn(t, c) ==> c in s.callers && t.callers[c] == s.callers[c])
  {
  }

  /** Which steps bring a caller into one of the two phases. */
  lemma OnlyChecksAndSavesGoOn(s: State, e: Event, c: Uuid)
    ensures SameUser(s, Step(s, e), c)
    ensures GoesOn(Step(s, e), c) ==>
      && c in s.callers
      && (|| Step(s, e).callers[c] == s.callers[c]
          || (e.CheckAccount? && e.caller == c && At(s, c).ActionLoaded? && At(Step(s, e), c).AccountChecked?)
          || (e.SaveExecuting? && e.caller == c && At(s, c).AccountChecked?))
  {
    match e
    case Create(_, _, _, _, _) =>
    case ChangeAccount(_, _) =>
    case CheckAccount(caller, available) => if caller in s.callers { ChecksAndSavesAreOnlyCaller(s, caller, available, Committed); }
    case SaveExecuting(caller, commit) => if caller in s.callers { ChecksAndSavesAreOnlyCaller(s, caller, true, commit); }
    case Invoke(caller) => SendStepsGoAside(s, caller, OtherError, c);
    case Return(caller, outcome) => SendStepsGoAside(s, caller, outcome, c);
    case _ => OtherStepsGoAside(s, e);
  }

  /** A checked caller is about its own user's row. */
  lemma CheckedCallersOwnTheirRow(s: State, caller: Uuid)
    requires Invariant(s) && At(s, caller).AccountChecked?
    ensures var c := s.callers[caller]; c.action in s.rows && s.rows[c.action].owner == c.user
  {
    assert CallerOk(s, caller);
  }

  /** A caller that keeps its phase stays checked. */
  lemma UnmovedCallersStayChecked(events: seq<Event>, e: Event, c: Uuid)
    requires var s := Run(Empty(), events); Invariant(s) && CallerWasChecked(events, s, c)
    requires var s := Run(Empty(), events);
      GoesOn(s, c) && c in s.callers && c in Step(s, e).callers && Step(s, e).callers[c] == s.callers[c]
    ensures CallerWasChecked(events + [e], Step(Run(Empty(), events), e), c)
  {
    var s := Run(Empty(), events);
    var me := s.callers[c];
    if me.phase.AccountChecked? {
      CheckedIsKept(events, e, c, me.user, me.phase.copy.account.value, me.phase.provider);
    } else {
      StepEvolves(s, e);
      CheckedIsKept(events, e, c, me.user, me.phase.command.account, me.phase.command.provider);
    }
  }

  /** A checked caller whose save wins is about the row and the account it checked. */
  lemma SavedCallersStayChecked(events: seq<Event>, c: Uuid, commit: Commit)
    requires var s := Run(Empty(), events); Invariant(s) && CallerWasChecked(events, s, c) && At(s, c).AccountChecked?
    requires At(SaveExecutingStep(Run(Empty(), events), c, commit), c).Eligible?
    ensures CallerWasChecked(events + [SaveExecuting(c, commit)], SaveExecutingStep(Run(Empty(), events), c, commit), c)
  {
    var s, e := Run(Empty(), events), SaveExecuting(c, commit);
    var me := s.callers[c];
    CheckedIsKept(events, e, c, me.user, me.phase.copy.account.value, me.phase.provider);
    CheckedCallersOwnTheirRow(s, c);
    ExecutingIsStored(s, c, commit);
  }

  lemma CallerStaysChecked(events: seq<Event>, e: Event, c: Uuid)
    requires var s := Run(Empty(), events); Invariant(s) && AllChecked(events, s)
    ensures CallerWasChecked(events + [e], Step(Run(Empty(), events), e), c)
  {
    var s := Run(Empty(), events);
    var t := Step(s, e);
    OnlyChecksAndSavesGoOn(s, e, c);
    if GoesOn(t, c) {
      assert CallerWasChecked(events, s, c);
      if t.callers[c] == s.callers[c] {
        UnmovedCallersStayChecked(events, e, c);
      } else if e.CheckAccount? {
        CheckIsRecorded(events, c, e.executorAvailable);
      } else if t.callers[c].phase.Eligible? {
        SavedCallersStayChecked(events, c, e.commit);
      } else {
        SavesLeaveTheCheck(s, c, e.commit);
      }
    }
  }

  lemma SavesLeaveTheCheck(s: State, c: Uuid, commit: Commit)
    requires At(s, c).AccountChecked?
    ensures !At(SaveExecutingStep(s, c, commit), c).AccountChecked?
  {
  }

  lemma OnlyInvocationsSend(s: State, e: Event)
    requires !e.Invoke? && !e.Return?
    ensures Step(s, e).sends == s.sends
  {
    match e
    case Create(_, _, _, _, _) =>
    case ChangeAccount(_, _) =>
    case CheckAccount(caller, available) => if caller in s.callers { ChecksAndSavesAreOnlyCaller(s, caller, available, Committed); }
    case SaveExecuting(caller, commit) => if caller in s.callers { ChecksAndSavesAreOnlyCaller(s, caller, true, commit); }
    case _ => OtherStepsGoAside(s, e);
  }

  /** Every send is an old one, or the command its caller just had in hand. */
  lemma SendsComeFromCommands(s: State, e: Event, i: nat)
    requires i < |Step(s, e).sends|
    ensures var send := Step(s, e).sends[i];
      if i < |s.sends| then send.caller == s.sends[i].caller && send.command == s.sends[i].command
      else At(s, send.caller).Eligible? && send.command == At(s, send.caller).command
  {
    if !e.Invoke? && !e.Return? { OnlyInvocationsSend(s, e); }
  }

  lemma SendStaysChecked(events: seq<Event>, e: Event, i: nat)
    requires var s := Run(Empty(), events); Invariant(s) && AllChecked(events, s)
    ensures SendWasChecked(events + [e], Step(Run(Empty(), events), e), i)
  {
    var s := Run(Empty(), events);
    var t := Step(s, e);
    if i < |t.sends| {
      SendsComeFromCommands(s, e, i);
      StepEvolves(s, e);
      var send := t.sends[i];
      assert SendWasChecked(events, s, i) && CallerWasChecked(events, s, send.caller);
      OnlyChecksAndSavesGoOn(s, e, send.caller);
      CheckedIsKept(events, e, send.caller, s.callers[send.caller].user, send.command.account, send.command.provider);
    }
  }

  lemma {:induction false} RunsCheckBeforeSending(events: seq<Event>)
    ensures AllChecked(events, Run(Empty(), events)) && Invariant(Run(Empty(), events))
    decreases |events|
  {
    RunKeepsInvariant(Empty(), events);
    if events != [] {
      var n := |events| - 1;
      var front, e := events[..n], events[n];
      assert events == front + [e];
      RunsCheckBeforeSending(front);
      RunSnoc(Empty(), front, e);
      forall c ensures CallerWasChecked(events, Run(Empty(), events), c) { CallerStaysChecked(front, e, c); }
      forall i ensures SendWasChecked(events, Run(Empty(), events), i) { if i >= 0 { SendStaysChecked(front, e, i); } }
    }
  }

  /**
   In every run each executor call was preceded by a check, made for its own caller, that found its very account to be the
   caller's own, ACTIVE, allowed to send, and of the provider the command names; and the action is that caller's own.
   */
  lemma SendsWereChecked(events: seq<Event>, i: nat)
    requires i < |Run(Empty(), events).sends|
    ensures var t := Run(Empty(), events);
      var send := t.sends[i];
      && send.caller in t.callers && send.command.action in t.rows
      && t.rows[send.command.action].owner == t.callers[send.caller].user
      && exists k :: CheckedAt(events, k, send.caller, t.callers[send.caller].user, send.command.account, send.command.provider)
  {
    RunsCheckBeforeSending(events);
    assert SendWasChecked(events, Run(Empty(), events), i);
  }
}
