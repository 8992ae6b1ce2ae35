/** What every interleaving of the reply protocol keeps, and what follows about sends and stored outcomes. */
module ReplySafety {
  import opened Text
  import opened WorkflowModel
  import opened ReplyProtocol

  // ----- the invariant -----

  predicate MatchesProposal(r: Row, p: Proposal) {
    && r.owner == p.owner && r.proposed == p.body && r.account == p.account && r.message == p.message
    && (r.approvedBody.Some? ==> r.approvedBody.value == p.body)
  }

  ghost predicate RowsOk(s: State) {
    forall id :: id in s.rows ==>
      s.rows[id].id == id && ValidRow(s.rows[id]) && id in s.proposals && MatchesProposal(s.rows[id], s.proposals[id])
  }

  /** A loaded copy is never ahead of the store, and equals the stored row as long as the status has not moved. */
  predicate CopyOk(rows: map<Uuid, Row>, c: Caller, copy: Row) {
    && c.action in rows && copy.id == c.action && copy.owner == c.user
    && SameProposal(copy, rows[c.action]) && ValidRow(copy)
    && Rank(copy.status) <= Rank(rows[c.action].status)
    && (copy.status == rows[c.action].status ==> copy == rows[c.action])
    && (copy.approvedBody.Some? ==> copy.approvedBody.value == copy.proposed)
  }

  predicate CommandOk(proposals: map<Uuid, Proposal>, command: Command) {
    command.action in proposals &&
    var p := proposals[command.action];
    command.body == p.body && p.account == Some(command.account) && p.message == Some(command.message)
  }

  /** The action's EXECUTING transition has been committed. */
  predicate Launched(rows: map<Uuid, Row>, action: Uuid) {
    action in rows && (rows[action].status == Executing || rows[action].status == Executed || rows[action].status == Failed)
  }

  predicate NoSend(sends: seq<Send>, action: Uuid) {
    forall i :: 0 <= i < |sends| ==> sends[i].command.action != action
  }

  predicate OwnsSend(sends: seq<Send>, caller: Uuid, action: Uuid, at: nat) {
    at < |sends| && sends[at].caller == caller && sends[at].command.action == action
  }

  predicate Definite(outcome: Option<Outcome>) {
    outcome.Some? && outcome.value != OtherError
  }

  predicate CallerOk(s: State, caller: Uuid)
    requires caller in s.callers
  {
    var c := s.callers[caller];
    match c.phase
    case PendingLoaded(copy) => CopyOk(s.rows, c, copy) && c.operation != Execute
    case ActionLoaded(copy) => CopyOk(s.rows, c, copy) && copy.status == Approved && HasExecutionTarget(copy)
    case AccountChecked(copy, _) => CopyOk(s.rows, c, copy) && copy.status == Approved && HasExecutionTarget(copy)
    case Eligible(command) =>
      command.action == c.action && Launched(s.rows, c.action) && CommandOk(s.proposals, command) && NoSend(s.sends, c.action)
    case Calling(at) => OwnsSend(s.sends, caller, c.action, at) && s.sends[at].outcome.None?
    case Finished(at) => OwnsSend(s.sends, caller, c.action, at) && Definite(s.sends[at].outcome)
    case TerminalLoaded(at, copy) =>
      OwnsSend(s.sends, caller, c.action, at) && Definite(s.sends[at].outcome) && CopyOk(s.rows, c, copy)
    case _ => true
  }

  ghost predicate CallersOk(s: State) {
    forall c :: c in s.callers ==> CallerOk(s, c)
  }

  predicate IsEligible(s: State, caller: Uuid, action: Uuid) {
    caller in s.callers && s.callers[caller].phase.Eligible? && s.callers[caller].action == action
  }

  ghost predicate OneEligible(s: State) {
    forall c, d, a :: IsEligible(s, c, a) && IsEligible(s, d, a) ==> c == d
  }

  ghost predicate SendsOk(s: State) {
    && (forall i :: 0 <= i < |s.sends| ==> Launched(s.rows, s.sends[i].command.action) && CommandOk(s.proposals, s.sends[i].command))
    && (forall i, j :: 0 <= i < j < |s.sends| ==> s.sends[i].command.action != s.sends[j].command.action)
  }

  predicate HasOutcome(sends: seq<Send>, action: Uuid, outcome: Outcome) {
    exists i :: 0 <= i < |sends| && sends[i].command.action == action && sends[i].outcome == Some(outcome)
  }

  predicate OutcomeOk(s: State, action: Uuid)
    requires action in s.rows
  {
    && (s.rows[action].status == Executed ==> HasOutcome(s.sends, action, Returned))
    && (s.rows[action].status == Failed ==>
          HasOutcome(s.sends, action, ReauthorizationRequired) || HasOutcome(s.sends, action, ExecutionFailed))
  }

  ghost predicate OutcomesOk(s: State) {
    forall id :: id in s.rows ==> OutcomeOk(s, id)
  }

  ghost predicate Invariant(s: State) {
    RowsOk(s) && CallersOk(s) && OneEligible(s) && SendsOk(s) && OutcomesOk(s)
  }

  // ----- one step -----

  /** A caller moving to a phase that is itself consistent disturbs nobody else. */
  lemma GotoKeepsInvariant(s: State, caller: Uuid, phase: Phase)
    requires Invariant(s) && caller in s.callers && !phase.Eligible?
    requires CallerOk(Goto(s, caller, phase), caller)
    ensures Invariant(Goto(s, caller, phase))
  {
    var t := Goto(s, caller, phase);
    forall c | c in t.callers ensures CallerOk(t, c) {
      assert c != caller ==> CallerOk(s, c);
    }
    forall c, d, a | IsEligible(t, c, a) && IsEligible(t, d, a) ensures c == d {
      assert IsEligible(s, c, a) && IsEligible(s, d, a);
    }
  }

  /** A saved row that went forward from a stored one, with the proposal columns untouched. */
  predicate Advance(s: State, row: Row) {
    && row.id in s.rows && SameProposal(s.rows[row.id], row) && ValidRow(row)
    && Allowed(s.rows[row.id].status, row.status)
    && (row.approvedBody.Some? ==> row.approvedBody.value == row.proposed)
  }

  lemma CopySurvives(rows: map<Uuid, Row>, c: Caller, copy: Row, row: Row)
    requires CopyOk(rows, c, copy) && row.id in rows
    requires SameProposal(rows[row.id], row) && Rank(rows[row.id].status) < Rank(row.status)
    ensures CopyOk(rows[row.id := row], c, copy)
  {
  }

  lemma CallerSurvives(s: State, row: Row, t: State, c: Uuid)
    requires Invariant(s) && Advance(s, row) && c in s.callers
    requires t.rows == s.rows[row.id := row] && t.callers == s.callers && t.sends == s.sends && t.proposals == s.proposals
    ensures CallerOk(t, c)
  {
    assert CallerOk(s, c);
    match s.callers[c].phase
    case PendingLoaded(copy) => CopySurvives(s.rows, s.callers[c], copy, row);
    case ActionLoaded(copy) => CopySurvives(s.rows, s.callers[c], copy, row);
    case AccountChecked(copy, _) => CopySurvives(s.rows, s.callers[c], copy, row);
    case TerminalLoaded(at, copy) => CopySurvives(s.rows, s.callers[c], copy, row);
    case _ =>
  }

  /** Writing an advanced row keeps every loaded copy, every send and every other row consistent. */
  lemma AdvanceKeepsInvariant(s: State, row: Row, accounts: map<Uuid, Account>)
    requires Invariant(s) && Advance(s, row)
    requires row.status == Executed ==> HasOutcome(s.sends, row.id, Returned)
    requires row.status == Failed ==>
      HasOutcome(s.sends, row.id, ReauthorizationRequired) || HasOutcome(s.sends, row.id, ExecutionFailed)
    ensures Invariant(s.(rows := s.rows[row.id := row], accounts := accounts))
  {
    var t := s.(rows := s.rows[row.id := row], accounts := accounts);
    assert RowsOk(t) by {
      assert MatchesProposal(s.rows[row.id], s.proposals[row.id]);
    }
    assert CallersOk(t) by {
      forall c | c in t.callers ensures CallerOk(t, c) { CallerSurvives(s, row, t, c); }
    }
    assert OneEligible(t) by {
      forall c, d, a | IsEligible(t, c, a) && IsEligible(t, d, a) ensures c == d {
        assert IsEligible(s, c, a) && IsEligible(s, d, a);
      }
    }
    assert SendsOk(t);
    assert OutcomesOk(t) by {
      forall id | id in t.rows ensures OutcomeOk(t, id) { assert id != row.id ==> OutcomeOk(s, id); }
    }
  }

  /** A conditional save of a moved copy either refuses or stores exactly the moved copy, which is an advance. */
  lemma SaveStoresTheMove(s: State, c: Caller, copy: Row, target: Status, now: Instant, expected: Status)
    requires Invariant(s) && CopyOk(s.rows, c, copy) && copy.status == expected && Move(copy, target, now).Some?
    ensures var changed := Move(copy, target, now).value;
      match SaveOwned(s.rows, changed, expected)
      case SaveSuccess(row) => row == changed && Advance(s, row) && s.rows[row.id] == copy
      case SaveConflict => s.rows[c.action].status != expected
      case _ => false
  {
    var changed := Move(copy, target, now).value;
    var stored := s.rows[c.action];
    MoveKeepsValidity(copy, target, now);
    if stored.status == expected {
      assert WithLifecycle(stored, changed) == changed;
      RehydrateValidates(changed);
    }
  }

  lemma CreateKeepsInvariant(s: State, id: Uuid, owner: Uuid, a: AnalysisRecord, now: Instant, commit: Commit)
    requires Invariant(s)
    ensures Invariant(CreateStep(s, id, owner, a, now, commit))
  {
    var t := CreateStep(s, id, owner, a, now, commit);
    if t != s {
      var both := a.account.Some? && a.message.Some?;
      RehydrateValidates(Row(id, a.id, owner, a.draft.value, Pending, now, None, None, None, None, None,
                             if both then a.account else None, if both then a.message else None));
      forall c | c in t.callers ensures CallerOk(t, c) {
        assert CallerOk(s, c);
        if s.callers[c].phase.Eligible? { assert Launched(s.rows, s.callers[c].action); }
      }
      forall i | 0 <= i < |t.sends| ensures Launched(t.rows, t.sends[i].command.action) && CommandOk(t.proposals, t.sends[i].command) {
        assert Launched(s.rows, s.sends[i].command.action);
      }
      forall k | k in t.rows ensures OutcomeOk(t, k) {
        assert k != id ==> OutcomeOk(s, k);
      }
      forall c, d, x | IsEligible(t, c, x) && IsEligible(t, d, x) ensures c == d {
        assert IsEligible(s, c, x) && IsEligible(s, d, x);
      }
    }
  }

  lemma BeginKeepsInvariant(s: State, caller: Uuid, user: Uuid, action: Uuid, operation: Operation)
    requires Invariant(s)
    ensures Invariant(BeginStep(s, caller, user, action, operation))
  {
    var t := BeginStep(s, caller, user, action, operation);
    forall c | c in t.callers ensures CallerOk(t, c) {
      assert c in s.callers ==> CallerOk(s, c);
    }
    forall c, d, x | IsEligible(t, c, x) && IsEligible(t, d, x) ensures c == d {
      assert IsEligible(s, c, x) && IsEligible(s, d, x);
    }
  }

  lemma PendingStepsKeepInvariant(s: State, caller: Uuid, now: Instant, commit: Commit)
    requires Invariant(s)
    ensures Invariant(LoadPendingStep(s, caller))
    ensures Invariant(SavePendingStep(s, caller, now, commit))
  {
    if At(s, caller).Started? && s.callers[caller].operation != Execute {
      match GetOwned(s.rows, s.callers[caller].action, s.callers[caller].user)
      case None => GotoKeepsInvariant(s, caller, Done(NotFound));
      case Some(row) => GotoKeepsInvariant(s, caller, PendingLoaded(row));
    }
    if At(s, caller).PendingLoaded? {
      var c := s.callers[caller];
      var copy := c.phase.copy;
      assert CallerOk(s, caller);
      var target := PendingTarget(c.operation);
      if Move(copy, target, now).None? {
        GotoKeepsInvariant(s, caller, Done(InvalidTransition));
      } else {
        SaveStoresTheMove(s, c, copy, target, now, Pending);
        SavedRowKeepsInvariant(s, caller, SaveOwned(s.rows, Move(copy, target, now).value, Pending), commit, s.accounts,
                               Done(Saved(Move(copy, target, now).value)));
      }
    }
  }

  /** The shared tail of the write transactions, for a next phase that carries no obligation of its own. */
  lemma SavedRowKeepsInvariant(s: State, caller: Uuid, result: SaveResult, commit: Commit, accounts: map<Uuid, Account>, next: Phase)
    requires Invariant(s) && caller in s.callers && next.Done?
    requires result.SaveSuccess? ==> Advance(s, result.row)
    requires result.SaveSuccess? && result.row.status == Executed ==> HasOutcome(s.sends, result.row.id, Returned)
    requires result.SaveSuccess? && result.row.status == Failed ==>
      HasOutcome(s.sends, result.row.id, ReauthorizationRequired) || HasOutcome(s.sends, result.row.id, ExecutionFailed)
    ensures Invariant(Finish(s, caller, result, commit, accounts, next))
  {
    GotoKeepsInvariant(s, caller, Done(NotFound));
    GotoKeepsInvariant(s, caller, Done(Conflict));
    GotoKeepsInvariant(s, caller, Done(Unavailable));
    GotoKeepsInvariant(s, caller, next);
    if result.SaveSuccess? {
      AdvanceKeepsInvariant(Goto(s, caller, Done(Unavailable)), result.row, accounts);
      AdvanceKeepsInvariant(Goto(s, caller, next), result.row, accounts);
    }
  }

  lemma ExecuteReadsKeepInvariant(s: State, caller: Uuid, available: bool)
    requires Invariant(s)
    ensures Invariant(LoadActionStep(s, caller))
    ensures Invariant(CheckAccountStep(s, caller, available))
  {
    if At(s, caller).Started? && s.callers[caller].operation == Execute {
      GotoKeepsInvariant(s, caller, Done(NotFound));
      GotoKeepsInvariant(s, caller, Done(InvalidTransition));
      GotoKeepsInvariant(s, caller, Done(NotExecutable));
      var found := GetOwned(s.rows, s.callers[caller].action, s.callers[caller].user);
      if found.Some? && found.value.status == Approved && HasExecutionTarget(found.value) {
        GotoKeepsInvariant(s, caller, ActionLoaded(found.value));
      }
    }
    if At(s, caller).ActionLoaded? {
      assert CallerOk(s, caller);
      var copy := s.callers[caller].phase.copy;
      GotoKeepsInvariant(s, caller, Done(NotExecutable));
      if copy.account.Some? && copy.account.value in s.accounts {
        GotoKeepsInvariant(s, caller, AccountChecked(copy, s.accounts[copy.account.value].provider));
      }
    }
  }

  lemma NotLaunchedMeansUntouched(s: State, action: Uuid)
    requires Invariant(s) && !Launched(s.rows, action)
    ensures NoSend(s.sends, action) && forall c :: !IsEligible(s, c, action)
  {
  }

  /** The command built from a valid EXECUTING row carries exactly the proposed text and the snapshotted target. */
  lemma CommandCarriesProposal(row: Row, p: Proposal, provider: string)
    requires ValidRow(row) && MatchesProposal(row, p) && HasExecutionTarget(row) && row.status == Executing
    ensures ExecutionCommand(row, provider) ==
            Some(Command(row.id, p.body, p.account.value, p.message.value, provider))
  {
  }

  /** The EXECUTING transaction either ends the call or differs from that ending only by handing out the command. */
  lemma ExecutingStepShape(s: State, caller: Uuid, commit: Commit, row: Row, command: Command)
    requires At(s, caller).AccountChecked?
    requires Move(s.callers[caller].phase.copy, Executing, 0) == Some(row)
    requires SaveOwned(s.rows, row, Approved).SaveSuccess? ==>
      SaveOwned(s.rows, row, Approved).row == row && ExecutionCommand(row, s.callers[caller].phase.provider) == Some(command)
    ensures var result := SaveOwned(s.rows, row, Approved);
      var ended := Finish(s, caller, result, commit, s.accounts, Done(Unavailable));
      SaveExecutingStep(s, caller, commit) ==
      if result.SaveSuccess? && commit == Committed then Goto(ended, caller, Eligible(command)) else ended
  {
  }

  /** Winning the APPROVED to EXECUTING save makes the caller the only one that may ever send for this action. */
  lemma SaveExecutingKeepsInvariant(s: State, caller: Uuid, commit: Commit)
    requires Invariant(s)
    ensures Invariant(SaveExecutingStep(s, caller, commit))
  {
    if At(s, caller).AccountChecked? {
      var c := s.callers[caller];
      var copy, provider := c.phase.copy, c.phase.provider;
      assert CallerOk(s, caller);
      var row := Move(copy, Executing, 0).value;
      SaveStoresTheMove(s, c, copy, Executing, 0, Approved);
      MoveKeepsValidity(copy, Executing, 0);
      assert MatchesProposal(s.rows[row.id], s.proposals[row.id]);
      CommandCarriesProposal(row, s.proposals[row.id], provider);
      var command := ExecutionCommand(row, provider).value;
      var result := SaveOwned(s.rows, row, Approved);
      ExecutingStepShape(s, caller, commit, row, command);
      SavedRowKeepsInvariant(s, caller, result, commit, s.accounts, Done(Unavailable));
      if result.SaveSuccess? && commit == Committed {
        WinnerBecomesEligible(s, caller, row, command, Finish(s, caller, result, commit, s.accounts, Done(Unavailable)));
      }
    }
  }

  lemma WinnerBecomesEligible(s: State, caller: Uuid, row: Row, command: Command, t: State)
    requires Invariant(s) && caller in s.callers && command.action == row.id == s.callers[caller].action
    requires Advance(s, row) && row.status == Executing && s.rows[row.id].status == Approved
    requires CommandOk(s.proposals, command)
    requires t == Goto(s, caller, Done(Unavailable)).(rows := s.rows[row.id := row]) && Invariant(t)
    ensures Invariant(Goto(t, caller, Eligible(command)))
  {
    NotLaunchedMeansUntouched(s, row.id);
    forall c ensures !IsEligible(t, c, row.id) {
      assert IsEligible(t, c, row.id) ==> IsEligible(s, c, row.id);
    }
    BecomeEligible(t, caller, command, Goto(t, caller, Eligible(command)));
  }

  lemma BecomeEligible(s: State, caller: Uuid, command: Command, t: State)
    requires Invariant(s) && caller in s.callers && command.action == s.callers[caller].action
    requires Launched(s.rows, command.action) && CommandOk(s.proposals, command) && s.rows[command.action].status == Executing
    requires NoSend(s.sends, command.action) && (forall c :: !IsEligible(s, c, command.action))
    requires t == Goto(s, caller, Eligible(command))
    ensures Invariant(t)
  {
    forall c | c in t.callers ensures CallerOk(t, c) {
      assert c != caller ==> CallerOk(s, c);
    }
    forall c, d, a | IsEligible(t, c, a) && IsEligible(t, d, a) ensures c == d {
      assert c != caller ==> IsEligible(s, c, a);
      assert d != caller ==> IsEligible(s, d, a);
    }
  }

  lemma InvokeKeepsInvariant(s: State, caller: Uuid)
    requires Invariant(s)
    ensures Invariant(InvokeStep(s, caller))
  {
    if At(s, caller).Eligible? {
      var t := InvokeStep(s, caller);
      assert CallerOk(s, caller);
      forall c | c in t.callers ensures CallerOk(t, c) {
        if c != caller {
          assert CallerOk(s, c);
          if IsEligible(s, c, s.callers[caller].action) { assert IsEligible(s, caller, s.callers[caller].action); }
        }
      }
      SendsGrow(s, t);
      forall c, d, a | IsEligible(t, c, a) && IsEligible(t, d, a) ensures c == d {
        assert IsEligible(s, c, a) && IsEligible(s, d, a);
      }
    }
  }

  /** Outcomes already recorded survive, when the send log only grows or fills in missing outcomes. */
  lemma SendsGrow(s: State, t: State)
    requires OutcomesOk(s) && t.rows == s.rows && |s.sends| <= |t.sends|
    requires forall i :: 0 <= i < |s.sends| && s.sends[i].outcome.Some? ==> t.sends[i] == s.sends[i]
    ensures OutcomesOk(t)
  {
  }

  lemma OutcomeKeepsCaller(s: State, caller: Uuid, outcome: Outcome, c: Uuid)
    requires Invariant(s) && At(s, caller).Calling? && s.callers[caller].phase.at < |s.sends| && c in s.callers
    ensures CallerOk(ReturnStep(s, caller, outcome), c)
  {
    assert CallerOk(s, caller) && CallerOk(s, c);
    var at := s.callers[caller].phase.at;
    var sends := s.sends[at := s.sends[at].(outcome := Some(outcome))];
    if c != caller {
      var phase := s.callers[c].phase;
      if phase.Eligible? {
        assert NoSend(sends, s.callers[c].action);
      } else if phase.Calling? || phase.Finished? || phase.TerminalLoaded? {
        assert s.sends[phase.at].caller == c != s.sends[at].caller;
        assert sends[phase.at] == s.sends[phase.at];
      }
      assert ReturnStep(s, caller, outcome).callers[c] == s.callers[c];
    }
  }

  lemma ReturnKeepsInvariant(s: State, caller: Uuid, outcome: Outcome)
    requires Invariant(s)
    ensures Invariant(ReturnStep(s, caller, outcome))
  {
    if At(s, caller).Calling? && s.callers[caller].phase.at < |s.sends| {
      var t := ReturnStep(s, caller, outcome);
      assert CallerOk(s, caller);
      assert CallersOk(t) by {
        forall c | c in t.callers ensures CallerOk(t, c) { OutcomeKeepsCaller(s, caller, outcome, c); }
      }
      assert SendsOk(t) by {
        assert forall i :: 0 <= i < |t.sends| ==> t.sends[i].command == s.sends[i].command;
      }
      SendsGrow(s, t);
      forall c, d, a | IsEligible(t, c, a) && IsEligible(t, d, a) ensures c == d {
        assert IsEligible(s, c, a) && IsEligible(s, d, a);
      }
    }
  }

  lemma LoadTerminalKeepsInvariant(s: State, caller: Uuid)
    requires Invariant(s)
    ensures Invariant(LoadTerminalStep(s, caller))
  {
    if At(s, caller).Finished? {
      assert CallerOk(s, caller);
      match GetOwned(s.rows, s.callers[caller].action, s.callers[caller].user)
      case None => GotoKeepsInvariant(s, caller, Done(NotFound));
      case Some(row) => GotoKeepsInvariant(s, caller, TerminalLoaded(s.callers[caller].phase.at, row));
    }
  }

  /** The terminal save only runs on a definite outcome, and stores the status that outcome stands for. */
  lemma SaveTerminalKeepsInvariant(s: State, caller: Uuid, now: Instant, commit: Commit)
    requires Invariant(s)
    ensures Invariant(SaveTerminalStep(s, caller, now, commit))
  {
    if At(s, caller).TerminalLoaded? && s.callers[caller].phase.at < |s.sends| {
      assert CallerOk(s, caller);
      var TerminalLoaded(at, copy) := s.callers[caller].phase;
      var send := s.sends[at];
      var target := if send.outcome == Some(Returned) then Executed else Failed;
      if Move(copy, target, now).None? {
        GotoKeepsInvariant(s, caller, Done(InvalidTransition));
      } else {
        SaveStoresTheMove(s, s.callers[caller], copy, target, now, Executing);
        assert HasOutcome(s.sends, copy.id, send.outcome.value);
        var accounts := if send.outcome == Some(ReauthorizationRequired)
                        then MarkReauthRequired(s.accounts, send.command.account, s.callers[caller].user) else s.accounts;
        var result := SaveOwned(s.rows, Move(copy, target, now).value, Executing);
        SavedRowKeepsInvariant(s, caller, result, commit, accounts,
                               Done(if result.SaveSuccess? then Saved(result.row) else Unavailable));
      }
    }
  }

  lemma StepKeepsInvariant(s: State, e: Event)
    requires Invariant(s)
    ensures Invariant(Step(s, e))
  {
    match e
    case Create(id, owner, analysis, now, commit) => CreateKeepsInvariant(s, id, owner, analysis, now, commit);
    case ChangeAccount(account, record) =>
      var t := Step(s, e);
      forall c | c in t.callers ensures CallerOk(t, c) { assert CallerOk(s, c); }
      SendsGrow(s, t);
      forall c, d, a | IsEligible(t, c, a) && IsEligible(t, d, a) ensures c == d {
        assert IsEligible(s, c, a) && IsEligible(s, d, a);
      }
    case Begin(caller, user, action, operation) => BeginKeepsInvariant(s, caller, user, action, operation);
    case LoadPending(caller) => PendingStepsKeepInvariant(s, caller, 0, Committed);
    case SavePending(caller, now, commit) => PendingStepsKeepInvariant(s, caller, now, commit);
    case LoadAction(caller) => ExecuteReadsKeepInvariant(s, caller, true);
    case CheckAccount(caller, available) => ExecuteReadsKeepInvariant(s, caller, available);
    case SaveExecuting(caller, commit) => SaveExecutingKeepsInvariant(s, caller, commit);
    case Invoke(caller) => InvokeKeepsInvariant(s, caller);
    case Return(caller, outcome) => ReturnKeepsInvariant(s, caller, outcome);
    case LoadTerminal(caller) => LoadTerminalKeepsInvariant(s, caller);
    case SaveTerminal(caller, now, commit) => SaveTerminalKeepsInvariant(s, caller, now, commit);
  }

  lemma {:induction false} RunKeepsInvariant(s: State, events: seq<Event>)
    requires Invariant(s)
    ensures Invariant(Run(s, events))
    decreases |events|
  {
    if events != [] {
      StepKeepsInvariant(s, events[0]);
      RunKeepsInvariant(Step(s, events[0]), events[1..]);
    }
  }

  // ----- what later states remember of earlier ones -----

  /** Rows go forward only and keep their proposal; commands, recorded outcomes and proposals are never rewritten. */
  ghost predicate Evolves(s: State, t: State) {
    && (forall id :: id in s.rows ==>
          id in t.rows && (t.rows[id] == s.rows[id] || (SameProposal(s.rows[id], t.rows[id]) && !Terminal(s.rows[id].status))))
    && (forall id :: id in s.proposals ==> id in t.proposals && (id in s.rows ==> t.proposals[id] == s.proposals[id]))
    && |s.sends| <= |t.sends|
    && (forall i :: 0 <= i < |s.sends| ==> t.sends[i].command == s.sends[i].command && t.sends[i].caller == s.sends[i].caller
                                           && (s.sends[i].outcome.Some? ==> t.sends[i] == s.sends[i]))
  }

  lemma FinishEvolves(s: State, caller: Uuid, result: SaveResult, commit: Commit, accounts: map<Uuid, Account>, next: Phase)
    requires caller in s.callers && (result.SaveSuccess? ==> Advance(s, result.row))
    ensures Evolves(s, Finish(s, caller, result, commit, accounts, next))
  {
  }

  lemma SavePendingEvolves(s: State, caller: Uuid, now: Instant, commit: Commit)
    requires Invariant(s)
    ensures Evolves(s, SavePendingStep(s, caller, now, commit))
  {
    if At(s, caller).PendingLoaded? {
      assert CallerOk(s, caller);
      var c := s.callers[caller];
      var changed := Move(c.phase.copy, PendingTarget(c.operation), now);
      if changed.Some? {
        SaveStoresTheMove(s, c, c.phase.copy, PendingTarget(c.operation), now, Pending);
        var result := SaveOwned(s.rows, changed.value, Pending);
        FinishEvolves(s, caller, result, commit, s.accounts, Done(if result.SaveSuccess? then Saved(result.row) else Unavailable));
      }
    }
  }

  lemma SaveTerminalEvolves(s: State, caller: Uuid, now: Instant, commit: Commit)
    requires Invariant(s)
    ensures Evolves(s, SaveTerminalStep(s, caller, now, commit))
  {
    if At(s, caller).TerminalLoaded? && s.callers[caller].phase.at < |s.sends| {
      assert CallerOk(s, caller);
      var c := s.callers[caller];
      var send := s.sends[c.phase.at];
      var changed := Move(c.phase.copy, if send.outcome == Some(Returned) then Executed else Failed, now);
      if changed.Some? {
        SaveStoresTheMove(s, c, c.phase.copy, changed.value.status, now, Executing);
        var result := SaveOwned(s.rows, changed.value, Executing);
        var accounts := if send.outcome == Some(ReauthorizationRequired)
                        then MarkReauthRequired(s.accounts, send.command.account, c.user) else s.accounts;
        FinishEvolves(s, caller, result, commit, accounts, Done(if result.SaveSuccess? then Saved(result.row) else Unavailable));
      }
    }
  }

  lemma SaveExecutingEvolves(s: State, caller: Uuid, commit: Commit)
    requires Invariant(s)
    ensures Evolves(s, SaveExecutingStep(s, caller, commit))
  {
    if At(s, caller).AccountChecked? {
      assert CallerOk(s, caller);
      var c := s.callers[caller];
      SaveStoresTheMove(s, c, c.phase.copy, Executing, 0, Approved);
    }
  }

  lemma OutsideStepsEvolve(s: State, caller: Uuid, outcome: Outcome)
    requires Invariant(s)
    ensures Evolves(s, InvokeStep(s, caller))
    ensures Evolves(s, ReturnStep(s, caller, outcome))
  {
    assert caller in s.callers ==> CallerOk(s, caller);
  }

  lemma LoadStepsEvolve(s: State, caller: Uuid)
    ensures Evolves(s, LoadPendingStep(s, caller)) && Evolves(s, LoadTerminalStep(s, caller))
  {
  }

  lemma ExecuteReadsEvolve(s: State, caller: Uuid, available: bool)
    ensures Evolves(s, LoadActionStep(s, caller)) && Evolves(s, CheckAccountStep(s, caller, available))
  {
  }

  lemma CreateEvolves(s: State, id: Uuid, owner: Uuid, a: AnalysisRecord, now: Instant, commit: Commit)
    ensures Evolves(s, CreateStep(s, id, owner, a, now, commit))
  {
  }

  lemma RowsAndSendsKeptEvolve(s: State, t: State)
    requires t.rows == s.rows && t.sends == s.sends && t.proposals == s.proposals
    ensures Evolves(s, t)
  {
  }

  lemma StepEvolves(s: State, e: Event)
    requires Invariant(s)
    ensures Evolves(s, Step(s, e))
  {
    match e
    case Create(id, owner, analysis, now, commit) => CreateEvolves(s, id, owner, analysis, now, commit);
    case ChangeAccount(account, record) => RowsAndSendsKeptEvolve(s, Step(s, e));
    case Begin(caller, user, action, operation) => RowsAndSendsKeptEvolve(s, BeginStep(s, caller, user, action, operation));
    case LoadPending(caller) => LoadStepsEvolve(s, caller);
    case SavePending(caller, now, commit) => SavePendingEvolves(s, caller, now, commit);
    case LoadAction(caller) => ExecuteReadsEvolve(s, caller, true);
    case CheckAccount(caller, available) => ExecuteReadsEvolve(s, caller, available);
    case SaveExecuting(caller, commit) => SaveExecutingEvolves(s, caller, commit);
    case Invoke(caller) => OutsideStepsEvolve(s, caller, OtherError);
    case Return(caller, outcome) => OutsideStepsEvolve(s, caller, outcome);
    case LoadTerminal(caller) => LoadStepsEvolve(s, caller);
    case SaveTerminal(caller, now, commit) => SaveTerminalEvolves(s, caller, now, commit);
  }

  lemma {:induction false} RunEvolves(s: State, events: seq<Event>)
    requires Invariant(s)
    ensures Evolves(s, Run(s, events))
    decreases |events|
  {
    if events != [] {
      StepEvolves(s, events[0]);
      StepKeepsInvariant(s, events[0]);
      RunEvolves(Step(s, events[0]), events[1..]);
    }
  }

  // ----- main results -----

  ghost predicate Reachable(s: State) {
    exists events :: s == Run(Empty(), events)
  }

  lemma ReachableIsSafe(s: State)
    requires Reachable(s)
    ensures Invariant(s)
  {
    var events :| s == Run(Empty(), events);
    RunKeepsInvariant(Empty(), events);
  }

  /**
   At most one executor call per action, whatever the interleaving, crashes and lost commits; and that call
   carries exactly the proposed text and the mailbox target recorded at creation.
   */
  lemma AtMostOneSendWithTheProposal(s: State)
    requires Reachable(s)
    ensures forall i, j :: 0 <= i < j < |s.sends| ==> s.sends[i].command.action != s.sends[j].command.action
    ensures forall i :: 0 <= i < |s.sends| ==>
      var command := s.sends[i].command;
      && command.action in s.proposals
      && command.body == s.proposals[command.action].body
      && s.proposals[command.action].account == Some(command.account)
      && s.proposals[command.action].message == Some(command.message)
  {
    ReachableIsSafe(s);
  }

  /** The executor is only ever called while the stored row is EXECUTING and nothing has been sent for it. */
  lemma InvokedOnlyAfterExecutingIsCommitted(s: State, caller: Uuid)
    requires Reachable(s) && InvokeStep(s, caller) != s
    ensures var action := s.callers[caller].action;
      && action in s.rows && s.rows[action].status == Executing && NoSend(s.sends, action)
      && InvokeStep(s, caller).sends == s.sends + [Send(caller, s.callers[caller].phase.command, None)]
      && s.callers[caller].phase.command.action == action
  {
    ReachableIsSafe(s);
    assert CallerOk(s, caller) && OutcomeOk(s, s.callers[caller].action);
  }

  /** Once rejected, never sent: not before, and in no continuation. */
  lemma RejectedIsNeverSent(s: State, events: seq<Event>, action: Uuid)
    requires Reachable(s) && action in s.rows && s.rows[action].status == Rejected
    ensures NoSend(Run(s, events).sends, action)
    ensures action in Run(s, events).rows && Run(s, events).rows[action] == s.rows[action]
  {
    ReachableIsSafe(s);
    RunKeepsInvariant(s, events);
    RunEvolves(s, events);
    NotLaunchedMeansUntouched(Run(s, events), action);
  }

  /** Terminal rows never change, and no row ever changes its proposal. */
  lemma TerminalRowsAreFinal(s: State, events: seq<Event>, action: Uuid)
    requires Reachable(s) && action in s.rows
    ensures action in Run(s, events).rows
    ensures SameProposal(s.rows[action], Run(s, events).rows[action])
    ensures action in s.proposals && action in Run(s, events).proposals
    ensures Run(s, events).proposals[action] == s.proposals[action]
    ensures Terminal(s.rows[action].status) ==> Run(s, events).rows[action] == s.rows[action]
  {
    ReachableIsSafe(s);
    RunEvolves(s, events);
  }

  /** What the store says about the outside world is true, and every stored row is a valid one. */
  lemma StoredOutcomesAreTrue(s: State, action: Uuid)
    requires Reachable(s) && action in s.rows
    ensures ValidRow(s.rows[action])
    ensures s.rows[action].status == Executed ==> HasOutcome(s.sends, action, Returned)
    ensures s.rows[action].status == Failed ==>
      HasOutcome(s.sends, action, ReauthorizationRequired) || HasOutcome(s.sends, action, ExecutionFailed)
  {
    ReachableIsSafe(s);
    assert OutcomeOk(s, action);
  }

  lemma OneOutcomePerAction(s: State, i: nat, outcome: Outcome)
    requires SendsOk(s) && i < |s.sends| && HasOutcome(s.sends, s.sends[i].command.action, outcome)
    ensures s.sends[i].outcome == Some(outcome)
  {
  }

  /** A call that ended in any other way leaves its row EXECUTING in every later state. */
  lemma UnknownOutcomeStaysExecuting(s: State, events: seq<Event>, i: nat)
    requires Reachable(s) && i < |s.sends| && s.sends[i].outcome == Some(OtherError)
    ensures var action := s.sends[i].command.action;
      action in Run(s, events).rows && Run(s, events).rows[action].status == Executing
  {
    ReachableIsSafe(s);
    RunKeepsInvariant(s, events);
    RunEvolves(s, events);
    var t := Run(s, events);
    var action := s.sends[i].command.action;
    assert t.sends[i] == s.sends[i] && Launched(t.rows, t.sends[i].command.action);
    forall outcome | HasOutcome(t.sends, action, outcome) ensures outcome == OtherError {
      OneOutcomePerAction(t, i, outcome);
    }
    assert OutcomeOk(t, action);
  }

  /** While the call has not ended, or never will because its caller crashed, the row is EXECUTING. */
  lemma PendingCallMeansExecuting(s: State, i: nat)
    requires Reachable(s) && i < |s.sends| && s.sends[i].outcome.None?
    ensures var action := s.sends[i].command.action; action in s.rows && s.rows[action].status == Executing
  {
    ReachableIsSafe(s);
    var action := s.sends[i].command.action;
    assert Launched(s.rows, action) && OutcomeOk(s, action);
    forall outcome ensures !HasOutcome(s.sends, action, outcome) {
      if HasOutcome(s.sends, action, outcome) { OneOutcomePerAction(s, i, outcome); }
    }
  }

  /**
   Creation snapshots the trimmed draft and, only when both halves are present, the trimmed mailbox target, as a new PENDING
   row; with an unusable draft or message, or without its commit, nothing is stored.
   */
  lemma CreationSnapshotsTheAnalysis(s: State, id: Uuid, owner: Uuid, a: AnalysisRecord, now: Instant, commit: Commit)
    ensures var both := a.account.Some? && a.message.Some?;
      CreateStep(s, id, owner, a, now, commit) ==
      if id in s.rows || commit == RolledBack || a.draft.None? || Blank(a.draft.value) || (both && Blank(a.message.value)) then s
      else
        var body, account := Strip(a.draft.value), if both then a.account else None;
        var message := if both then Some(Strip(a.message.value)) else None;
        s.(rows := s.rows[id := Row(id, a.id, owner, body, Pending, now, None, None, None, None, None, account, message)],
           proposals := s.proposals[id := Proposal(owner, body, account, message)])
  {
    if a.draft.Some? { RequireTextIsStable(a.draft.value); }
    if a.message.Some? { RequireTextIsStable(a.message.value); }
  }

  /** The uninterrupted approval of a pending row. */
  lemma ApprovalSucceeds(s: State, caller: Uuid, action: Uuid, now: Instant)
    requires Reachable(s) && caller !in s.callers && action in s.rows && s.rows[action].status == Pending
    ensures var user := s.rows[action].owner;
      var t := Run(s, [Begin(caller, user, action, Approve), LoadPending(caller), SavePending(caller, now, Committed)]);
      var approved := s.rows[action].(status := Approved, approvedAt := Some(now), approvedBody := Some(s.rows[action].proposed));
      && t.rows == s.rows[action := approved] && t.sends == s.sends
      && caller in t.callers && t.callers[caller].phase == Done(Saved(approved))
  {
    ReachableIsSafe(s);
    var user := s.rows[action].owner;
    var events := [Begin(caller, user, action, Approve), LoadPending(caller), SavePending(caller, now, Committed)];
    StepKeepsInvariant(s, events[0]);
    var s1 := Step(s, events[0]);
    StepKeepsInvariant(s1, events[1]);
    var s2 := Step(s1, events[1]);
    assert CallerOk(s2, caller) && At(s2, caller) == PendingLoaded(s.rows[action]);
    SaveStoresTheMove(s2, s2.callers[caller], s.rows[action], Approved, now, Pending);
    RunThree(s, events);
  }

  lemma RunThree(s: State, events: seq<Event>)
    requires |events| == 3
    ensures Run(s, events) == Step(Step(Step(s, events[0]), events[1]), events[2])
  {
    assert events[1..][1..] == [events[2]];
    assert Run(Step(Step(s, events[0]), events[1]), [events[2]]) == Step(Step(Step(s, events[0]), events[1]), events[2]) by {
      assert [events[2]][1..] == [];
    }
  }

  lemma RunFour(s: State, a: Event, b: Event, c: Event, d: Event)
    ensures Run(s, [a, b, c, d]) == Step(Step(Step(Step(s, a), b), c), d)
  {
    RunThree(Step(s, a), [b, c, d]);
    assert [a, b, c, d][1..] == [b, c, d];
  }

  /** The reads that precede an execution find an approved row with a usable account. */
  lemma ExecutionReads(s: State, caller: Uuid, action: Uuid)
    requires Invariant(s) && caller !in s.callers && action in s.rows && s.rows[action].status == Approved
    requires HasExecutionTarget(s.rows[action]) && Usable(s.accounts, s.rows[action].account.value, s.rows[action].owner)
    ensures var row := s.rows[action];
      var t := CheckAccountStep(LoadActionStep(BeginStep(s, caller, row.owner, action, Execute), caller), caller, true);
      && Invariant(t) && t.rows == s.rows && t.sends == s.sends && t.proposals == s.proposals && caller in t.callers
      && t.callers[caller] == Caller(row.owner, action, Execute, AccountChecked(row, s.accounts[row.account.value].provider))
  {
    var row := s.rows[action];
    var s1 := BeginStep(s, caller, row.owner, action, Execute);
    BeginKeepsInvariant(s, caller, row.owner, action, Execute);
    ExecuteReadsKeepInvariant(s1, caller, true);
    var s2 := LoadActionStep(s1, caller);
    assert At(s2, caller) == ActionLoaded(row);
    ExecuteReadsKeepInvariant(s2, caller, true);
  }

  /** The conditional save of an undisturbed execution commits EXECUTING and hands out the command. */
  lemma ExecutingIsCommitted(s: State, caller: Uuid, row: Row, provider: string)
    requires Invariant(s) && At(s, caller) == AccountChecked(row, provider) && row.id in s.rows && s.rows[row.id] == row
    ensures var t := SaveExecutingStep(s, caller, Committed);
      && t.rows == s.rows[row.id := row.(status := Executing)] && t.sends == s.sends && HasExecutionTarget(row)
      && At(t, caller) == Eligible(Command(row.id, row.proposed, row.account.value, row.message.value, provider))
  {
    assert CallerOk(s, caller);
    var c := s.callers[caller];
    SaveStoresTheMove(s, c, row, Executing, 0, Approved);
    MoveKeepsValidity(row, Executing, 0);
    var changed := Move(row, Executing, 0).value;
    assert MatchesProposal(s.rows[row.id], s.proposals[row.id]);
    CommandCarriesProposal(changed, s.proposals[row.id], provider);
    ExecutingStepShape(s, caller, Committed, changed, ExecutionCommand(changed, provider).value);
  }

  lemma LaunchCommits(s: State, caller: Uuid, action: Uuid)
    requires Invariant(s) && caller !in s.callers && action in s.rows && s.rows[action].status == Approved
    requires HasExecutionTarget(s.rows[action]) && Usable(s.accounts, s.rows[action].account.value, s.rows[action].owner)
    ensures var row := s.rows[action];
      var t := LaunchOf(s, caller, row.owner, action, true, Committed);
      && t.rows == s.rows[action := row.(status := Executing)] && t.sends == s.sends
      && At(t, caller) == Eligible(
           Command(action, row.proposed, row.account.value, row.message.value, s.accounts[row.account.value].provider))
  {
    var row := s.rows[action];
    ExecutionReads(s, caller, action);
    var s3 := CheckAccountStep(LoadActionStep(BeginStep(s, caller, row.owner, action, Execute), caller), caller, true);
    ExecutingIsCommitted(s3, caller, row, s.accounts[row.account.value].provider);
  }

  /** The uninterrupted start of an execution: the row is committed as EXECUTING and the caller holds the command. */
  lemma ExecutionLaunches(s: State, caller: Uuid, action: Uuid)
    requires Reachable(s) && caller !in s.callers && action in s.rows && s.rows[action].status == Approved
    requires HasExecutionTarget(s.rows[action]) && Usable(s.accounts, s.rows[action].account.value, s.rows[action].owner)
    ensures var row := s.rows[action];
      var t := Run(s, [Begin(caller, row.owner, action, Execute), LoadAction(caller), CheckAccount(caller, true),
                       SaveExecuting(caller, Committed)]);
      && t.rows == s.rows[action := row.(status := Executing)] && t.sends == s.sends
      && At(t, caller) == Eligible(
           Command(action, row.proposed, row.account.value, row.message.value, s.accounts[row.account.value].provider))
  {
    ReachableIsSafe(s);
    LaunchCommits(s, caller, action);
    RunFour(s, Begin(caller, s.rows[action].owner, action, Execute), LoadAction(caller), CheckAccount(caller, true),
            SaveExecuting(caller, Committed));
  }

  /** The external call of an undisturbed execution, up to the row loaded for its outcome. */
  lemma CallReturns(s: State, caller: Uuid, row: Row, command: Command)
    requires Invariant(s) && At(s, caller) == Eligible(command)
    requires row.id in s.rows && s.rows[row.id] == row && s.callers[caller].action == row.id && s.callers[caller].user == row.owner
    ensures var t := LoadTerminalStep(ReturnStep(InvokeStep(s, caller), caller, Returned), caller);
      && Invariant(t) && t.rows == s.rows && t.sends == s.sends + [Send(caller, command, Some(Returned))]
      && At(t, caller) == TerminalLoaded(|s.sends|, row)
  {
    var n := |s.sends|;
    var s1 := InvokeStep(s, caller);
    InvokeKeepsInvariant(s, caller);
    assert At(s1, caller) == Calling(n) && s1.rows == s.rows;
    var s2 := ReturnStep(s1, caller, Returned);
    ReturnKeepsInvariant(s1, caller, Returned);
    assert s2.sends == s.sends + [Send(caller, command, Some(Returned))] && At(s2, caller) == Finished(n) && s2.rows == s.rows;
    LoadTerminalKeepsInvariant(s2, caller);
  }

  /** The uninterrupted rest: one executor call, and its normal return is stored as EXECUTED. */
  lemma ExecutionFinishes(s: State, caller: Uuid, command: Command, now: Instant)
    requires Reachable(s) && At(s, caller) == Eligible(command)
    requires var action := s.callers[caller].action;
      action in s.rows && s.rows[action].owner == s.callers[caller].user && s.rows[action].status == Executing
    ensures var action := s.callers[caller].action;
      var t := SaveTerminalStep(LoadTerminalStep(ReturnStep(InvokeStep(s, caller), caller, Returned), caller), caller, now, Committed);
      && t.sends == s.sends + [Send(caller, command, Some(Returned))]
      && t.rows == s.rows[action := s.rows[action].(status := Executed, executedAt := Some(now))]
  {
    ReachableIsSafe(s);
    var row := s.rows[s.callers[caller].action];
    CallReturns(s, caller, row, command);
    ExecutedIsCommitted(LoadTerminalStep(ReturnStep(InvokeStep(s, caller), caller, Returned), caller), caller, |s.sends|, row, now);
  }

  lemma ExecutedIsCommitted(s: State, caller: Uuid, n: nat, row: Row, now: Instant)
    requires Invariant(s) && At(s, caller) == TerminalLoaded(n, row) && n < |s.sends| && s.sends[n].outcome == Some(Returned)
    requires row.id in s.rows && s.rows[row.id] == row && row.status == Executing
    ensures var t := SaveTerminalStep(s, caller, now, Committed);
      t.sends == s.sends && t.rows == s.rows[row.id := row.(status := Executed, executedAt := Some(now))]
  {
    assert CallerOk(s, caller);
    SaveStoresTheMove(s, s.callers[caller], row, Executed, now, Executing);
  }

  // ----- a whole execution, however it goes -----

  /** The first half of `execute` without interruption: the checks and the commit of EXECUTING may each go either way. */
  function LaunchOf(s: State, caller: Uuid, user: Uuid, action: Uuid, available: bool, commit: Commit): State {
    Step(Step(Step(Step(s, Begin(caller, user, action, Execute)), LoadAction(caller)), CheckAccount(caller, available)),
         SaveExecuting(caller, commit))
  }

  /** The second half: the external call, and the commit of its outcome. */
  function ConclusionOf(s: State, caller: Uuid, outcome: Outcome, now: Instant, commit: Commit): State {
    Step(Step(Step(Step(s, Invoke(caller)), Return(caller, outcome)), LoadTerminal(caller)), SaveTerminal(caller, now, commit))
  }

  predicate Failing(s: State, caller: Uuid) {
    At(s, caller).Done? && !At(s, caller).reply.Saved?
  }

  /** Nothing was sent, and the caller goes on with its action or has failed. */
  predicate Underway(s: State, t: State, caller: Uuid, action: Uuid, goes: bool) {
    t.sends == s.sends && caller in t.callers && t.callers[caller].action == action && (goes || Failing(t, caller))
  }

  lemma ReadGoesOn(s: State, caller: Uuid, action: Uuid)
    requires At(s, caller).Started? && s.callers[caller].operation == Execute && s.callers[caller].action == action
    ensures var t := LoadActionStep(s, caller); Underway(s, t, caller, action, At(t, caller).ActionLoaded?)
  {
  }

  lemma CheckGoesOn(s: State, caller: Uuid, available: bool, action: Uuid)
    requires Underway(s, s, caller, action, At(s, caller).ActionLoaded?)
    ensures var t := CheckAccountStep(s, caller, available); Underway(s, t, caller, action, At(t, caller).AccountChecked?)
  {
  }

  lemma FinishGoesOn(s: State, caller: Uuid, result: SaveResult, commit: Commit, accounts: map<Uuid, Account>, next: Phase, action: Uuid)
    requires caller in s.callers && s.callers[caller].action == action
    ensures var t := Finish(s, caller, result, commit, accounts, next);
      Underway(s, t, caller, action, At(t, caller) == next && commit == Committed && result.SaveSuccess?)
  {
  }

  lemma SaveGoesOn(s: State, caller: Uuid, commit: Commit, action: Uuid)
    requires Underway(s, s, caller, action, At(s, caller).AccountChecked?)
    ensures var t := SaveExecutingStep(s, caller, commit); Underway(s, t, caller, action, At(t, caller).Eligible?)
  {
    if At(s, caller).AccountChecked? {
      var phase := s.callers[caller].phase;
      var changed := Move(phase.copy, Executing, 0);
      if changed.Some? {
        var result := SaveOwned(s.rows, changed.value, Approved);
        var command := if result.SaveSuccess? then ExecutionCommand(result.row, phase.provider) else None;
        FinishGoesOn(s, caller, result, commit, s.accounts, if command.Some? then Eligible(command.value) else Done(Unavailable), action);
      }
    }
  }

  lemma FourStepsKeepInvariant(s: State, a: Event, b: Event, c: Event, d: Event)
    requires Invariant(s)
    ensures Invariant(Step(Step(Step(Step(s, a), b), c), d))
  {
    StepKeepsInvariant(s, a);
    StepKeepsInvariant(Step(s, a), b);
    StepKeepsInvariant(Step(Step(s, a), b), c);
    StepKeepsInvariant(Step(Step(Step(s, a), b), c), d);
  }

  lemma LaunchKeepsInvariant(s: State, caller: Uuid, user: Uuid, action: Uuid, available: bool, commit: Commit)
    requires Invariant(s)
    ensures Invariant(LaunchOf(s, caller, user, action, available, commit))
  {
    FourStepsKeepInvariant(s, Begin(caller, user, action, Execute), LoadAction(caller), CheckAccount(caller, available),
                           SaveExecuting(caller, commit));
  }

  lemma ConclusionKeepsInvariant(s: State, caller: Uuid, outcome: Outcome, now: Instant, commit: Commit)
    requires Invariant(s)
    ensures Invariant(ConclusionOf(s, caller, outcome, now, commit))
  {
    FourStepsKeepInvariant(s, Invoke(caller), Return(caller, outcome), LoadTerminal(caller), SaveTerminal(caller, now, commit));
  }

  /** The first half ends with the committed command in hand, or with a failure; nothing has been sent. */
  lemma LaunchGoesOn(s: State, caller: Uuid, user: Uuid, action: Uuid, available: bool, commit: Commit)
    requires caller !in s.callers
    ensures var t := LaunchOf(s, caller, user, action, available, commit); Underway(s, t, caller, action, At(t, caller).Eligible?)
  {
    var s1 := BeginStep(s, caller, user, action, Execute);
    var s2 := LoadActionStep(s1, caller);
    ReadGoesOn(s1, caller, action);
    CheckGoesOn(s2, caller, available, action);
    SaveGoesOn(CheckAccountStep(s2, caller, available), caller, commit, action);
  }

  lemma CallIsRecorded(s: State, caller: Uuid, outcome: Outcome)
    requires At(s, caller).Eligible?
    ensures var t := ReturnStep(InvokeStep(s, caller), caller, outcome);
      && t.sends == s.sends + [Send(caller, At(s, caller).command, Some(outcome))]
      && t.proposals == s.proposals && caller in t.callers
      && t.callers[caller] == s.callers[caller].(phase := if outcome == OtherError then Done(Propagated) else Finished(|s.sends|))
  {
  }

  /** The call has ended; a reported row is the stored one, with the status its outcome calls for. */
  predicate AnswersWith(t: State, caller: Uuid, action: Uuid, outcome: Outcome) {
    && At(t, caller).Done?
    && (At(t, caller).reply.Saved? ==>
          && action in t.rows && t.rows[action] == At(t, caller).reply.row
          && t.rows[action].status == if outcome == Returned then Executed else Failed)
  }

  lemma SaveAnswersWithTheOutcome(s: State, caller: Uuid, now: Instant, commit: Commit, outcome: Outcome)
    requires Invariant(s) && At(s, caller).TerminalLoaded? && s.sends[At(s, caller).at].outcome == Some(outcome)
    ensures var t := SaveTerminalStep(s, caller, now, commit);
      && t.sends == s.sends && t.proposals == s.proposals && AnswersWith(t, caller, s.callers[caller].action, outcome)
  {
    assert CallerOk(s, caller);
    var c := s.callers[caller];
    var target := if outcome == Returned then Executed else Failed;
    if Move(c.phase.copy, target, now).Some? { SaveStoresTheMove(s, c, c.phase.copy, target, now, Executing); }
  }

  lemma LoadedCallAnswers(s: State, caller: Uuid, now: Instant, commit: Commit, outcome: Outcome)
    requires caller in s.callers && Invariant(s) && (At(s, caller).TerminalLoaded? ==> s.sends[At(s, caller).at].outcome == Some(outcome))
    requires At(s, caller).TerminalLoaded? || Failing(s, caller)
    ensures var t := SaveTerminalStep(s, caller, now, commit);
      && t.sends == s.sends && t.proposals == s.proposals && AnswersWith(t, caller, s.callers[caller].action, outcome)
  {
    if At(s, caller).TerminalLoaded? { SaveAnswersWithTheOutcome(s, caller, now, commit, outcome); }
  }

  lemma OutcomeIsLoaded(s: State, caller: Uuid)
    requires At(s, caller).Finished?
    ensures var t := LoadTerminalStep(s, caller);
      && t.sends == s.sends && t.proposals == s.proposals && caller in t.callers && t.callers[caller].action == s.callers[caller].action
      && (Failing(t, caller) || (At(t, caller).TerminalLoaded? && At(t, caller).at == At(s, caller).at))
  {
  }

  /** One call of the executor was added, the first for its action, carrying what was proposed. */
  ghost predicate SentOnce(s: State, t: State, caller: Uuid, action: Uuid, outcome: Outcome) {
    exists command ::
      && t.sends == s.sends + [Send(caller, command, Some(outcome))]
      && command.action == action && NoSend(s.sends, action) && CommandOk(t.proposals, command)
  }

  /** The external call and what is loaded after it. */
  function CallOf(s: State, caller: Uuid, outcome: Outcome): State {
    Step(Step(Step(s, Invoke(caller)), Return(caller, outcome)), LoadTerminal(caller))
  }

  lemma CallKeepsInvariant(s: State, caller: Uuid, outcome: Outcome)
    requires Invariant(s)
    ensures Invariant(CallOf(s, caller, outcome))
  {
    StepKeepsInvariant(s, Invoke(caller));
    StepKeepsInvariant(Step(s, Invoke(caller)), Return(caller, outcome));
    StepKeepsInvariant(Step(Step(s, Invoke(caller)), Return(caller, outcome)), LoadTerminal(caller));
  }

  lemma CallLoadsItsOutcome(s: State, caller: Uuid, outcome: Outcome)
    requires At(s, caller).Eligible?
    ensures var t := CallOf(s, caller, outcome);
      && t.sends == s.sends + [Send(caller, At(s, caller).command, Some(outcome))] && t.proposals == s.proposals
      && caller in t.callers && t.callers[caller].action == s.callers[caller].action
      && (Failing(t, caller) || (At(t, caller).TerminalLoaded? && At(t, caller).at == |s.sends|))
  {
    CallIsRecorded(s, caller, outcome);
    if outcome != OtherError { OutcomeIsLoaded(ReturnStep(InvokeStep(s, caller), caller, outcome), caller); }
  }

  /** What the command in hand leads to: one call, and an answer that tells its outcome. */
  lemma ConclusionIsSafe(s: State, caller: Uuid, outcome: Outcome, now: Instant, commit: Commit)
    requires Invariant(s) && At(s, caller).Eligible?
    ensures var t := ConclusionOf(s, caller, outcome, now, commit);
      var action := s.callers[caller].action;
      SentOnce(s, t, caller, action, outcome) && AnswersWith(t, caller, action, outcome)
  {
    assert CallerOk(s, caller);
    var u := CallOf(s, caller, outcome);
    CallKeepsInvariant(s, caller, outcome);
    CallLoadsItsOutcome(s, caller, outcome);
    LoadedCallAnswers(u, caller, now, commit, outcome);
    assert ConclusionOf(s, caller, outcome, now, commit) == SaveTerminalStep(u, caller, now, commit);
  }

  /** A failed caller makes no further step. */
  lemma FailureIsFinal(s: State, caller: Uuid, outcome: Outcome, now: Instant, commit: Commit)
    requires Failing(s, caller)
    ensures ConclusionOf(s, caller, outcome, now, commit) == s
  {
  }
}
