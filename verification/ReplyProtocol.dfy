/**
 The reply lifecycle as interleaved atomic steps of any number of callers.

 A step is one repository read, one conditional save together with its commit, or one side of the external
 send. A call that stops making steps has crashed. Every choice outside the code's control is data in the event.
 */
module ReplyProtocol {
  import opened Text
  import opened WorkflowModel

  datatype Capability = MailRead | MailSend

  datatype Account = Account(owner: Uuid, provider: string, active: bool, granted: Option<set<Capability>>)

  datatype Command = Command(action: Uuid, body: string, account: Uuid, message: string, provider: string)

  /** How the executor call ended. `OtherError` is any exception the service does not catch. */
  datatype Outcome = Returned | ReauthorizationRequired | ExecutionFailed | OtherError

  /** How a transaction commit ended; the last case is applied by the database but reported as a failure. */
  datatype Commit = Committed | RolledBack | Unacknowledged

  datatype Reply = NotFound | InvalidTransition | NotExecutable | Conflict | Unavailable | Propagated | Saved(row: Row)

  datatype Operation = Approve | Reject | Execute

  /** What a caller holds between two of its steps. */
  datatype Phase =
    | Started
    | PendingLoaded(copy: Row)
    | ActionLoaded(copy: Row)
    | AccountChecked(copy: Row, provider: string)
    | Eligible(command: Command)
    | Calling(at: nat)
    | Finished(at: nat)
    | TerminalLoaded(at: nat, copy: Row)
    | Done(reply: Reply)

  datatype Caller = Caller(user: Uuid, action: Uuid, operation: Operation, phase: Phase)

  /** One invocation of the executor, and its outcome once it has one. */
  datatype Send = Send(caller: Uuid, command: Command, outcome: Option<Outcome>)

  /** What was proposed when an action was created: the reply text and the mailbox target. */
  datatype Proposal = Proposal(owner: Uuid, body: string, account: Option<Uuid>, message: Option<string>)

  datatype State = State(
    rows: map<Uuid, Row>, accounts: map<Uuid, Account>, callers: map<Uuid, Caller>,
    sends: seq<Send>, proposals: map<Uuid, Proposal>)

  /** The part of an analysis that creation reads: a usable draft text, if any, and the mailbox provenance. */
  datatype AnalysisRecord = AnalysisRecord(id: Uuid, draft: Option<string>, account: Option<Uuid>, message: Option<string>)

  datatype Event =
    | Create(id: Uuid, owner: Uuid, analysis: AnalysisRecord, now: Instant, commit: Commit)
    | ChangeAccount(account: Uuid, record: Option<Account>)
    | Begin(caller: Uuid, user: Uuid, action: Uuid, operation: Operation)
    | LoadPending(caller: Uuid)
    | SavePending(caller: Uuid, now: Instant, commit: Commit)
    | LoadAction(caller: Uuid)
    | CheckAccount(caller: Uuid, executorAvailable: bool)
    | SaveExecuting(caller: Uuid, commit: Commit)
    | Invoke(caller: Uuid)
    | Return(caller: Uuid, outcome: Outcome)
    | LoadTerminal(caller: Uuid)
    | SaveTerminal(caller: Uuid, now: Instant, commit: Commit)

  // ----- the repository contract -----

  function GetOwned(rows: map<Uuid, Row>, id: Uuid, user: Uuid): Option<Row> {
    if id in rows && rows[id].owner == user then Some(rows[id]) else None
  }

  datatype SaveResult = SaveSuccess(row: Row) | SaveNotFound | SaveConflict | SaveBroken

  /** Only the lifecycle columns come from the caller's copy. */
  function WithLifecycle(stored: Row, copy: Row): Row {
    stored.(status := copy.status, approvedBody := copy.approvedBody, approvedAt := copy.approvedAt,
            rejectedAt := copy.rejectedAt, executedAt := copy.executedAt, failedAt := copy.failedAt)
  }

  /** Conditional update scoped by id, owner and expected status, then a re-read of the stored row. */
  function SaveOwned(rows: map<Uuid, Row>, copy: Row, expected: Status): SaveResult {
    match GetOwned(rows, copy.id, copy.owner)
    case None => SaveNotFound
    case Some(stored) =>
      if stored.status != expected then SaveConflict else
        match Rehydrate(WithLifecycle(stored, copy))
        case None => SaveBroken
        case Some(row) => SaveSuccess(row)
  }

  function Usable(accounts: map<Uuid, Account>, id: Uuid, user: Uuid): bool {
    id in accounts && accounts[id].owner == user && accounts[id].active
    && (accounts[id].granted.Some? ==> MailSend in accounts[id].granted.value)
  }

  function MarkReauthRequired(accounts: map<Uuid, Account>, id: Uuid, user: Uuid): map<Uuid, Account> {
    if id in accounts && accounts[id].owner == user && accounts[id].active
    then accounts[id := accounts[id].(active := false)] else accounts
  }

  // ----- the steps -----

  function At(s: State, caller: Uuid): Phase {
    if caller in s.callers then s.callers[caller].phase else Done(NotFound)
  }

  function Goto(s: State, caller: Uuid, phase: Phase): State
    requires caller in s.callers
  {
    s.(callers := s.callers[caller := s.callers[caller].(phase := phase)])
  }

  /** The common tail of every write transaction: conditional save, then commit, then the caller's next phase. */
  function Finish(s: State, caller: Uuid, result: SaveResult, commit: Commit, accounts: map<Uuid, Account>, next: Phase): State
    requires caller in s.callers
  {
    match result
    case SaveNotFound => Goto(s, caller, Done(NotFound))
    case SaveConflict => Goto(s, caller, Done(Conflict))
    case SaveBroken => Goto(s, caller, Done(Unavailable))
    case SaveSuccess(row) =>
      match commit
      case RolledBack => Goto(s, caller, Done(Unavailable))
      case Unacknowledged => Goto(s, caller, Done(Unavailable)).(rows := s.rows[row.id := row], accounts := accounts)
      case Committed => Goto(s, caller, next).(rows := s.rows[row.id := row], accounts := accounts)
  }

  function NewRow(id: Uuid, owner: Uuid, a: AnalysisRecord, now: Instant): Option<Row> {
    if a.draft.None? then None else
      var both := a.account.Some? && a.message.Some?;
      Rehydrate(Row(id, a.id, owner, a.draft.value, Pending, now, None, None, None, None, None,
                    if both then a.account else None, if both then a.message else None))
  }

  function CreateStep(s: State, id: Uuid, owner: Uuid, a: AnalysisRecord, now: Instant, commit: Commit): State {
    match NewRow(id, owner, a, now)
    case None => s
    case Some(row) =>
      if id in s.rows || commit == RolledBack then s else
        s.(rows := s.rows[id := row],
           proposals := s.proposals[id := Proposal(owner, row.proposed, row.account, row.message)])
  }

  function BeginStep(s: State, caller: Uuid, user: Uuid, action: Uuid, operation: Operation): State {
    if caller in s.callers then s
    else s.(callers := s.callers[caller := Caller(user, action, operation, Started)])
  }

  function LoadPendingStep(s: State, caller: Uuid): State {
    if !At(s, caller).Started? || s.callers[caller].operation == Execute then s else
      match GetOwned(s.rows, s.callers[caller].action, s.callers[caller].user)
      case None => Goto(s, caller, Done(NotFound))
      case Some(row) => Goto(s, caller, PendingLoaded(row))
  }

  function PendingTarget(operation: Operation): Status {
    if operation == Approve then Approved else Rejected
  }

  function SavePendingStep(s: State, caller: Uuid, now: Instant, commit: Commit): State {
    if !At(s, caller).PendingLoaded? then s else
      match Move(s.callers[caller].phase.copy, PendingTarget(s.callers[caller].operation), now)
      case None => Goto(s, caller, Done(InvalidTransition))
      case Some(changed) =>
        var result := SaveOwned(s.rows, changed, Pending);
        Finish(s, caller, result, commit, s.accounts, Done(if result.SaveSuccess? then Saved(result.row) else Unavailable))
  }

  function LoadActionStep(s: State, caller: Uuid): State {
    if !At(s, caller).Started? || s.callers[caller].operation != Execute then s else
      match GetOwned(s.rows, s.callers[caller].action, s.callers[caller].user)
      case None => Goto(s, caller, Done(NotFound))
      case Some(row) =>
        if row.status != Approved then Goto(s, caller, Done(InvalidTransition))
        else if !HasExecutionTarget(row) then Goto(s, caller, Done(NotExecutable))
        else Goto(s, caller, ActionLoaded(row))
  }

  function CheckAccountStep(s: State, caller: Uuid, executorAvailable: bool): State {
    if !At(s, caller).ActionLoaded? then s else
      var copy := s.callers[caller].phase.copy;
      if copy.account.Some? && Usable(s.accounts, copy.account.value, s.callers[caller].user) && executorAvailable
      then Goto(s, caller, AccountChecked(copy, s.accounts[copy.account.value].provider))
      else Goto(s, caller, Done(NotExecutable))
  }

  /** The immutable command handed to the executor, or None when the saved row cannot carry one. */
  function ExecutionCommand(row: Row, provider: string): Option<Command> {
    if row.approvedBody.None? || row.account.None? || row.message.None? then None else
      match (RequireText(row.approvedBody.value), RequireText(row.message.value))
      case (Some(body), Some(message)) => Some(Command(row.id, body, row.account.value, message, provider))
      case _ => None
  }

  function SaveExecutingStep(s: State, caller: Uuid, commit: Commit): State {
    if !At(s, caller).AccountChecked? then s else
      var phase := s.callers[caller].phase;
      match Move(phase.copy, Executing, 0)
      case None => Goto(s, caller, Done(InvalidTransition))
      case Some(changed) =>
        var result := SaveOwned(s.rows, changed, Approved);
        var command := if result.SaveSuccess? then ExecutionCommand(result.row, phase.provider) else None;
        if result.SaveSuccess? && command.None? then Goto(s, caller, Done(Unavailable))
        else Finish(s, caller, result, commit, s.accounts, if command.Some? then Eligible(command.value) else Done(Unavailable))
  }

  function InvokeStep(s: State, caller: Uuid): State {
    if !At(s, caller).Eligible? then s else
      Goto(s, caller, Calling(|s.sends|)).(sends := s.sends + [Send(caller, s.callers[caller].phase.command, None)])
  }

  function ReturnStep(s: State, caller: Uuid, outcome: Outcome): State {
    if !At(s, caller).Calling? || s.callers[caller].phase.at >= |s.sends| then s else
      var at := s.callers[caller].phase.at;
      var next := if outcome == OtherError then Done(Propagated) else Finished(at);
      Goto(s, caller, next).(sends := s.sends[at := s.sends[at].(outcome := Some(outcome))])
  }

  function LoadTerminalStep(s: State, caller: Uuid): State {
    if !At(s, caller).Finished? then s else
      match GetOwned(s.rows, s.callers[caller].action, s.callers[caller].user)
      case None => Goto(s, caller, Done(NotFound))
      case Some(row) => Goto(s, caller, TerminalLoaded(s.callers[caller].phase.at, row))
  }

  function SaveTerminalStep(s: State, caller: Uuid, now: Instant, commit: Commit): State {
    if !At(s, caller).TerminalLoaded? || s.callers[caller].phase.at >= |s.sends| then s else
      var TerminalLoaded(at, copy) := s.callers[caller].phase;
      var send := s.sends[at];
      match Move(copy, if send.outcome == Some(Returned) then Executed else Failed, now)
      case None => Goto(s, caller, Done(InvalidTransition))
      case Some(changed) =>
        var result := SaveOwned(s.rows, changed, Executing);
        var accounts := if send.outcome == Some(ReauthorizationRequired)
                        then MarkReauthRequired(s.accounts, send.command.account, s.callers[caller].user) else s.accounts;
        Finish(s, caller, result, commit, accounts, Done(if result.SaveSuccess? then Saved(result.row) else Unavailable))
  }

  function Step(s: State, e: Event): State {
    match e
    case Create(id, owner, analysis, now, commit) => CreateStep(s, id, owner, analysis, now, commit)
    case ChangeAccount(account, record) =>
      s.(accounts := match record case None => s.accounts - {account} case Some(a) => s.accounts[account := a])
    case Begin(caller, user, action, operation) => BeginStep(s, caller, user, action, operation)
    case LoadPending(caller) => LoadPendingStep(s, caller)
    case SavePending(caller, now, commit) => SavePendingStep(s, caller, now, commit)
    case LoadAction(caller) => LoadActionStep(s, caller)
    case CheckAccount(caller, available) => CheckAccountStep(s, caller, available)
    case SaveExecuting(caller, commit) => SaveExecutingStep(s, caller, commit)
    case Invoke(caller) => InvokeStep(s, caller)
    case Return(caller, outcome) => ReturnStep(s, caller, outcome)
    case LoadTerminal(caller) => LoadTerminalStep(s, caller)
    case SaveTerminal(caller, now, commit) => SaveTerminalStep(s, caller, now, commit)
  }

  function Run(s: State, events: seq<Event>): State
    decreases |events|
  {
    if events == [] then s else Run(Step(s, events[0]), events[1..])
  }

  function Empty(): State {
    State(map[], map[], map[], [], map[])
  }
}
