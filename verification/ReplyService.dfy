/**
 The two workflow services as code that changes state in place: each method is one atomic step of
 `ReplyProtocol`, and is proved to take exactly that step.
 */
module ReplyService {
  import opened Text
  import opened WorkflowModel
  import opened ReplyProtocol
  import ReplySafety

  class Service {
    var rows: map<Uuid, Row>
    var accounts: map<Uuid, Account>
    var callers: map<Uuid, Caller>
    var sends: seq<Send>
    ghost var proposals: map<Uuid, Proposal>

    ghost function Value(): State
      reads this
    {
      State(rows, accounts, callers, sends, proposals)
    }

    constructor ()
      ensures Value() == Empty()
    {
      rows, accounts, callers, sends, proposals := map[], map[], map[], [], map[];
    }

    method Continue(caller: Uuid, phase: Phase)
      requires caller in callers
      modifies this`callers
      ensures Value() == Goto(old(Value()), caller, phase)
    {
      callers := callers[caller := callers[caller].(phase := phase)];
    }

    method Propose(id: Uuid, owner: Uuid, analysis: AnalysisRecord, now: Instant, commit: Commit)
      modifies this
      ensures Value() == Step(old(Value()), Create(id, owner, analysis, now, commit))
    {
      if analysis.draft.None? { return; }
      var account, message := None, None;
      if analysis.account.Some? && analysis.message.Some? {
        account, message := analysis.account, analysis.message;
      }
      var fields := Row(id, analysis.id, owner, analysis.draft.value, Pending, now, None, None, None, None, None, account, message);
      var stored := Rehydrate(fields);
      if stored.None? || id in rows || commit == RolledBack { return; }
      rows := rows[id := stored.value];
      proposals := proposals[id := Proposal(owner, stored.value.proposed, stored.value.account, stored.value.message)];
    }

    method LoadForDecision(caller: Uuid)
      modifies this`callers
      ensures Value() == Step(old(Value()), LoadPending(caller))
    {
      if caller !in callers || !callers[caller].phase.Started? || callers[caller].operation == Execute { return; }
      var row := GetOwned(rows, callers[caller].action, callers[caller].user);
      if row.None? {
        Continue(caller, Done(NotFound));
      } else {
        Continue(caller, PendingLoaded(row.value));
      }
    }

    /** `save_owned`: the conditional update and the re-read, not yet committed. */
    method Save(action: WorkflowAction, expected: Status) returns (result: SaveResult)
      ensures result == SaveOwned(rows, action.Value(), expected)
    {
      if action.id !in rows || rows[action.id].owner != action.owner { return SaveNotFound; }
      var stored := rows[action.id];
      if stored.status != expected { return SaveConflict; }
      var updated := stored.(status := action.status, approvedBody := action.approvedBody, approvedAt := action.approvedAt,
                             rejectedAt := action.rejectedAt, executedAt := action.executedAt, failedAt := action.failedAt);
      var loaded := Rehydrate(updated);
      result := if loaded.None? then SaveBroken else SaveSuccess(loaded.value);
    }

    /** Raise on a refused save, otherwise commit; an unacknowledged commit is applied although the call fails. */
    method CommitSave(caller: Uuid, result: SaveResult, commit: Commit, updatedAccounts: map<Uuid, Account>, next: Phase)
      requires caller in callers
      modifies this`rows, this`accounts, this`callers
      ensures Value() == Finish(old(Value()), caller, result, commit, updatedAccounts, next)
    {
      if result.SaveNotFound? {
        Continue(caller, Done(NotFound));
      } else if result.SaveConflict? {
        Continue(caller, Done(Conflict));
      } else if result.SaveBroken? || commit == RolledBack {
        Continue(caller, Done(Unavailable));
      } else {
        rows := rows[result.row.id := result.row];
        accounts := updatedAccounts;
        if commit == Committed {
          Continue(caller, next);
        } else {
          Continue(caller, Done(Unavailable));
        }
      }
    }

    method SaveDecision(caller: Uuid, now: Instant, commit: Commit)
      modifies this`rows, this`accounts, this`callers
      ensures Value() == Step(old(Value()), SavePending(caller, now, commit))
    {
      if caller !in callers || !callers[caller].phase.PendingLoaded? { return; }
      var action := new WorkflowAction(callers[caller].phase.copy);
      var allowed;
      if callers[caller].operation == Approve {
        allowed := action.Approve(now);
      } else {
        allowed := action.Reject(now);
      }
      if !allowed {
        Continue(caller, Done(InvalidTransition));
        return;
      }
      var result := Save(action, Pending);
      CommitSave(caller, result, commit, accounts, Done(if result.SaveSuccess? then Saved(result.row) else Unavailable));
    }

    method LoadForExecution(caller: Uuid)
      modifies this`callers
      ensures Value() == Step(old(Value()), LoadAction(caller))
    {
      if caller !in callers || !callers[caller].phase.Started? || callers[caller].operation != Execute { return; }
      var row := GetOwned(rows, callers[caller].action, callers[caller].user);
      if row.None? {
        Continue(caller, Done(NotFound));
      } else if row.value.status != Approved {
        Continue(caller, Done(InvalidTransition));
      } else if row.value.account.None? || row.value.message.None? {
        Continue(caller, Done(NotExecutable));
      } else {
        Continue(caller, ActionLoaded(row.value));
      }
    }

    method ResolveExecutor(caller: Uuid, executorAvailable: bool)
      modifies this`callers
      ensures Value() == Step(old(Value()), CheckAccount(caller, executorAvailable))
    {
      if caller !in callers || !callers[caller].phase.ActionLoaded? { return; }
      var copy := callers[caller].phase.copy;
      if copy.account.None? || !Usable(accounts, copy.account.value, callers[caller].user) || !executorAvailable {
        Continue(caller, Done(NotExecutable));
      } else {
        Continue(caller, AccountChecked(copy, accounts[copy.account.value].provider));
      }
    }

    method CommitExecuting(caller: Uuid, commit: Commit)
      modifies this`rows, this`accounts, this`callers
      ensures Value() == Step(old(Value()), SaveExecuting(caller, commit))
    {
      if caller !in callers || !callers[caller].phase.AccountChecked? { return; }
      var provider := callers[caller].phase.provider;
      var action := new WorkflowAction(callers[caller].phase.copy);
      var allowed := action.MarkExecuting();
      if !allowed {
        Continue(caller, Done(InvalidTransition));
        return;
      }
      var result := Save(action, Approved);
      var next := Done(Unavailable);
      if result.SaveSuccess? {
        var command := ExecutionCommand(result.row, provider);
        if command.None? {
          Continue(caller, Done(Unavailable));
          return;
        }
        next := Eligible(command.value);
      }
      CommitSave(caller, result, commit, accounts, next);
    }

    method InvokeExecutor(caller: Uuid)
      modifies this`callers, this`sends
      ensures Value() == Step(old(Value()), Invoke(caller))
    {
      if caller !in callers || !callers[caller].phase.Eligible? { return; }
      var command := callers[caller].phase.command;
      Continue(caller, Calling(|sends|));
      sends := sends + [Send(caller, command, None)];
    }

    method ExecutorEnds(caller: Uuid, outcome: Outcome)
      modifies this`callers, this`sends
      ensures Value() == Step(old(Value()), Return(caller, outcome))
    {
      if caller !in callers || !callers[caller].phase.Calling? || callers[caller].phase.at >= |sends| { return; }
      var at := callers[caller].phase.at;
      sends := sends[at := sends[at].(outcome := Some(outcome))];
      Continue(caller, if outcome == OtherError then Done(Propagated) else Finished(at));
    }

    method LoadForOutcome(caller: Uuid)
      modifies this`callers
      ensures Value() == Step(old(Value()), LoadTerminal(caller))
    {
      if caller !in callers || !callers[caller].phase.Finished? { return; }
      var row := GetOwned(rows, callers[caller].action, callers[caller].user);
      if row.None? {
        Continue(caller, Done(NotFound));
      } else {
        Continue(caller, TerminalLoaded(callers[caller].phase.at, row.value));
      }
    }

    method CommitTerminal(caller: Uuid, now: Instant, commit: Commit)
      modifies this`rows, this`accounts, this`callers
      ensures Value() == Step(old(Value()), SaveTerminal(caller, now, commit))
    {
      if caller !in callers || !callers[caller].phase.TerminalLoaded? || callers[caller].phase.at >= |sends| { return; }
      var send := sends[callers[caller].phase.at];
      var updatedAccounts := accounts;
      if send.outcome == Some(ReauthorizationRequired) {
        updatedAccounts := MarkReauthRequired(accounts, send.command.account, callers[caller].user);
      }
      var action := new WorkflowAction(callers[caller].phase.copy);
      var allowed;
      if send.outcome == Some(Returned) {
        allowed := action.MarkExecuted(now);
      } else {
        allowed := action.MarkFailed(now);
      }
      if !allowed {
        Continue(caller, Done(InvalidTransition));
        return;
      }
      var result := Save(action, Executing);
      CommitSave(caller, result, commit, updatedAccounts, Done(if result.SaveSuccess? then Saved(result.row) else Unavailable));
    }

    /** `_commit_executing`: up to the committed command, or a failure. */
    method Launch(caller: Uuid, user: Uuid, action: Uuid, available: bool, commit: Commit)
      requires caller !in callers
      modifies this
      ensures Value() == ReplySafety.LaunchOf(old(Value()), caller, user, action, available, commit)
    {
      callers := callers[caller := Caller(user, action, Execute, Started)];
      LoadForExecution(caller);
      ResolveExecutor(caller, available);
      CommitExecuting(caller, commit);
    }

    /** The external call and the commit of its outcome. */
    method Conclude(caller: Uuid, outcome: Outcome, now: Instant, commit: Commit)
      modifies this
      ensures Value() == ReplySafety.ConclusionOf(old(Value()), caller, outcome, now, commit)
    {
      InvokeExecutor(caller);
      ExecutorEnds(caller, outcome);
      LoadForOutcome(caller);
      CommitTerminal(caller, now, commit);
    }

    /**
     `execute`: the whole call, with every failure it can meet on the way. It always ends, calls the executor at most once
     and only for an action that was never sent, and reports a saved row only after that call and with its outcome.
     */
    method ExecuteAction(caller: Uuid, user: Uuid, action: Uuid, available: bool, commit: Commit, outcome: Outcome,
                         now: Instant, terminal: Commit)
      requires ReplySafety.Invariant(Value()) && caller !in callers
      modifies this
      ensures ReplySafety.Invariant(Value()) && ReplySafety.AnswersWith(Value(), caller, action, outcome)
      ensures ReplySafety.SentOnce(old(Value()), Value(), caller, action, outcome)
           || (sends == old(sends) && ReplySafety.Failing(Value(), caller))
    {
      ghost var s := Value();
      Launch(caller, user, action, available, commit);
      ghost var u := Value();
      ReplySafety.LaunchKeepsInvariant(s, caller, user, action, available, commit);
      ReplySafety.LaunchGoesOn(s, caller, user, action, available, commit);
      ReplySafety.ConclusionKeepsInvariant(u, caller, outcome, now, terminal);
      if callers[caller].phase.Eligible? {
        ReplySafety.ConclusionIsSafe(u, caller, outcome, now, terminal);
      } else {
        ReplySafety.FailureIsFinal(u, caller, outcome, now, terminal);
      }
      Conclude(caller, outcome, now, terminal);
    }
  }
}
