/** The approval-gated reply action: its lifecycle table, its status invariants and its in-place transitions. */
module WorkflowModel {
  import opened Text

  type Uuid = int
  type Instant = int

  datatype Status = Pending | Approved | Rejected | Executing | Executed | Failed

  /** The persisted value of an action; `WorkflowAction` below is the object that is changed in place. */
  datatype Row = Row(
    id: Uuid, analysis: Uuid, owner: Uuid, proposed: string, status: Status, createdAt: Instant,
    approvedAt: Option<Instant>, rejectedAt: Option<Instant>, executedAt: Option<Instant>, failedAt: Option<Instant>,
    approvedBody: Option<string>, account: Option<Uuid>, message: Option<string>)

  predicate Allowed(from: Status, to: Status) {
    match from
    case Pending => to == Approved || to == Rejected
    case Approved => to == Executing
    case Executing => to == Executed || to == Failed
    case _ => false
  }

  predicate Terminal(status: Status) {
    status == Rejected || status == Executed || status == Failed
  }

  predicate HasExecutionTarget(r: Row) {
    r.account.Some? && r.message.Some?
  }

  predicate StatusInvariants(r: Row) {
    match r.status
    case Pending =>
      r.approvedBody.None? && r.approvedAt.None? && r.rejectedAt.None? && r.executedAt.None? && r.failedAt.None?
    case Approved =>
      r.approvedBody.Some? && r.approvedAt.Some? && r.rejectedAt.None? && r.executedAt.None? && r.failedAt.None?
    case Rejected =>
      r.rejectedAt.Some? && r.approvedBody.None? && r.approvedAt.None? && r.executedAt.None? && r.failedAt.None?
    case Executing =>
      r.approvedBody.Some? && r.approvedAt.Some? && r.rejectedAt.None? && r.executedAt.None? && r.failedAt.None?
    case Executed =>
      r.approvedBody.Some? && r.approvedAt.Some? && r.executedAt.Some? && r.rejectedAt.None? && r.failedAt.None?
    case Failed =>
      r.approvedBody.Some? && r.approvedAt.Some? && r.failedAt.Some? && r.rejectedAt.None? && r.executedAt.None?
  }

  predicate NormalIfPresent(s: Option<string>) {
    s.Some? ==> Normal(s.value)
  }

  /** Every constraint a stored row is validated against when it is read back. */
  predicate ValidRow(r: Row) {
    && Normal(r.proposed) && NormalIfPresent(r.approvedBody) && NormalIfPresent(r.message)
    && (r.account.Some? <==> r.message.Some?)
    && StatusInvariants(r)
  }

  function RequireIfPresent(s: Option<string>): Option<Option<string>> {
    match s
    case None => Some(None)
    case Some(text) => (match RequireText(text) case None => None case Some(t) => Some(Some(t)))
  }

  /** Validation of field values read from storage: normalises the texts, then checks the row. */
  function Rehydrate(r: Row): Option<Row> {
    match (RequireText(r.proposed), RequireIfPresent(r.approvedBody), RequireIfPresent(r.message))
    case (Some(proposed), Some(approved), Some(message)) =>
      var n := r.(proposed := proposed, approvedBody := approved, message := message);
      if (n.account.Some? <==> n.message.Some?) && StatusInvariants(n) then Some(n) else None
    case _ => None
  }

  /** Validation accepts only valid rows, and gives a valid row back unchanged. */
  lemma RehydrateValidates(r: Row)
    ensures Rehydrate(r).Some? ==> ValidRow(Rehydrate(r).value)
    ensures ValidRow(r) ==> Rehydrate(r) == Some(r)
  {
    RequireTextIsStable(r.proposed);
    if r.approvedBody.Some? { RequireTextIsStable(r.approvedBody.value); }
    if r.message.Some? { RequireTextIsStable(r.message.value); }
  }

  /** The row after moving to `target`, or None when the lifecycle table forbids the move. */
  function Move(r: Row, target: Status, now: Instant): Option<Row> {
    if !Allowed(r.status, target) then None else
      Some(match target
           case Approved => r.(status := Approved, approvedAt := Some(now), approvedBody := Some(r.proposed))
           case Rejected => r.(status := Rejected, rejectedAt := Some(now))
           case Executed => r.(status := Executed, executedAt := Some(now))
           case Failed => r.(status := Failed, failedAt := Some(now))
           case _ => r.(status := target))
  }

  /** Position along the lifecycle; every legal move goes strictly forward, so no status is ever revisited. */
  function Rank(status: Status): nat {
    match status
    case Pending => 0
    case Rejected => 1
    case Approved => 2
    case Executing => 3
    case Executed => 4
    case Failed => 5
  }

  /** The columns no lifecycle transition may touch. */
  predicate SameProposal(a: Row, b: Row) {
    && a.id == b.id && a.analysis == b.analysis && a.owner == b.owner && a.proposed == b.proposed
    && a.createdAt == b.createdAt && a.account == b.account && a.message == b.message
  }

  lemma MoveKeepsValidity(r: Row, target: Status, now: Instant)
    requires ValidRow(r) && Move(r, target, now).Some?
    ensures var n := Move(r, target, now).value;
      && ValidRow(n) && SameProposal(r, n) && n.status == target && Rank(r.status) < Rank(target)
      && (target == Approved ==> n.approvedBody == Some(r.proposed))
      && (target != Approved ==> n.approvedBody == r.approvedBody && n.approvedAt == r.approvedAt)
  {
  }

  /** Exactly the statuses from which nothing is allowed are the terminal ones. */
  lemma TerminalMeansNoMove(r: Row)
    ensures Terminal(r.status) <==> forall target, now :: Move(r, target, now).None?
  {
    if !Terminal(r.status) {
      var next := if r.status == Pending then Approved else if r.status == Approved then Executing else Executed;
      assert Move(r, next, 0).Some?;
    }
  }

  /** The mutable domain object. Each transition method raises (returns false) or updates fields on `this`. */
  class WorkflowAction {
    const id: Uuid
    const analysis: Uuid
    const owner: Uuid
    const proposed: string
    const createdAt: Instant
    const account: Option<Uuid>
    const message: Option<string>
    var status: Status
    var approvedAt: Option<Instant>
    var rejectedAt: Option<Instant>
    var executedAt: Option<Instant>
    var failedAt: Option<Instant>
    var approvedBody: Option<string>

    function Value(): Row
      reads this
    {
      Row(id, analysis, owner, proposed, status, createdAt, approvedAt, rejectedAt, executedAt, failedAt,
          approvedBody, account, message)
    }

    constructor (r: Row)
      ensures Value() == r
    {
      id, analysis, owner, proposed, createdAt := r.id, r.analysis, r.owner, r.proposed, r.createdAt;
      account, message, status := r.account, r.message, r.status;
      approvedAt, rejectedAt, executedAt, failedAt := r.approvedAt, r.rejectedAt, r.executedAt, r.failedAt;
      approvedBody := r.approvedBody;
    }

    method RequireTransition(target: Status) returns (ok: bool)
      ensures ok <==> Allowed(status, target)
    {
      ok := match status
            case Pending => target in {Approved, Rejected}
            case Approved => target in {Executing}
            case Executing => target in {Executed, Failed}
            case Rejected => false
            case Executed => false
            case Failed => false;
    }

    method Approve(now: Instant) returns (ok: bool)
      modifies this
      ensures ok <==> Move(old(Value()), Approved, now).Some?
      ensures Value() == if ok then Move(old(Value()), Approved, now).value else old(Value())
    {
      ok := RequireTransition(Approved);
      if ok {
        status := Approved;
        approvedAt := Some(now);
        approvedBody := Some(proposed);
      }
    }

    method Reject(now: Instant) returns (ok: bool)
      modifies this
      ensures ok <==> Move(old(Value()), Rejected, now).Some?
      ensures Value() == if ok then Move(old(Value()), Rejected, now).value else old(Value())
    {
      ok := RequireTransition(Rejected);
      if ok {
        status := Rejected;
        rejectedAt := Some(now);
      }
    }

    method MarkExecuting() returns (ok: bool)
      modifies this
      ensures ok <==> Move(old(Value()), Executing, 0).Some?
      ensures Value() == if ok then Move(old(Value()), Executing, 0).value else old(Value())
    {
      ok := RequireTransition(Executing);
      if ok {
        status := Executing;
      }
    }

    method MarkExecuted(now: Instant) returns (ok: bool)
      modifies this
      ensures ok <==> Move(old(Value()), Executed, now).Some?
      ensures Value() == if ok then Move(old(Value()), Executed, now).value else old(Value())
    {
      ok := RequireTransition(Executed);
      if ok {
        status := Executed;
        executedAt := Some(now);
      }
    }

    method MarkFailed(now: Instant) returns (ok: bool)
      modifies this
      ensures ok <==> Move(old(Value()), Failed, now).Some?
      ensures Value() == if ok then Move(old(Value()), Failed, now).value else old(Value())
    {
      ok := RequireTransition(Failed);
      if ok {
        status := Failed;
        failedAt := Some(now);
      }
    }
  }
}
