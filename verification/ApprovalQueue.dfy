/** The governance approval queue: staged actions, an executor that must run at most
    once for each, and the audit trail. */
module ApprovalQueue {
  import opened Basics
  import opened Text

  datatype Status = Pending | Approved | Rejected | Executed | ExecuteFailed

  datatype Action = Action(id: string, kind: string, actor: string, target: string, payload: string, status: Status,
                           reason: string, createdAt: string, decidedAt: string, decidedBy: string)

  datatype AuditKind = Deferred | WasApproved | WasRejected | WasExecuted | ExecutionFailed

  datatype AuditEvent = AuditEvent(kind: AuditKind, id: string)

  // `executions` is history: the snapshots handed to the executor, with their position.
  datatype Queue = Queue(actions: seq<Action>, next: nat, audit: seq<AuditEvent>, executions: seq<(nat, Action)>)

  // What the executor does with the snapshot; Absent when none is wired.
  datatype Execution = Absent | Succeeded | Failed(message: string) | Threw

  datatype Outcome = NotFound | NotPending | Done | DoneAndExecuted | NotExecuted | Raised

  function Find(actions: seq<Action>, id: string): (r: Option<nat>)
    ensures r.Some? ==> r.value < |actions| && actions[r.value].id == id
                        && forall i :: 0 <= i < r.value ==> actions[i].id != id
    ensures r == None ==> forall i :: 0 <= i < |actions| ==> actions[i].id != id
    decreases |actions|
  {
    if actions == [] then None
    else
      match Find(actions[..|actions| - 1], id)
      case Some(i) => Some(i)
      case None => if actions[|actions| - 1].id == id then Some(|actions| - 1) else None
  }

  function IdOf(sequence: nat): string {
    "deferred-" + Decimal(sequence)
  }

  function AfterStage(q: Queue, input: Action, now: string): Queue {
    var next := (q.next + 1) % TWO_POW_64;
    var action := input.(id := IdOf(next), status := Pending, createdAt := now);
    q.(next := next, actions := q.actions + [action], audit := q.audit + [AuditEvent(Deferred, action.id)])
  }

  function Operator(actor: string): string {
    if actor == "" then "operator" else actor
  }

  function Log(q: Queue, kind: AuditKind, id: string): Queue {
    q.(audit := q.audit + [AuditEvent(kind, id)])
  }

  // Approval of the pending action at position i.
  function ApproveAt(q: Queue, i: nat, actor: string, now: string, execution: Execution): Queue
    requires i < |q.actions|
  {
    var claimed := q.actions[i].(status := Approved, decidedAt := now, decidedBy := Operator(actor));
    var id := claimed.id;
    var approved := Log(q.(actions := q.actions[i := claimed]), WasApproved, id);
    var ran := approved.(executions := q.executions + [(i, claimed)]);
    match execution
    case Absent => approved
    case Threw => ran
    case Failed(message) =>
      var reason := if claimed.reason == "" then message else claimed.reason;
      var failed := claimed.(status := ExecuteFailed, reason := reason);
      Log(ran.(actions := ran.actions[i := failed]), ExecutionFailed, id)
    case Succeeded => Log(ran.(actions := ran.actions[i := claimed.(status := Executed)]), WasExecuted, id)
  }

  function RejectAt(q: Queue, i: nat, actor: string, reason: string, now: string): Queue
    requires i < |q.actions|
  {
    var rejected := q.actions[i].(status := Rejected, decidedAt := now, decidedBy := Operator(actor), reason := reason);
    Log(q.(actions := q.actions[i := rejected]), WasRejected, rejected.id)
  }

  function PendingAt(q: Queue, id: string): Option<nat> {
    match Find(q.actions, id)
    case None => None
    case Some(i) => if q.actions[i].status == Pending then Some(i) else None
  }

  function AfterApprove(q: Queue, id: string, actor: string, now: string, execution: Execution): Queue {
    if PendingAt(q, id).Some? then ApproveAt(q, PendingAt(q, id).value, actor, now, execution) else q
  }

  function AfterReject(q: Queue, id: string, actor: string, reason: string, now: string): Queue {
    if PendingAt(q, id).Some? then RejectAt(q, PendingAt(q, id).value, actor, reason, now) else q
  }

  // The actions still to be decided, in staging order.
  function PendingOf(actions: seq<Action>): seq<Action> {
    if actions == [] then []
    else
      var last := actions[|actions| - 1];
      PendingOf(actions[..|actions| - 1]) + if last.status == Pending then [last] else []
  }

  datatype Op =
    | DoStage(input: Action, now: string)
    | DoApprove(id: string, actor: string, now: string, execution: Execution)
    | DoReject(id: string, actor: string, reason: string, now: string)

  function Apply(q: Queue, op: Op): Queue {
    match op
    case DoStage(input, now) => AfterStage(q, input, now)
    case DoApprove(id, actor, now, execution) => AfterApprove(q, id, actor, now, execution)
    case DoReject(id, actor, reason, now) => AfterReject(q, id, actor, reason, now)
  }

  const EMPTY := Queue([], 0, [], [])

  function Run(ops: seq<Op>): Queue {
    if ops == [] then EMPTY else Apply(Run(ops[..|ops| - 1]), ops[|ops| - 1])
  }

  // ---- The class ----

  class Service {
    var actions: seq<Action>
    var next: nat
    ghost var audit: seq<AuditEvent>           // what the injected sink received
    ghost var executions: seq<(nat, Action)>   // what the injected executor received

    ghost function Model(): Queue
      reads this
    {
      Queue(actions, next, audit, executions)
    }

    constructor ()
      ensures Model() == EMPTY
    {
      actions, next, audit, executions := [], 0, [], [];
    }

    method FindById(id: string) returns (found: bool, index: nat)
      ensures found <==> Find(actions, id).Some?
      ensures found ==> index == Find(actions, id).value
    {
      for i := 0 to |actions|
        invariant forall j :: 0 <= j < i ==> actions[j].id != id
      {
        if actions[i].id == id { return true, i; }
      }
      return false, 0;
    }

    method ListPending() returns (pending: seq<Action>)
      ensures pending == PendingOf(actions)
    {
      pending := [];
      for i := 0 to |actions|
        invariant pending == PendingOf(actions[..i])
      {
        assert actions[..i + 1][..i] == actions[..i];
        if actions[i].status == Pending {
          pending := pending + [actions[i]];
        }
      }
      assert actions[..|actions|] == actions;
    }

    method Stage(input: Action, now: string) returns (action: Action)
      modifies this
      ensures Model() == AfterStage(old(Model()), input, now)
      ensures action == actions[|actions| - 1]
    {
      next := (next + 1) % TWO_POW_64;
      action := input.(id := IdOf(next), status := Pending, createdAt := now);
      actions := actions + [action];
      audit := audit + [AuditEvent(Deferred, action.id)];
    }

    method Approve(id: string, actor: string, now: string, execution: Execution) returns (outcome: Outcome)
      modifies this
      ensures Model() == AfterApprove(old(Model()), id, actor, now, execution)
      ensures outcome == if Find(old(actions), id) == None then NotFound
                         else if PendingAt(old(Model()), id) == None then NotPending
                         else match execution case Absent => Done case Succeeded => DoneAndExecuted
                                              case Failed(_) => NotExecuted case Threw => Raised
    {
      var found, i := FindById(id);
      if !found { return NotFound; }
      if actions[i].status != Pending { return NotPending; }
      actions := actions[i := actions[i].(status := Approved, decidedAt := now, decidedBy := Operator(actor))];
      audit := audit + [AuditEvent(WasApproved, id)];
      if execution != Absent { executions := executions + [(i, actions[i])]; }
      match execution
      case Absent => return Done;
      case Threw => return Raised;
      case Failed(message) =>
        var reason := if actions[i].reason == "" then message else actions[i].reason;
        actions := actions[i := actions[i].(status := ExecuteFailed, reason := reason)];
        audit := audit + [AuditEvent(ExecutionFailed, id)];
        return NotExecuted;
      case Succeeded =>
        actions := actions[i := actions[i].(status := Executed)];
        audit := audit + [AuditEvent(WasExecuted, id)];
        return DoneAndExecuted;
    }

    method Reject(id: string, actor: string, reason: string, now: string) returns (outcome: Outcome)
      modifies this
      ensures Model() == AfterReject(old(Model()), id, actor, reason, now)
      ensures outcome == if Find(old(actions), id) == None then NotFound
                         else if PendingAt(old(Model()), id) == None then NotPending else Done
    {
      var found, i := FindById(id);
      if !found { return NotFound; }
      if actions[i].status != Pending { return NotPending; }
      actions := actions[i := actions[i].(status := Rejected, decidedAt := now, decidedBy := Operator(actor),
                                          reason := reason)];
      audit := audit + [AuditEvent(WasRejected, id)];
      return Done;
    }
  }

  // ---- What is listed ----

  lemma {:induction false} PendingOfParts(a: seq<Action>, b: seq<Action>)
    ensures PendingOf(a + b) == PendingOf(a) + PendingOf(b)
  {
    if b == [] {
      assert a + b == a;
    } else {
      assert (a + b)[..|a + b| - 1] == a + b[..|b| - 1];
      PendingOfParts(a, b[..|b| - 1]);
    }
  }

  lemma {:induction false} PendingMembers(actions: seq<Action>, a: Action)
    ensures a in PendingOf(actions) <==> a in actions && a.status == Pending
  {
    if actions != [] {
      assert actions == actions[..|actions| - 1] + [actions[|actions| - 1]];
      PendingMembers(actions[..|actions| - 1], a);
    }
  }

  // A staged action is listed last, pending, under the next id; what was listed stays.
  lemma {:induction false} StageIsListed(q: Queue, input: Action, now: string)
    ensures var id := IdOf((q.next + 1) % TWO_POW_64);
      PendingOf(AfterStage(q, input, now).actions)
        == PendingOf(q.actions) + [input.(id := id, status := Pending, createdAt := now)]
  {
    assert AfterStage(q, input, now).actions[..|q.actions|] == q.actions;
  }

  // A decision takes exactly the action it decides off the list, if it decides one.
  lemma {:induction false} DecidingUnlists(q: Queue, op: Op)
    requires !op.DoStage?
    ensures var before, after := q.actions, Apply(q, op).actions;
      match PendingAt(q, op.id)
      case None => PendingOf(after) == PendingOf(before)
      case Some(i) =>
        && PendingOf(before) == PendingOf(before[..i]) + [before[i]] + PendingOf(before[i + 1..])
        && PendingOf(after) == PendingOf(before[..i]) + PendingOf(before[i + 1..])
  {
    hide Apply, PendingOf;
    if PendingAt(q, op.id) == None {
      UndecidedStays(q, op);
    } else {
      var i := PendingAt(q, op.id).value;
      DecidedIsNotPending(q, op, i);
      assert q.actions[i := q.actions[i]] == q.actions;
      PendingWithout(q.actions, i, q.actions[i]);
      PendingWithout(q.actions, i, Apply(q, op).actions[i]);
    }
  }

  lemma UndecidedStays(q: Queue, op: Op)
    requires !op.DoStage? && PendingAt(q, op.id) == None
    ensures Apply(q, op) == q
  {
  }

  lemma DecidedIsNotPending(q: Queue, op: Op, i: nat)
    requires !op.DoStage? && PendingAt(q, op.id) == Some(i)
    ensures var after := Apply(q, op).actions;
      |after| == |q.actions| && after == q.actions[i := after[i]] && after[i].status != Pending
  {
  }

  lemma {:induction false} PendingWithout(actions: seq<Action>, i: nat, a: Action)
    requires i < |actions|
    ensures PendingOf(actions[i := a])
         == PendingOf(actions[..i]) + (if a.status == Pending then [a] else []) + PendingOf(actions[i + 1..])
  {
    assert actions[i := a] == actions[..i] + ([a] + actions[i + 1..]);
    PendingOfParts(actions[..i], [a] + actions[i + 1..]);
    PendingOfParts([a], actions[i + 1..]);
    assert PendingOf([a]) == if a.status == Pending then [a] else [];
  }

  // ---- Ids ----

  // The id of the action at position i, however often the 64-bit counter has turned.
  predicate Numbered(q: Queue) {
    && q.next == |q.actions| % TWO_POW_64
    && forall i :: 0 <= i < |q.actions| ==> q.actions[i].id == IdOf((i + 1) % TWO_POW_64)
  }

  lemma {:induction false} Turns(i: int, j: int)
    ensures (i + 1) % TWO_POW_64 == (j + 1) % TWO_POW_64 <==> (i - j) % TWO_POW_64 == 0
    ensures (i % TWO_POW_64 + 1) % TWO_POW_64 == (i + 1) % TWO_POW_64
  {
  }

  lemma {:induction false} StageNumbers(q: Queue, input: Action, now: string)
    requires Numbered(q)
    ensures Numbered(AfterStage(q, input, now))
  {
    Turns(|q.actions|, 0);
    assert AfterStage(q, input, now).next == (|q.actions| + 1) % TWO_POW_64;
  }

  lemma {:induction false} DecisionKeepsIds(q: Queue, op: Op)
    requires !op.DoStage?
    ensures var q' := Apply(q, op);
      q'.next == q.next && |q'.actions| == |q.actions|
      && forall i :: 0 <= i < |q.actions| ==> q'.actions[i].id == q.actions[i].id
  {
  }

  lemma {:induction false} StepNumbers(q: Queue, op: Op)
    requires Numbered(q)
    ensures Numbered(Apply(q, op))
  {
    if op.DoStage? {
      StageNumbers(q, op.input, op.now);
    } else {
      DecisionKeepsIds(q, op);
      hide Apply, IdOf;
    }
  }

  lemma {:induction false} EveryRunNumbers(ops: seq<Op>)
    ensures Numbered(Run(ops))
  {
    if ops != [] {
      EveryRunNumbers(ops[..|ops| - 1]);
      StepNumbers(Run(ops[..|ops| - 1]), ops[|ops| - 1]);
    }
  }

  lemma {:induction false} IdOfIsInjective(m: nat, n: nat)
    requires IdOf(m) == IdOf(n)
    ensures m == n
  {
    assert Decimal(m) == IdOf(m)[9..] == IdOf(n)[9..] == Decimal(n);
    DecimalIsInjective(m, n);
  }

  // Ids repeat exactly after a whole turn of the counter, so they are all distinct if
  // and only if no more than 2^64 actions were ever staged.
  lemma {:induction false} IdsRepeatPerTurn(ops: seq<Op>, i: nat, j: nat)
    requires i < |Run(ops).actions| && j < |Run(ops).actions|
    ensures Run(ops).actions[i].id == Run(ops).actions[j].id <==> (i - j) % TWO_POW_64 == 0
  {
    EveryRunNumbers(ops);
    Turns(i, j);
    var m, n := (i + 1) % TWO_POW_64, (j + 1) % TWO_POW_64;
    if IdOf(m) == IdOf(n) { IdOfIsInjective(m, n); }
  }

  predicate Distinct(actions: seq<Action>) {
    forall i, j :: 0 <= i < j < |actions| ==> actions[i].id != actions[j].id
  }

  lemma {:induction false} IdsAreDistinctWithinATurn(ops: seq<Op>)
    ensures Distinct(Run(ops).actions) <==> |Run(ops).actions| <= TWO_POW_64
  {
    hide Run;
    var actions := Run(ops).actions;
    forall i, j | 0 <= i < j < |actions| ensures actions[i].id == actions[j].id <==> (i - j) % TWO_POW_64 == 0 {
      IdsRepeatPerTurn(ops, i, j);
    }
    if TWO_POW_64 < |actions| {
      assert actions[0].id == actions[TWO_POW_64].id;
    }
  }

  // While ids are distinct, the ids listed are exactly those that a decision finds pending.
  lemma {:induction false} ListedIffDecidable(ops: seq<Op>, id: string)
    requires |Run(ops).actions| <= TWO_POW_64
    ensures PendingAt(Run(ops), id).Some? <==> exists a :: a in PendingOf(Run(ops).actions) && a.id == id
  {
    var actions := Run(ops).actions;
    IdsAreDistinctWithinATurn(ops);
    hide Run;
    if PendingAt(Run(ops), id).Some? {
      PendingMembers(actions, actions[PendingAt(Run(ops), id).value]);
    }
    forall a | a in PendingOf(actions) && a.id == id ensures PendingAt(Run(ops), id).Some? {
      PendingMembers(actions, a);
      var k :| 0 <= k < |actions| && actions[k] == a;
      assert Find(actions, id) == Some(k);
    }
  }

  // ---- Exactly once, and an audit trail that agrees ----

  function Trail(status: Status): seq<AuditKind> {
    match status
    case Pending => [Deferred]
    case Approved => [Deferred, WasApproved]
    case Rejected => [Deferred, WasRejected]
    case Executed => [Deferred, WasApproved, WasExecuted]
    case ExecuteFailed => [Deferred, WasApproved, ExecutionFailed]
  }

  function AuditOf(audit: seq<AuditEvent>, id: string): seq<AuditKind> {
    if audit == [] then []
    else
      var last := audit[|audit| - 1];
      AuditOf(audit[..|audit| - 1], id) + if last.id == id then [last.kind] else []
  }

  ghost predicate Audited(q: Queue) {
    forall id ::
      AuditOf(q.audit, id) == match Find(q.actions, id) case None => [] case Some(i) => Trail(q.actions[i].status)
  }

  function RunsOf(executions: seq<(nat, Action)>, i: nat): nat {
    if executions == [] then 0
    else RunsOf(executions[..|executions| - 1], i) + if executions[|executions| - 1].0 == i then 1 else 0
  }

  // The executor saw a claimed snapshot of the action it was run for.
  predicate RanClaimed(q: Queue) {
    forall k :: 0 <= k < |q.executions| ==>
      && q.executions[k].0 < |q.actions| && q.executions[k].1.status == Approved
      && q.executions[k].1.id == q.actions[q.executions[k].0].id
  }

  predicate Ended(status: Status) {
    status == Executed || status == ExecuteFailed
  }

  // Never for an action still pending or rejected, once for one that ended, and at most
  // once for an approved one (whose executor is missing or threw).
  predicate RunsAllowed(runs: nat, status: Status) {
    if Ended(status) then runs == 1 else if status == Approved then runs <= 1 else runs == 0
  }

  ghost predicate ExecutedOnce(q: Queue) {
    && RanClaimed(q)
    && (forall i: nat :: i < |q.actions| ==> RunsAllowed(RunsOf(q.executions, i), q.actions[i].status))
    && (forall i: nat :: |q.actions| <= i ==> RunsOf(q.executions, i) == 0)
  }

  lemma {:induction false} FindStaysPut(actions: seq<Action>, i: nat, a: Action, id: string)
    requires i < |actions| && a.id == actions[i].id
    ensures Find(actions[i := a], id) == Find(actions, id)
  {
    assert forall j :: 0 <= j < |actions| ==> actions[i := a][j].id == actions[j].id;
  }

  lemma {:induction false} AuditSnoc(audit: seq<AuditEvent>, e: AuditEvent, id: string)
    ensures AuditOf(audit + [e], id) == AuditOf(audit, id) + if e.id == id then [e.kind] else []
  {
    assert (audit + [e])[..|audit|] == audit;
  }

  lemma {:induction false} RunsSnoc(executions: seq<(nat, Action)>, x: (nat, Action), i: nat)
    ensures RunsOf(executions + [x], i) == RunsOf(executions, i) + if x.0 == i then 1 else 0
  {
    assert (executions + [x])[..|executions|] == executions;
  }

  lemma {:induction false} StageKeepsAudit(q: Queue, input: Action, now: string)
    requires Audited(q) && Distinct(AfterStage(q, input, now).actions)
    ensures Audited(AfterStage(q, input, now))
  {
    var q' := AfterStage(q, input, now);
    var n := |q.actions|;
    assert q'.actions[..n] == q.actions;
    assert forall i :: 0 <= i < n ==> q'.actions[i].id != q'.actions[n].id && q'.actions[i] == q.actions[i];
    forall id ensures AuditOf(q'.audit, id)
                   == match Find(q'.actions, id) case None => [] case Some(i) => Trail(q'.actions[i].status) {
      AuditSnoc(q.audit, q'.audit[|q.audit|], id);
    }
  }

  // One logged transition of the action at position i.
  lemma {:induction false} LoggingKeepsAudit(q: Queue, i: nat, a: Action, kind: AuditKind)
    requires Audited(q) && i < |q.actions| && a.id == q.actions[i].id && Find(q.actions, a.id) == Some(i)
    requires Trail(a.status) == Trail(q.actions[i].status) + [kind]
    ensures Audited(Log(q.(actions := q.actions[i := a]), kind, a.id))
    ensures Find(q.actions[i := a], a.id) == Some(i)
  {
    var q' := Log(q.(actions := q.actions[i := a]), kind, a.id);
    forall id ensures AuditOf(q'.audit, id)
                   == match Find(q'.actions, id) case None => [] case Some(j) => Trail(q'.actions[j].status) {
      FindStaysPut(q.actions, i, a, id);
      AuditSnoc(q.audit, AuditEvent(kind, a.id), id);
    }
    FindStaysPut(q.actions, i, a, a.id);
  }

  lemma {:induction false} ApproveKeepsAudit(q: Queue, i: nat, actor: string, now: string, execution: Execution)
    requires Audited(q) && i < |q.actions| && q.actions[i].status == Pending
    requires Find(q.actions, q.actions[i].id) == Some(i)
    ensures Audited(ApproveAt(q, i, actor, now, execution))
  {
    var claimed := q.actions[i].(status := Approved, decidedAt := now, decidedBy := Operator(actor));
    LoggingKeepsAudit(q, i, claimed, WasApproved);
    var approved := Log(q.(actions := q.actions[i := claimed]), WasApproved, claimed.id);
    var q' := ApproveAt(q, i, actor, now, execution);
    if execution.Failed? {
      LoggingKeepsAudit(approved, i, q'.actions[i], ExecutionFailed);
      assert approved.actions[i := q'.actions[i]] == q'.actions;
    } else if execution.Succeeded? {
      LoggingKeepsAudit(approved, i, q'.actions[i], WasExecuted);
      assert approved.actions[i := q'.actions[i]] == q'.actions;
    }
  }

  // The same actions but for the status and decision of the one at i.
  predicate SameButFor(q: Queue, q': Queue, i: nat)
    requires i < |q.actions|
  {
    && |q'.actions| == |q.actions| && q'.actions[i].id == q.actions[i].id
    && forall j :: 0 <= j < |q.actions| && j != i ==> q'.actions[j] == q.actions[j]
  }

  lemma {:induction false} NoRunKeepsExecutions(q: Queue, q': Queue, i: nat)
    requires ExecutedOnce(q) && i < |q.actions| && SameButFor(q, q', i)
    requires q.actions[i].status == Pending && q'.actions[i].status == Approved && q'.executions == q.executions
    ensures ExecutedOnce(q')
  {
    hide RunsOf;
    assert RunsAllowed(RunsOf(q.executions, i), Pending);
  }

  lemma {:induction false} RunKeepsExecutions(q: Queue, q': Queue, i: nat, x: (nat, Action))
    requires ExecutedOnce(q) && i < |q.actions| && SameButFor(q, q', i) && q.actions[i].status == Pending
    requires q'.executions == q.executions + [x] && x.0 == i && x.1.status == Approved && x.1.id == q.actions[i].id
    requires RunsAllowed(1, q'.actions[i].status)
    ensures ExecutedOnce(q')
  {
    hide RunsOf;
    assert RunsAllowed(RunsOf(q.executions, i), Pending);
    forall k: nat ensures RunsOf(q'.executions, k) == RunsOf(q.executions, k) + if k == i then 1 else 0 {
      RunsSnoc(q.executions, x, k);
    }
  }

  lemma {:induction false} ApproveKeepsExecutions(q: Queue, i: nat, actor: string, now: string, execution: Execution)
    requires ExecutedOnce(q) && i < |q.actions| && q.actions[i].status == Pending
    ensures ExecutedOnce(ApproveAt(q, i, actor, now, execution))
  {
    hide ExecutedOnce;
    var q' := ApproveAt(q, i, actor, now, execution);
    if execution == Absent {
      NoRunKeepsExecutions(q, q', i);
    } else {
      var claimed := q.actions[i].(status := Approved, decidedAt := now, decidedBy := Operator(actor));
      RunKeepsExecutions(q, q', i, (i, claimed));
    }
  }

  lemma {:induction false} RejectKeepsAudit(q: Queue, i: nat, actor: string, reason: string, now: string)
    requires Audited(q) && i < |q.actions| && q.actions[i].status == Pending
    requires Find(q.actions, q.actions[i].id) == Some(i)
    ensures Audited(RejectAt(q, i, actor, reason, now))
  {
    LoggingKeepsAudit(q, i, RejectAt(q, i, actor, reason, now).actions[i], WasRejected);
    hide Audited;
  }

  lemma {:induction false} OperationKeepsAudit(q: Queue, op: Op)
    requires Audited(q) && Distinct(Apply(q, op).actions)
    ensures Audited(Apply(q, op))
  {
    match op
    case DoStage(input, now) => StageKeepsAudit(q, input, now);
    case DoApprove(id, actor, now, execution) =>
      if PendingAt(q, id).Some? { ApproveKeepsAudit(q, PendingAt(q, id).value, actor, now, execution); }
    case DoReject(id, actor, reason, now) =>
      if PendingAt(q, id).Some? { RejectKeepsAudit(q, PendingAt(q, id).value, actor, reason, now); }
  }

  lemma {:induction false} OperationKeepsExecutions(q: Queue, op: Op)
    requires ExecutedOnce(q)
    ensures ExecutedOnce(Apply(q, op))
  {
    if op.DoApprove? && PendingAt(q, op.id).Some? {
      hide ExecutedOnce, ApproveAt;
      ApproveKeepsExecutions(q, PendingAt(q, op.id).value, op.actor, op.now, op.execution);
    }
  }

  // In every run, however long, the executor sees each action at most once and only a claimed snapshot of it.
  lemma {:induction false} EveryRunExecutesOnce(ops: seq<Op>)
    ensures ExecutedOnce(Run(ops))
  {
    if ops != [] {
      hide ExecutedOnce, Apply;
      EveryRunExecutesOnce(ops[..|ops| - 1]);
      OperationKeepsExecutions(Run(ops[..|ops| - 1]), ops[|ops| - 1]);
    } else {
      assert ExecutedOnce(EMPTY);
    }
  }

  // ---- What is executed is what was staged, and decisions are on record ----

  // The inputs staged by a run, in order.
  function Inputs(ops: seq<Op>): seq<(Action, string)> {
    if ops == [] then []
    else
      var last := ops[|ops| - 1];
      Inputs(ops[..|ops| - 1]) + if last.DoStage? then [(last.input, last.now)] else []
  }

  // The action as it was staged, apart from its id and what a decision changes.
  predicate IsInput(a: Action, input: (Action, string)) {
    && a.kind == input.0.kind && a.actor == input.0.actor && a.target == input.0.target
    && a.payload == input.0.payload && a.createdAt == input.1
  }

  // Decision fields of an input are kept until the decision.
  predicate Untouched(a: Action, input: (Action, string)) {
    a.status == Pending ==>
      a.reason == input.0.reason && a.decidedAt == input.0.decidedAt && a.decidedBy == input.0.decidedBy
  }

  predicate AllStaged(actions: seq<Action>, inputs: seq<(Action, string)>) {
    && |actions| == |inputs|
    && forall i :: 0 <= i < |inputs| ==> IsInput(actions[i], inputs[i]) && Untouched(actions[i], inputs[i])
  }

  lemma {:induction false} StagingIsInput(q: Queue, input: Action, now: string, inputs: seq<(Action, string)>)
    requires AllStaged(q.actions, inputs)
    ensures AllStaged(AfterStage(q, input, now).actions, inputs + [(input, now)])
  {
    hide IdOf;
  }

  lemma {:induction false} DecidingKeepsInputs(q: Queue, op: Op, inputs: seq<(Action, string)>)
    requires !op.DoStage? && AllStaged(q.actions, inputs)
    ensures AllStaged(Apply(q, op).actions, inputs)
  {
    hide Apply;
    DecisionKeepsIds(q, op);
    forall i | 0 <= i < |q.actions| ensures Moved(q.actions[i], Apply(q, op).actions[i]) {
      OneOperationMoves(q, op, i);
    }
  }

  lemma {:induction false} EveryActionWasStaged(ops: seq<Op>)
    ensures AllStaged(Run(ops).actions, Inputs(ops))
  {
    if ops != [] {
      var before, op := ops[..|ops| - 1], ops[|ops| - 1];
      EveryActionWasStaged(before);
      LastApplies(ops);
      hide AllStaged, Run;
      if op.DoStage? {
        StagingIsInput(Run(before), op.input, op.now, Inputs(before));
      } else {
        DecidingKeepsInputs(Run(before), op, Inputs(before));
        assert Inputs(before) + [] == Inputs(before);
      }
    }
  }

  lemma LastApplies(ops: seq<Op>)
    requires ops != []
    ensures Run(ops) == Apply(Run(ops[..|ops| - 1]), ops[|ops| - 1])
  {
  }

  // The snapshot the executor got is the action it ran for, at its approval.
  predicate RanItself(q: Queue) {
    forall k :: 0 <= k < |q.executions| ==>
      var i, x := q.executions[k].0, q.executions[k].1;
      && i < |q.actions| && q.actions[i].status != Pending && q.actions[i].status != Rejected
      && x == q.actions[i].(status := Approved, reason := x.reason)
      && (q.actions[i].reason == x.reason || (x.reason == "" && q.actions[i].status == ExecuteFailed))
  }

  lemma {:induction false} ApproveKeepsRuns(q: Queue, i: nat, actor: string, now: string, execution: Execution)
    requires RanItself(q) && i < |q.actions| && q.actions[i].status == Pending
    ensures RanItself(ApproveAt(q, i, actor, now, execution))
  {
  }

  lemma {:induction false} OperationKeepsRuns(q: Queue, op: Op)
    requires RanItself(q)
    ensures RanItself(Apply(q, op))
  {
    if op.DoApprove? && PendingAt(q, op.id).Some? {
      ApproveKeepsRuns(q, PendingAt(q, op.id).value, op.actor, op.now, op.execution);
      hide ApproveAt, RanItself;
    }
  }

  lemma {:induction false} EveryRunRunsItself(ops: seq<Op>)
    ensures RanItself(Run(ops))
  {
    if ops != [] {
      EveryRunRunsItself(ops[..|ops| - 1]);
      OperationKeepsRuns(Run(ops[..|ops| - 1]), ops[|ops| - 1]);
    }
  }

  // In every run what the executor is handed is what was staged: kind, actor, target and payload, with the
  // reason given then, and on the record of the action as it was approved.
  lemma {:induction false} ExecutedIsStaged(ops: seq<Op>, k: nat)
    requires k < |Run(ops).executions|
    ensures var (i, x) := Run(ops).executions[k];
      && i < |Inputs(ops)| && i < |Run(ops).actions| && IsInput(x, Inputs(ops)[i])
      && x == Run(ops).actions[i].(status := Approved, reason := x.reason)
  {
    EveryActionWasStaged(ops);
    EveryRunRunsItself(ops);
  }

  // The operation decides the action, staged with the given reason, and this is what it leaves on record.
  predicate Decides(op: Op, staged: string, a: Action) {
    && !op.DoStage? && a.id == op.id && a.decidedAt == op.now
    && a.decidedBy == (if op.actor == "" then "operator" else op.actor)
    && if op.DoReject? then a.status == Rejected && a.reason == op.reason
       else
         && (a.status == Approved <==> op.execution == Absent || op.execution == Threw)
         && (a.status == Executed <==> op.execution == Succeeded)
         && (a.status == ExecuteFailed <==> op.execution.Failed?)
         && a.reason == if staged == "" && op.execution.Failed? then op.execution.message else staged
  }

  lemma {:induction false} OneDecision(q: Queue, op: Op, i: nat)
    requires i < |q.actions| && q.actions[i].status == Pending && Apply(q, op).actions[i].status != Pending
    ensures Decides(op, q.actions[i].reason, Apply(q, op).actions[i])
  {
  }

  // Every decided action was decided by one operation on its id, whose actor, time and outcome it records.
  lemma {:induction false} DecisionsAreOnRecord(ops: seq<Op>, i: nat)
    requires i < |Inputs(ops)| && i < |Run(ops).actions| && Run(ops).actions[i].status != Pending
    ensures exists n :: 0 <= n < |ops| && Decides(ops[n], Inputs(ops)[i].0.reason, Run(ops).actions[i])
  {
    var before, op := ops[..|ops| - 1], ops[|ops| - 1];
    var q := Run(before);
    EveryActionWasStaged(before);
    LastApplies(ops);
    hide Decides, Apply, Run, Inputs;
    if i < |q.actions| {
      assert Inputs(ops)[i] == Inputs(before)[i] by { InputsStay(ops, i); }
      if q.actions[i].status != Pending {
        DecisionsAreOnRecord(before, i);
        OneOperationMoves(q, op, i);
        var n :| 0 <= n < |before| && Decides(before[n], Inputs(before)[i].0.reason, q.actions[i]);
        assert ops[n] == before[n];
      } else {
        OneDecision(q, op, i);
      }
    } else {
      NewIsPending(q, op, i);
    }
  }

  lemma InputsStay(ops: seq<Op>, i: nat)
    requires ops != [] && i < |Inputs(ops[..|ops| - 1])|
    ensures i < |Inputs(ops)| && Inputs(ops)[i] == Inputs(ops[..|ops| - 1])[i]
  {
  }

  lemma NewIsPending(q: Queue, op: Op, i: nat)
    requires |q.actions| <= i < |Apply(q, op).actions|
    ensures Apply(q, op).actions[i].status == Pending
  {
  }

  // While ids are distinct, every run keeps the audit trail of each id equal to the one
  // its status stands for.
  lemma {:induction false} EveryRunIsAudited(ops: seq<Op>)
    requires |Run(ops).actions| <= TWO_POW_64
    ensures Audited(Run(ops)) && ExecutedOnce(Run(ops))
  {
    EveryRunExecutesOnce(ops);
    if ops != [] {
      hide ExecutedOnce;
      var before := ops[..|ops| - 1];
      EveryRunIsAudited(before);
      IdsAreDistinctWithinATurn(ops);
      OperationKeepsAudit(Run(before), ops[|ops| - 1]);
    }
  }

  // How many actions carry the id.
  function Named(actions: seq<Action>, id: string): nat {
    if actions == [] then 0
    else Named(actions[..|actions| - 1], id) + if actions[|actions| - 1].id == id then 1 else 0
  }

  lemma {:induction false} NamedStays(actions: seq<Action>, i: nat, a: Action, id: string)
    requires i < |actions| && a.id == actions[i].id
    ensures Named(actions[i := a], id) == Named(actions, id)
  {
    var n := |actions| - 1;
    if i == n {
      assert actions[i := a][..n] == actions[..n];
    } else {
      assert actions[i := a][..n] == actions[..n][i := a];
      NamedStays(actions[..n], i, a, id);
    }
  }

  lemma {:induction false} NamedTwice(actions: seq<Action>, i: nat, j: nat)
    requires i < j < |actions| && actions[i].id == actions[j].id
    ensures 2 <= Named(actions, actions[i].id)
  {
    var n := |actions| - 1;
    if j < n { NamedTwice(actions[..n], i, j); } else { NamedOnce(actions[..n], i); }
  }

  lemma {:induction false} NamedOnce(actions: seq<Action>, i: nat)
    requires i < |actions|
    ensures 1 <= Named(actions, actions[i].id)
  {
    if i < |actions| - 1 { NamedOnce(actions[..|actions| - 1], i); }
  }

  function Deferrals(q: Queue, id: string): nat {
    multiset(AuditOf(q.audit, id))[Deferred]
  }

  lemma {:induction false} LoggingDefers(q: Queue, kind: AuditKind, name: string, id: string)
    ensures Deferrals(Log(q, kind, name), id)
         == Deferrals(q, id) + if name == id && kind == Deferred then 1 else 0
  {
    AuditSnoc(q.audit, AuditEvent(kind, name), id);
  }

  lemma {:induction false} DecisionDefersNothing(q: Queue, op: Op, id: string)
    requires !op.DoStage?
    ensures Deferrals(Apply(q, op), id) == Deferrals(q, id)
    ensures Named(Apply(q, op).actions, id) == Named(q.actions, id)
  {
    if PendingAt(q, op.id).Some? {
      var i := PendingAt(q, op.id).value;
      DecidedIsNotPending(q, op, i);
      NamedStays(q.actions, i, Apply(q, op).actions[i], id);
      hide Named, AuditOf, PendingAt;
      if op.DoReject? {
        LoggingDefers(q, WasRejected, q.actions[i].id, id);
      } else {
        hide Apply;
        ApprovalDefersNothing(q, i, op.actor, op.now, op.execution, id);
        assert Apply(q, op) == ApproveAt(q, i, op.actor, op.now, op.execution) by { ApplyingApproves(q, op, i); }
      }
    }
  }

  lemma ApplyingApproves(q: Queue, op: Op, i: nat)
    requires op.DoApprove? && PendingAt(q, op.id) == Some(i)
    ensures Apply(q, op) == ApproveAt(q, i, op.actor, op.now, op.execution)
  {
  }

  lemma {:induction false} ApprovalDefersNothing(
      q: Queue, i: nat, actor: string, now: string, execution: Execution, id: string)
    requires i < |q.actions|
    ensures Deferrals(ApproveAt(q, i, actor, now, execution), id) == Deferrals(q, id)
  {
    hide AuditOf;
    var name := q.actions[i].id;
    LoggingDefers(q, WasApproved, name, id);
    LoggingDefers(Log(q, WasApproved, name), WasExecuted, name, id);
    LoggingDefers(Log(q, WasApproved, name), ExecutionFailed, name, id);
  }

  lemma {:induction false} DeferralsAreStagings(ops: seq<Op>, id: string)
    ensures Deferrals(Run(ops), id) == Named(Run(ops).actions, id)
  {
    if ops != [] {
      var q, op := Run(ops[..|ops| - 1]), ops[|ops| - 1];
      DeferralsAreStagings(ops[..|ops| - 1], id);
      if op.DoStage? {
        var q' := Apply(q, op);
        LoggingDefers(q, Deferred, q'.actions[|q.actions|].id, id);
        assert q'.actions[..|q.actions|] == q.actions;
      } else {
        DecisionDefersNothing(q, op, id);
      }
    }
  }

  // The audit trail of each id is its action's exactly until the counter has turned.
  lemma {:induction false} AuditedWithinATurn(ops: seq<Op>)
    ensures Audited(Run(ops)) <==> |Run(ops).actions| <= TWO_POW_64
  {
    if |Run(ops).actions| <= TWO_POW_64 {
      EveryRunIsAudited(ops);
    } else {
      hide Run, Named, Deferrals, Audited;
      IdsRepeatPerTurn(ops, 0, TWO_POW_64);
      NamedTwice(Run(ops).actions, 0, TWO_POW_64);
      DeferralsAreStagings(ops, Run(ops).actions[0].id);
      DeferredTwice(Run(ops), Run(ops).actions[0].id);
    }
  }

  lemma {:induction false} DeferredTwice(q: Queue, id: string)
    requires 2 <= Deferrals(q, id)
    ensures !Audited(q)
  {
    hide AuditOf;
    assert forall status :: multiset(Trail(status))[Deferred] == 1;
    assert AuditOf(q.audit, id) != match Find(q.actions, id) case None => [] case Some(i) => Trail(q.actions[i].status);
  }

  lemma {:induction false} TrailsTellStatusesApart(a: Status, b: Status)
    requires Trail(a) == Trail(b)
    ensures a == b
  {
    assert Trail(a)[1..] == Trail(b)[1..];
  }

  // The audit events of an id determine the status of its action.
  lemma {:induction false} AuditDeterminesStatus(ops: seq<Op>, other: seq<Op>, i: nat, j: nat)
    requires |Run(ops).actions| <= TWO_POW_64 && |Run(other).actions| <= TWO_POW_64
    requires i < |Run(ops).actions| && j < |Run(other).actions| && Run(ops).actions[i].id == Run(other).actions[j].id
    ensures AuditOf(Run(ops).audit, Run(ops).actions[i].id) == AuditOf(Run(other).audit, Run(other).actions[j].id)
            <==> Run(ops).actions[i].status == Run(other).actions[j].status
  {
    AuditIsTheTrail(ops, i);
    AuditIsTheTrail(other, j);
    var a, b := Run(ops).actions[i].status, Run(other).actions[j].status;
    if Trail(a) == Trail(b) { TrailsTellStatusesApart(a, b); }
  }

  lemma DistinctAreFound(actions: seq<Action>, i: nat)
    requires Distinct(actions) && i < |actions|
    ensures Find(actions, actions[i].id) == Some(i)
  {
  }

  lemma {:induction false} AuditIsTheTrail(ops: seq<Op>, i: nat)
    requires |Run(ops).actions| <= TWO_POW_64 && i < |Run(ops).actions|
    ensures AuditOf(Run(ops).audit, Run(ops).actions[i].id) == Trail(Run(ops).actions[i].status)
  {
    EveryRunIsAudited(ops);
    IdsAreDistinctWithinATurn(ops);
    hide Run, AuditOf, ExecutedOnce, Find, Distinct;
    DistinctAreFound(Run(ops).actions, i);
  }

  // What one operation may do to an action that is already there.
  predicate Follows(before: Status, after: Status) {
    before == after || (before == Pending && after != Pending)
  }

  predicate Moved(a: Action, b: Action) {
    && Follows(a.status, b.status)
    && b == a.(status := b.status, reason := b.reason, decidedAt := b.decidedAt, decidedBy := b.decidedBy)
    && (a.status == b.status ==> b == a)
  }

  lemma {:induction false} OneOperationMoves(q: Queue, op: Op, i: nat)
    requires i < |q.actions|
    ensures i < |Apply(q, op).actions| && Moved(q.actions[i], Apply(q, op).actions[i])
  {
  }

  // Staged actions stay, in place; a decided action never changes again, and a pending
  // one changes at most once, in its status and decision fields only.
  lemma {:induction false} ActionsOnlyMoveForward(ops: seq<Op>, i: nat, n: nat)
    requires n <= |ops| && i < |Run(ops[..n]).actions|
    ensures i < |Run(ops).actions| && Moved(Run(ops[..n]).actions[i], Run(ops).actions[i])
    decreases |ops|
  {
    if n < |ops| {
      var before := ops[..|ops| - 1];
      assert before[..n] == ops[..n];
      ActionsOnlyMoveForward(before, i, n);
      OneOperationMoves(Run(before), ops[|ops| - 1], i);
    } else {
      assert ops[..n] == ops;
    }
  }
}
