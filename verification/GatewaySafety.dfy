/** What every step of the gateway keeps: lock ownership, the phase the lifecycle
    holder is in, the request census, and no lost wakeup. */
module GatewaySafety {
  import opened Basics
  import opened GatewayLifecycle

  // ---- Who holds which lock ----

  predicate InStart(pc: CallerPc) {
    pc.StartWantLifecycle? || pc.StartWantState? || pc.StartBody? || pc.StartWantJobs? || pc.StartResetJobs?
    || pc.StartSpawnReceiver? || pc.StartSpawnWorker? || pc.StartPublish?
  }

  predicate HoldsLifecycle(pc: CallerPc) {
    !pc.Idle? && !pc.StartWantLifecycle? && !pc.StopWantLifecycle? && !pc.ReadWantState? && !pc.ReadBody?
  }

  predicate CallerHoldsState(pc: CallerPc) {
    pc.StartBody? || pc.StartWantJobs? || pc.StartResetJobs? || pc.StartSpawnReceiver? || pc.StartSpawnWorker?
    || pc.StartPublish? || pc.StopMark? || pc.StopClose? || pc.ReadBody?
  }

  predicate CallerHoldsJobs(pc: CallerPc) {
    pc.StartResetJobs? || pc.StopRaiseFlag? || pc.StopResetJobs?
  }

  predicate ReceiverHoldsState(pc: ReceiverPc) {
    pc.ProbeHold? || pc.StatusHold?
  }

  predicate LifecycleOwned(s: State) {
    && (s.locks.lifecycle.Some? ==> s.locks.lifecycle.value < |s.callers|)
    && (forall i: nat :: i < |s.callers| ==> (HoldsLifecycle(s.callers[i]) <==> s.locks.lifecycle == Some(i)))
  }

  predicate StateOwned(s: State) {
    && (s.locks.state.Some? ==> IsThread(s, s.locks.state.value))
    && (forall i: nat :: i < |s.callers| ==> (CallerHoldsState(s.callers[i]) <==> s.locks.state == Some(Caller(i))))
    && (ReceiverHoldsState(s.receiver) <==> s.locks.state == Some(Receiver))
    && (forall k: nat :: k < |s.workers| ==> (s.workers[k].StateHold? <==> s.locks.state == Some(Worker(k))))
  }

  predicate JobsOwned(s: State) {
    && (s.locks.jobs.Some? ==> IsThread(s, s.locks.jobs.value))
    && (forall i: nat :: i < |s.callers| ==> (CallerHoldsJobs(s.callers[i]) <==> s.locks.jobs == Some(Caller(i))))
    && (s.receiver.EnqueueHold? <==> s.locks.jobs == Some(Receiver))
    && (forall k: nat :: k < |s.workers| ==> (s.workers[k].HoldJobs? <==> s.locks.jobs == Some(Worker(k))))
  }

  predicate LocksOwned(s: State) {
    LifecycleOwned(s) && StateOwned(s) && JobsOwned(s)
  }

  // ---- Where the adapter is in its Start..Stop cycle ----

  predicate Down(s: State) {
    s.receiver == NotStarted && s.workers == [] && s.queue == []
  }

  predicate Up(s: State) {
    s.adapter.running && s.adapter.open && !s.adapter.shut && !s.shutdown
    && s.receiver != NotStarted && |s.workers| == WORKER_COUNT
  }

  predicate Starting(s: State) {
    s.adapter.running && s.adapter.open && !s.adapter.shut && !s.shutdown
  }

  predicate Draining(s: State) {
    !s.adapter.running && s.adapter.open && s.adapter.shut && s.shutdown
  }

  ghost predicate Settled(s: State) {
    !s.shutdown && (if s.adapter.running then Up(s) else Down(s) && !s.adapter.open)
  }

  ghost predicate Joined(ws: seq<WorkerPc>, k: nat) {
    k <= |ws| && forall j :: 0 <= j < k ==> ws[j] == WorkerExited
  }

  ghost predicate PhaseOf(s: State, pc: CallerPc) {
    match pc
    case StartWantJobs => Starting(s) && Down(s)
    case StartResetJobs => Starting(s) && Down(s)
    case StartSpawnReceiver => Starting(s) && Down(s)
    case StartSpawnWorker => Starting(s) && s.receiver != NotStarted && |s.workers| < WORKER_COUNT
    case StartPublish => Up(s)
    case StopShutHttp =>
      !s.adapter.running && s.adapter.open && !s.adapter.shut && !s.shutdown && |s.workers| == WORKER_COUNT
      && s.receiver != NotStarted
    case StopWantJobs =>
      !s.adapter.running && s.adapter.open && s.adapter.shut && !s.shutdown && |s.workers| == WORKER_COUNT
    case StopRaiseFlag =>
      !s.adapter.running && s.adapter.open && s.adapter.shut && !s.shutdown && |s.workers| == WORKER_COUNT
    case StopNotify => Draining(s) && |s.workers| == WORKER_COUNT
    case StopJoinReceiver => Draining(s) && Asleep !in s.workers && |s.workers| == WORKER_COUNT
    case StopJoinWorker(k) =>
      Draining(s) && Asleep !in s.workers && |s.workers| == WORKER_COUNT && s.receiver == NotStarted
      && Joined(s.workers, k)
    case StopWantJobsAgain => Draining(s) && s.receiver == NotStarted && s.workers == []
    case StopResetJobs => Draining(s) && s.receiver == NotStarted && s.workers == []
    case StopWantStateAgain => !s.adapter.running && s.adapter.open && !s.shutdown && Down(s)
    case StopClose => !s.adapter.running && s.adapter.open && !s.shutdown && Down(s)
    case _ => Settled(s) // nothing changed yet: StartWantState, StartBody, StopWantState, StopMark
  }

  // The caller that holds lifecycleMutex_, if any, says how far the cycle is.
  function HolderPc(s: State): CallerPc {
    if s.locks.lifecycle.Some? && s.locks.lifecycle.value < |s.callers|
    then s.callers[s.locks.lifecycle.value] else Idle
  }

  predicate Teardown(pc: CallerPc) {
    pc.StopShutHttp? || pc.StopWantJobs? || pc.StopRaiseFlag? || pc.StopNotify? || pc.StopJoinReceiver?
    || pc.StopJoinWorker? || pc.StopWantJobsAgain? || pc.StopResetJobs? || pc.StopWantStateAgain? || pc.StopClose?
  }

  predicate HttpStillUsed(pc: CallerPc) {
    pc.StopShutHttp? || pc.StopWantJobs? || pc.StopRaiseFlag? || pc.StopNotify?
  }

  predicate IsClosing(pc: CallerPc) {
    Teardown(pc) && !HttpStillUsed(pc) && !pc.StopJoinWorker?
  }

  ghost predicate Phase(s: State) {
    && PhaseOf(s, HolderPc(s))
    && (s.adapter.running && !s.adapter.shut ==> s.receiver != Exited)
    && (!s.shutdown ==> WorkerExited !in s.workers)
    && (s.adapter.status == Stopping ==> Teardown(HolderPc(s)))
  }

  // ---- Where each received request is ----

  function HeldByReceiver(pc: ReceiverPc): Option<Job> {
    match pc
    case ProbeWant(job) => Some(job)
    case ProbeHold(job) => Some(job)
    case StatusWant(job) => Some(job)
    case StatusHold(job) => Some(job)
    case EnqueueWant(job) => Some(job)
    case EnqueueHold(job) => Some(job)
    case Send(job) => Some(job)
    case _ => None
  }

  function HeldByWorker(pc: WorkerPc): Option<Job> {
    match pc
    case Drain(job) => Some(job)
    case Execute(job, _) => Some(job)
    case StateWant(job, _) => Some(job)
    case StateHold(job, _) => Some(job)
    case Respond(job) => Some(job)
    case _ => None
  }

  function One(held: Option<Job>, job: Job): nat {
    if held == Some(job) then 1 else 0
  }

  function Working(ws: seq<WorkerPc>, job: Job): nat {
    if ws == [] then 0 else Working(ws[..|ws| - 1], job) + One(HeldByWorker(ws[|ws| - 1]), job)
  }

  // In how many places `job` is: queued, with the receiver, with a worker, answered, dropped.
  function Census(s: State, job: Job): nat {
    multiset(s.queue)[job] + One(HeldByReceiver(s.receiver), job) + Working(s.workers, job)
    + s.ledger.answered[job] + s.ledger.dropped[job]
  }

  ghost predicate Accounted(s: State) {
    forall job :: Census(s, job) == multiset(s.ledger.received)[job]
  }

  predicate InBudget(pc: WorkerPc) {
    match pc
    case Execute(_, left) => left <= MAX_STATE_SECTIONS
    case StateWant(_, left) => left < MAX_STATE_SECTIONS
    case StateHold(_, left) => left < MAX_STATE_SECTIONS
    case _ => true
  }

  ghost predicate Bounded(s: State) {
    && |s.queue| <= QUEUE_MAX_DEPTH
    && forall k :: 0 <= k < |s.workers| ==> InBudget(s.workers[k])
  }

  ghost predicate Numbered(s: State) {
    forall k :: 0 <= k < |s.ledger.received| ==> s.ledger.received[k].id == k
  }

  predicate Of(held: Option<Job>, session: nat) {
    held.Some? ==> held.value.session == session
  }

  ghost predicate Current(s: State) {
    && (forall k :: 0 <= k < |s.queue| ==> s.queue[k].session == s.ledger.session)
    && Of(HeldByReceiver(s.receiver), s.ledger.session)
    && (forall k :: 0 <= k < |s.workers| ==> Of(HeldByWorker(s.workers[k]), s.ledger.session))
  }

  predicate IsComing(pc: WorkerPc) {
    pc == WantJobs || pc == HoldJobs
  }

  // The workers that will look at the queue before they can sleep.
  function Coming(ws: seq<WorkerPc>): nat {
    if ws == [] then 0 else Coming(ws[..|ws| - 1]) + if IsComing(ws[|ws| - 1]) then 1 else 0
  }

  // While a worker sleeps, each queued job has a worker of its own on the way to the queue, or the
  // notification for it is still to be given.
  predicate NoLostWakeup(s: State) {
    !s.shutdown && Asleep in s.workers ==>
      |s.queue| <= Coming(s.workers) + if s.receiver.NotifyOne? then 1 else 0
  }

  ghost predicate Inv(s: State) {
    LocksOwned(s) && Phase(s) && NoLostWakeup(s) && Accounted(s) && Bounded(s) && Numbered(s) && Current(s)
  }

  // ---- Preservation ----

  lemma {:induction false} InitialInv(s: State)
    requires Initial(s)
    ensures Inv(s)
  {
  }

  lemma {:induction false} WorkingAfter(ws: seq<WorkerPc>, k: nat, pc: WorkerPc, job: Job)
    requires k < |ws|
    ensures Working(ws[k := pc], job) + One(HeldByWorker(ws[k]), job) == Working(ws, job) + One(HeldByWorker(pc), job)
  {
    var n := |ws| - 1;
    if k == n {
      assert ws[k := pc][..n] == ws[..n];
    } else {
      assert ws[k := pc][..n] == ws[..n][k := pc];
      WorkingAfter(ws[..n], k, pc, job);
    }
  }

  lemma {:induction false} WorkingOnNothing(ws: seq<WorkerPc>, job: Job)
    requires forall k :: 0 <= k < |ws| ==> HeldByWorker(ws[k]) == None
    ensures Working(ws, job) == 0
  {
    if ws != [] { WorkingOnNothing(ws[..|ws| - 1], job); }
  }

  lemma {:induction false} WakingMovesNoJob(ws: seq<WorkerPc>, job: Job)
    ensures Working(WakeAll(ws), job) == Working(ws, job)
  {
    if ws != [] {
      var n := |ws| - 1;
      assert WakeAll(ws)[..n] == WakeAll(ws[..n]);
      WakingMovesNoJob(ws[..n], job);
    }
  }

  // ---- Locks: each kind of step leaves each lock with the thread whose program counter says so ----

  lemma {:induction false} StartDecisionKeepsLifecycle(s: State, i: nat, outcome: StartOutcome)
    requires i < |s.callers| && s.callers[i] == StartBody && LifecycleOwned(s)
    ensures LifecycleOwned(StartDecision(s, i, outcome))
  {
  }

  lemma {:induction false} StartDecisionKeepsState(s: State, i: nat, outcome: StartOutcome)
    requires i < |s.callers| && s.callers[i] == StartBody && StateOwned(s)
    ensures StateOwned(StartDecision(s, i, outcome))
  {
  }

  lemma {:induction false} StartDecisionKeepsJobs(s: State, i: nat, outcome: StartOutcome)
    requires i < |s.callers| && s.callers[i] == StartBody && JobsOwned(s)
    ensures JobsOwned(StartDecision(s, i, outcome))
  {
  }

  lemma {:induction false} StartDecisionKeepsPhase(s: State, i: nat, outcome: StartOutcome)
    requires i < |s.callers| && s.callers[i] == StartBody && LifecycleOwned(s) && Phase(s)
    ensures Phase(StartDecision(s, i, outcome))
  {
  }

  lemma {:induction false} StopDecisionKeeps(s: State, i: nat)
    requires i < |s.callers| && s.callers[i] == StopMark && LifecycleOwned(s) && Phase(s)
    ensures LifecycleOwned(StopDecision(s, i)) && Phase(StopDecision(s, i))
  {
  }

  lemma {:induction false} StopDecisionKeepsLocks(s: State, i: nat)
    requires i < |s.callers| && s.callers[i] == StopMark && StateOwned(s) && JobsOwned(s)
    ensures StateOwned(StopDecision(s, i)) && JobsOwned(StopDecision(s, i))
  {
  }

  lemma {:induction false} StartKeepsLifecycleOwned(s: State, i: nat, c: Choice)
    requires LifecycleOwned(s)
    requires i < |s.callers| && CallerEnabled(s, i) && InStart(s.callers[i]) && s.callers[i] != StartBody
    ensures LifecycleOwned(CallerAfter(s, i, c))
  {
  }

  lemma {:induction false} TeardownKeepsHold(s: State, i: nat, c: Choice)
    requires i < |s.callers| && CallerEnabled(s, i) && Teardown(s.callers[i]) && s.callers[i] != StopClose
    ensures var s' := CallerAfter(s, i, c);
      && s'.callers == s.callers[i := s'.callers[i]] && HoldsLifecycle(s'.callers[i])
      && s'.locks.lifecycle == s.locks.lifecycle
  {
  }

  lemma {:induction false} StopKeepsLifecycleOwned(s: State, i: nat, c: Choice)
    requires LifecycleOwned(s)
    requires i < |s.callers| && CallerEnabled(s, i) && Teardown(s.callers[i])
    ensures LifecycleOwned(CallerAfter(s, i, c))
  {
    if s.callers[i] != StopClose {
      TeardownKeepsHold(s, i, c);
      hide CallerAfter, CallerEnabled;
    }
  }

  lemma {:induction false} CallKeepsLifecycleOwned(s: State, i: nat, c: Choice)
    requires LifecycleOwned(s)
    requires i < |s.callers| && CallerEnabled(s, i)
    requires !Teardown(s.callers[i]) && !InStart(s.callers[i]) && s.callers[i] != StopMark
    ensures LifecycleOwned(CallerAfter(s, i, c))
  {
  }

  lemma {:induction false} ReceiverKeepsLifecycleOwned(s: State, c: Choice)
    requires LifecycleOwned(s)
    requires ReceiverEnabled(s, c)
    ensures LifecycleOwned(ReceiverAfter(s, c))
  {
  }

  lemma {:induction false} WorkerKeepsLifecycleOwned(s: State, k: nat, c: Choice)
    requires LifecycleOwned(s)
    requires k < |s.workers| && WorkerEnabled(s, k)
    ensures LifecycleOwned(WorkerAfter(s, k, c))
  {
  }

  lemma {:induction false} StartKeepsStateOwned(s: State, i: nat, c: Choice)
    requires StateOwned(s)
    requires i < |s.callers| && CallerEnabled(s, i) && InStart(s.callers[i]) && s.callers[i] != StartBody
    requires s.callers[i].StartSpawnReceiver? ==> s.receiver == NotStarted
    ensures StateOwned(CallerAfter(s, i, c))
  {
  }

  lemma {:induction false} JoinKeepsStateOwned(s: State, i: nat, c: Choice)
    requires StateOwned(s)
    requires i < |s.callers| && CallerEnabled(s, i) && s.callers[i].StopJoinWorker?
    requires Joined(s.workers, s.callers[i].k)
    ensures StateOwned(CallerAfter(s, i, c))
  {
  }

  lemma {:induction false} StoppingKeepsStateOwned(s: State, i: nat, c: Choice)
    requires StateOwned(s)
    requires i < |s.callers| && CallerEnabled(s, i) && HttpStillUsed(s.callers[i])
    ensures StateOwned(CallerAfter(s, i, c))
  {
  }

  lemma {:induction false} ClosingKeepsStateOwned(s: State, i: nat, c: Choice)
    requires StateOwned(s)
    requires i < |s.callers| && CallerEnabled(s, i) && IsClosing(s.callers[i])
    ensures StateOwned(CallerAfter(s, i, c))
  {
  }

  lemma {:induction false} StopKeepsStateOwned(s: State, i: nat, c: Choice)
    requires StateOwned(s)
    requires i < |s.callers| && CallerEnabled(s, i) && Teardown(s.callers[i])
    requires s.callers[i].StopJoinWorker? ==> Joined(s.workers, s.callers[i].k)
    ensures StateOwned(CallerAfter(s, i, c))
  {
    hide StateOwned, CallerAfter, CallerEnabled;
    if s.callers[i].StopJoinWorker? {
      JoinKeepsStateOwned(s, i, c);
    } else if HttpStillUsed(s.callers[i]) {
      StoppingKeepsStateOwned(s, i, c);
    } else {
      ClosingKeepsStateOwned(s, i, c);
    }
  }

  lemma {:induction false} CallKeepsStateOwned(s: State, i: nat, c: Choice)
    requires StateOwned(s)
    requires i < |s.callers| && CallerEnabled(s, i)
    requires !Teardown(s.callers[i]) && !InStart(s.callers[i]) && s.callers[i] != StopMark
    ensures StateOwned(CallerAfter(s, i, c))
  {
  }

  lemma {:induction false} ReceiverKeepsStateOwned(s: State, c: Choice)
    requires StateOwned(s)
    requires ReceiverEnabled(s, c)
    ensures StateOwned(ReceiverAfter(s, c))
  {
  }

  lemma {:induction false} WorkerKeepsStateOwned(s: State, k: nat, c: Choice)
    requires StateOwned(s)
    requires k < |s.workers| && WorkerEnabled(s, k)
    ensures StateOwned(WorkerAfter(s, k, c))
  {
  }

  lemma {:induction false} StartKeepsJobsOwned(s: State, i: nat, c: Choice)
    requires JobsOwned(s)
    requires i < |s.callers| && CallerEnabled(s, i) && InStart(s.callers[i]) && s.callers[i] != StartBody
    requires s.callers[i].StartSpawnReceiver? ==> s.receiver == NotStarted
    ensures JobsOwned(CallerAfter(s, i, c))
  {
  }

  lemma {:induction false} StoppingKeepsJobsOwned(s: State, i: nat, c: Choice)
    requires JobsOwned(s)
    requires i < |s.callers| && CallerEnabled(s, i) && HttpStillUsed(s.callers[i])
    ensures JobsOwned(CallerAfter(s, i, c))
  {
  }

  lemma {:induction false} ClosingKeepsJobsOwned(s: State, i: nat, c: Choice)
    requires JobsOwned(s)
    requires i < |s.callers| && CallerEnabled(s, i) && IsClosing(s.callers[i])
    ensures JobsOwned(CallerAfter(s, i, c))
  {
  }

  lemma {:induction false} JoinKeepsJobsOwned(s: State, i: nat, c: Choice)
    requires JobsOwned(s)
    requires i < |s.callers| && CallerEnabled(s, i) && s.callers[i].StopJoinWorker?
    requires Joined(s.workers, s.callers[i].k)
    ensures JobsOwned(CallerAfter(s, i, c))
  {
  }

  lemma {:induction false} StopKeepsJobsOwned(s: State, i: nat, c: Choice)
    requires JobsOwned(s)
    requires i < |s.callers| && CallerEnabled(s, i) && Teardown(s.callers[i])
    requires s.callers[i].StopJoinWorker? ==> Joined(s.workers, s.callers[i].k)
    ensures JobsOwned(CallerAfter(s, i, c))
  {
    hide JobsOwned, CallerAfter, CallerEnabled;
    if s.callers[i].StopJoinWorker? {
      JoinKeepsJobsOwned(s, i, c);
    } else if HttpStillUsed(s.callers[i]) {
      StoppingKeepsJobsOwned(s, i, c);
    } else {
      ClosingKeepsJobsOwned(s, i, c);
    }
  }

  lemma {:induction false} CallKeepsJobsOwned(s: State, i: nat, c: Choice)
    requires JobsOwned(s)
    requires i < |s.callers| && CallerEnabled(s, i)
    requires !Teardown(s.callers[i]) && !InStart(s.callers[i]) && s.callers[i] != StopMark
    ensures JobsOwned(CallerAfter(s, i, c))
  {
  }

  lemma {:induction false} ReceiverKeepsJobsOwned(s: State, c: Choice)
    requires JobsOwned(s)
    requires ReceiverEnabled(s, c)
    ensures JobsOwned(ReceiverAfter(s, c))
  {
  }

  lemma {:induction false} WorkerKeepsJobsOwned(s: State, k: nat, c: Choice)
    requires JobsOwned(s)
    requires k < |s.workers| && WorkerEnabled(s, k)
    ensures JobsOwned(WorkerAfter(s, k, c))
  {
  }

  // ---- Phases ----

  lemma {:induction false} SpawningKeepsPhase(s: State, i: nat, c: Choice)
    requires LifecycleOwned(s) && Phase(s)
    requires i < |s.callers| && (s.callers[i] == StartSpawnReceiver || s.callers[i] == StartSpawnWorker)
    ensures Phase(CallerAfter(s, i, c))
  {
  }

  lemma {:induction false} StartKeepsPhase(s: State, i: nat, c: Choice)
    requires LifecycleOwned(s) && Phase(s)
    requires i < |s.callers| && CallerEnabled(s, i) && InStart(s.callers[i]) && s.callers[i] != StartBody
    requires s.callers[i] != StartSpawnReceiver && s.callers[i] != StartSpawnWorker
    ensures Phase(CallerAfter(s, i, c))
  {
  }

  lemma {:induction false} CallKeepsPhase(s: State, i: nat, c: Choice)
    requires LifecycleOwned(s) && Phase(s)
    requires i < |s.callers| && s.callers[i] == Idle
    ensures Phase(CallerAfter(s, i, c))
  {
  }

  lemma {:induction false} StopBeginsPhase(s: State, i: nat, c: Choice)
    requires LifecycleOwned(s) && Phase(s)
    requires i < |s.callers| && CallerEnabled(s, i) && (s.callers[i].StopWantLifecycle? || s.callers[i].StopWantState?)
    ensures Phase(CallerAfter(s, i, c))
  {
  }

  lemma {:induction false} ReadKeepsPhase(s: State, i: nat, c: Choice)
    requires LifecycleOwned(s) && Phase(s)
    requires i < |s.callers| && CallerEnabled(s, i) && (s.callers[i].ReadWantState? || s.callers[i].ReadBody?)
    ensures Phase(CallerAfter(s, i, c))
  {
  }

  lemma {:induction false} StopKeepsPhase(s: State, i: nat, c: Choice)
    requires LifecycleOwned(s) && Phase(s)
    requires i < |s.callers| && CallerEnabled(s, i) && Teardown(s.callers[i]) && HttpStillUsed(s.callers[i])
    ensures Phase(CallerAfter(s, i, c))
  {
  }

  lemma {:induction false} JoiningKeepsPhase(s: State, i: nat, c: Choice)
    requires LifecycleOwned(s) && Phase(s)
    requires i < |s.callers| && CallerEnabled(s, i) && (s.callers[i].StopJoinWorker? || s.callers[i].StopJoinReceiver?)
    ensures Phase(CallerAfter(s, i, c))
  {
  }

  lemma {:induction false} StopResetsPhase(s: State, i: nat, c: Choice)
    requires LifecycleOwned(s) && Phase(s)
    requires i < |s.callers| && CallerEnabled(s, i) && (s.callers[i].StopWantJobsAgain? || s.callers[i].StopResetJobs?)
    ensures Phase(CallerAfter(s, i, c))
  {
  }

  lemma {:induction false} StopEndsPhase(s: State, i: nat, c: Choice)
    requires LifecycleOwned(s) && Phase(s)
    requires i < |s.callers| && CallerEnabled(s, i) && (s.callers[i].StopWantStateAgain? || s.callers[i].StopClose?)
    ensures Phase(CallerAfter(s, i, c))
  {
  }

  // When Stop leaves, no thread, no queued job and no handle is left, and both its locks are free.
  lemma {:induction false} StopLeavesNothing(s: State, i: nat, c: Choice)
    requires LifecycleOwned(s) && Phase(s) && i < |s.callers| && s.callers[i] == StopClose
    ensures var s' := CallerAfter(s, i, c);
      && s'.receiver == NotStarted && s'.workers == [] && s'.queue == [] && !s'.shutdown
      && !s'.adapter.open && !s'.adapter.running && s'.adapter.status == Stopped
      && s'.callers[i] == Idle && s'.locks.lifecycle == None && s'.locks.state == None
  {
    assert HolderPc(s) == StopClose;
  }

  lemma {:induction false} EnqueueKeepsPhase(s: State, c: Choice)
    requires LifecycleOwned(s) && Phase(s)
    requires ReceiverEnabled(s, c) && s.receiver.EnqueueHold?
    ensures Phase(ReceiverAfter(s, c))
  {
  }

  lemma {:induction false} NotifyKeepsPhase(s: State, c: Choice)
    requires LifecycleOwned(s) && Phase(s)
    requires ReceiverEnabled(s, c) && s.receiver == NotifyOne
    ensures Phase(ReceiverAfter(s, c))
  {
  }

  // Steps that change only where the receiver is, its lock and the ledger.
  lemma {:induction false} ReceiverMoves(s: State, c: Choice)
    requires ReceiverEnabled(s, c) && s.receiver != NotifyOne && !s.receiver.EnqueueHold?
    ensures var s' := ReceiverAfter(s, c);
            && s' == s.(receiver := s'.receiver, locks := s'.locks, ledger := s'.ledger)
            && s'.locks.lifecycle == s.locks.lifecycle
            && s'.receiver != NotStarted && (s'.receiver == Exited ==> !s.adapter.running || s.adapter.shut)
  {
  }

  lemma {:induction false} MovingKeepsPhase(s: State, s': State)
    requires LifecycleOwned(s) && Phase(s) && s.receiver != NotStarted && s.receiver != Exited
    requires s' == s.(receiver := s'.receiver, locks := s'.locks, ledger := s'.ledger)
    requires s'.locks.lifecycle == s.locks.lifecycle
    requires s'.receiver != NotStarted && (s'.receiver == Exited ==> !s.adapter.running || s.adapter.shut)
    ensures Phase(s')
  {
  }

  lemma {:induction false} ReceiverKeepsPhase(s: State, c: Choice)
    requires LifecycleOwned(s) && Phase(s)
    requires ReceiverEnabled(s, c) && s.receiver != NotifyOne && !s.receiver.EnqueueHold?
    ensures Phase(ReceiverAfter(s, c))
  {
    ReceiverMoves(s, c);
    hide Phase, LifecycleOwned, ReceiverAfter;
    MovingKeepsPhase(s, ReceiverAfter(s, c));
  }

  // Any step of worker k that neither falls asleep nor exits.
  lemma {:induction false} WorkerKeepsPhase(s: State, k: nat, s': State)
    requires LifecycleOwned(s) && Phase(s) && k < |s.workers| && !s.workers[k].WorkerExited?
    requires |s'.workers| == |s.workers| && s' == s.(workers := s'.workers, locks := s'.locks, ledger := s'.ledger)
    requires s'.workers == s.workers[k := s'.workers[k]] && !s'.workers[k].Asleep? && !s'.workers[k].WorkerExited?
    requires s'.locks.lifecycle == s.locks.lifecycle
    ensures Phase(s')
  {
  }

  lemma {:induction false} WorkerMoves(s: State, k: nat, c: Choice)
    requires k < |s.workers| && WorkerEnabled(s, k) && s.workers[k] != HoldJobs
    ensures var s' := WorkerAfter(s, k, c);
            && |s'.workers| == |s.workers| && s' == s.(workers := s'.workers, locks := s'.locks, ledger := s'.ledger)
            && s'.workers == s.workers[k := s'.workers[k]] && !s'.workers[k].Asleep? && !s'.workers[k].WorkerExited?
            && s'.locks.lifecycle == s.locks.lifecycle
  {
  }

  lemma {:induction false} TakingKeepsPhase(s: State, k: nat, c: Choice)
    requires LifecycleOwned(s) && Phase(s)
    requires k < |s.workers| && s.workers[k] == HoldJobs
    ensures Phase(WorkerAfter(s, k, c))
  {
  }

  // ---- Wakeups ----

  lemma {:induction false} ComingAfter(ws: seq<WorkerPc>, k: nat, pc: WorkerPc)
    requires k < |ws|
    ensures Coming(ws[k := pc]) + (if IsComing(ws[k]) then 1 else 0) == Coming(ws) + if IsComing(pc) then 1 else 0
  {
    var n := |ws| - 1;
    if k == n {
      assert ws[k := pc][..n] == ws[..n];
    } else {
      assert ws[k := pc][..n] == ws[..n][k := pc];
      ComingAfter(ws[..n], k, pc);
    }
  }

  lemma {:induction false} TeardownKeepsWakeups(s: State, i: nat, c: Choice)
    requires NoLostWakeup(s)
    requires i < |s.callers| && CallerEnabled(s, i) && (Teardown(s.callers[i]) || s.callers[i] == StopMark)
    ensures NoLostWakeup(CallerAfter(s, i, c))
  {
  }

  lemma {:induction false} CallerKeepsWakeups(s: State, i: nat, c: Choice)
    requires NoLostWakeup(s)
    requires i < |s.callers| && CallerEnabled(s, i) && !Teardown(s.callers[i]) && s.callers[i] != StopMark
    requires s.callers[i] == StartSpawnReceiver ==> s.receiver == NotStarted
    ensures NoLostWakeup(CallerAfter(s, i, c))
  {
    if !MovesJobs(s.callers[i]) {
      hide CallerAfter;
      CallerLeavesJobsAlone(s, i, c);
    } else if s.callers[i] == StartSpawnWorker {
      assert (s.workers + [WantJobs])[..|s.workers|] == s.workers;
    }
  }

  // Asking for the queue is giving one notification, whether or not a worker sleeps.
  lemma {:induction false} ReceiverKeepsWakeups(s: State, c: Choice)
    requires NoLostWakeup(s)
    requires ReceiverEnabled(s, c)
    ensures NoLostWakeup(ReceiverAfter(s, c))
  {
    if s.receiver == NotifyOne && Asleep in s.workers { ComingAfter(s.workers, c.wake, WantJobs); }
  }

  // A worker sleeps only on an empty queue, and takes a job only by coming to the queue.
  lemma {:induction false} WorkerKeepsWakeups(s: State, k: nat, c: Choice)
    requires NoLostWakeup(s)
    requires k < |s.workers| && WorkerEnabled(s, k)
    ensures NoLostWakeup(WorkerAfter(s, k, c))
  {
    var s' := WorkerAfter(s, k, c);
    ComingAfter(s.workers, k, s'.workers[k]);
    assert s'.workers == s.workers[k := s'.workers[k]];
  }

  // ---- The census ----

  lemma {:induction false} JoiningKeepsCensus(s: State, i: nat, c: Choice, job: Job)
    requires LifecycleOwned(s) && Phase(s)
    requires i < |s.callers| && CallerEnabled(s, i) && s.callers[i].StopJoinWorker?
    ensures var s' := CallerAfter(s, i, c);
            Census(s', job) == Census(s, job) && s'.ledger.received == s.ledger.received
  {
    if |s.workers| <= s.callers[i].k { WorkingOnNothing(s.workers, job); }
  }

  lemma {:induction false} TeardownLeavesJobsAlone(s: State, i: nat, c: Choice)
    requires i < |s.callers| && CallerEnabled(s, i)
    requires (Teardown(s.callers[i]) || s.callers[i] == StopMark) && !s.callers[i].StopJoinWorker?
    requires s.callers[i] != StopNotify && s.callers[i] != StopResetJobs
    ensures var s' := CallerAfter(s, i, c);
      && s'.queue == s.queue && HeldByReceiver(s'.receiver) == HeldByReceiver(s.receiver)
      && s'.workers == s.workers && s'.ledger == s.ledger
  {
  }

  lemma {:induction false} TeardownKeepsCensus(s: State, i: nat, c: Choice, job: Job)
    requires i < |s.callers| && CallerEnabled(s, i)
    requires (Teardown(s.callers[i]) || s.callers[i] == StopMark) && !s.callers[i].StopJoinWorker?
    ensures var s' := CallerAfter(s, i, c);
            Census(s', job) == Census(s, job) && s'.ledger.received == s.ledger.received
  {
    if s.callers[i] == StopNotify {
      WakingMovesNoJob(s.workers, job);
    } else if s.callers[i] != StopResetJobs {
      TeardownLeavesJobsAlone(s, i, c);
      hide CallerAfter, CallerEnabled;
    }
  }

  lemma {:induction false} StartIsClean(s: State, i: nat)
    requires LifecycleOwned(s) && Phase(s) && i < |s.callers|
    ensures s.callers[i] == StartResetJobs ==> s.queue == []
    ensures s.callers[i] == StartSpawnReceiver ==> s.receiver == NotStarted
  {
  }

  predicate MovesJobs(pc: CallerPc) {
    pc == StartResetJobs || pc == StartSpawnReceiver || pc == StartSpawnWorker
  }

  lemma {:induction false} CallerLeavesJobsAlone(s: State, i: nat, c: Choice)
    requires i < |s.callers| && CallerEnabled(s, i) && !Teardown(s.callers[i]) && s.callers[i] != StopMark
    requires !MovesJobs(s.callers[i])
    ensures var s' := CallerAfter(s, i, c);
      && s'.queue == s.queue && s'.receiver == s.receiver && s'.workers == s.workers
      && s'.ledger.(session := s.ledger.session) == s.ledger
  {
  }

  lemma {:induction false} CallerKeepsCensus(s: State, i: nat, c: Choice, job: Job)
    requires i < |s.callers| && CallerEnabled(s, i) && !Teardown(s.callers[i]) && s.callers[i] != StopMark
    requires s.callers[i] == StartResetJobs ==> s.queue == []
    requires s.callers[i] == StartSpawnReceiver ==> s.receiver == NotStarted
    ensures var s' := CallerAfter(s, i, c);
            Census(s', job) == Census(s, job) && s'.ledger.received == s.ledger.received
  {
    if !MovesJobs(s.callers[i]) {
      hide CallerAfter;
      CallerLeavesJobsAlone(s, i, c);
    } else if s.callers[i] == StartSpawnWorker {
      assert (s.workers + [WantJobs])[..|s.workers|] == s.workers;
    }
  }

  lemma {:induction false} ArrivalIsCounted(s: State, c: Choice, job: Job)
    requires s.receiver == Receive && ReceiverEnabled(s, c)
    ensures var s' := ReceiverAfter(s, c);
            Census(s', job) - Census(s, job) == multiset(s'.ledger.received)[job] - multiset(s.ledger.received)[job]
  {
    match c.arrival
    case Health => assert ReceiverAfter(s, c).ledger.received == s.ledger.received + [Arrived(s)];
    case AnsweredInline => assert ReceiverAfter(s, c).ledger.received == s.ledger.received + [Arrived(s)];
    case McpPost => assert ReceiverAfter(s, c).ledger.received == s.ledger.received + [Arrived(s)];
    case _ =>
  }

  lemma {:induction false} NotifyKeepsCensus(s: State, c: Choice, job: Job)
    requires ReceiverEnabled(s, c) && s.receiver == NotifyOne
    ensures var s' := ReceiverAfter(s, c);
            Census(s', job) == Census(s, job) && s'.ledger.received == s.ledger.received
  {
    if Asleep in s.workers { WorkingAfter(s.workers, c.wake, WantJobs, job); }
  }

  lemma {:induction false} ReceiverKeepsCensus(s: State, c: Choice, job: Job)
    requires ReceiverEnabled(s, c) && s.receiver != Receive && s.receiver != NotifyOne
    ensures var s' := ReceiverAfter(s, c);
            Census(s', job) == Census(s, job) && s'.ledger.received == s.ledger.received
  {
    hide Working;
  }

  lemma {:induction false} TakingKeepsCensus(s: State, k: nat, c: Choice, job: Job)
    requires k < |s.workers| && s.workers[k] == HoldJobs
    ensures var s' := WorkerAfter(s, k, c);
            Census(s', job) == Census(s, job) && s'.ledger.received == s.ledger.received
  {
    WorkingAfter(s.workers, k, WorkerAfter(s, k, c).workers[k], job);
    if s.queue != [] {
      assert s.queue == [s.queue[0]] + s.queue[1..];
      assert multiset(s.queue)[job] == multiset([s.queue[0]])[job] + multiset(s.queue[1..])[job];
    }
  }

  lemma {:induction false} DrainKeepsCensus(s: State, k: nat, c: Choice, job: Job)
    requires k < |s.workers| && s.workers[k].Drain?
    ensures var s' := WorkerAfter(s, k, c);
            Census(s', job) == Census(s, job) && s'.ledger.received == s.ledger.received
  {
    hide Working;
    WorkingAfter(s.workers, k, WorkerAfter(s, k, c).workers[k], job);
  }

  lemma {:induction false} ExecutingKeepsCensus(s: State, k: nat, c: Choice, job: Job)
    requires k < |s.workers| && WorkerEnabled(s, k) && !s.workers[k].HoldJobs? && !s.workers[k].Drain?
    ensures var s' := WorkerAfter(s, k, c);
            Census(s', job) == Census(s, job) && s'.ledger.received == s.ledger.received
  {
    WorkingAfter(s.workers, k, WorkerAfter(s, k, c).workers[k], job);
  }

  // No step of a worker loses or doubles a request.
  lemma {:induction false} WorkerKeepsCensus(s: State, k: nat, c: Choice, job: Job)
    requires k < |s.workers| && WorkerEnabled(s, k)
    ensures var s' := WorkerAfter(s, k, c);
            Census(s', job) == Census(s, job) && s'.ledger.received == s.ledger.received
  {
    hide WorkerAfter, Census;
    if s.workers[k].HoldJobs? {
      TakingKeepsCensus(s, k, c, job);
    } else if s.workers[k].Drain? {
      DrainKeepsCensus(s, k, c, job);
    } else {
      ExecutingKeepsCensus(s, k, c, job);
    }
  }

  lemma {:induction false} CallerKeepsBounded(s: State, i: nat, c: Choice)
    requires Bounded(s)
    requires i < |s.callers| && CallerEnabled(s, i)
    ensures Bounded(CallerAfter(s, i, c))
  {
  }

  lemma {:induction false} CallerKeepsNumbered(s: State, i: nat, c: Choice)
    requires Numbered(s)
    requires i < |s.callers| && CallerEnabled(s, i)
    ensures Numbered(CallerAfter(s, i, c))
  {
  }

  lemma {:induction false} ReceiverKeepsBounded(s: State, c: Choice)
    requires Bounded(s)
    requires ReceiverEnabled(s, c)
    ensures Bounded(ReceiverAfter(s, c))
  {
  }

  lemma {:induction false} ReceiverKeepsNumbered(s: State, c: Choice)
    requires Numbered(s)
    requires ReceiverEnabled(s, c)
    ensures Numbered(ReceiverAfter(s, c))
  {
  }

  lemma {:induction false} WorkerKeepsBounded(s: State, k: nat, c: Choice)
    requires Bounded(s)
    requires k < |s.workers| && WorkerEnabled(s, k)
    ensures Bounded(WorkerAfter(s, k, c))
  {
  }

  lemma {:induction false} WorkerKeepsNumbered(s: State, k: nat, c: Choice)
    requires Numbered(s)
    requires k < |s.workers| && WorkerEnabled(s, k)
    ensures Numbered(WorkerAfter(s, k, c))
  {
  }

  lemma {:induction false} OpeningKeepsCurrent(s: State, i: nat, outcome: StartOutcome)
    requires Current(s) && LifecycleOwned(s) && Phase(s)
    requires i < |s.callers| && s.callers[i] == StartBody
    ensures Current(StartDecision(s, i, outcome))
  {
  }

  lemma {:induction false} CallerLeavesSessionAlone(s: State, i: nat, c: Choice)
    requires i < |s.callers| && CallerEnabled(s, i) && s.callers[i] != StartBody && !Teardown(s.callers[i])
    requires s.callers[i] != StopMark && !MovesJobs(s.callers[i])
    ensures var s' := CallerAfter(s, i, c);
      s'.queue == s.queue && s'.receiver == s.receiver && s'.workers == s.workers && s'.ledger == s.ledger
  {
  }

  lemma {:induction false} JobMovesKeepCurrent(s: State, i: nat, c: Choice)
    requires Current(s)
    requires i < |s.callers| && CallerEnabled(s, i) && MovesJobs(s.callers[i])
    ensures Current(CallerAfter(s, i, c))
  {
  }

  lemma {:induction false} TeardownKeepsCurrent(s: State, i: nat, c: Choice)
    requires Current(s)
    requires i < |s.callers| && CallerEnabled(s, i) && (Teardown(s.callers[i]) || s.callers[i] == StopMark)
    ensures Current(CallerAfter(s, i, c))
  {
    if s.callers[i] != StopNotify && s.callers[i] != StopResetJobs && !s.callers[i].StopJoinWorker? {
      TeardownLeavesJobsAlone(s, i, c);
      hide CallerAfter, CallerEnabled, HeldByReceiver, HeldByWorker;
    }
  }

  lemma {:induction false} CallerKeepsCurrent(s: State, i: nat, c: Choice)
    requires Current(s)
    requires i < |s.callers| && CallerEnabled(s, i) && s.callers[i] != StartBody
    ensures Current(CallerAfter(s, i, c))
  {
    hide CallerAfter, CallerEnabled;
    if Teardown(s.callers[i]) || s.callers[i] == StopMark {
      hide Current;
      TeardownKeepsCurrent(s, i, c);
    } else if MovesJobs(s.callers[i]) {
      hide Current;
      JobMovesKeepCurrent(s, i, c);
    } else {
      CallerLeavesSessionAlone(s, i, c);
    }
  }

  lemma {:induction false} ReceiverKeepsCurrent(s: State, c: Choice)
    requires Current(s)
    requires ReceiverEnabled(s, c)
    ensures Current(ReceiverAfter(s, c))
  {
  }

  lemma {:induction false} TakingKeepsCurrent(s: State, k: nat, c: Choice)
    requires Current(s)
    requires k < |s.workers| && s.workers[k] == HoldJobs
    ensures Current(WorkerAfter(s, k, c))
  {
  }

  lemma {:induction false} WorkerHolds(s: State, k: nat, c: Choice)
    requires k < |s.workers| && WorkerEnabled(s, k) && s.workers[k] != HoldJobs
    ensures var s' := WorkerAfter(s, k, c);
      && s'.workers == s.workers[k := s'.workers[k]] && s'.queue == s.queue && s'.receiver == s.receiver
      && s'.ledger.session == s.ledger.session
      && (HeldByWorker(s'.workers[k]) == None || HeldByWorker(s'.workers[k]) == HeldByWorker(s.workers[k]))
  {
  }

  lemma {:induction false} WorkerKeepsCurrent(s: State, k: nat, c: Choice)
    requires Current(s)
    requires k < |s.workers| && WorkerEnabled(s, k)
    ensures Current(WorkerAfter(s, k, c))
  {
    hide WorkerAfter, WorkerEnabled, HeldByWorker;
    if s.workers[k] == HoldJobs { TakingKeepsCurrent(s, k, c); } else { WorkerHolds(s, k, c); }
  }

  // ---- Every step, every run ----

  lemma {:induction false} JoinsInOrder(s: State, i: nat)
    requires LifecycleOwned(s) && Phase(s) && i < |s.callers| && s.callers[i].StopJoinWorker?
    ensures Joined(s.workers, s.callers[i].k)
  {
    assert HolderPc(s) == s.callers[i];
  }

  lemma {:induction false} CallerKeepsLocks(s: State, i: nat, c: Choice)
    requires LocksOwned(s) && Phase(s) && i < |s.callers| && CallerEnabled(s, i)
    ensures LocksOwned(CallerAfter(s, i, c))
  {
    var pc := s.callers[i];
    StartIsClean(s, i);
    if pc.StopJoinWorker? { JoinsInOrder(s, i); }
    if pc == StartBody {
      StartDecisionKeepsLifecycle(s, i, c.start);
      StartDecisionKeepsState(s, i, c.start);
      StartDecisionKeepsJobs(s, i, c.start);
      hide LifecycleOwned, StateOwned, JobsOwned, Phase, StartDecision;
    } else if pc == StopMark {
      StopDecisionKeeps(s, i);
      StopDecisionKeepsLocks(s, i);
      hide LifecycleOwned, StateOwned, JobsOwned, Phase, StopDecision;
    } else {
      hide LifecycleOwned, StateOwned, JobsOwned, Phase, CallerAfter, CallerEnabled;
      if InStart(pc) {
        StartKeepsLifecycleOwned(s, i, c);
        StartKeepsStateOwned(s, i, c);
        StartKeepsJobsOwned(s, i, c);
      } else if Teardown(pc) {
        StopKeepsLifecycleOwned(s, i, c);
        StopKeepsStateOwned(s, i, c);
        StopKeepsJobsOwned(s, i, c);
      } else {
        CallKeepsLifecycleOwned(s, i, c);
        CallKeepsStateOwned(s, i, c);
        CallKeepsJobsOwned(s, i, c);
      }
    }
  }

  lemma {:induction false} CallerKeepsPhase(s: State, i: nat, c: Choice)
    requires LifecycleOwned(s) && Phase(s) && i < |s.callers| && CallerEnabled(s, i)
    ensures Phase(CallerAfter(s, i, c))
  {
    var pc := s.callers[i];
    if pc == StartBody {
      StartDecisionKeepsPhase(s, i, c.start);
      hide LifecycleOwned, Phase, StartDecision;
    } else if pc == StopMark {
      StopDecisionKeeps(s, i);
      hide LifecycleOwned, Phase, StopDecision;
    } else {
      hide LifecycleOwned, Phase, CallerAfter, CallerEnabled;
      if pc == StartSpawnReceiver || pc == StartSpawnWorker { SpawningKeepsPhase(s, i, c); }
      else if InStart(pc) { StartKeepsPhase(s, i, c); }
      else if HttpStillUsed(pc) { StopKeepsPhase(s, i, c); }
      else if pc.StopJoinWorker? || pc.StopJoinReceiver? { JoiningKeepsPhase(s, i, c); }
      else if pc.StopWantJobsAgain? || pc.StopResetJobs? { StopResetsPhase(s, i, c); }
      else if Teardown(pc) { StopEndsPhase(s, i, c); }
      else if pc == Idle { CallKeepsPhase(s, i, c); }
      else if pc.ReadWantState? || pc.ReadBody? { ReadKeepsPhase(s, i, c); }
      else { StopBeginsPhase(s, i, c); }
    }
  }

  lemma {:induction false} CallerKeepsInv(s: State, i: nat, c: Choice)
    requires Inv(s) && i < |s.callers| && CallerEnabled(s, i)
    ensures Inv(CallerAfter(s, i, c))
  {
    var pc := s.callers[i];
    CallerKeepsLocks(s, i, c);
    CallerKeepsPhase(s, i, c);
    if pc == StartBody { OpeningKeepsCurrent(s, i, c.start); } else { CallerKeepsCurrent(s, i, c); }
    StartIsClean(s, i);
    if Teardown(pc) || pc == StopMark { TeardownKeepsWakeups(s, i, c); } else { CallerKeepsWakeups(s, i, c); }
    CallerKeepsBounded(s, i, c);
    CallerKeepsNumbered(s, i, c);
    forall job ensures Census(CallerAfter(s, i, c), job) == multiset(CallerAfter(s, i, c).ledger.received)[job] {
      if pc.StopJoinWorker? { JoiningKeepsCensus(s, i, c, job); }
      else if Teardown(pc) || pc == StopMark { TeardownKeepsCensus(s, i, c, job); }
      else { CallerKeepsCensus(s, i, c, job); }
    }
  }

  lemma {:induction false} ReceiverKeepsInv(s: State, c: Choice)
    requires Inv(s) && ReceiverEnabled(s, c)
    ensures Inv(ReceiverAfter(s, c))
  {
    ReceiverKeepsLifecycleOwned(s, c);
    ReceiverKeepsStateOwned(s, c);
    ReceiverKeepsJobsOwned(s, c);
    if s.receiver == NotifyOne { NotifyKeepsPhase(s, c); }
    else if s.receiver.EnqueueHold? { EnqueueKeepsPhase(s, c); }
    else { ReceiverKeepsPhase(s, c); }
    ReceiverKeepsWakeups(s, c);
    ReceiverKeepsBounded(s, c);
    ReceiverKeepsNumbered(s, c);
    ReceiverKeepsCurrent(s, c);
    forall job ensures Census(ReceiverAfter(s, c), job) == multiset(ReceiverAfter(s, c).ledger.received)[job] {
      if s.receiver == Receive { ArrivalIsCounted(s, c, job); }
      else if s.receiver == NotifyOne { NotifyKeepsCensus(s, c, job); }
      else { ReceiverKeepsCensus(s, c, job); }
    }
  }

  lemma {:induction false} WorkerKeepsInv(s: State, k: nat, c: Choice)
    requires Inv(s) && k < |s.workers| && WorkerEnabled(s, k)
    ensures Inv(WorkerAfter(s, k, c))
  {
    WorkerKeepsLifecycleOwned(s, k, c);
    WorkerKeepsStateOwned(s, k, c);
    WorkerKeepsJobsOwned(s, k, c);
    if s.workers[k].HoldJobs? { TakingKeepsPhase(s, k, c); } else {
      WorkerMoves(s, k, c);
      WorkerKeepsPhase(s, k, WorkerAfter(s, k, c));
    }
    WorkerKeepsWakeups(s, k, c);
    WorkerKeepsBounded(s, k, c);
    WorkerKeepsNumbered(s, k, c);
    WorkerKeepsCurrent(s, k, c);
    forall job ensures Census(WorkerAfter(s, k, c), job) == multiset(WorkerAfter(s, k, c).ledger.received)[job] {
      WorkerKeepsCensus(s, k, c, job);
    }
  }

  lemma {:induction false} EveryStepKeepsInv(s: State, e: Event)
    requires Inv(s) && Enabled(s, e.who, e.choice)
    ensures Inv(After(s, e.who, e.choice))
  {
    match e.who
    case Caller(i) => CallerKeepsInv(s, i, e.choice);
    case Receiver => ReceiverKeepsInv(s, e.choice);
    case Worker(k) => WorkerKeepsInv(s, k, e.choice);
  }

  lemma {:induction false} EveryRunIsSafe(states: seq<State>, events: seq<Event>, j: nat)
    requires IsRun(states, events) && Initial(states[0]) && j < |states|
    ensures Inv(states[j])
  {
    if j == 0 {
      InitialInv(states[0]);
    } else {
      EveryRunIsSafe(states, events, j - 1);
      EveryStepKeepsInv(states[j - 1], events[j - 1]);
    }
  }
}
