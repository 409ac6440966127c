/** What follows from the gateway's invariant: each request is in exactly one place,
    handles outlive the threads that use them, no deadlock, and a join that ends. */
module GatewayProgress {
  import opened Basics
  import opened GatewayLifecycle
  import opened GatewaySafety

  // ---- Requests and handles ----

  lemma {:induction false} DistinctCountsOne(jobs: seq<Job>, k: nat)
    requires forall j :: 0 <= j < |jobs| ==> jobs[j].id == j
    requires k < |jobs|
    ensures multiset(jobs)[jobs[k]] == 1
  {
    var n := |jobs| - 1;
    assert jobs == jobs[..n] + [jobs[n]];
    if k < n {
      DistinctCountsOne(jobs[..n], k);
    } else {
      assert jobs[n] !in jobs[..n];
    }
  }

  // Every received request is in exactly one place (so answered at most once, and
  // never both answered and dropped), nothing else is in any, and every request not
  // yet answered or dropped arrived in the current Start..Stop session.
  lemma {:induction false} EachRequestIsInOnePlace(s: State, job: Job)
    requires Inv(s)
    ensures Census(s, job) == if job in s.ledger.received then 1 else 0
    ensures s.ledger.answered[job] + s.ledger.dropped[job] <= 1
    ensures Census(s, job) == 1 && job !in s.ledger.answered && job !in s.ledger.dropped
            ==> job.session == s.ledger.session
  {
    if job in s.ledger.received {
      var k :| 0 <= k < |s.ledger.received| && s.ledger.received[k] == job;
      DistinctCountsOne(s.ledger.received, k);
    }
    if One(HeldByReceiver(s.receiver), job) == 0 && job !in s.queue && 0 < Working(s.workers, job) {
      var k := SomeWorkerHas(s.workers, job);
    }
  }

  lemma {:induction false} SomeWorkerHas(ws: seq<WorkerPc>, job: Job) returns (k: nat)
    requires 0 < Working(ws, job)
    ensures k < |ws| && HeldByWorker(ws[k]) == Some(job)
  {
    var n := |ws| - 1;
    if HeldByWorker(ws[n]) == Some(job) { return n; }
    k := SomeWorkerHas(ws[..n], job);
  }

  // A queued job never waits beside sleeping workers only: a notification is still to be given, or a worker is
  // on its way to the queue.
  lemma {:induction false} QueuedJobsAreSeen(s: State)
    requires Inv(s) && !s.shutdown && s.queue != [] && Asleep in s.workers
    ensures s.receiver.NotifyOne? || exists k :: 0 <= k < |s.workers| && IsComing(s.workers[k])
  {
    if !s.receiver.NotifyOne? {
      var k := SomeoneComes(s.workers);
    }
  }

  lemma {:induction false} SomeoneComes(ws: seq<WorkerPc>) returns (k: nat)
    requires 0 < Coming(ws)
    ensures k < |ws| && IsComing(ws[k])
  {
    k := |ws| - 1;
    if !IsComing(ws[k]) { k := SomeoneComes(ws[..k]); }
  }

  // A worker sleeps on under a raised shutdown flag only until the Stop that raised it notifies all, its
  // next step.
  lemma {:induction false} ShutdownIsSeen(s: State)
    requires Inv(s) && s.shutdown && Asleep in s.workers
    ensures exists i :: 0 <= i < |s.callers| && s.callers[i] == StopNotify
  {
    assert HolderPc(s) == StopNotify;
  }

  // No thread outlives the HTTP.sys handle it uses, and a thread is only ever created
  // where none is left to join.
  lemma {:induction false} ThreadsLiveInsideTheirSession(s: State, i: nat)
    requires Inv(s) && i < |s.callers|
    ensures s.receiver != NotStarted || s.workers != [] ==> s.adapter.open
    ensures s.callers[i].StartSpawnReceiver? ==> s.receiver == NotStarted && s.workers == [] && s.queue == []
    ensures s.callers[i].StartSpawnWorker? ==> |s.workers| < WORKER_COUNT
    ensures s.callers[i].StopClose? ==> s.receiver == NotStarted && s.workers == [] && s.queue == []
    ensures s.callers[i].StopMark? ==> s.adapter.status != Stopping
    ensures Joining(s.callers[i]) ==> s.locks.state != Some(Caller(i)) && s.locks.jobs != Some(Caller(i))
  {
  }

  // ---- Deadlock ----

  // Waiting for the environment rather than for a thread.
  predicate Resting(s: State, t: Tid)
    requires IsThread(s, t)
  {
    match t
    case Caller(i) => s.callers[i] == Idle
    case Receiver => s.receiver == NotStarted || s.receiver == Exited || (s.receiver == Receive && !s.adapter.shut)
    case Worker(k) => s.workers[k] == WorkerExited || s.workers[k] == Asleep
  }

  // The thread `t` cannot move before, if any.
  function WaitsFor(s: State, t: Tid): Option<Tid>
    requires IsThread(s, t)
  {
    match t
    case Caller(i) =>
      (match s.callers[i]
       case StartWantLifecycle => if s.locks.lifecycle.Some? then Some(Caller(s.locks.lifecycle.value)) else None
       case StopWantLifecycle => if s.locks.lifecycle.Some? then Some(Caller(s.locks.lifecycle.value)) else None
       case StartWantState => s.locks.state
       case StopWantState => s.locks.state
       case StopWantStateAgain => s.locks.state
       case ReadWantState => s.locks.state
       case StartWantJobs => s.locks.jobs
       case StopWantJobs => s.locks.jobs
       case StopWantJobsAgain => s.locks.jobs
       case StopJoinReceiver => if s.receiver in {NotStarted, Exited} then None else Some(Receiver)
       case StopJoinWorker(k) => if k < |s.workers| && s.workers[k] != WorkerExited then Some(Worker(k)) else None
       case _ => None)
    case Receiver =>
      if s.receiver.ProbeWant? || s.receiver.StatusWant? then s.locks.state
      else if s.receiver.EnqueueWant? then s.locks.jobs else None
    case Worker(k) =>
      if s.workers[k].StateWant? then s.locks.state
      else if s.workers[k].WantJobs? then s.locks.jobs else None
  }

  // The documented lock order, with joins below lifecycleMutex_ and above both others.
  function Level(s: State, t: Tid): nat
    requires IsThread(s, t)
  {
    match t
    case Caller(i) =>
      var pc := s.callers[i];
      if pc.StartWantLifecycle? || pc.StopWantLifecycle? then 4
      else if pc.StopJoinReceiver? || pc.StopJoinWorker? then 3
      else if pc.StartWantState? || pc.StopWantState? || pc.StopWantStateAgain? || pc.ReadWantState? then 2
      else if pc.StartWantJobs? || pc.StopWantJobs? || pc.StopWantJobsAgain? then 1
      else 0
    case Receiver =>
      if s.receiver.ProbeWant? || s.receiver.StatusWant? then 2 else if s.receiver.EnqueueWant? then 1 else 0
    case Worker(k) => if s.workers[k].StateWant? then 2 else if s.workers[k].WantJobs? then 1 else 0
  }

  lemma {:induction false} JoiningDescends(s: State, t: Tid)
    requires Inv(s) && IsThread(s, t) && t.Caller?
    requires s.callers[t.i].StopJoinReceiver? || s.callers[t.i].StopJoinWorker?
    requires WaitsFor(s, t).Some?
    ensures var u := WaitsFor(s, t).value; IsThread(s, u) && !Resting(s, u) && Level(s, u) < Level(s, t)
  {
  }

  lemma {:induction false} LockingDescends(s: State, t: Tid)
    requires LocksOwned(s) && IsThread(s, t) && t.Caller?
    requires !s.callers[t.i].StopJoinReceiver? && !s.callers[t.i].StopJoinWorker? && WaitsFor(s, t).Some?
    ensures var u := WaitsFor(s, t).value; IsThread(s, u) && !Resting(s, u) && Level(s, u) < Level(s, t)
  {
  }

  lemma {:induction false} CallerWaitingDescends(s: State, t: Tid)
    requires Inv(s) && IsThread(s, t) && t.Caller? && WaitsFor(s, t).Some?
    ensures var u := WaitsFor(s, t).value; IsThread(s, u) && !Resting(s, u) && Level(s, u) < Level(s, t)
  {
    hide WaitsFor, Level, Resting;
    if s.callers[t.i].StopJoinReceiver? || s.callers[t.i].StopJoinWorker? {
      JoiningDescends(s, t);
    } else {
      LockingDescends(s, t);
    }
  }

  lemma {:induction false} ThreadWaitingDescends(s: State, t: Tid)
    requires LocksOwned(s) && IsThread(s, t) && !t.Caller? && WaitsFor(s, t).Some?
    ensures var u := WaitsFor(s, t).value; IsThread(s, u) && !Resting(s, u) && Level(s, u) < Level(s, t)
  {
  }

  // No thread waits for one on its own level or above, so no circle of threads waits.
  lemma {:induction false} WaitingDescends(s: State, t: Tid)
    requires Inv(s) && IsThread(s, t) && WaitsFor(s, t).Some?
    ensures var u := WaitsFor(s, t).value; IsThread(s, u) && !Resting(s, u) && Level(s, u) < Level(s, t)
  {
    hide WaitsFor, Level, Resting, LocksOwned;
    if t.Caller? { CallerWaitingDescends(s, t); } else { ThreadWaitingDescends(s, t); }
  }

  ghost predicate CanMove(s: State, t: Tid) {
    exists c :: Enabled(s, t, c)
  }

  lemma {:induction false} FreeToMove(s: State, t: Tid)
    requires Inv(s) && IsThread(s, t) && !Resting(s, t) && WaitsFor(s, t) == None
    ensures CanMove(s, t)
  {
    var wake := if Asleep in s.workers then SleeperIn(s.workers) else 0;
    assert Enabled(s, t, Choice(CallRead, Opened, Retry, wake, false, Drained, 0, false));
  }

  function SleeperIn(ws: seq<WorkerPc>): (k: nat)
    requires Asleep in ws
    ensures k < |ws| && ws[k] == Asleep
  {
    if ws[0] == Asleep then 0 else 1 + SleeperIn(ws[1..])
  }

  // Whoever is in the middle of something, some thread in the middle of something can move.
  lemma {:induction false} NoDeadlock(s: State, t: Tid) returns (u: Tid)
    requires Inv(s) && IsThread(s, t) && !Resting(s, t)
    ensures IsThread(s, u) && !Resting(s, u) && CanMove(s, u)
    decreases Level(s, t)
  {
    if WaitsFor(s, t) == None {
      FreeToMove(s, t);
      return t;
    }
    WaitingDescends(s, t);
    u := NoDeadlock(s, WaitsFor(s, t).value);
  }

  // ---- Stop's join phase ----

  predicate Joining(pc: CallerPc) {
    pc.StopJoinReceiver? || pc.StopJoinWorker?
  }

  function ReceiverRank(pc: ReceiverPc): nat {
    match pc
    case NotStarted => 0
    case Exited => 0
    case CheckRunning => 1
    case Send(_) => 2
    case NotifyOne => 2
    case EnqueueHold(_) => 3
    case StatusHold(_) => 3
    case EnqueueWant(_) => 4
    case StatusWant(_) => 4
    case ProbeHold(_) => 5
    case ProbeWant(_) => 6
    case Receive => 7
  }

  const RANK_LIMIT: nat := 5 + 3 * MAX_STATE_SECTIONS

  function WorkerRank(pc: WorkerPc): nat {
    match pc
    case WorkerExited => 0
    case HoldJobs => 1
    case WantJobs => 2
    case Asleep => 3
    case Respond(_) => 3
    case Execute(_, left) => 4 + 3 * left
    case StateHold(_, left) => 5 + 3 * left
    case StateWant(_, left) => 6 + 3 * left
    case Drain(_) => RANK_LIMIT
  }

  function WorkersRank(ws: seq<WorkerPc>): nat {
    if ws == [] then 0 else WorkersRank(ws[..|ws| - 1]) + WorkerRank(ws[|ws| - 1])
  }

  function Remaining(s: State): nat {
    ReceiverRank(s.receiver) + WorkersRank(s.workers)
  }

  lemma {:induction false} RankAfter(ws: seq<WorkerPc>, k: nat, pc: WorkerPc)
    requires k < |ws|
    ensures WorkersRank(ws[k := pc]) + WorkerRank(ws[k]) == WorkersRank(ws) + WorkerRank(pc)
  {
    var n := |ws| - 1;
    if k == n {
      assert ws[k := pc][..n] == ws[..n];
    } else {
      assert ws[k := pc][..n] == ws[..n][k := pc];
      RankAfter(ws[..n], k, pc);
    }
  }

  lemma {:induction false} RankIsBounded(ws: seq<WorkerPc>)
    requires forall k :: 0 <= k < |ws| ==> InBudget(ws[k])
    ensures WorkersRank(ws) <= |ws| * RANK_LIMIT
  {
    if ws != [] { RankIsBounded(ws[..|ws| - 1]); }
  }

  lemma {:induction false} ReceiverJoinStep(s: State, c: Choice)
    requires !s.adapter.running && ReceiverEnabled(s, c) && Asleep !in s.workers
    ensures Remaining(ReceiverAfter(s, c)) < Remaining(s)
  {
  }

  lemma {:induction false} WorkerJoinStep(s: State, k: nat, c: Choice)
    requires s.shutdown && k < |s.workers| && WorkerEnabled(s, k) && Bounded(s)
    requires !s.workers[k].Asleep?
    ensures Remaining(WorkerAfter(s, k, c)) < Remaining(s)
  {
    RankAfter(s.workers, k, WorkerAfter(s, k, c).workers[k]);
  }

  lemma {:induction false} CallerJoinStep(s: State, i: nat, j: nat, c: Choice)
    requires Inv(s) && i < |s.callers| && Joining(s.callers[i]) && j < |s.callers| && CallerEnabled(s, j)
    ensures Joining(CallerAfter(s, j, c).callers[i]) ==> Remaining(CallerAfter(s, j, c)) == Remaining(s)
  {
  }

  lemma {:induction false} JoinStep(s: State, i: nat, e: Event)
    requires Inv(s) && i < |s.callers| && Joining(s.callers[i]) && Enabled(s, e.who, e.choice)
    ensures var s' := After(s, e.who, e.choice);
            i < |s'.callers| &&
            (Joining(s'.callers[i]) ==>
               if e.who.Caller? then Remaining(s') == Remaining(s) else Remaining(s') < Remaining(s))
  {
    match e.who
    case Caller(j) => CallerJoinStep(s, i, j, e.choice);
    case Receiver => ReceiverJoinStep(s, e.choice);
    case Worker(k) => WorkerJoinStep(s, k, e.choice);
  }

  function ThreadSteps(events: seq<Event>): nat {
    if events == [] then 0
    else ThreadSteps(events[..|events| - 1]) + if events[|events| - 1].who.Caller? then 0 else 1
  }

  lemma {:induction false} JoiningRankIsBounded(s: State, i: nat)
    requires Inv(s) && i < |s.callers| && Joining(s.callers[i])
    ensures Remaining(s) <= 99
  {
    assert HolderPc(s) == s.callers[i];
    RankIsBounded(s.workers);
  }

  // While one Stop is joining, the receiver and the workers take at most
  // 7 + 4 * 23 = 99 steps together, whatever the other callers do.
  lemma {:induction false} JoinPhaseIsBounded(states: seq<State>, events: seq<Event>, i: nat)
    requires IsRun(states, events) && Inv(states[0])
    requires forall j :: 0 <= j < |states| ==> i < |states[j].callers| && Joining(states[j].callers[i])
    ensures Inv(states[|states| - 1])
    ensures ThreadSteps(events) + Remaining(states[|states| - 1]) <= Remaining(states[0])
    ensures Remaining(states[0]) <= 99
  {
    hide Inv, Remaining, After, Enabled, Joining;
    var n := |events|;
    JoiningRankIsBounded(states[0], i);
    if 0 < n {
      JoinPhaseIsBounded(states[..n], events[..n - 1], i);
      EveryStepKeepsInv(states[n - 1], events[n - 1]);
      JoinStep(states[n - 1], i, events[n - 1]);
    }
  }
}
