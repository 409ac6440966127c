/** The native gateway adapter as a transition system: any number of Start, Stop
    and state-reading callers, one receive thread, four workers, three mutexes, a
    condition variable and the bounded job queue.  A step is one lock acquisition,
    one critical section (which ends by releasing its lock), one thread creation,
    one join, or one blocking call that returns.  HTTP.sys and the child processes
    are the `Choice` a step is given. */
module GatewayLifecycle {
  import opened Basics

  const WORKER_COUNT: nat := 4
  const QUEUE_MAX_DEPTH: nat := 64
  // The most critical sections of `mutex_` one MCP request enters: bridge snapshot,
  // name resolution, both halves of a catalog refresh, capability resolver, audit sink.
  const MAX_STATE_SECTIONS: nat := 6

  // A received request; `session` counts the successful Start calls so far.
  datatype Job = Job(id: nat, session: nat)

  datatype Status = Disabled | Configured | Running | Stopping | Stopped | Failed

  datatype Tid = Caller(i: nat) | Receiver | Worker(k: nat)

  datatype CallerPc =
    | Idle
    | StartWantLifecycle | StartWantState | StartBody | StartWantJobs | StartResetJobs
    | StartSpawnReceiver | StartSpawnWorker | StartPublish
    | StopWantLifecycle | StopWantState | StopMark | StopShutHttp | StopWantJobs | StopRaiseFlag
    | StopNotify | StopJoinReceiver | StopJoinWorker(k: nat) | StopWantJobsAgain | StopResetJobs
    | StopWantStateAgain | StopClose
    | ReadWantState | ReadBody

  datatype ReceiverPc =
    | NotStarted | Exited
    | CheckRunning | Receive
    | ProbeWant(job: Job) | ProbeHold(job: Job) | StatusWant(job: Job) | StatusHold(job: Job)
    | EnqueueWant(job: Job) | EnqueueHold(job: Job) | NotifyOne
    | Send(job: Job)

  datatype WorkerPc =
    | WantJobs | HoldJobs | Asleep | WorkerExited
    | Drain(job: Job)
    | Execute(job: Job, left: nat) | StateWant(job: Job, left: nat) | StateHold(job: Job, left: nat)
    | Respond(job: Job)

  // The fields `mutex_` guards: `open` is requestQueue_ != nullptr, `shut` says
  // HttpShutdownRequestQueue was called on that handle.
  datatype Adapter = Adapter(enabled: bool, status: Status, running: bool, open: bool, shut: bool)

  datatype Locks = Locks(lifecycle: Option<nat>, state: Option<Tid>, jobs: Option<Tid>)

  // History: what arrived, and where each arrival ended.
  datatype Ledger = Ledger(session: nat, received: seq<Job>, answered: multiset<Job>, dropped: multiset<Job>)

  datatype State = State(
    adapter: Adapter,
    locks: Locks,
    shutdown: bool,            // jobQueueShutdown_
    queue: seq<Job>,           // jobQueue_
    callers: seq<CallerPc>,
    receiver: ReceiverPc,
    workers: seq<WorkerPc>,
    ledger: Ledger)

  datatype Operation = CallStart | CallStop | CallRead
  datatype StartOutcome = FailedEarly | FailedAndClosed | Opened
  datatype Arrival = Aborted | Retry | Health | AnsweredInline | McpPost
  datatype DrainOutcome = Drained | TooLarge | ClientLost

  // What the environment decides in a step; each step looks at the parts it needs.
  datatype Choice = Choice(op: Operation, start: StartOutcome, arrival: Arrival, wake: nat,
                           drain: bool, drained: DrainOutcome, sections: nat, lock: bool)

  predicate Initial(s: State) {
    && s.adapter == Adapter(s.adapter.enabled, if s.adapter.enabled then Configured else Disabled, false, false, false)
    && s.locks == Locks(None, None, None)
    && !s.shutdown && s.queue == []
    && (forall i :: 0 <= i < |s.callers| ==> s.callers[i] == Idle)
    && s.receiver == NotStarted && s.workers == []
    && s.ledger == Ledger(0, [], multiset{}, multiset{})
  }

  // ---- Start, Stop and the state readers ----

  predicate CallerEnabled(s: State, i: nat)
    requires i < |s.callers|
  {
    match s.callers[i]
    case StartWantLifecycle => s.locks.lifecycle == None
    case StopWantLifecycle => s.locks.lifecycle == None
    case StartWantState => s.locks.state == None
    case StopWantState => s.locks.state == None
    case StopWantStateAgain => s.locks.state == None
    case ReadWantState => s.locks.state == None
    case StartWantJobs => s.locks.jobs == None
    case StopWantJobs => s.locks.jobs == None
    case StopWantJobsAgain => s.locks.jobs == None
    case StopJoinReceiver => s.receiver == NotStarted || s.receiver == Exited
    case StopJoinWorker(k) => k < |s.workers| ==> s.workers[k] == WorkerExited
    case _ => true
  }

  function CallerTo(s: State, i: nat, pc: CallerPc): State
    requires i < |s.callers|
  {
    s.(callers := s.callers[i := pc])
  }

  // Both lock guards of Start or Stop go out of scope.
  function Leave(s: State, i: nat): State
    requires i < |s.callers|
  {
    CallerTo(s, i, Idle).(locks := s.locks.(lifecycle := None, state := None))
  }

  function DropQueue(s: State): State {
    s.(shutdown := false, queue := [], locks := s.locks.(jobs := None),
       ledger := s.ledger.(dropped := s.ledger.dropped + multiset(s.queue)))
  }

  function StartDecision(s: State, i: nat, outcome: StartOutcome): State
    requires i < |s.callers|
  {
    if !s.adapter.enabled then Leave(s.(adapter := s.adapter.(status := Disabled)), i)
    else if s.adapter.running then Leave(s, i)
    else
      match outcome
      case FailedEarly => Leave(s.(adapter := s.adapter.(status := Failed)), i)
      case FailedAndClosed => Leave(s.(adapter := s.adapter.(status := Failed, running := false, open := false)), i)
      case Opened =>
        CallerTo(s, i, StartWantJobs).(adapter := s.adapter.(running := true, open := true, shut := false),
                                       ledger := s.ledger.(session := s.ledger.session + 1))
  }

  function StopDecision(s: State, i: nat): State
    requires i < |s.callers|
  {
    if s.adapter.status == Stopping then Leave(s, i)
    else if !s.adapter.running && !s.adapter.open then
      Leave(s.(adapter := s.adapter.(status := if s.adapter.status == Disabled then Disabled else Stopped)), i)
    else
      CallerTo(s, i, StopShutHttp).(adapter := s.adapter.(status := Stopping, running := false),
                                    locks := s.locks.(state := None))
  }

  function WakeAll(ws: seq<WorkerPc>): (r: seq<WorkerPc>)
    ensures |r| == |ws|
    ensures forall k :: 0 <= k < |ws| ==> r[k] == if ws[k] == Asleep then WantJobs else ws[k]
  {
    seq(|ws|, k requires 0 <= k < |ws| => if ws[k] == Asleep then WantJobs else ws[k])
  }

  function CallerAfter(s: State, i: nat, c: Choice): State
    requires i < |s.callers| && CallerEnabled(s, i)
  {
    match s.callers[i]
    case Idle =>
      CallerTo(s, i, match c.op case CallStart => StartWantLifecycle
                                case CallStop => StopWantLifecycle
                                case CallRead => ReadWantState)
    case StartWantLifecycle => CallerTo(s, i, StartWantState).(locks := s.locks.(lifecycle := Some(i)))
    case StartWantState => CallerTo(s, i, StartBody).(locks := s.locks.(state := Some(Caller(i))))
    case StartBody => StartDecision(s, i, c.start)
    case StartWantJobs => CallerTo(s, i, StartResetJobs).(locks := s.locks.(jobs := Some(Caller(i))))
    case StartResetJobs => CallerTo(DropQueue(s), i, StartSpawnReceiver)
    case StartSpawnReceiver => CallerTo(s, i, StartSpawnWorker).(receiver := CheckRunning)
    case StartSpawnWorker =>
      CallerTo(s, i, if |s.workers| + 1 < WORKER_COUNT then StartSpawnWorker else StartPublish)
      .(workers := s.workers + [WantJobs])
    case StartPublish => Leave(s.(adapter := s.adapter.(status := Running)), i)
    case StopWantLifecycle => CallerTo(s, i, StopWantState).(locks := s.locks.(lifecycle := Some(i)))
    case StopWantState => CallerTo(s, i, StopMark).(locks := s.locks.(state := Some(Caller(i))))
    case StopMark => StopDecision(s, i)
    case StopShutHttp => CallerTo(s, i, StopWantJobs).(adapter := s.adapter.(shut := s.adapter.shut || s.adapter.open))
    case StopWantJobs => CallerTo(s, i, StopRaiseFlag).(locks := s.locks.(jobs := Some(Caller(i))))
    case StopRaiseFlag => CallerTo(s, i, StopNotify).(shutdown := true, locks := s.locks.(jobs := None))
    case StopNotify => CallerTo(s, i, StopJoinReceiver).(workers := WakeAll(s.workers))
    case StopJoinReceiver => CallerTo(s, i, StopJoinWorker(0)).(receiver := NotStarted)
    case StopJoinWorker(k) =>
      if k < |s.workers| then CallerTo(s, i, StopJoinWorker(k + 1))
      else CallerTo(s, i, StopWantJobsAgain).(workers := [])
    case StopWantJobsAgain => CallerTo(s, i, StopResetJobs).(locks := s.locks.(jobs := Some(Caller(i))))
    case StopResetJobs => CallerTo(DropQueue(s), i, StopWantStateAgain)
    case StopWantStateAgain => CallerTo(s, i, StopClose).(locks := s.locks.(state := Some(Caller(i))))
    case StopClose => Leave(s.(adapter := s.adapter.(running := false, open := false, status := Stopped)), i)
    case ReadWantState => CallerTo(s, i, ReadBody).(locks := s.locks.(state := Some(Caller(i))))
    case ReadBody => CallerTo(s, i, Idle).(locks := s.locks.(state := None))
  }

  // ---- The receive thread ----

  predicate ReceiverEnabled(s: State, c: Choice) {
    match s.receiver
    case NotStarted => false
    case Exited => false
    case Receive => c.arrival == Aborted ==> s.adapter.shut
    case ProbeWant(_) => s.locks.state == None
    case StatusWant(_) => s.locks.state == None
    case EnqueueWant(_) => s.locks.jobs == None
    case NotifyOne => // the notification reaches some sleeper, if there is one
      Asleep in s.workers ==> c.wake < |s.workers| && s.workers[c.wake] == Asleep
    case _ => true
  }

  function ReceiverTo(s: State, pc: ReceiverPc): State {
    s.(receiver := pc)
  }

  function Arrived(s: State): Job {
    Job(|s.ledger.received|, s.ledger.session)
  }

  function Accept(s: State, pc: ReceiverPc): State {
    ReceiverTo(s, pc).(ledger := s.ledger.(received := s.ledger.received + [Arrived(s)]))
  }

  function Answered(s: State, job: Job): State {
    s.(ledger := s.ledger.(answered := s.ledger.answered + multiset{job}))
  }

  function ReceiverAfter(s: State, c: Choice): State
    requires ReceiverEnabled(s, c)
  {
    match s.receiver
    case CheckRunning => ReceiverTo(s, if s.adapter.running then Receive else Exited)
    case Receive =>
      (match c.arrival
       case Aborted => ReceiverTo(s, Exited)
       case Retry => ReceiverTo(s, CheckRunning)
       case Health => Accept(s, ProbeWant(Arrived(s)))
       case AnsweredInline => Accept(s, Send(Arrived(s)))
       case McpPost => Accept(s, EnqueueWant(Arrived(s))))
    case ProbeWant(job) => ReceiverTo(s, ProbeHold(job)).(locks := s.locks.(state := Some(Receiver)))
    case ProbeHold(job) => ReceiverTo(s, StatusWant(job)).(locks := s.locks.(state := None))
    case StatusWant(job) => ReceiverTo(s, StatusHold(job)).(locks := s.locks.(state := Some(Receiver)))
    case StatusHold(job) => ReceiverTo(s, Send(job)).(locks := s.locks.(state := None))
    case EnqueueWant(job) => ReceiverTo(s, EnqueueHold(job)).(locks := s.locks.(jobs := Some(Receiver)))
    case EnqueueHold(job) =>
      if !s.shutdown && |s.queue| < QUEUE_MAX_DEPTH
      then ReceiverTo(s, NotifyOne).(queue := s.queue + [job], locks := s.locks.(jobs := None))
      else ReceiverTo(s, Send(job)).(locks := s.locks.(jobs := None))
    case NotifyOne =>
      if Asleep in s.workers then ReceiverTo(WorkerTo(s, c.wake, WantJobs), CheckRunning)
      else ReceiverTo(s, CheckRunning)
    case Send(job) => Answered(ReceiverTo(s, CheckRunning), job)
  }

  // ---- The workers ----

  predicate WorkerEnabled(s: State, k: nat)
    requires k < |s.workers|
  {
    match s.workers[k]
    case WorkerExited => false
    case WantJobs => s.locks.jobs == None
    case StateWant(_, _) => s.locks.state == None
    case _ => true // Asleep included: wakeups may be spurious
  }

  function WorkerTo(s: State, k: nat, pc: WorkerPc): State
    requires k < |s.workers|
  {
    s.(workers := s.workers[k := pc])
  }

  function Begin(job: Job, c: Choice): WorkerPc {
    Execute(job, if c.sections < MAX_STATE_SECTIONS then c.sections else MAX_STATE_SECTIONS)
  }

  function WorkerAfter(s: State, k: nat, c: Choice): State
    requires k < |s.workers| && WorkerEnabled(s, k)
  {
    match s.workers[k]
    case WantJobs => WorkerTo(s, k, HoldJobs).(locks := s.locks.(jobs := Some(Worker(k))))
    case HoldJobs =>
      var released := s.(locks := s.locks.(jobs := None));
      if s.shutdown then WorkerTo(released, k, WorkerExited)
      else if s.queue == [] then WorkerTo(released, k, Asleep)
      else WorkerTo(released, k, if c.drain then Drain(s.queue[0]) else Begin(s.queue[0], c)).(queue := s.queue[1..])
    case Asleep => WorkerTo(s, k, WantJobs)
    case Drain(job) =>
      (match c.drained
       case Drained => WorkerTo(s, k, Begin(job, c))
       case TooLarge => WorkerTo(s, k, Respond(job))
       case ClientLost =>
         WorkerTo(s, k, WantJobs).(ledger := s.ledger.(dropped := s.ledger.dropped + multiset{job})))
    case Execute(job, left) =>
      WorkerTo(s, k, if c.lock && 0 < left then StateWant(job, left - 1) else Respond(job))
    case StateWant(job, left) => WorkerTo(s, k, StateHold(job, left)).(locks := s.locks.(state := Some(Worker(k))))
    case StateHold(job, left) => WorkerTo(s, k, Execute(job, left)).(locks := s.locks.(state := None))
    case Respond(job) => Answered(WorkerTo(s, k, WantJobs), job)
  }

  // ---- Runs ----

  predicate IsThread(s: State, t: Tid) {
    match t
    case Caller(i) => i < |s.callers|
    case Receiver => true
    case Worker(k) => k < |s.workers|
  }

  predicate Enabled(s: State, t: Tid, c: Choice) {
    IsThread(s, t) &&
    match t
    case Caller(i) => CallerEnabled(s, i)
    case Receiver => ReceiverEnabled(s, c)
    case Worker(k) => WorkerEnabled(s, k)
  }

  function After(s: State, t: Tid, c: Choice): State
    requires Enabled(s, t, c)
  {
    match t
    case Caller(i) => CallerAfter(s, i, c)
    case Receiver => ReceiverAfter(s, c)
    case Worker(k) => WorkerAfter(s, k, c)
  }

  // One step of a run: the thread that moves and what the environment answers it.
  datatype Event = Event(who: Tid, choice: Choice)

  ghost predicate IsRun(states: seq<State>, events: seq<Event>) {
    && |states| == |events| + 1
    && forall j :: 0 <= j < |events| ==>
         && Enabled(states[j], events[j].who, events[j].choice)
         && states[j + 1] == After(states[j], events[j].who, events[j].choice)
  }
}
