/** What becomes of the requests: which are refused and which are queued, in what order the workers take
    them, that each is handled at most once, and what a caller reads as the adapter's status. */
module GatewayQueue {
  import opened Basics
  import opened GatewayLifecycle
  import opened GatewaySafety
  import opened GatewayProgress

  // ---- First in, first out ----

  // The receiver holds the request that arrived last, and the queue is in order of arrival.
  ghost predicate Ordered(s: State) {
    var held := HeldByReceiver(s.receiver);
    && (held.Some? ==> held.value.id + 1 == |s.ledger.received|)
    && (forall i :: 0 <= i < |s.queue| ==> s.queue[i].id < |s.ledger.received|)
    && (forall i :: 0 <= i < |s.queue| && held.Some? ==> s.queue[i].id < held.value.id)
    && (forall i, j :: 0 <= i < j < |s.queue| ==> s.queue[i].id < s.queue[j].id)
  }

  lemma {:induction false} StopLeavesOrder(s: State, i: nat, c: Choice)
    requires i < |s.callers| && CallerEnabled(s, i) && (Teardown(s.callers[i]) || s.callers[i] == StopMark)
    ensures var s' := CallerAfter(s, i, c);
      && (s'.queue == s.queue || s'.queue == []) && s'.ledger.received == s.ledger.received
      && HeldByReceiver(s'.receiver) == HeldByReceiver(s.receiver)
      && s'.receiver in {s.receiver, NotStarted}
  {
  }

  lemma {:induction false} StartLeavesOrder(s: State, i: nat, c: Choice)
    requires LifecycleOwned(s) && Phase(s)
    requires i < |s.callers| && CallerEnabled(s, i) && !Teardown(s.callers[i]) && s.callers[i] != StopMark
    ensures var s' := CallerAfter(s, i, c);
      && (s'.queue == s.queue || s'.queue == []) && s'.ledger.received == s.ledger.received
      && HeldByReceiver(s'.receiver) == HeldByReceiver(s.receiver)
      && s'.receiver in {s.receiver, CheckRunning}
  {
    StartIsClean(s, i);
    if !MovesJobs(s.callers[i]) {
      hide CallerAfter, CallerEnabled, Phase, LifecycleOwned;
      CallerLeavesJobsAlone(s, i, c);
    }
  }

  // Callers only ever empty the queue, and take no request from the receiver.
  lemma {:induction false} CallerLeavesOrder(s: State, i: nat, c: Choice)
    requires Inv(s) && i < |s.callers| && CallerEnabled(s, i)
    ensures var s' := CallerAfter(s, i, c);
      && (s'.queue == s.queue || s'.queue == []) && s'.ledger.received == s.ledger.received
      && HeldByReceiver(s'.receiver) == HeldByReceiver(s.receiver)
      && (s.receiver.EnqueueHold? || s.receiver.EnqueueWant? ==> s'.receiver == s.receiver)
  {
    hide CallerAfter, CallerEnabled;
    if Teardown(s.callers[i]) || s.callers[i] == StopMark {
      StopLeavesOrder(s, i, c);
    } else {
      StartLeavesOrder(s, i, c);
    }
  }

  lemma {:induction false} WorkerLeavesOrder(s: State, k: nat, c: Choice)
    requires k < |s.workers| && WorkerEnabled(s, k)
    ensures var s' := WorkerAfter(s, k, c);
      && s'.receiver == s.receiver && s'.ledger.received == s.ledger.received
      && (s'.queue == s.queue || (s.queue != [] && s'.queue == s.queue[1..]))
  {
  }

  lemma {:induction false} ReceiverLeavesOrder(s: State, c: Choice)
    requires ReceiverEnabled(s, c) && s.receiver != Receive && !s.receiver.EnqueueHold?
    ensures var s' := ReceiverAfter(s, c);
      && s'.queue == s.queue && s'.ledger.received == s.ledger.received
      && HeldByReceiver(s'.receiver) in {HeldByReceiver(s.receiver), None}
  {
  }

  lemma {:induction false} ReceiverKeepsOrdered(s: State, c: Choice)
    requires Ordered(s) && ReceiverEnabled(s, c)
    ensures Ordered(ReceiverAfter(s, c))
  {
    if s.receiver != Receive && !s.receiver.EnqueueHold? {
      ReceiverLeavesOrder(s, c);
      hide ReceiverAfter, ReceiverEnabled, HeldByReceiver;
    }
  }

  lemma {:induction false} StepKeepsOrdered(s: State, e: Event)
    requires Inv(s) && Ordered(s) && Enabled(s, e.who, e.choice)
    ensures Ordered(After(s, e.who, e.choice))
  {
    match e.who
    case Caller(i) =>
      CallerLeavesOrder(s, i, e.choice);
      hide CallerAfter, CallerEnabled, HeldByReceiver, Inv;
    case Receiver => ReceiverKeepsOrdered(s, e.choice);
    case Worker(k) =>
      WorkerLeavesOrder(s, k, e.choice);
      hide WorkerAfter, WorkerEnabled, HeldByReceiver, Inv;
  }

  lemma {:induction false} EveryRunIsOrdered(states: seq<State>, events: seq<Event>, j: nat)
    requires IsRun(states, events) && Initial(states[0]) && j < |states|
    ensures Ordered(states[j]) && Inv(states[j])
  {
    hide Ordered, Inv, After, Enabled, Initial;
    EveryRunIsSafe(states, events, j);
    if j == 0 {
      InitialIsOrdered(states[0]);
    } else {
      EveryRunIsOrdered(states, events, j - 1);
      StepKeepsOrdered(states[j - 1], events[j - 1]);
    }
  }

  lemma {:induction false} InitialIsOrdered(s: State)
    requires Initial(s)
    ensures Ordered(s)
  {
  }

  // The request that a worker gets in this step.
  function Taken(s: State, e: Event): Option<Job>
    requires Enabled(s, e.who, e.choice)
  {
    if e.who.Worker? && HeldByWorker(s.workers[e.who.k]) == None
    then HeldByWorker(WorkerAfter(s, e.who.k, e.choice).workers[e.who.k]) else None
  }

  // All that is still to be taken arrived after the request with this number.
  ghost predicate Later(s: State, id: nat) {
    && id < |s.ledger.received|
    && (forall i :: 0 <= i < |s.queue| ==> id < s.queue[i].id)
    && (HeldByReceiver(s.receiver).Some? ==> id < HeldByReceiver(s.receiver).value.id)
  }

  // A worker gets the oldest request of the queue, and the others stay.
  lemma {:induction false} TakenIsFirst(s: State, e: Event)
    requires Ordered(s) && Enabled(s, e.who, e.choice) && Taken(s, e).Some?
    ensures var s' := After(s, e.who, e.choice);
      && !s.shutdown && s.queue == [Taken(s, e).value] + s'.queue && Later(s', Taken(s, e).value.id)
  {
    var k := e.who.k;
    assert s.workers[k] == HoldJobs;
  }

  lemma {:induction false} ReceiverKeepsLater(s: State, c: Choice, id: nat)
    requires Later(s, id) && ReceiverEnabled(s, c)
    ensures Later(ReceiverAfter(s, c), id)
  {
    if s.receiver != Receive && !s.receiver.EnqueueHold? {
      ReceiverLeavesOrder(s, c);
      hide ReceiverAfter, ReceiverEnabled, HeldByReceiver;
    }
  }

  lemma {:induction false} StepKeepsLater(s: State, e: Event, id: nat)
    requires Inv(s) && Later(s, id) && Enabled(s, e.who, e.choice)
    ensures Later(After(s, e.who, e.choice), id)
  {
    match e.who
    case Caller(i) =>
      CallerLeavesOrder(s, i, e.choice);
      hide CallerAfter, CallerEnabled, HeldByReceiver, Inv;
    case Receiver => ReceiverKeepsLater(s, e.choice, id);
    case Worker(k) =>
      WorkerLeavesOrder(s, k, e.choice);
      hide WorkerAfter, WorkerEnabled, HeldByReceiver, Inv;
  }

  lemma {:induction false} LaterLasts(states: seq<State>, events: seq<Event>, m: nat, n: nat, id: nat)
    requires IsRun(states, events) && Initial(states[0]) && m <= n < |states| && Later(states[m], id)
    ensures Later(states[n], id)
  {
    hide Later, Inv, After, Enabled, Initial;
    if m < n {
      LaterLasts(states, events, m, n - 1, id);
      EveryRunIsSafe(states, events, n - 1);
      StepKeepsLater(states[n - 1], events[n - 1], id);
    }
  }

  // Whichever workers do it, requests are taken in the order of their arrival.
  lemma {:induction false} TakenInOrder(states: seq<State>, events: seq<Event>, m: nat, n: nat)
    requires IsRun(states, events) && Initial(states[0]) && m < n < |events|
    requires Taken(states[m], events[m]).Some? && Taken(states[n], events[n]).Some?
    ensures Taken(states[m], events[m]).value.id < Taken(states[n], events[n]).value.id
  {
    EveryRunIsOrdered(states, events, m);
    EveryRunIsOrdered(states, events, n);
    hide Ordered, Inv, After, Enabled, Taken;
    TakenIsFirst(states[m], events[m]);
    TakenIsFirst(states[n], events[n]);
    var id := Taken(states[m], events[m]).value.id;
    LaterLasts(states, events, m + 1, n, id);
    assert states[n].queue[0] == Taken(states[n], events[n]).value;
  }

  // ---- Refused or queued ----

  // The receiver gets the next request, numbered in order of arrival, in the session now up.
  predicate Arrives(s: State, e: Event, job: Job, arrival: Arrival) {
    e.who == Receiver && s.receiver == Receive && e.choice.arrival == arrival
    && job == Job(|s.ledger.received|, s.ledger.session)
  }

  predicate Posted(s: State, e: Event, job: Job) {
    Arrives(s, e, job, McpPost)
  }

  predicate Refused(s: State, e: Event, job: Job) {
    e.who == Receiver && s.receiver == EnqueueHold(job) && (s.shutdown || |s.queue| == QUEUE_MAX_DEPTH)
  }

  predicate Queued(s: State, e: Event, job: Job) {
    e.who == Receiver && s.receiver == EnqueueHold(job) && !s.shutdown && |s.queue| < QUEUE_MAX_DEPTH
  }

  predicate AnsweredByWorker(s: State, e: Event, job: Job) {
    e.who.Worker? && e.who.k < |s.workers| && s.workers[e.who.k] == Respond(job)
  }

  ghost predicate WasRefused(states: seq<State>, events: seq<Event>, job: Job, j: nat, n: nat) {
    exists k :: j < k < n && k < |events| && k < |states| && Refused(states[k], events[k], job)
  }

  ghost predicate WasQueued(states: seq<State>, events: seq<Event>, job: Job, j: nat, n: nat) {
    exists k :: j < k < n && k < |events| && k < |states| && Queued(states[k], events[k], job)
  }

  ghost predicate WorkerAnswered(states: seq<State>, events: seq<Event>, job: Job, j: nat, n: nat) {
    exists k :: j < k < n && k < |events| && k < |states| && AnsweredByWorker(states[k], events[k], job)
  }

  predicate Undecided(s: State, job: Job) {
    s.receiver == EnqueueWant(job) || s.receiver == EnqueueHold(job)
  }

  predicate RefusedNow(s: State, job: Job) {
    s.receiver == Send(job) || job in s.ledger.answered
  }

  // In the workers' hands: no longer with the receiver.
  predicate HandedOver(s: State, job: Job) {
    && job.id < |s.ledger.received| && s.ledger.received[job.id] == job
    && HeldByReceiver(s.receiver) != Some(job)
  }

  lemma {:induction false} ReceivedStays(s: State, e: Event)
    requires Enabled(s, e.who, e.choice)
    ensures s.ledger.received <= After(s, e.who, e.choice).ledger.received
  {
    match e.who
    case Caller(i) => CallerReceivesNothing(s, i, e.choice);
    case Receiver =>
    case Worker(k) => WorkerLeavesOrder(s, k, e.choice);
  }

  lemma {:induction false} CallerReceivesNothing(s: State, i: nat, c: Choice)
    requires i < |s.callers| && CallerEnabled(s, i)
    ensures CallerAfter(s, i, c).ledger.received == s.ledger.received
    ensures CallerAfter(s, i, c).ledger.answered == s.ledger.answered
  {
  }

  lemma {:induction false} PostingDecidesNothing(s: State, e: Event, job: Job)
    requires Enabled(s, e.who, e.choice) && Posted(s, e, job)
    ensures var s' := After(s, e.who, e.choice);
      Undecided(s', job) && job.id < |s'.ledger.received| && s'.ledger.received[job.id] == job
  {
  }

  lemma {:induction false} UndecidedStep(s: State, e: Event, job: Job)
    requires Inv(s) && Enabled(s, e.who, e.choice) && Undecided(s, job)
    requires job.id < |s.ledger.received| && s.ledger.received[job.id] == job
    ensures var s' := After(s, e.who, e.choice);
      if Refused(s, e, job) then s'.receiver == Send(job)
      else if Queued(s, e, job) then HandedOver(s', job) && job in s'.queue && s'.ledger.answered == s.ledger.answered
      else Undecided(s', job)
  {
    match e.who
    case Caller(i) =>
      CallerLeavesOrder(s, i, e.choice);
      hide CallerAfter, CallerEnabled, Inv;
    case Receiver =>
      if s.receiver.EnqueueHold? && Queued(s, e, job) { assert (s.queue + [job])[|s.queue|] == job; }
    case Worker(k) =>
      WorkerLeavesOrder(s, k, e.choice);
      hide WorkerAfter, WorkerEnabled, Inv;
  }

  lemma {:induction false} HandedOverStep(s: State, e: Event, job: Job)
    requires Inv(s) && Enabled(s, e.who, e.choice) && HandedOver(s, job)
    ensures HandedOver(After(s, e.who, e.choice), job)
  {
    match e.who
    case Caller(i) =>
      CallerLeavesOrder(s, i, e.choice);
      hide CallerAfter, CallerEnabled, Inv, HeldByReceiver;
    case Receiver =>
    case Worker(k) =>
      WorkerLeavesOrder(s, k, e.choice);
      hide WorkerAfter, WorkerEnabled, Inv, HeldByReceiver;
  }

  // Only the receiver's and the workers' sending steps answer.
  lemma {:induction false} AnsweringStep(s: State, e: Event, job: Job)
    requires Enabled(s, e.who, e.choice)
    ensures After(s, e.who, e.choice).ledger.answered[job]
         == s.ledger.answered[job]
            + if (e.who == Receiver && s.receiver == Send(job)) || AnsweredByWorker(s, e, job) then 1 else 0
  {
    match e.who
    case Caller(i) => CallerReceivesNothing(s, i, e.choice);
    case Receiver =>
    case Worker(k) =>
  }

  lemma {:induction false} SendingStep(s: State, e: Event, job: Job)
    requires Inv(s) && Enabled(s, e.who, e.choice) && RefusedNow(s, job)
    ensures RefusedNow(After(s, e.who, e.choice), job)
  {
    AnsweringStep(s, e, job);
    match e.who
    case Caller(i) =>
      CallerLeavesOrder(s, i, e.choice);
      hide CallerAfter, CallerEnabled, Inv;
      assert s.receiver == Send(job) ==> HeldByReceiver(CallerAfter(s, i, e.choice).receiver) == Some(job);
    case Receiver =>
    case Worker(k) =>
      WorkerLeavesOrder(s, k, e.choice);
      hide WorkerAfter, WorkerEnabled, Inv;
  }

  lemma {:induction false} HeldIsCounted(ws: seq<WorkerPc>, k: nat, job: Job)
    requires k < |ws| && HeldByWorker(ws[k]) == Some(job)
    ensures 1 <= Working(ws, job)
  {
    if k < |ws| - 1 { HeldIsCounted(ws[..|ws| - 1], k, job); }
  }

  lemma {:induction false} ReceiverHoldsAlone(s: State, job: Job, k: nat)
    requires Inv(s) && HeldByReceiver(s.receiver) == Some(job) && k < |s.workers|
    ensures HeldByWorker(s.workers[k]) != Some(job)
  {
    hide Inv, HeldByWorker, HeldByReceiver;
    EachRequestIsInOnePlace(s, job);
    if HeldByWorker(s.workers[k]) == Some(job) { HeldIsCounted(s.workers, k, job); }
  }

  lemma {:induction false} FateStep(s: State, e: Event, job: Job)
    requires Inv(s) && Enabled(s, e.who, e.choice)
    requires job.id < |s.ledger.received| && s.ledger.received[job.id] == job
    ensures var s' := After(s, e.who, e.choice);
      && job.id < |s'.ledger.received| && s'.ledger.received[job.id] == job
      && (Undecided(s, job) ==>
            if Refused(s, e, job) then s'.receiver == Send(job)
            else if Queued(s, e, job) then HandedOver(s', job) && s'.ledger.answered == s.ledger.answered
            else Undecided(s', job) && s'.ledger.answered[job] == s.ledger.answered[job])
      && (RefusedNow(s, job) ==> RefusedNow(s', job))
      && (HandedOver(s, job) ==> HandedOver(s', job))
      && (HandedOver(s, job) && job in s'.ledger.answered ==> job in s.ledger.answered || AnsweredByWorker(s, e, job))
  {
    ReceivedStays(s, e);
    AnsweringStep(s, e, job);
    if Undecided(s, job) {
      UndecidedStep(s, e, job);
      if AnsweredByWorker(s, e, job) { ReceiverHoldsAlone(s, job, e.who.k); }
    }
    if RefusedNow(s, job) { SendingStep(s, e, job); }
    if HandedOver(s, job) { HandedOverStep(s, e, job); }
    hide Inv, Enabled, After;
  }

  // The request's fate after its arrival at step j, as far as it is decided before step n.
  ghost predicate Decided(states: seq<State>, events: seq<Event>, job: Job, j: nat, n: nat)
    requires n < |states|
  {
    var s := states[n];
    || (Undecided(s, job) && job !in s.ledger.answered)
    || (WasRefused(states, events, job, j, n) && RefusedNow(s, job))
    || (WasQueued(states, events, job, j, n) && HandedOver(s, job)
        && (job in s.ledger.answered ==> WorkerAnswered(states, events, job, j, n)))
  }

  lemma {:induction false} DecidedStep(states: seq<State>, events: seq<Event>, job: Job, j: nat, n: nat)
    requires IsRun(states, events) && j < n < |events| && Inv(states[n])
    requires job.id < |states[n].ledger.received| && states[n].ledger.received[job.id] == job
    requires Decided(states, events, job, j, n)
    ensures Decided(states, events, job, j, n + 1)
  {
    FateStep(states[n], events[n], job);
    assert WasRefused(states, events, job, j, n) ==> WasRefused(states, events, job, j, n + 1);
    assert WasQueued(states, events, job, j, n) ==> WasQueued(states, events, job, j, n + 1);
    assert WorkerAnswered(states, events, job, j, n) ==> WorkerAnswered(states, events, job, j, n + 1);
    assert Refused(states[n], events[n], job) ==> WasRefused(states, events, job, j, n + 1);
    assert Queued(states[n], events[n], job) ==> WasQueued(states, events, job, j, n + 1);
    assert AnsweredByWorker(states[n], events[n], job) ==> WorkerAnswered(states, events, job, j, n + 1);
    hide Inv, Enabled, After, Refused, Queued, AnsweredByWorker, WasRefused, WasQueued, WorkerAnswered;
  }

  lemma {:induction false} EveryPostIsDecided(states: seq<State>, events: seq<Event>, job: Job, j: nat, n: nat)
    requires IsRun(states, events) && Initial(states[0]) && j < n < |states| && Posted(states[j], events[j], job)
    ensures job.id < |states[n].ledger.received| && states[n].ledger.received[job.id] == job
    ensures Decided(states, events, job, j, n)
  {
    hide Inv, Enabled, After, Decided, Posted, Initial;
    EveryRunIsSafe(states, events, n - 1);
    if n == j + 1 {
      PostIsUndecided(states, events, job, j);
    } else {
      EveryPostIsDecided(states, events, job, j, n - 1);
      DecidedStep(states, events, job, j, n - 1);
      ReceivedStays(states[n - 1], events[n - 1]);
    }
  }

  lemma {:induction false} PostIsUndecided(states: seq<State>, events: seq<Event>, job: Job, j: nat)
    requires IsRun(states, events) && j < |events| && Posted(states[j], events[j], job) && Inv(states[j])
    ensures job.id < |states[j + 1].ledger.received| && states[j + 1].ledger.received[job.id] == job
    ensures Decided(states, events, job, j, j + 1)
  {
    hide Inv, Enabled, After, WasRefused, WasQueued, WorkerAnswered;
    NewIsUnanswered(states[j], job);
    PostingDecidesNothing(states[j], events[j], job);
    AnsweringStep(states[j], events[j], job);
  }

  lemma {:induction false} NewIsUnanswered(s: State, job: Job)
    requires Inv(s) && job.id == |s.ledger.received|
    ensures job !in s.ledger.answered
  {
    EachRequestIsInOnePlace(s, job);
    assert job !in s.ledger.received;
  }

  // A request to the MCP endpoint is answered by the receive thread only if at its turn the shutdown flag
  // was up or the queue held as many as it may.
  lemma {:induction false} OnlyAFullQueueRefuses(states: seq<State>, events: seq<Event>, job: Job, j: nat, n: nat)
    requires IsRun(states, events) && Initial(states[0]) && j < n < |states| && Posted(states[j], events[j], job)
    requires states[n].receiver == Send(job)
    ensures WasRefused(states, events, job, j, n)
  {
    EveryPostIsDecided(states, events, job, j, n);
  }

  // Any other that is past its turn was queued, and is queued still, with one worker, answered by a worker,
  // or dropped.
  lemma {:induction false} OthersAreQueued(states: seq<State>, events: seq<Event>, job: Job, j: nat, n: nat)
    requires IsRun(states, events) && Initial(states[0]) && j < n < |states| && Posted(states[j], events[j], job)
    requires !Undecided(states[n], job) && !WasRefused(states, events, job, j, n)
    ensures var s := states[n];
      && WasQueued(states, events, job, j, n)
      && (job in s.queue || (exists k :: 0 <= k < |s.workers| && HeldByWorker(s.workers[k]) == Some(job))
          || job in s.ledger.dropped || (job in s.ledger.answered && WorkerAnswered(states, events, job, j, n)))
  {
    EveryPostIsDecided(states, events, job, j, n);
    EveryRunIsSafe(states, events, n);
    var s := states[n];
    assert HandedOver(s, job) && WasQueued(states, events, job, j, n);
    hide WasRefused, WasQueued, WorkerAnswered, IsRun, Initial, Inv;
    EachRequestIsInOnePlace(s, job);
    if 0 < Working(s.workers, job) { var k := SomeWorkerHas(s.workers, job); }
  }

  // ---- Where a request came from ----

  ghost predicate Arrived(states: seq<State>, events: seq<Event>, job: Job, arrival: Arrival, n: nat) {
    exists j :: 0 <= j < n && j < |events| && j < |states| && Arrives(states[j], events[j], job, arrival)
  }

  // On its way to the workers, or in their hands.
  ghost predicate WithWorkers(s: State, job: Job) {
    Undecided(s, job) || job in s.queue || exists k :: 0 <= k < |s.workers| && HeldByWorker(s.workers[k]) == Some(job)
  }

  lemma {:induction false} CallerQueuesNothing(s: State, i: nat, c: Choice, job: Job)
    requires Inv(s) && i < |s.callers| && CallerEnabled(s, i) && WithWorkers(CallerAfter(s, i, c), job)
    ensures WithWorkers(s, job)
  {
    var s' := CallerAfter(s, i, c);
    CallerLeavesOrder(s, i, c);
    CallerBringsNoReceiver(s, i, c, job);
    if !Undecided(s', job) && job !in s'.queue {
      var k :| 0 <= k < |s'.workers| && HeldByWorker(s'.workers[k]) == Some(job);
      CallerHandlesNothing(s, i, c, k);
    }
    hide CallerAfter, CallerEnabled, Inv, HeldByWorker, HeldByReceiver;
  }

  lemma {:induction false} CallerBringsNoReceiver(s: State, i: nat, c: Choice, job: Job)
    requires i < |s.callers| && CallerEnabled(s, i)
    ensures Undecided(CallerAfter(s, i, c), job) ==> Undecided(s, job)
  {
  }

  lemma {:induction false} ReceiverQueuesPosts(s: State, c: Choice, job: Job)
    requires ReceiverEnabled(s, c) && WithWorkers(ReceiverAfter(s, c), job)
    ensures WithWorkers(s, job) || Arrives(s, Event(Receiver, c), job, McpPost)
  {
    var s' := ReceiverAfter(s, c);
    if !Undecided(s', job) && job !in s'.queue {
      var k :| 0 <= k < |s'.workers| && HeldByWorker(s'.workers[k]) == Some(job);
      ReceiverHandlesNothing(s, c, k);
    }
  }

  lemma {:induction false} WorkerTakesQueued(s: State, l: nat, c: Choice, job: Job)
    requires l < |s.workers| && WorkerEnabled(s, l) && WithWorkers(WorkerAfter(s, l, c), job)
    ensures WithWorkers(s, job)
  {
    var s' := WorkerAfter(s, l, c);
    WorkerLeavesOrder(s, l, c);
    if s.queue != [] { assert s.queue[0] in s.queue && forall x :: x in s.queue[1..] ==> x in s.queue; }
    if !Undecided(s', job) && job !in s'.queue {
      var k :| 0 <= k < |s'.workers| && HeldByWorker(s'.workers[k]) == Some(job);
      assert k == l || s'.workers[k] == s.workers[k];
      WorkersJob(s, l, c, job);
    }
    hide WorkerAfter, WorkerEnabled, HeldByWorker;
  }

  lemma {:induction false} WorkersJob(s: State, l: nat, c: Choice, job: Job)
    requires l < |s.workers| && WorkerEnabled(s, l)
    ensures HeldByWorker(WorkerAfter(s, l, c).workers[l]) == Some(job) ==>
              HeldByWorker(s.workers[l]) == Some(job) || job in s.queue
  {
  }

  lemma {:induction false} PostingStep(s: State, e: Event, job: Job)
    requires Inv(s) && Enabled(s, e.who, e.choice) && WithWorkers(After(s, e.who, e.choice), job)
    ensures WithWorkers(s, job) || Arrives(s, e, job, McpPost)
  {
    hide Inv, WithWorkers, CallerAfter, ReceiverAfter, WorkerAfter, CallerEnabled, ReceiverEnabled, WorkerEnabled;
    match e.who
    case Caller(i) => CallerQueuesNothing(s, i, e.choice, job);
    case Receiver => ReceiverQueuesPosts(s, e.choice, job);
    case Worker(k) => WorkerTakesQueued(s, k, e.choice, job);
  }

  lemma {:induction false} NothingToStartWith(s: State, job: Job)
    requires Initial(s)
    ensures !WithWorkers(s, job)
  {
  }

  // Only what came as a POST to the MCP endpoint is ever queued or given to a worker.
  lemma {:induction false} WorkersGetPosts(states: seq<State>, events: seq<Event>, job: Job, n: nat)
    requires IsRun(states, events) && Initial(states[0]) && n < |states| && WithWorkers(states[n], job)
    ensures Arrived(states, events, job, McpPost, n)
  {
    hide Inv, WithWorkers, After, Enabled, Initial, Arrives;
    if n == 0 {
      NothingToStartWith(states[0], job);
    } else {
      EveryRunIsSafe(states, events, n - 1);
      PostingStep(states[n - 1], events[n - 1], job);
      if WithWorkers(states[n - 1], job) { WorkersGetPosts(states, events, job, n - 1); }
    }
  }

  lemma {:induction false} ReceivedGrows(states: seq<State>, events: seq<Event>, m: nat, n: nat)
    requires IsRun(states, events) && m <= n < |states|
    ensures |states[m].ledger.received| <= |states[n].ledger.received|
  {
    if m < n {
      ReceivedGrows(states, events, m, n - 1);
      ReceivedStays(states[n - 1], events[n - 1]);
    }
  }

  lemma {:induction false} ArrivalIsReceived(s: State, e: Event, job: Job, arrival: Arrival)
    requires Enabled(s, e.who, e.choice) && Arrives(s, e, job, arrival)
    requires arrival.Health? || arrival.AnsweredInline? || arrival.McpPost?
    ensures |After(s, e.who, e.choice).ledger.received| == |s.ledger.received| + 1
  {
  }

  // Two requests that arrive at different steps are different.
  lemma {:induction false} ArrivalsDiffer(states: seq<State>, events: seq<Event>, job: Job, a: Arrival, b: Arrival,
                                          m: nat, n: nat)
    requires IsRun(states, events) && m < n < |events| && (a.Health? || a.AnsweredInline? || a.McpPost?)
    requires Arrives(states[m], events[m], job, a)
    ensures !Arrives(states[n], events[n], job, b)
  {
    ArrivalIsReceived(states[m], events[m], job, a);
    ReceivedGrows(states, events, m + 1, n);
  }

  // A health probe, and what the receiver answers by itself, is never queued nor given to a worker.
  lemma {:induction false} OthersStayWithTheReceiver(
      states: seq<State>, events: seq<Event>, job: Job, arrival: Arrival, j: nat, n: nat)
    requires IsRun(states, events) && Initial(states[0]) && j < |events| && n < |states|
    requires (arrival.Health? || arrival.AnsweredInline?) && Arrives(states[j], events[j], job, arrival)
    ensures !WithWorkers(states[n], job)
  {
    if WithWorkers(states[n], job) {
      WorkersGetPosts(states, events, job, n);
      hide IsRun, Initial, Inv, WithWorkers, Enabled, After;
      var k :| 0 <= k < n && k < |events| && k < |states| && Arrives(states[k], events[k], job, McpPost);
      if k < j {
        ArrivalsDiffer(states, events, job, McpPost, arrival, k, j);
      } else if j < k {
        ArrivalsDiffer(states, events, job, arrival, McpPost, j, k);
      }
    }
  }

  // ---- Health probes ----

  predicate Probing(pc: ReceiverPc, job: Job) {
    pc == ProbeWant(job) || pc == ProbeHold(job) || pc == StatusWant(job)
  }

  ghost predicate ReadStatus(states: seq<State>, job: Job, j: nat, n: nat) {
    exists k :: j < k <= n && k < |states| && states[k].receiver == StatusHold(job)
  }

  lemma {:induction false} ProbeStep(s: State, e: Event, job: Job)
    requires Inv(s) && Enabled(s, e.who, e.choice) && Probing(s.receiver, job)
    ensures var pc := After(s, e.who, e.choice).receiver; Probing(pc, job) || pc == StatusHold(job)
  {
    match e.who
    case Caller(i) => CallerLeavesProbes(s, i, e.choice);
    case Receiver =>
    case Worker(k) => WorkerLeavesOrder(s, k, e.choice);
  }

  lemma {:induction false} CallerLeavesProbes(s: State, i: nat, c: Choice)
    requires Inv(s) && i < |s.callers| && CallerEnabled(s, i)
    ensures HeldByReceiver(s.receiver).Some? ==> CallerAfter(s, i, c).receiver == s.receiver
  {
    hide CallerAfter, CallerEnabled, Inv;
    CallerMovesReceiver(s, i, c);
  }

  lemma {:induction false} CallerMovesReceiver(s: State, i: nat, c: Choice)
    requires Inv(s) && i < |s.callers| && CallerEnabled(s, i)
    ensures CallerAfter(s, i, c).receiver == s.receiver || HeldByReceiver(s.receiver) == None
  {
    CallerLeavesOrder(s, i, c);
    if Teardown(s.callers[i]) || s.callers[i] == StopMark {
      StopLeavesOrder(s, i, c);
    } else {
      StartLeavesOrder(s, i, c);
    }
    hide CallerAfter, CallerEnabled, Inv;
  }

  lemma {:induction false} HealthIsProbed(s: State, e: Event, job: Job)
    requires Enabled(s, e.who, e.choice) && Arrives(s, e, job, Health)
    ensures After(s, e.who, e.choice).receiver == ProbeWant(job)
  {
  }

  // A health probe is answered only after the adapter's status was read under its lock.
  lemma {:induction false} HealthReadsTheStatus(states: seq<State>, events: seq<Event>, job: Job, j: nat, n: nat)
    requires IsRun(states, events) && Initial(states[0]) && j < n < |states|
    requires Arrives(states[j], events[j], job, Health)
    ensures Probing(states[n].receiver, job) || ReadStatus(states, job, j, n)
  {
    hide Inv, After, Enabled, Initial, Arrives;
    if n == j + 1 {
      HealthIsProbed(states[j], events[j], job);
    } else {
      HealthReadsTheStatus(states, events, job, j, n - 1);
      EveryRunIsSafe(states, events, n - 1);
      if Probing(states[n - 1].receiver, job) { ProbeStep(states[n - 1], events[n - 1], job); }
      assert ReadStatus(states, job, j, n - 1) ==> ReadStatus(states, job, j, n);
    }
  }

  // ---- Handled at most once ----

  predicate Executing(pc: WorkerPc, job: Job) {
    (pc.Execute? || pc.StateWant? || pc.StateHold?) && pc.job == job
  }

  // In this step a worker hands the request to its handler.
  predicate Begins(s: State, e: Event, job: Job)
    requires Enabled(s, e.who, e.choice)
  {
    && e.who.Worker? && !Executing(s.workers[e.who.k], job)
    && Executing(WorkerAfter(s, e.who.k, e.choice).workers[e.who.k], job)
  }

  // In this step the body is found too large or its client gone.
  predicate Abandons(s: State, e: Event, job: Job) {
    e.who.Worker? && e.who.k < |s.workers| && s.workers[e.who.k] == Drain(job) && e.choice.drained != Drained
  }

  // A handler gets the oldest queued request, or one whose body was left to read and has been read whole.
  lemma {:induction false} BeginsWithItsBody(s: State, e: Event, job: Job)
    requires Enabled(s, e.who, e.choice) && e.who.Worker?
    ensures var pc := s.workers[e.who.k];
      Begins(s, e, job) <==>
        || (pc == HoldJobs && !s.shutdown && s.queue != [] && s.queue[0] == job && !e.choice.drain)
        || (pc == Drain(job) && e.choice.drained == Drained)
  {
  }

  // The request will not be taken again, nor its body read.
  ghost predicate Gone(s: State, job: Job) {
    HandedOver(s, job) && job !in s.queue && forall k :: 0 <= k < |s.workers| ==> s.workers[k] != Drain(job)
  }

  lemma {:induction false} CallerDrainsNothing(s: State, i: nat, c: Choice, job: Job)
    requires i < |s.callers| && CallerEnabled(s, i)
    requires forall k :: 0 <= k < |s.workers| ==> s.workers[k] != Drain(job)
    ensures var s' := CallerAfter(s, i, c); forall k :: 0 <= k < |s'.workers| ==> s'.workers[k] != Drain(job)
  {
  }

  lemma {:induction false} ReceiverKeepsGone(s: State, c: Choice, job: Job)
    requires ReceiverEnabled(s, c) && Gone(s, job)
    ensures var s' := ReceiverAfter(s, c);
      job !in s'.queue && forall k :: 0 <= k < |s'.workers| ==> s'.workers[k] != Drain(job)
  {
  }

  lemma {:induction false} WorkerKeepsGone(s: State, k: nat, c: Choice, job: Job)
    requires k < |s.workers| && WorkerEnabled(s, k) && Gone(s, job)
    ensures var s' := WorkerAfter(s, k, c);
      job !in s'.queue && forall k :: 0 <= k < |s'.workers| ==> s'.workers[k] != Drain(job)
  {
    if s.queue != [] { assert s.queue[0] in s.queue && forall x :: x in s.queue[1..] ==> x in s.queue; }
  }

  lemma {:induction false} StepKeepsGone(s: State, e: Event, job: Job)
    requires Inv(s) && Enabled(s, e.who, e.choice) && Gone(s, job)
    ensures Gone(After(s, e.who, e.choice), job)
  {
    HandedOverStep(s, e, job);
    match e.who
    case Caller(i) =>
      hide CallerAfter, CallerEnabled, Inv, HandedOver;
      CallerLeavesOrder(s, i, e.choice);
      CallerDrainsNothing(s, i, e.choice, job);
    case Receiver =>
      hide ReceiverAfter, ReceiverEnabled, Inv, HandedOver;
      ReceiverKeepsGone(s, e.choice, job);
    case Worker(k) =>
      hide WorkerAfter, WorkerEnabled, Inv, HandedOver;
      WorkerKeepsGone(s, k, e.choice, job);
  }

  lemma {:induction false} GoneLasts(states: seq<State>, events: seq<Event>, job: Job, m: nat, n: nat)
    requires IsRun(states, events) && Initial(states[0]) && m <= n < |states| && Gone(states[m], job)
    ensures Gone(states[n], job)
  {
    hide Gone, Inv, After, Enabled, Initial;
    if m < n {
      GoneLasts(states, events, job, m, n - 1);
      EveryRunIsSafe(states, events, n - 1);
      StepKeepsGone(states[n - 1], events[n - 1], job);
    }
  }

  lemma {:induction false} TwoHoldersCount(ws: seq<WorkerPc>, k: nat, l: nat, job: Job)
    requires k < l < |ws| && HeldByWorker(ws[k]) == Some(job) && HeldByWorker(ws[l]) == Some(job)
    ensures 2 <= Working(ws, job)
  {
    var n := |ws| - 1;
    if l < n { TwoHoldersCount(ws[..n], k, l, job); } else { HeldIsCounted(ws[..n], k, job); }
  }

  // A request with one worker is nowhere else.
  lemma {:induction false} WorkerHoldsAlone(s: State, job: Job, k: nat)
    requires Inv(s) && k < |s.workers| && HeldByWorker(s.workers[k]) == Some(job)
    ensures HandedOver(s, job) && job !in s.queue
    ensures forall l :: 0 <= l < |s.workers| && l != k ==> HeldByWorker(s.workers[l]) != Some(job)
  {
    ReceivedAt(s, job);
    hide Inv, HeldByWorker, HeldByReceiver;
    EachRequestIsInOnePlace(s, job);
    HeldIsCounted(s.workers, k, job);
    ReceivedAt(s, job);
    forall l | 0 <= l < |s.workers| && l != k ensures HeldByWorker(s.workers[l]) != Some(job) {
      if HeldByWorker(s.workers[l]) == Some(job) {
        TwoHoldersCount(s.workers, if k < l then k else l, if k < l then l else k, job);
      }
    }
  }

  lemma ReceivedAt(s: State, job: Job)
    requires Inv(s)
    ensures job in s.ledger.received ==> job.id < |s.ledger.received| && s.ledger.received[job.id] == job
  {
  }

  lemma {:induction false} BegunIsGone(s: State, e: Event, job: Job)
    requires Inv(s) && Enabled(s, e.who, e.choice) && Begins(s, e, job)
    ensures Gone(After(s, e.who, e.choice), job)
  {
    var s' := After(s, e.who, e.choice);
    EveryStepKeepsInv(s, e);
    BeginsWithItsBody(s, e, job);
    assert Executing(s'.workers[e.who.k], job);
    hide Inv, After, Enabled, Begins, HandedOver;
    WorkerHoldsAlone(s', job, e.who.k);
  }

  lemma {:induction false} AbandonedIsGone(s: State, e: Event, job: Job)
    requires Inv(s) && Enabled(s, e.who, e.choice) && Abandons(s, e, job)
    ensures Gone(After(s, e.who, e.choice), job) && !Begins(s, e, job)
  {
    var s', k := After(s, e.who, e.choice), e.who.k;
    EveryStepKeepsInv(s, e);
    WorkerHoldsAlone(s, job, k);
    assert s'.queue == s.queue && s'.receiver == s.receiver && s'.ledger.received == s.ledger.received;
    assert s'.workers == s.workers[k := s'.workers[k]] && s'.workers[k] != Drain(job);
    hide Inv, After, Enabled;
  }

  lemma {:induction false} GoneBeginsNever(s: State, e: Event, job: Job)
    requires Enabled(s, e.who, e.choice) && Gone(s, job)
    ensures !Begins(s, e, job)
  {
    if e.who.Worker? { BeginsWithItsBody(s, e, job); }
  }

  // No request is handed to a handler twice, and none whose body was too large or whose client was gone.
  lemma {:induction false} HandledAtMostOnce(states: seq<State>, events: seq<Event>, job: Job, m: nat, n: nat)
    requires IsRun(states, events) && Initial(states[0]) && m <= n < |events|
    requires (Begins(states[m], events[m], job) && m < n) || Abandons(states[m], events[m], job)
    ensures !Begins(states[n], events[n], job)
  {
    EveryRunIsSafe(states, events, m);
    hide Inv, After, Enabled, Begins, Gone, Abandons;
    if Abandons(states[m], events[m], job) {
      AbandonedIsGone(states[m], events[m], job);
    } else {
      BegunIsGone(states[m], events[m], job);
    }
    if m < n {
      GoneLasts(states, events, job, m + 1, n);
      GoneBeginsNever(states[n], events[n], job);
    }
  }

  ghost predicate WasBegun(states: seq<State>, events: seq<Event>, job: Job, n: nat)
    requires IsRun(states, events)
  {
    exists m :: 0 <= m < n && m < |events| && Begins(states[m], events[m], job)
  }

  ghost predicate WasTooLarge(states: seq<State>, events: seq<Event>, job: Job, n: nat) {
    exists m :: 0 <= m < n && m < |events| && m < |states| && Abandons(states[m], events[m], job)
                && events[m].choice.drained == TooLarge
  }

  predicate Has(ws: seq<WorkerPc>, k: nat, pc: WorkerPc) {
    k < |ws| && ws[k] == pc
  }

  lemma {:induction false} CallerHandlesNothing(s: State, i: nat, c: Choice, k: nat)
    requires i < |s.callers| && CallerEnabled(s, i) && k < |CallerAfter(s, i, c).workers|
    requires HeldByWorker(CallerAfter(s, i, c).workers[k]).Some?
    ensures k < |s.workers| && s.workers[k] == CallerAfter(s, i, c).workers[k]
  {
  }

  lemma {:induction false} ReceiverHandlesNothing(s: State, c: Choice, k: nat)
    requires ReceiverEnabled(s, c) && k < |ReceiverAfter(s, c).workers|
    requires HeldByWorker(ReceiverAfter(s, c).workers[k]).Some?
    ensures k < |s.workers| && s.workers[k] == ReceiverAfter(s, c).workers[k]
  {
  }

  lemma {:induction false} WorkerWorks(s: State, l: nat, c: Choice, k: nat, job: Job)
    requires l < |s.workers| && WorkerEnabled(s, l) && k < |WorkerAfter(s, l, c).workers|
    requires var pc := WorkerAfter(s, l, c).workers[k]; Executing(pc, job) || pc == Respond(job)
    ensures || Begins(s, Event(Worker(l), c), job)
            || (Abandons(s, Event(Worker(l), c), job) && c.drained == TooLarge
                && WorkerAfter(s, l, c).workers[k] == Respond(job))
            || (k < |s.workers| && (Executing(s.workers[k], job) || s.workers[k] == WorkerAfter(s, l, c).workers[k]))
  {
    if k == l { BeginsWithItsBody(s, Event(Worker(l), c), job); }
    hide HeldByWorker;
  }

  // A worker that is handling or answering a request was so before, or has just come to it.
  lemma {:induction false} WorkStep(s: State, e: Event, k: nat, job: Job)
    requires Enabled(s, e.who, e.choice) && k < |After(s, e.who, e.choice).workers|
    requires var pc := After(s, e.who, e.choice).workers[k]; Executing(pc, job) || pc == Respond(job)
    ensures || Begins(s, e, job)
            || (Abandons(s, e, job) && e.choice.drained == TooLarge
                && After(s, e.who, e.choice).workers[k] == Respond(job))
            || (k < |s.workers| && (Executing(s.workers[k], job)
                                    || s.workers[k] == After(s, e.who, e.choice).workers[k]))
  {
    match e.who
    case Caller(i) =>
      CallerHandlesNothing(s, i, e.choice, k);
      hide CallerAfter, CallerEnabled;
    case Receiver =>
      ReceiverHandlesNothing(s, e.choice, k);
      hide ReceiverAfter, ReceiverEnabled;
    case Worker(l) =>
      hide WorkerAfter, WorkerEnabled, Begins;
      WorkerWorks(s, l, e.choice, k, job);
  }

  // What a worker answers it has handed to the handler before, unless the body was too large.
  lemma {:induction false} AnsweredWasHandled(states: seq<State>, events: seq<Event>, job: Job, n: nat, k: nat)
    requires IsRun(states, events) && Initial(states[0]) && n < |states| && k < |states[n].workers|
    requires Executing(states[n].workers[k], job) || states[n].workers[k] == Respond(job)
    ensures WasBegun(states, events, job, n)
            || (WasTooLarge(states, events, job, n) && states[n].workers[k] == Respond(job))
  {
    if 0 < n {
      var s, e := states[n - 1], events[n - 1];
      WorkStep(s, e, k, job);
      hide After, Enabled, Begins, Abandons;
      if k < |s.workers| && (Executing(s.workers[k], job) || s.workers[k] == states[n].workers[k]) {
        AnsweredWasHandled(states, events, job, n - 1, k);
      }
      assert Begins(s, e, job) ==> WasBegun(states, events, job, n);
      assert WasBegun(states, events, job, n - 1) ==> WasBegun(states, events, job, n);
      assert WasTooLarge(states, events, job, n - 1) ==> WasTooLarge(states, events, job, n);
    }
  }

  // ---- What a caller reads ----

  predicate IsStarting(pc: CallerPc) {
    pc.StartWantJobs? || pc.StartResetJobs? || pc.StartSpawnReceiver? || pc.StartSpawnWorker? || pc.StartPublish?
  }

  predicate Honest(s: State) {
    && (s.adapter.running ==> s.adapter.enabled)
    && (Teardown(HolderPc(s)) ==> s.adapter.status == Stopping)
    && (!Teardown(HolderPc(s)) && !IsStarting(HolderPc(s)) ==> (s.adapter.status == Running <==> s.adapter.running))
  }

  lemma {:induction false} StartKeepsHonest(s: State, i: nat, c: Choice)
    requires LifecycleOwned(s) && Phase(s) && Honest(s)
    requires i < |s.callers| && CallerEnabled(s, i) && InStart(s.callers[i]) && s.callers[i] != StartBody
    ensures Honest(CallerAfter(s, i, c))
  {
  }

  lemma {:induction false} MarkKeepsHonest(s: State, i: nat, c: Choice)
    requires LifecycleOwned(s) && Phase(s) && Honest(s) && i < |s.callers| && s.callers[i] == StopMark
    ensures Honest(CallerAfter(s, i, c))
  {
  }

  lemma {:induction false} StopKeepsHonest(s: State, i: nat, c: Choice)
    requires LifecycleOwned(s) && Phase(s) && Honest(s)
    requires i < |s.callers| && CallerEnabled(s, i) && Teardown(s.callers[i])
    ensures Honest(CallerAfter(s, i, c))
  {
  }

  lemma {:induction false} BodyKeepsHonest(s: State, i: nat, c: Choice)
    requires LifecycleOwned(s) && Phase(s) && Honest(s) && i < |s.callers| && s.callers[i] == StartBody
    ensures Honest(CallerAfter(s, i, c))
  {
  }

  lemma {:induction false} CallKeepsHonest(s: State, i: nat, c: Choice)
    requires LifecycleOwned(s) && Phase(s) && Honest(s) && i < |s.callers| && CallerEnabled(s, i)
    requires !InStart(s.callers[i]) && !Teardown(s.callers[i]) && s.callers[i] != StopMark
    ensures Honest(CallerAfter(s, i, c))
  {
  }

  lemma {:induction false} ThreadsKeepHonest(s: State, e: Event)
    requires Honest(s) && Enabled(s, e.who, e.choice) && !e.who.Caller?
    ensures Honest(After(s, e.who, e.choice))
  {
  }

  lemma {:induction false} EveryRunIsHonest(states: seq<State>, events: seq<Event>, j: nat)
    requires IsRun(states, events) && Initial(states[0]) && j < |states|
    ensures Honest(states[j])
  {
    if 0 < j {
      var s, e := states[j - 1], events[j - 1];
      EveryRunIsHonest(states, events, j - 1);
      EveryRunIsSafe(states, events, j - 1);
      hide Honest, Phase, LocksOwned, CallerAfter, CallerEnabled;
      if !e.who.Caller? {
        ThreadsKeepHonest(s, e);
      } else {
        assert LifecycleOwned(s) by { LocksGiveLifecycle(s); }
        if s.callers[e.who.i] == StartBody {
          BodyKeepsHonest(s, e.who.i, e.choice);
        } else if InStart(s.callers[e.who.i]) {
          StartKeepsHonest(s, e.who.i, e.choice);
        } else if s.callers[e.who.i] == StopMark {
          MarkKeepsHonest(s, e.who.i, e.choice);
        } else if Teardown(s.callers[e.who.i]) {
          StopKeepsHonest(s, e.who.i, e.choice);
        } else {
          CallKeepsHonest(s, e.who.i, e.choice);
        }
      }
    }
  }

  lemma LocksGiveLifecycle(s: State)
    requires LocksOwned(s)
    ensures LifecycleOwned(s)
  {
  }

  // Whoever reads the status in the middle of whatever else goes on reads Running exactly of an open session
  // with its receive thread and four workers, Stopping exactly while a Stop tears one down, and anything
  // else only where no thread, job or handle is left.
  lemma {:induction false} StatusIsTrue(states: seq<State>, events: seq<Event>, j: nat, i: nat)
    requires IsRun(states, events) && Initial(states[0]) && j < |states|
    requires i < |states[j].callers| && states[j].callers[i] == ReadBody
    ensures var s := states[j];
      && (s.adapter.status == Running <==> s.adapter.running)
      && (s.adapter.status == Running ==> Up(s))
      && (s.adapter.status == Stopping <==> Teardown(HolderPc(s)))
      && (s.adapter.status != Running && s.adapter.status != Stopping ==> Down(s) && !s.adapter.open)
  {
    var s := states[j];
    EveryRunIsSafe(states, events, j);
    EveryRunIsHonest(states, events, j);
    ReaderExcludesStart(s, i);
    hide IsRun, Initial, LocksOwned;
  }

  lemma {:induction false} ReaderExcludesStart(s: State, i: nat)
    requires StateOwned(s) && i < |s.callers| && s.callers[i] == ReadBody
    ensures !IsStarting(HolderPc(s))
  {
  }

  // A Start that does not get as far leaves the session that runs alone, and else a state without one.
  lemma {:induction false} OtherStartsLeaveNothing(s: State, i: nat, outcome: StartOutcome)
    requires LifecycleOwned(s) && Phase(s) && Honest(s) && i < |s.callers| && s.callers[i] == StartBody
    requires s.adapter.running || outcome != Opened || !s.adapter.enabled
    ensures var s' := StartDecision(s, i, outcome);
      && s'.callers[i] == Idle && s'.locks.lifecycle == None && s'.locks.state == None
      && s'.queue == s.queue && s'.workers == s.workers && s'.ledger == s.ledger
      && if s.adapter.running then s'.adapter == s.adapter
         else !s'.adapter.running && !s'.adapter.open
              && s'.adapter.status == if s.adapter.enabled then Failed else Disabled
  {
    assert HolderPc(s) == StartBody;
  }

  // When Start leaves after publishing, the session is up and its status says so.
  lemma {:induction false} StartLeavesRunning(s: State, i: nat, c: Choice)
    requires LifecycleOwned(s) && Phase(s) && i < |s.callers| && s.callers[i] == StartPublish
    ensures var s' := CallerAfter(s, i, c);
      && Up(s') && s'.adapter.status == Running
      && s'.callers[i] == Idle && s'.locks.lifecycle == None && s'.locks.state == None
  {
    assert HolderPc(s) == StartPublish;
  }

  // ---- Starts and stops end ----

  lemma {:induction false} StartingMoves(s: State, i: nat, c: Choice)
    requires i < |s.callers| && CallerEnabled(s, i) && IsStarting(s.callers[i])
    ensures var pc := CallerAfter(s, i, c).callers[i]; IsStarting(pc) || (pc == Idle && s.callers[i] == StartPublish)
  {
  }

  lemma {:induction false} OthersMoveNoCaller(s: State, e: Event, i: nat)
    requires Enabled(s, e.who, e.choice) && i < |s.callers| && e.who != Caller(i)
    ensures i < |After(s, e.who, e.choice).callers| && After(s, e.who, e.choice).callers[i] == s.callers[i]
  {
    hide CallerAfter, ReceiverAfter, WorkerAfter, CallerEnabled, ReceiverEnabled, WorkerEnabled;
    match e.who
    case Caller(l) => CallersStay(s, l, e.choice);
    case Receiver => ReceiverMovesNoCaller(s, e.choice);
    case Worker(k) => WorkerMovesNoCaller(s, k, e.choice);
  }

  lemma ReceiverMovesNoCaller(s: State, c: Choice)
    requires ReceiverEnabled(s, c)
    ensures ReceiverAfter(s, c).callers == s.callers
  {
  }

  lemma WorkerMovesNoCaller(s: State, k: nat, c: Choice)
    requires k < |s.workers| && WorkerEnabled(s, k)
    ensures WorkerAfter(s, k, c).callers == s.callers
  {
  }

  lemma {:induction false} StartingStep(s: State, e: Event, i: nat)
    requires Inv(s) && Enabled(s, e.who, e.choice) && i < |s.callers| && IsStarting(s.callers[i])
    ensures var s' := After(s, e.who, e.choice);
      && i < |s'.callers|
      && (IsStarting(s'.callers[i])
          || (s'.callers[i] == Idle && s.callers[i] == StartPublish && e.who == Caller(i)))
  {
    hide Inv, CallerAfter, ReceiverAfter, WorkerAfter, CallerEnabled, ReceiverEnabled, WorkerEnabled;
    if e.who == Caller(i) {
      StartingMoves(s, i, e.choice);
      CallersStay(s, i, e.choice);
    } else {
      OthersMoveNoCaller(s, e, i);
    }
  }

  lemma CallersStay(s: State, i: nat, c: Choice)
    requires i < |s.callers| && CallerEnabled(s, i)
    ensures |CallerAfter(s, i, c).callers| == |s.callers|
    ensures CallerAfter(s, i, c).callers == s.callers[i := CallerAfter(s, i, c).callers[i]]
  {
  }

  lemma {:induction false} OpeningStarts(s: State, e: Event, i: nat)
    requires Enabled(s, e.who, e.choice) && e.who == Caller(i) && s.callers[i] == StartBody
    requires s.adapter.enabled && !s.adapter.running && e.choice.start == Opened
    ensures i < |After(s, e.who, e.choice).callers| && IsStarting(After(s, e.who, e.choice).callers[i])
    ensures After(s, e.who, e.choice).ledger.session == s.ledger.session + 1
  {
  }

  // A Start of an enabled adapter that is not running, for which HTTP.sys opens, goes on until it has
  // published, and leaves a running session.
  lemma {:induction false} OpenedStartsRun(states: seq<State>, events: seq<Event>, j: nat, n: nat, i: nat)
    requires IsRun(states, events) && Initial(states[0]) && j < n < |states|
    requires events[j].who == Caller(i) && states[j].callers[i] == StartBody
    requires states[j].adapter.enabled && !states[j].adapter.running && events[j].choice.start == Opened
    requires forall m :: j < m < n ==> i < |states[m].callers| && states[m].callers[i] != Idle
    ensures i < |states[n].callers|
    ensures IsStarting(states[n].callers[i])
            || (states[n].callers[i] == Idle && Up(states[n]) && states[n].adapter.status == Running)
  {
    hide Inv, After, Enabled, Initial;
    if n == j + 1 {
      OpeningStarts(states[j], events[j], i);
    } else {
      OpenedStartsRun(states, events, j, n - 1, i);
      EveryRunIsSafe(states, events, n - 1);
      StartingStep(states[n - 1], events[n - 1], i);
      if !IsStarting(states[n].callers[i]) { PublishedRuns(states[n - 1], events[n - 1], i); }
    }
  }

  lemma {:induction false} PublishedRuns(s: State, e: Event, i: nat)
    requires Inv(s) && Enabled(s, e.who, e.choice) && e.who == Caller(i) && s.callers[i] == StartPublish
    ensures Up(After(s, e.who, e.choice)) && After(s, e.who, e.choice).adapter.status == Running
  {
    StartLeavesRunning(s, i, e.choice);
  }
}
