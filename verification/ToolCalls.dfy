/** Concurrent JSON-RPC requests of the native gateway: replies, bridge ids and leases.
    Each request is a thread; the name lookup, the capability check, the lease router
    and the stdio bridge answer as the environment chooses, within the router's
    contract: a stateless lease is new, a session lease is new or that session's own. */
module ToolCalls {
  import opened Basics

  // An "id" of JSON-RPC: null, or the text of any other JSON value.
  datatype Id = Null | Value(text: string)

  // The "method" member.  Other covers the notifications, which no branch answers.
  datatype Method = Missing | NotAString | Initialize | Ping | ToolsList | ToolsCall(named: bool) | Other

  // What the HTTP body parses to; an empty one reads as an empty object.
  datatype Body = Unparsable | Batch | NotAnObject | Envelope(id: Option<Id>, operation: Method)

  // `session` is empty when the client sent no session id.
  datatype Request = Request(body: Body, session: string)

  datatype Payload = Result | Forwarded | RpcError(code: int)

  datatype Reply = NoContent | Reply(status: nat, id: Id, payload: Payload)

  datatype Pc =
    | Begin
    | Prepared            // bridge id taken, envelope built
    | Leased              // the stdio RPC is running
    | ReleasingSession    // the bridge failed under a session lease
    | Leaving(reply: Reply)   // the stateless release guard is about to run
    | Done(reply: Reply)

  // `lease`, `bridge`, `releases`, `bridgeFailed` and `threw` record what the call did.
  datatype Call = Call(request: Request, pc: Pc, lease: Option<string>, bridge: Option<nat>, releases: nat,
                       bridgeFailed: bool, threw: bool)

  // `counter` counts bridgeRequestIdCounter_++ without its wrap-around; `fetched` are the ids the
  // catalog collector took; `leased` maps every lease the router ever granted to its session.
  datatype State = State(calls: seq<Call>, counter: nat, fetched: seq<nat>, leased: map<string, string>,
                         released: multiset<string>)

  datatype Event =
    | CollectorTakesId                 // collectToolCatalog, in any thread
    | Answer(i: nat)                   // everything that neither lists nor calls tools
    | List(i: nat)
    | Reject(i: nat, code: int)        // no bridge, bad params, ambiguous, not found, denied
    | BeginThrows(i: nat)
    | Prepare(i: nat)
    | DumpThrows(i: nat)
    | AcquireThrows(i: nat)
    | AcquireRefused(i: nat)
    | Acquire(i: nat, lease: string)
    | BridgeFails(i: nat)
    | BridgeThrows(i: nat)
    | BridgeReplies(i: nat, wellFormed: bool)
    | ReleaseSession(i: nat)
    | ReleaseThrows(i: nat)            // of a session lease; a throw in the stateless guard ends the process
    | Leave(i: nat)

  // ---- What a body asks ----

  // The id a reply should carry: the request's, or null where there is none to read.
  function RequestId(b: Body): Id {
    if b.Envelope? && b.id.Some? then b.id.value else Null
  }

  predicate Lists(b: Body) {
    b.Envelope? && b.operation == ToolsList
  }

  predicate Calls(b: Body) {
    b.Envelope? && b.operation.ToolsCall?
  }

  // A notification that nothing answers.
  predicate IsSilent(b: Body) {
    b.Envelope? && b.id == None && (b.operation == Missing || b.operation == Other)
  }

  // req.value("method", ...) throws.
  predicate HasBadMethod(b: Body) {
    b.Envelope? && b.operation == NotAString
  }

  // processGatewayJob's catch: the envelope is built without the request's id.
  const INTERNAL_ERROR := Reply(500, Null, RpcError(-32603))

  function Answered(b: Body): Reply
    requires !Lists(b) && !Calls(b)
  {
    match b
    case Unparsable => Reply(200, Null, RpcError(-32700))
    case Batch => Reply(200, Null, RpcError(-32600))
    case NotAnObject => Reply(200, Null, RpcError(-32600))
    case Envelope(id, operation) =>
      if operation == NotAString then INTERNAL_ERROR
      else if operation == Missing then if id == None then NoContent else Reply(200, id.value, RpcError(-32600))
      else if operation == Other then if id == None then NoContent else Reply(200, id.value, RpcError(-32601))
      else Reply(200, RequestId(b), Result)
  }

  function Error(call: Call, code: int): Reply {
    Reply(200, RequestId(call.request.body), RpcError(code))
  }

  const REJECTIONS: set<int> := {-32603, -32602, -32601, -32001}

  // ---- Steps ----

  predicate Initial(s: State) {
    && s.counter == 0 && s.fetched == [] && s.leased == map[] && s.released == multiset{}
    && forall i :: 0 <= i < |s.calls| ==> s.calls[i] == Call(s.calls[i].request, Begin, None, None, 0, false, false)
  }

  predicate Throws(e: Event) {
    e.BeginThrows? || e.DumpThrows? || e.AcquireThrows? || e.BridgeThrows? || e.ReleaseThrows?
  }

  predicate CallEnabled(call: Call, e: Event)
    requires !e.CollectorTakesId?
  {
    var b := call.request.body;
    match e
    case Answer(_) => call.pc == Begin && !Lists(b) && !Calls(b)
    case List(_) => call.pc == Begin && Lists(b)
    case Reject(_, code) =>
      call.pc == Begin && Calls(b) && code in REJECTIONS && (!b.operation.named ==> code == -32603 || code == -32602)
    case BeginThrows(_) => call.pc == Begin
    case Prepare(_) => call.pc == Begin && Calls(b) && b.operation.named
    case DumpThrows(_) => call.pc == Begin && Calls(b) && b.operation.named
    case AcquireThrows(_) => call.pc == Prepared
    case AcquireRefused(_) => call.pc == Prepared
    case Acquire(_, _) => call.pc == Prepared
    case BridgeFails(_) => call.pc == Leased
    case BridgeThrows(_) => call.pc == Leased
    case BridgeReplies(_, _) => call.pc == Leased
    case ReleaseSession(_) => call.pc == ReleasingSession
    case ReleaseThrows(_) => call.pc == ReleasingSession
    case Leave(_) => call.pc.Leaving?
  }

  predicate Enabled(s: State, e: Event) {
    e.CollectorTakesId? || (
      && e.i < |s.calls| && CallEnabled(s.calls[e.i], e)
      && (e.Acquire? && e.lease in s.leased ==>
            s.calls[e.i].request.session != "" && s.leased[e.lease] == s.calls[e.i].request.session))
  }

  function CallAfter(call: Call, e: Event, counter: nat): Call
    requires !e.CollectorTakesId? && CallEnabled(call, e)
  {
    var id := RequestId(call.request.body);
    match e
    case Answer(_) => call.(pc := Done(Answered(call.request.body)))
    case List(_) => call.(pc := Done(Reply(200, id, Result)))
    case Reject(_, code) => call.(pc := Done(Error(call, code)))
    case BeginThrows(_) => call.(pc := Done(INTERNAL_ERROR), threw := true)
    case Prepare(_) => call.(pc := Prepared, bridge := Some(counter))
    case DumpThrows(_) => call.(pc := Done(INTERNAL_ERROR), bridge := Some(counter), threw := true)
    case AcquireThrows(_) => call.(pc := Done(INTERNAL_ERROR), threw := true)
    case AcquireRefused(_) => call.(pc := Done(Error(call, -32603)))
    case Acquire(_, lease) => call.(pc := Leased, lease := Some(lease))
    case BridgeFails(_) =>
      call.(pc := if call.request.session != "" then ReleasingSession else Leaving(Error(call, -32603)),
            bridgeFailed := true)
    case BridgeThrows(_) => call.(pc := Leaving(INTERNAL_ERROR), threw := true)
    case BridgeReplies(_, wellFormed) =>
      call.(pc := Leaving(if wellFormed then Reply(200, id, Forwarded) else Error(call, -32603)))
    case ReleaseSession(_) => call.(pc := Leaving(Error(call, -32603)), releases := call.releases + 1)
    case ReleaseThrows(_) => call.(pc := Leaving(INTERNAL_ERROR), threw := true)
    case Leave(_) =>
      call.(pc := Done(call.pc.reply), releases := call.releases + if call.request.session == "" then 1 else 0)
  }

  function After(s: State, e: Event): State
    requires Enabled(s, e)
  {
    if e.CollectorTakesId? then s.(counter := s.counter + 1, fetched := s.fetched + [s.counter])
    else
      var call := s.calls[e.i];
      var call' := CallAfter(call, e, s.counter);
      s.(calls := s.calls[e.i := call'],
         counter := if e.Prepare? || e.DumpThrows? then s.counter + 1 else s.counter,
         leased := if e.Acquire? then s.leased[e.lease := call.request.session] else s.leased,
         released := if call'.releases == call.releases || call.lease == None then s.released
                     else s.released + multiset{call.lease.value})
  }

  ghost predicate IsRun(states: seq<State>, events: seq<Event>) {
    && |states| == |events| + 1
    && Initial(states[0])
    && forall j :: 0 <= j < |events| ==> Enabled(states[j], events[j]) && states[j + 1] == After(states[j], events[j])
  }

  // ---- Invariant ----

  // The gateway has released the lease of a call this often.
  function Released(c: Call): nat {
    if c.request.session == "" then if c.pc.Done? then 1 else 0
    else if LetGo(c) then 1 else 0
  }

  // The bridge failed, and the release that follows has returned.
  predicate LetGo(c: Call) {
    c.bridgeFailed && !c.pc.ReleasingSession? && !c.threw
  }

  // What one call's record says at each program point.
  predicate Consistent(c: Call) {
    && (c.pc.Begin? || c.pc.Prepared? ==> c.lease == None)
    && (c.pc.Leased? || c.pc.ReleasingSession? || c.pc.Leaving? ==> c.lease.Some?)
    && (c.pc.Begin? ==> c.bridge == None)
    && (c.pc.Prepared? || c.pc.Leased? || c.pc.ReleasingSession? || c.pc.Leaving? ==> c.bridge.Some?)
    && (c.bridgeFailed ==> c.lease.Some?)
    && (c.bridgeFailed && c.threw ==> c.request.session != "" && (c.pc.Leaving? || c.pc.Done?))
    && (c.pc.ReleasingSession? ==> c.request.session != "" && c.bridgeFailed && !c.threw)
    && (c.releases == if c.lease.Some? then Released(c) else 0)
    && (c.pc.Begin? || c.pc.Prepared? || c.pc.Leased? ==> !c.bridgeFailed && !c.threw)
  }

  // What the reply a call has or is about to give says.
  predicate Replied(c: Call) {
    c.pc.Leaving? || c.pc.Done? ==>
      var b, reply := c.request.body, c.pc.reply;
      && (c.threw ==> reply == INTERNAL_ERROR)
      && (!c.threw && !Lists(b) && !Calls(b) ==> reply == Answered(b))
      && (!c.threw && Lists(b) ==> reply == Reply(200, RequestId(b), Result))
      && (!c.threw && Calls(b) ==> reply.Reply? && reply.status == 200 && reply.id == RequestId(b))
      && (reply.Reply? && reply.payload == Forwarded ==> c.lease.Some? && !c.bridgeFailed)
  }

  // Only a named tools/call gets past its first section.
  predicate Underway(c: Call) {
    c.pc.Begin? || (c.pc.Done? && c.lease == None) || (Calls(c.request.body) && c.request.body.operation.named)
  }

  ghost predicate Granted(s: State) {
    && (forall i :: 0 <= i < |s.calls| && s.calls[i].lease.Some? ==>
          s.calls[i].lease.value in s.leased && s.leased[s.calls[i].lease.value] == s.calls[i].request.session)
    && (forall i, j :: 0 <= i < j < |s.calls| && s.calls[i].lease.Some? && s.calls[i].lease == s.calls[j].lease ==>
          s.calls[i].request.session != "")
  }

  // Ids in use are below the counter, and no two requests on the bridge took the same one.
  ghost predicate Numbered(s: State) {
    && (forall i :: 0 <= i < |s.calls| && s.calls[i].bridge.Some? ==> s.calls[i].bridge.value < s.counter)
    && (forall k :: 0 <= k < |s.fetched| ==> s.fetched[k] < s.counter)
    && (forall i, j :: 0 <= i < j < |s.calls| && s.calls[i].bridge.Some? ==> s.calls[i].bridge != s.calls[j].bridge)
    && (forall k, l :: 0 <= k < l < |s.fetched| ==> s.fetched[k] != s.fetched[l])
    && (forall i, k :: 0 <= i < |s.calls| && 0 <= k < |s.fetched| ==> s.calls[i].bridge != Some(s.fetched[k]))
  }

  // How often the calls, together, released `lease`.
  function Releases(calls: seq<Call>, lease: string): nat {
    if calls == [] then 0
    else
      var last := calls[|calls| - 1];
      Releases(calls[..|calls| - 1], lease) + if last.lease == Some(lease) then last.releases else 0
  }

  ghost predicate Booked(s: State) {
    forall lease :: s.released[lease] == Releases(s.calls, lease)
  }

  predicate Sound(c: Call) {
    Consistent(c) && Replied(c) && Underway(c)
  }

  ghost predicate Inv(s: State) {
    (forall i :: 0 <= i < |s.calls| ==> Sound(s.calls[i])) && Granted(s) && Numbered(s) && Booked(s)
  }

  lemma {:induction false} ReleasesAfter(calls: seq<Call>, i: nat, call: Call, lease: string)
    requires i < |calls|
    ensures Releases(calls[i := call], lease) + (if calls[i].lease == Some(lease) then calls[i].releases else 0)
         == Releases(calls, lease) + if call.lease == Some(lease) then call.releases else 0
  {
    var n := |calls| - 1;
    if i == n {
      assert calls[i := call][..n] == calls[..n];
    } else {
      assert calls[i := call][..n] == calls[..n][i := call];
      ReleasesAfter(calls[..n], i, call, lease);
    }
  }

  lemma {:induction false} NothingReleased(calls: seq<Call>, lease: string)
    requires forall i :: 0 <= i < |calls| ==> calls[i].lease != Some(lease) || calls[i].releases == 0
    ensures Releases(calls, lease) == 0
  {
    if calls != [] { NothingReleased(calls[..|calls| - 1], lease); }
  }

  // ---- One call ----

  lemma {:induction false} CallStaysSound(call: Call, e: Event, counter: nat)
    requires !e.CollectorTakesId? && CallEnabled(call, e) && Sound(call)
    ensures Sound(CallAfter(call, e, counter))
  {
    CallStaysConsistent(call, e, counter);
    CallStaysReplied(call, e, counter);
  }

  lemma {:induction false} CallStaysConsistent(call: Call, e: Event, counter: nat)
    requires !e.CollectorTakesId? && CallEnabled(call, e) && Consistent(call) && Underway(call)
    ensures Consistent(CallAfter(call, e, counter)) && Underway(CallAfter(call, e, counter))
  {
    hide Answered, Error, RequestId;
  }

  lemma {:induction false} CallStaysReplied(call: Call, e: Event, counter: nat)
    requires !e.CollectorTakesId? && CallEnabled(call, e) && Sound(call)
    ensures Replied(CallAfter(call, e, counter))
  {
    hide RequestId;
  }

  // What a step may do to the fields the joint invariants look at.
  lemma {:induction false} CallChanges(call: Call, e: Event, counter: nat)
    requires !e.CollectorTakesId? && CallEnabled(call, e) && Consistent(call)
    ensures var call' := CallAfter(call, e, counter);
      && call'.request == call.request
      && call'.lease == (if e.Acquire? then Some(e.lease) else call.lease)
      && (e.Acquire? ==> call.lease == None)
      && call'.bridge == (if e.Prepare? || e.DumpThrows? then Some(counter) else call.bridge)
      && (call'.releases == call.releases || (call'.releases == call.releases + 1 && call.lease.Some? && !e.Acquire?))
      && (call'.threw <==> call.threw || Throws(e))
  {
    hide Answered, Error, RequestId;
  }

  // ---- All calls ----

  lemma {:induction false} StepKeepsSound(s: State, e: Event)
    requires Inv(s) && Enabled(s, e)
    ensures forall i :: 0 <= i < |s.calls| ==> Sound(After(s, e).calls[i])
  {
    hide Sound, CallAfter, CallEnabled, Granted, Numbered, Booked;
    if !e.CollectorTakesId? { CallStaysSound(s.calls[e.i], e, s.counter); }
  }

  // One call keeps its lease, or takes one that is new or its own session's.
  lemma {:induction false} CallKeepsGranted(s: State, s': State, i: nat, call: Call)
    requires Granted(s) && i < |s.calls| && s'.calls == s.calls[i := call] && call.request == s.calls[i].request
    requires (call.lease == s.calls[i].lease && s'.leased == s.leased)
             || (call.lease.Some? && s'.leased == s.leased[call.lease.value := call.request.session]
                 && (call.lease.value in s.leased ==>
                       call.request.session != "" && s.leased[call.lease.value] == call.request.session))
    ensures Granted(s')
  {
  }

  lemma {:induction false} StepKeepsGranted(s: State, e: Event)
    requires Inv(s) && Enabled(s, e)
    ensures Granted(After(s, e))
  {
    if !e.CollectorTakesId? {
      hide Consistent, Replied, Underway, CallAfter, CallEnabled, Granted, Numbered, Booked, Releases;
      CallChanges(s.calls[e.i], e, s.counter);
      CallKeepsGranted(s, After(s, e), e.i, After(s, e).calls[e.i]);
    }
  }

  // One call keeps its id or takes the next one.
  lemma {:induction false} CallKeepsNumbered(s: State, s': State, i: nat, call: Call)
    requires Numbered(s) && i < |s.calls| && s'.calls == s.calls[i := call] && s'.fetched == s.fetched
    requires (call.bridge == s.calls[i].bridge && s'.counter == s.counter)
             || (call.bridge == Some(s.counter) && s'.counter == s.counter + 1)
    ensures Numbered(s')
  {
  }

  lemma {:induction false} StepKeepsNumbered(s: State, e: Event)
    requires Inv(s) && Enabled(s, e)
    ensures Numbered(After(s, e))
  {
    if e.CollectorTakesId? {
      CollectorKeepsNumbered(s, After(s, e));
    } else {
      hide Consistent, Replied, Underway, CallAfter, CallEnabled, Granted, Numbered, Booked;
      CallChanges(s.calls[e.i], e, s.counter);
      CallKeepsNumbered(s, After(s, e), e.i, After(s, e).calls[e.i]);
    }
  }

  lemma {:induction false} CollectorKeepsNumbered(s: State, s': State)
    requires Numbered(s) && s'.calls == s.calls && s'.fetched == s.fetched + [s.counter] && s'.counter == s.counter + 1
    ensures Numbered(s')
  {
  }

  lemma {:induction false} StepKeepsBooked(s: State, e: Event)
    requires Inv(s) && Enabled(s, e)
    ensures Booked(After(s, e))
  {
    hide Consistent, Replied, Underway, CallAfter, CallEnabled, Granted, Numbered, Releases;
    if !e.CollectorTakesId? {
      var s' := After(s, e);
      CallChanges(s.calls[e.i], e, s.counter);
      if s.calls[e.i].lease == None { BeforeItsLease(s.calls[e.i]); }
      forall lease ensures s'.released[lease] == Releases(s'.calls, lease) {
        ReleasesAfter(s.calls, e.i, s'.calls[e.i], lease);
      }
    }
  }

  lemma BeforeItsLease(call: Call)
    requires Consistent(call) && call.lease == None
    ensures call.releases == 0
  {
  }

  lemma {:induction false} EveryRunIsSafe(states: seq<State>, events: seq<Event>, j: nat)
    requires IsRun(states, events) && j < |states|
    ensures Inv(states[j])
  {
    if j == 0 {
      forall lease ensures Releases(states[0].calls, lease) == 0 { NothingReleased(states[0].calls, lease); }
    } else {
      hide Sound, Granted, Numbered, Booked, Enabled, After;
      EveryRunIsSafe(states, events, j - 1);
      StepKeepsCount(states[j - 1], events[j - 1]);
      StepKeepsSound(states[j - 1], events[j - 1]);
      StepKeepsGranted(states[j - 1], events[j - 1]);
      StepKeepsNumbered(states[j - 1], events[j - 1]);
      StepKeepsBooked(states[j - 1], events[j - 1]);
    }
  }

  lemma StepKeepsCount(s: State, e: Event)
    requires Enabled(s, e)
    ensures |After(s, e).calls| == |s.calls|
  {
  }

  // ---- Leases ----

  lemma {:induction false} OnlyOneHolder(calls: seq<Call>, i: nat, lease: string)
    requires i < |calls| && calls[i].lease == Some(lease)
    requires forall j :: 0 <= j < |calls| && j != i ==> calls[j].lease != Some(lease)
    ensures Releases(calls, lease) == calls[i].releases
  {
    var n := |calls| - 1;
    if i == n { NothingReleased(calls[..n], lease); } else { OnlyOneHolder(calls[..n], i, lease); }
  }

  // A stateless lease is unreleased while its call runs and released once when it has
  // replied, however it got there.
  lemma {:induction false} StatelessLeaseIsReleasedOnce(states: seq<State>, events: seq<Event>, j: nat, i: nat)
    requires IsRun(states, events) && j < |states| && i < |states[j].calls|
    requires states[j].calls[i].request.session == "" && states[j].calls[i].lease.Some?
    ensures states[j].released[states[j].calls[i].lease.value] == if states[j].calls[i].pc.Done? then 1 else 0
  {
    EveryRunIsSafe(states, events, j);
    var s := states[j];
    OnlyOneHolder(s.calls, i, s.calls[i].lease.value);
    assert Sound(s.calls[i]);
  }

  // The calls on the lease whose bridge failed and whose release of it has returned.
  function FailedOn(calls: seq<Call>, lease: string): nat {
    if calls == [] then 0
    else
      var last := calls[|calls| - 1];
      FailedOn(calls[..|calls| - 1], lease)
      + if last.lease == Some(lease) && LetGo(last) then 1 else 0
  }

  lemma {:induction false} ReleasesAreFailures(calls: seq<Call>, lease: string)
    requires forall k :: 0 <= k < |calls| ==> Consistent(calls[k])
    requires forall k :: 0 <= k < |calls| && calls[k].lease == Some(lease) ==> calls[k].request.session != ""
    ensures Releases(calls, lease) == FailedOn(calls, lease)
  {
    if calls != [] {
      assert Consistent(calls[|calls| - 1]);
      ReleasesAreFailures(calls[..|calls| - 1], lease);
    }
  }

  // At every moment a session lease has been released exactly once for each of its calls whose bridge
  // failed and whose release has returned, and for no other reason.
  lemma {:induction false} SessionLeaseIsReleasedPerFailure(
      states: seq<State>, events: seq<Event>, j: nat, lease: string)
    requires IsRun(states, events) && j < |states|
    requires lease in states[j].leased && states[j].leased[lease] != ""
    ensures states[j].released[lease] == FailedOn(states[j].calls, lease)
  {
    EveryRunIsSafe(states, events, j);
    forall k | 0 <= k < |states[j].calls| ensures Consistent(states[j].calls[k]) {
      assert Sound(states[j].calls[k]);
    }
    ReleasesAreFailures(states[j].calls, lease);
  }

  // A session call that has replied with its bridge failed has released its lease, unless it gave 500: the
  // release threw, and the lease may still be bound to the instance that failed.
  lemma {:induction false} FailedSessionLetsGo(states: seq<State>, events: seq<Event>, j: nat, i: nat)
    requires IsRun(states, events) && j < |states| && i < |states[j].calls|
    requires states[j].calls[i].request.session != "" && states[j].calls[i].bridgeFailed
    requires states[j].calls[i].pc.Done?
    ensures var call := states[j].calls[i];
      && call.pc.reply.Reply? && (call.pc.reply.status == 500 <==> Threw(events, j, i))
      && (call.releases == 0 <==> call.pc.reply.status == 500) && (call.releases == 1 <==> call.pc.reply.status == 200)
  {
    EveryRunIsSafe(states, events, j);
    ThrewIsRecorded(states, events, j, i);
    hide Threw, IsRun, Granted, Numbered, Booked;
    assert Sound(states[j].calls[i]);
    BridgedCalls(states[j].calls[i]);
  }

  lemma BridgedCalls(call: Call)
    requires Sound(call) && call.bridgeFailed && call.pc.Done?
    ensures Calls(call.request.body)
  {
  }

  // ---- Bridge ids ----

  // The id on the wire: the counter starts at 1 and is 64 bits wide.
  function WireId(number: nat): nat {
    (1 + number) % TWO_POW_64
  }

  // A request on the bridge: a forwarded call, or one of the collector's.
  datatype Sender = Forwarder(i: nat) | Collector(k: nat)

  predicate Sent(s: State, r: Sender) {
    match r
    case Forwarder(i) => i < |s.calls| && s.calls[i].bridge.Some?
    case Collector(k) => k < |s.fetched|
  }

  function BridgeId(s: State, r: Sender): nat
    requires Sent(s, r)
  {
    match r
    case Forwarder(i) => s.calls[i].bridge.value
    case Collector(k) => s.fetched[k]
  }

  // Two requests ever sent to the bridge, by calls or by the collector, share a wire id exactly when a
  // whole turn of the counter lies between them.
  lemma {:induction false} BridgeIdsAreDistinct(states: seq<State>, events: seq<Event>, j: nat, p: Sender, q: Sender)
    requires IsRun(states, events) && j < |states| && p != q && Sent(states[j], p) && Sent(states[j], q)
    ensures var m, n := BridgeId(states[j], p), BridgeId(states[j], q);
            && m != n
            && (WireId(m) == WireId(n) <==> (m - n) % TWO_POW_64 == 0)
            && (states[j].counter <= TWO_POW_64 ==> WireId(m) != WireId(n))
  {
    var s := states[j];
    EveryRunIsSafe(states, events, j);
    hide Sound, Granted, Numbered, Booked, IsRun, WireId;
    IdsDiffer(s, p, q);
    WireIdsTurn(BridgeId(s, p), BridgeId(s, q));
  }

  lemma WireIdsTurn(m: nat, n: nat)
    ensures WireId(m) == WireId(n) <==> (m - n) % TWO_POW_64 == 0
    ensures m != n && m < TWO_POW_64 && n < TWO_POW_64 ==> WireId(m) != WireId(n)
  {
  }

  lemma {:induction false} IdsDiffer(s: State, p: Sender, q: Sender)
    requires Numbered(s) && p != q && Sent(s, p) && Sent(s, q)
    ensures BridgeId(s, p) != BridgeId(s, q) && BridgeId(s, p) < s.counter && BridgeId(s, q) < s.counter
  {
    match p
    case Forwarder(i) =>
      match q {
        case Forwarder(k) => assert s.calls[i].bridge != s.calls[k].bridge;
        case Collector(k) => assert s.calls[i].bridge != Some(s.fetched[k]);
      }
    case Collector(i) =>
      match q {
        case Forwarder(k) => assert s.calls[k].bridge != Some(s.fetched[i]);
        case Collector(k) => assert s.fetched[i] != s.fetched[k];
      }
  }

  // ---- Replies ----

  // Some call into the environment threw while the request was handled.
  ghost predicate Threw(events: seq<Event>, j: nat, i: nat) {
    exists m :: 0 <= m < j && m < |events| && Throws(events[m]) && events[m].i == i
  }

  lemma {:induction false} ThrewIsRecorded(states: seq<State>, events: seq<Event>, j: nat, i: nat)
    requires IsRun(states, events) && j < |states| && i < |states[j].calls|
    ensures states[j].calls[i].threw <==> Threw(events, j, i)
  {
    if 0 < j {
      var s, e := states[j - 1], events[j - 1];
      EveryRunIsSafe(states, events, j - 1);
      StepKeepsCount(s, e);
      ThrewIsRecorded(states, events, j - 1, i);
      hide Granted, Numbered, Booked, Replied, Underway, CallAfter, CallEnabled;
      if !e.CollectorTakesId? {
        assert Sound(s.calls[e.i]);
        CallChanges(s.calls[e.i], e, s.counter);
      }
      assert Threw(events, j, i) <==> Threw(events, j - 1, i) || (Throws(e) && e.i == i);
    }
  }

  // Which requests are answered with their own id.  Nothing at all answers a notification that no branch
  // knows.  Otherwise the reply carries the request's id exactly when there is none to carry, or the method
  // is a text or absent and nothing threw; a throw, or a method of another type, gives 500 with a null id.
  lemma {:induction false} RepliesCarryTheirId(states: seq<State>, events: seq<Event>, j: nat, i: nat)
    requires IsRun(states, events) && j < |states| && i < |states[j].calls| && states[j].calls[i].pc.Done?
    ensures var b, reply, threw := states[j].calls[i].request.body, states[j].calls[i].pc.reply, Threw(events, j, i);
            && (reply == NoContent <==> IsSilent(b) && !threw)
            && (reply.Reply? ==> (reply.id == RequestId(b) <==> RequestId(b) == Null || (!HasBadMethod(b) && !threw)))
            && (reply.Reply? ==> (reply.status == 500 <==> HasBadMethod(b) || threw))
            && (reply.Reply? && reply.payload == Forwarded ==>
                  states[j].calls[i].lease.Some? && !states[j].calls[i].bridgeFailed)
  {
    EveryRunIsSafe(states, events, j);
    ThrewIsRecorded(states, events, j, i);
    hide Threw, Inv, IsRun;
    assert Sound(states[j].calls[i]);
  }

  // ---- Outcomes ----

  // The event is one of the call's, before state j.
  ghost predicate Happened(events: seq<Event>, j: nat, e: Event) {
    exists m :: 0 <= m < j && m < |events| && events[m] == e
  }

  // What a call that did not throw answers with -32603.
  ghost predicate Failed(events: seq<Event>, j: nat, i: nat) {
    || Happened(events, j, AcquireRefused(i)) || Happened(events, j, BridgeFails(i))
    || Happened(events, j, BridgeReplies(i, false)) || Happened(events, j, Reject(i, -32603))
  }

  predicate Ends(e: Event, i: nat, payload: Payload) {
    match payload
    case Forwarded => e == BridgeReplies(i, true)
    case RpcError(code) =>
      e == Reject(i, code)
      || (code == -32603 && (e == AcquireRefused(i) || e == BridgeFails(i) || e == BridgeReplies(i, false)))
    case Result => false
  }

  // The event decides with what payload the call replies.
  predicate IsEnding(e: Event, i: nat) {
    e == BridgeReplies(i, true) || e == BridgeReplies(i, false) || e == AcquireRefused(i) || e == BridgeFails(i)
    || (e.Reject? && e.i == i)
  }

  // The one event of a call that ends it, when nothing threw.
  ghost predicate EndedBy(events: seq<Event>, j: nat, i: nat, payload: Payload) {
    && (exists m :: 0 <= m < j && m < |events| && Ends(events[m], i, payload))
    && (forall m :: 0 <= m < j && m < |events| && IsEnding(events[m], i) ==> Ends(events[m], i, payload))
  }

  ghost predicate Unended(events: seq<Event>, j: nat, i: nat) {
    forall m :: 0 <= m < j && m < |events| ==> !IsEnding(events[m], i)
  }

  // How far the call's events have decided its payload.
  ghost predicate Tracked(call: Call, events: seq<Event>, j: nat, i: nat) {
    match call.pc
    case Begin => Unended(events, j, i)
    case Prepared => Unended(events, j, i)
    case Leased => Unended(events, j, i)
    case ReleasingSession => EndedBy(events, j, i, RpcError(-32603))
    case Leaving(reply) => Settled(call, reply, events, j, i)
    case Done(reply) => Settled(call, reply, events, j, i)
  }

  ghost predicate Settled(call: Call, reply: Reply, events: seq<Event>, j: nat, i: nat) {
    if call.threw then Unended(events, j, i) || EndedBy(events, j, i, RpcError(-32603))
    else if Calls(call.request.body) then reply.Reply? && EndedBy(events, j, i, reply.payload)
    else Unended(events, j, i)
  }

  lemma {:induction false} CallStaysTracked(call: Call, events: seq<Event>, j: nat, i: nat, counter: nat)
    requires j < |events| && !events[j].CollectorTakesId? && events[j].i == i && CallEnabled(call, events[j])
    requires Consistent(call) && Underway(call) && Tracked(call, events, j, i)
    ensures Tracked(CallAfter(call, events[j], counter), events, j + 1, i)
  {
    var e := events[j];
    assert Unended(events, j, i) && !IsEnding(e, i) ==> Unended(events, j + 1, i);
    forall payload | Unended(events, j, i) && Ends(e, i, payload) ensures EndedBy(events, j + 1, i, payload) {
    }
    forall payload | EndedBy(events, j, i, payload) && !IsEnding(e, i) ensures EndedBy(events, j + 1, i, payload) {
    }
    hide EndedBy, Unended, RequestId;
  }

  lemma {:induction false} OthersLeaveTracked(call: Call, events: seq<Event>, j: nat, i: nat)
    requires j < |events| && !IsEnding(events[j], i) && Tracked(call, events, j, i)
    ensures Tracked(call, events, j + 1, i)
  {
    assert Unended(events, j, i) ==> Unended(events, j + 1, i);
    forall payload | EndedBy(events, j, i, payload) ensures EndedBy(events, j + 1, i, payload) {
    }
    hide EndedBy, Unended;
  }

  lemma {:induction false} EveryCallIsTracked(states: seq<State>, events: seq<Event>, j: nat, i: nat)
    requires IsRun(states, events) && j < |states| && i < |states[j].calls|
    ensures Tracked(states[j].calls[i], events, j, i)
  {
    if 0 < j {
      var s, e := states[j - 1], events[j - 1];
      EveryRunIsSafe(states, events, j - 1);
      StepKeepsCount(s, e);
      EveryCallIsTracked(states, events, j - 1, i);
      assert Sound(s.calls[i]);
      hide Granted, Numbered, Booked, Tracked, CallAfter, CallEnabled;
      if !e.CollectorTakesId? && e.i == i {
        CallStaysTracked(s.calls[i], events, j - 1, i, s.counter);
      } else {
        OthersLeaveTracked(s.calls[i], events, j - 1, i);
      }
    }
  }

  // A call replies with the instance's answer exactly when its bridge gave a well-formed one.  When nothing
  // threw it replies with -32603 exactly when it was rejected so, got no lease, or its bridge failed or gave a
  // malformed answer, and with another code exactly when it was rejected with that.
  lemma {:induction false} OutcomesAreReported(states: seq<State>, events: seq<Event>, j: nat, i: nat)
    requires IsRun(states, events) && j < |states| && i < |states[j].calls| && states[j].calls[i].pc.Done?
    requires Calls(states[j].calls[i].request.body)
    ensures var reply := states[j].calls[i].pc.reply;
      && reply.Reply?
      && (reply.payload == Forwarded <==> Happened(events, j, BridgeReplies(i, true)))
      && (!Threw(events, j, i) ==>
            && (reply.payload == RpcError(-32603) <==> Failed(events, j, i))
            && (forall code :: code != -32603 ==>
                  (reply.payload == RpcError(code) <==> Happened(events, j, Reject(i, code)))))
  {
    EveryRunIsSafe(states, events, j);
    ThrewIsRecorded(states, events, j, i);
    EveryCallIsTracked(states, events, j, i);
    var call := states[j].calls[i];
    assert Sound(call);
    hide IsRun, Inv, Threw;
    OutcomeOf(call, events, j, i);
  }

  lemma {:induction false} EndingIsUnique(events: seq<Event>, j: nat, i: nat, payload: Payload)
    requires EndedBy(events, j, i, payload)
    ensures payload == Forwarded <==> Happened(events, j, BridgeReplies(i, true))
    ensures payload == RpcError(-32603) <==> Failed(events, j, i)
    ensures forall code :: code != -32603 ==> (payload == RpcError(code) <==> Happened(events, j, Reject(i, code)))
  {
    var m :| 0 <= m < j && m < |events| && Ends(events[m], i, payload);
    assert Happened(events, j, events[m]);
    forall e | Happened(events, j, e) && IsEnding(e, i) ensures Ends(e, i, payload) {
    }
  }

  lemma {:induction false} NothingEnded(events: seq<Event>, j: nat, i: nat)
    requires Unended(events, j, i)
    ensures forall e :: IsEnding(e, i) ==> !Happened(events, j, e)
  {
  }

  lemma {:induction false} OutcomeOf(call: Call, events: seq<Event>, j: nat, i: nat)
    requires Sound(call) && call.pc.Done? && Calls(call.request.body) && Tracked(call, events, j, i)
    ensures var reply := call.pc.reply;
      && reply.Reply?
      && (reply.payload == Forwarded <==> Happened(events, j, BridgeReplies(i, true)))
      && (!call.threw ==>
            && (reply.payload == RpcError(-32603) <==> Failed(events, j, i))
            && (forall code :: code != -32603 ==>
                  (reply.payload == RpcError(code) <==> Happened(events, j, Reject(i, code)))))
  {
    hide EndedBy, Unended, Happened, Failed;
    var payload := call.pc.reply.payload;
    if !call.threw {
      EndingIsUnique(events, j, i, payload);
    } else if Unended(events, j, i) {
      NothingEnded(events, j, i);
    } else {
      EndingIsUnique(events, j, i, RpcError(-32603));
    }
  }

  // What every other request is answered with, when nothing threw.
  lemma {:induction false} OthersAreAnswered(states: seq<State>, events: seq<Event>, j: nat, i: nat)
    requires IsRun(states, events) && j < |states| && i < |states[j].calls| && states[j].calls[i].pc.Done?
    requires !Calls(states[j].calls[i].request.body) && !Threw(events, j, i)
    ensures var b, reply := states[j].calls[i].request.body, states[j].calls[i].pc.reply;
      && (reply == NoContent <==> IsSilent(b))
      && (reply.Reply? ==>
            && (reply.payload == Result <==> b.Envelope? && b.operation in {Initialize, Ping, ToolsList})
            && (reply.payload == RpcError(-32700) <==> b == Unparsable)
            && (reply.payload == RpcError(-32600) <==>
                  b == Batch || b == NotAnObject || (b.Envelope? && b.operation == Missing && b.id.Some?))
            && (reply.payload == RpcError(-32601) <==> b.Envelope? && b.operation == Other && b.id.Some?)
            && (reply.payload == RpcError(-32603) <==> HasBadMethod(b)))
  {
    EveryRunIsSafe(states, events, j);
    ThrewIsRecorded(states, events, j, i);
    assert Sound(states[j].calls[i]);
    hide IsRun, Inv, Threw;
  }

  // {"id":1,"method":7} is answered with a null id, though nothing in the environment threw.
  lemma {:induction false} BadMethodLosesTheId() returns (states: seq<State>, events: seq<Event>)
    ensures IsRun(states, events) && |states| == 2 && |states[1].calls| == 1
    ensures states[1].calls[0].request.body == Envelope(Some(Value("1")), NotAString)
    ensures states[1].calls[0].pc == Done(Reply(500, Null, RpcError(-32603))) && !Threw(events, 1, 0)
  {
    var call := Call(Request(Envelope(Some(Value("1")), NotAString), ""), Begin, None, None, 0, false, false);
    var s := State([call], 0, [], map[], multiset{});
    events := [Answer(0)];
    states := [s, After(s, Answer(0))];
  }
}
