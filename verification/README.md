# Verification of the Master Control Orchestration Server core

A Dafny model of the logic of the orchestration server, with proofs of what it promises. Run
`dafny verify dfyconfig.toml` in this directory.

* `GatewayLifecycle`, `GatewaySafety`, `GatewayProgress`, `GatewayQueue`: the native MCP gateway as a transition system.
  Any number of Start, Stop and status callers, the receive thread and four workers take one atomic step per
  critical section; the environment (HTTP.sys, clients, RPCs) chooses what each step meets.
* `CatalogCache`: the single-flight tool catalog cache with its 30 second lifetime and invalidation.
* `ToolCalls`: leases, bridge ids and replies of concurrent JSON-RPC requests.
* `ToolNames`: capabilities, the tool-name resolver, and the agreement of `tools/list` with `tools/call`.
* `Diagnostics`, `DiagnosticsService`: the bounded ring and the table behind it; the second holds the classes,
  whose methods are proved against the functions of the first.
* `SupervisorRecords`, `Supervisor`, `SupervisorSafety`: the persisted supervisor assignment, its operations as
  a class, and safety over whole runs with restarts and failing writes.
* `ApprovalQueue`: the governance approval queue, its executor and its audit trail.
* `LogRotation`, `Timestamps`: log rotation where every filesystem call may fail; UTC texts and the Gregorian
  calendar.
* `ArgumentQuoting`, `HeaderParse`, `HeaderText`, `JsonMerge`, `Routes`, `QueryParams`: the text and tree
  algorithms.
* `Text`, `Basics`: character classes, substring search, splitting, digits.

Operations that change state are class methods or methods with the source's loops, each proved equal to a
function of the old state and the inputs; the lemmas about runs then speak of those functions. What a clock,
the random generator, the file system, the database, a client or a bridge does is a parameter of each step.

## Where the code and its comments differ

The model follows the code.

* The comment on log rotation says that the prior `.1` stays intact if any step fails
  (include/MasterControl/MasterControlDiagnostics.h:319-324). It is removed before the second rename, so it is
  lost when that rename fails: `LogRotation.PriorHistoryIsLost`.
* `trim` on a text of blanks followed only by carriage returns subtracts from `npos`; the wrapped count keeps
  the rest of the text (include/MasterControl/HttpHeaderParse.h:49-56). `HeaderParse.Trim` does the same.
* An exception that escapes request handling, which a "method" that is no text causes too, is answered with
  status 500 and a null id, so not every reply to a request with an id carries it:
  `ToolCalls.RepliesCarryTheirId`, `ToolCalls.BadMethodLosesTheId`.
* The record's comments keep lastErrorMessage for the state Error
  (include/MasterControl/SupervisorAssignment.h:101). A claim refused for another reason than its age, the
  watchdog and the rotation of a token set it in other states: `SupervisorSafety.PromiseIsKeptUnlessBroken`,
  `SupervisorSafety.RefusalLeavesItsMessage`.
* They also keep lastHeartbeatUtc empty until the first heartbeat
  (include/MasterControl/SupervisorAssignment.h:96). An accepted claim sets it:
  `SupervisorSafety.EmptyUntilBeatenUnlessAccepted`, `SupervisorSafety.AcceptedClaimSetsTheHeartbeat`.
* Selecting a supervisor is called atomic, revoking any prior assignment first and persisting the new one
  (src/MasterControlApp/SupervisorAssignmentService.h:62-64). It writes twice and reports no failure. After a
  restart the new configuration is there exactly when the second write was made, and the superseded one exactly
  when both were lost; otherwise neither is: `SupervisorSafety.SelectIsAtomicUnlessHalfWritten`,
  `SupervisorSafety.SelectMayLeaveNothing`. Which lost writes bring a configuration back, and when, in any run:
  `SupervisorSafety.RevivalIsLostWrites`.
* The diagnostics ring answers queries while the store is not available
  (src/MasterControlApp/DiagnosticsService.cpp:72-83), but the mutex is released after that was found, so the
  answer can hold stored records: `Diagnostics.FallbackMayAnswerStored`, `Diagnostics.FallbackIsStoredInBetween`.

## Model

| member | source | states |
|---|---|---|
| GatewaySafety.EveryStepKeepsInv | src/MasterControlApp/McpGatewayAdapters.cpp:371-712 | every critical section of a Start, Stop or status caller, the receive thread or a worker keeps the joint invariant: lock ownership, the phase of the Start..Stop cycle, no lost wakeup, the census of requests, the queue bound, session numbers |
| GatewaySafety.EveryRunIsSafe | src/MasterControlApp/McpGatewayAdapters.cpp:1584-2012 | the joint invariant holds in every state of every interleaving from the constructed adapter |
| GatewaySafety.StopLeavesNothing | src/MasterControlApp/McpGatewayAdapters.cpp:681-712 | the last section of Stop leaves no thread, no queued job, a closed handle, a lowered shutdown flag and both its locks free |
| GatewaySafety.WorkerKeepsWakeups | src/MasterControlApp/McpGatewayAdapters.cpp:1901-1920 | no step of a worker loses a wakeup: unless Stop has raised the flag, while any worker sleeps there are at most as many queued jobs as workers on their way to the queue plus the notification still to be given |
| GatewaySafety.ReceiverKeepsWakeups | src/MasterControlApp/McpGatewayAdapters.cpp:1846-1866 | queuing a job and then notifying one worker keeps the same count, whoever wakes |
| GatewayProgress.QueuedJobsAreSeen | src/MasterControlApp/McpGatewayAdapters.cpp:1846-1920 | in a running session a job never waits beside sleeping workers unless a notification is still to come or some worker is on its way to the queue |
| GatewayProgress.ShutdownIsSeen | src/MasterControlApp/McpGatewayAdapters.cpp:681-685 | a worker is asleep under a raised shutdown flag only while the Stop that raised it is about to notify all |
| GatewaySafety.WorkerKeepsCensus | src/MasterControlApp/McpGatewayAdapters.cpp:1901-2012 | every step of a worker, taking a job from the queue and draining its body included, moves a request between places and never loses or doubles one |
| GatewayProgress.EachRequestIsInOnePlace | src/MasterControlApp/McpGatewayAdapters.cpp:1844-1920 | each received request is in exactly one of queued, with the receiver, with a worker, answered, dropped; answered at most once; and one still in progress arrived in the current session |
| GatewayProgress.ThreadsLiveInsideTheirSession | src/MasterControlApp/McpGatewayAdapters.cpp:565-702 | no thread that uses the queue handle outlives it, threads are created only where none is left to join, and no thread joins while it holds mutex_ or jobQueueMutex_ |
| GatewayProgress.WaitingDescends | include/MasterControl/McpGatewayAdapters.h:158-163 | a thread waits only for one on a lower level of the documented lock order, joins between lifecycleMutex_ and the other two, so no circle of threads waits |
| GatewayProgress.NoDeadlock | src/MasterControlApp/McpGatewayAdapters.cpp:371-395 | whenever some thread is in the middle of something, some such thread can take a step |
| GatewayProgress.JoinStep | src/MasterControlApp/McpGatewayAdapters.cpp:681-699 | while Stop joins, each step of the receiver or a worker lowers a measure and no other step raises it |
| GatewayProgress.JoinPhaseIsBounded | src/MasterControlApp/McpGatewayAdapters.cpp:681-699 | the join phase of Stop takes at most 99 steps of the joined threads, whatever other callers do |
| GatewayQueue.OnlyAFullQueueRefuses | src/MasterControlApp/McpGatewayAdapters.cpp:1846-1875 | in every run a POST to the MCP endpoint is answered by the receive thread only if at its turn the shutdown flag was up or 64 requests were queued |
| GatewayQueue.OthersAreQueued | src/MasterControlApp/McpGatewayAdapters.cpp:1846-1920 | any other that is past its turn was queued, and is queued still, with one worker, answered by a worker or dropped |
| GatewayQueue.TakenInOrder | src/MasterControlApp/McpGatewayAdapters.cpp:1901-1920 | whichever workers do it, requests are taken in the order in which they arrived |
| GatewayQueue.TakenIsFirst | src/MasterControlApp/McpGatewayAdapters.cpp:1914-1915 | a worker takes the first of the queue, which is older than every request it leaves there |
| GatewayQueue.WorkersGetPosts | src/MasterControlApp/McpGatewayAdapters.cpp:1770-1870 | only what came as a POST to the MCP endpoint is ever queued or given to a worker |
| GatewayQueue.OthersStayWithTheReceiver | src/MasterControlApp/McpGatewayAdapters.cpp:1770-1845 | health probes and requests answered inline never reach the queue or a worker |
| GatewayQueue.HealthReadsTheStatus | src/MasterControlApp/McpGatewayAdapters.cpp:738-766 | a health probe is answered only after the status was read under mutex_ |
| GatewayQueue.BeginsWithItsBody | src/MasterControlApp/McpGatewayAdapters.cpp:1922-1982 | a request is handed to its handler exactly when it is taken with its body complete or its body has then been read whole |
| GatewayQueue.HandledAtMostOnce | src/MasterControlApp/McpGatewayAdapters.cpp:1922-2012 | no request is handed to the handler twice, and none whose body was too large or whose client was gone |
| GatewayQueue.AnsweredWasHandled | src/MasterControlApp/McpGatewayAdapters.cpp:1922-2012 | what a worker answers it has handed to the handler before, unless the body was too large |
| GatewayQueue.StatusIsTrue | src/MasterControlApp/McpGatewayAdapters.cpp:735-738 | whoever reads the status during any run reads Running exactly of an open session with its receive thread and four workers, Stopping exactly while a Stop tears one down, and else nothing is left open |
| GatewayQueue.OpenedStartsRun | src/MasterControlApp/McpGatewayAdapters.cpp:371-633 | a Start for which HTTP.sys opens goes on until it has published, and leaves a running session |
| GatewayQueue.OtherStartsLeaveNothing | src/MasterControlApp/McpGatewayAdapters.cpp:371-560 | a Start that does not open leaves a running session as it was, and else no session and a status that says Failed or Disabled |
| CatalogCache.EveryRunIsSafe | src/MasterControlApp/McpGatewayAdapters.cpp:866-917 | in every run the in-flight flag is set exactly while one thread collects, exceptions included |
| CatalogCache.HitsAreYoung | src/MasterControlApp/McpGatewayAdapters.cpp:874-886 | a TTL hit was published less than 30 seconds ago, and predates the last invalidation exactly when its refresh was running when that came |
| CatalogCache.PublishedIsServed | src/MasterControlApp/McpGatewayAdapters.cpp:874-917 | for 30 seconds after a publication, until an invalidation, every caller gets the catalog published and none refreshes |
| CatalogCache.OldIsRefreshed | src/MasterControlApp/McpGatewayAdapters.cpp:874-900 | a caller that finds the catalog 30 seconds old, never published or invalidated and not published since refreshes it if nobody does |
| CatalogCache.FreshIsOwnCollection | src/MasterControlApp/McpGatewayAdapters.cpp:897-917 | a caller that refreshed gets what it collected itself |
| CatalogCache.UnattachedEmpties | src/MasterControlApp/McpGatewayAdapters.cpp:879-888 | without a bridge the caller that would refresh empties the cache instead, and the next callers get the empty catalog |
| CatalogCache.OnlyTheUnattachedAreTold | src/MasterControlApp/McpGatewayAdapters.cpp:879-888 | with a bridge attached no caller is given the answer of the unattached |
| CatalogCache.QuietInvalidationIsHonoured | src/MasterControlApp/McpGatewayAdapters.cpp:1015-1024 | after an invalidation that found no refresh running, both the caller that refreshes and every later hit see a catalog whose collection began after it |
| CatalogCache.StaleMeansRefreshing | src/MasterControlApp/McpGatewayAdapters.cpp:866-895 | the stale answer is given only when the cache has run out and another thread is refreshing it |
| CatalogCache.StaleAgainstInvalidation | src/MasterControlApp/McpGatewayAdapters.cpp:866-895 | a stale answer is the initial empty catalog while nothing was published; any other predates the last invalidation exactly when nothing was published since it or the published refresh raced it, and else is at least 30 seconds old |
| CatalogCache.RacingInvalidationIsLost | src/MasterControlApp/McpGatewayAdapters.cpp:905-917 | an invalidation during a refresh does not keep that refresh's older catalog from being published and served |
| ToolCalls.EveryRunIsSafe | src/MasterControlApp/McpGatewayAdapters.cpp:1122-1518 | leases, releases, bridge ids and replies stay consistent over every interleaving of requests and catalog collections |
| ToolCalls.StatelessLeaseIsReleasedOnce | src/MasterControlApp/McpGatewayAdapters.cpp:1450-1500 | a stateless lease is unreleased while its call runs and released exactly once when the call has replied, on success, bridge failure, malformed reply or exception |
| ToolCalls.SessionLeaseIsReleasedPerFailure | src/MasterControlApp/McpGatewayAdapters.cpp:1450-1500 | in every state of every run, with any calls under way, a session lease has been released by the gateway exactly once for each of its calls whose bridge failed and whose release has returned |
| ToolCalls.FailedSessionLetsGo | src/MasterControlApp/McpGatewayAdapters.cpp:1478-1496 | a session call that has replied after its bridge failed has released its lease once, unless something threw: then its reply is a 500 and it has released nothing |
| ToolCalls.BridgeIdsAreDistinct | src/MasterControlApp/McpGatewayAdapters.cpp:940-962 | two requests on the bridge, forwarded calls or tool lists of the collector, share a wire id exactly when a whole turn of the 64-bit counter lies between them |
| ToolCalls.RepliesCarryTheirId | src/MasterControlApp/McpGatewayAdapters.cpp:1122-1518 | for every body: only a notification that no branch knows gets no reply; any other reply carries the request's id exactly when there is none to read (unparsable, batch, no object, no id) or the method is absent or a text and nothing threw while it was handled; and it is a 500 exactly when something threw or the method is of another type |
| ToolCalls.OutcomesAreReported | src/MasterControlApp/McpGatewayAdapters.cpp:1369-1507 | a tools/call replies with the instance's answer exactly when the bridge gave a well-formed one; when nothing threw, with -32603 exactly when it was rejected so, got no lease, or the bridge failed or gave a malformed answer, and with any other code exactly when it was rejected with that |
| ToolCalls.OthersAreAnswered | src/MasterControlApp/McpGatewayAdapters.cpp:1122-1518 | when nothing threw, every other body gets a result exactly for initialize, ping and tools/list, -32700 exactly if it does not parse, -32600 exactly for a batch, a non-object or an id without a method, -32601 exactly for an id with an unknown method |
| ToolCalls.BadMethodLosesTheId | src/MasterControlApp/McpGatewayAdapters.cpp:1162-1170 | the request with id 1 and method 7 is answered with 500 and a null id although nothing in the environment threw |
| ToolNames.NormalizeIsIdempotent | include/MasterControl/CapabilityAuthorization.h:59-73 | normalising a capability twice is normalising it once |
| ToolNames.SpacesAroundAreTrimmed | include/MasterControl/CapabilityAuthorization.h:59-73 | a text with any spaces around it becomes that text in lower case, and spaces alone become nothing |
| ToolNames.AddingKeepsLists | include/MasterControl/CapabilityAuthorization.h:75-88 | adding keeps a capability list normal and without repeats, and adds exactly the normal form |
| ToolNames.AddAll | include/MasterControl/CapabilityAuthorization.h:81-88 | the loop of additions grants exactly the normal forms of the start and the list |
| ToolNames.CapabilitiesForClient | include/MasterControl/CapabilityAuthorization.h:133-145 | a client's capabilities are the normal forms of its own and its privileges', with reading added to writing |
| ToolNames.CollisionsAreClashes | include/MasterControl/McpToolNameResolver.h:57-61 | two pools have colliding qualified names for some tools exactly when one id with the separator is a prefix of the other's |
| ToolNames.PlainPoolsDoNotClash | include/MasterControl/McpToolNameResolver.h:57-61 | pool ids with no double underscore inside and no underscore at the end clash only with themselves |
| ToolNames.ResolveLoop | include/MasterControl/McpToolNameResolver.h:30-55 | the two loops find the first qualified match, else the only unqualified one, else report none or several |
| ToolNames.UnqualifiedCounts | include/MasterControl/McpToolNameResolver.h:40-55 | the loop's count is the number of descriptors with that local name |
| ToolNames.UnqualifiedResolution | include/MasterControl/McpToolNameResolver.h:40-55 | with no qualified match a name is found exactly when one descriptor has it, and is then that one; ambiguous exactly when several do |
| ToolNames.BareNamesAreForwarded | src/MasterControlApp/McpGatewayAdapters.cpp:1350-1430 | a bare name that one cached descriptor carries goes to its pool if the client holds what it asks, one that several carry is ambiguous; a name the cache lacks is looked up in the refreshed catalog in the same way, and one that both lack is unknown |
| ToolNames.QualifiedNameResolvesToItself | include/MasterControl/McpToolNameResolver.h:30-38 | on a catalog whose pools do not clash a qualified name resolves to a descriptor of its own pool, tool and capabilities |
| ToolNames.CallAgreesWithVisibility | src/MasterControlApp/McpGatewayAdapters.cpp:1350-1430 | a call by qualified name is forwarded to that pool and tool if the client holds the capabilities, and denied if not |
| ToolNames.ListedExactlyWhenForwarded | src/MasterControlApp/McpGatewayAdapters.cpp:1256-1311 | on a catalog whose pools do not clash, among its qualified names tools/list shows exactly those that tools/call forwards |
| ToolNames.AgreementIsFirstAsksLeast | src/MasterControlApp/McpGatewayAdapters.cpp:1256-1430 | for every catalog, tools/list and tools/call agree on its qualified names for every client exactly when, of the descriptors that share a name, the first asks nothing that a client of any other usable one can lack |
| ToolNames.ClashingCatalogDisagrees | include/MasterControl/McpToolNameResolver.h:57-61 | with the pools a and a__b a client is shown a name whose call it is denied |
| ToolNames.ForwardingIsAuthorized | src/MasterControlApp/McpGatewayAdapters.cpp:1369-1430 | on any two catalogs, nothing is forwarded without the capabilities of a descriptor of that pool and tool |
| Diagnostics.EveryOperationKeepsInv | src/MasterControlApp/DiagnosticsService.cpp:18-165 | each critical section, a report, a prune or a deletion, with any statement refused or throwing, keeps the ring numbered, bounded and in agreement with the table |
| Diagnostics.EveryRunIsConsistent | src/MasterControlApp/DiagnosticsService.cpp:18-165 | in every interleaving of the critical sections the ring's sequences strictly increase, it holds at most 1000 records, and its stored ordinary records are the newest of the table's ordinary rows |
| Diagnostics.NewIdsWereNeverUsed | src/MasterControlApp/DiagnosticsStore.cpp:151-193 | the id of the next row is above that of every row the table ever held in the run, whatever was deleted since |
| Diagnostics.ReportIsRecorded | src/MasterControlApp/DiagnosticsService.cpp:18-54 | a report that does not throw puts a record with its instant, source, severity, event, message, data, session and sequence last in the ring, and the same record last in the table with the next row id exactly if it was stored; one that throws leaves both alone |
| Diagnostics.ReportIsAnsweredFirst | src/MasterControlApp/DiagnosticsService.cpp:18-105 | the next query for that event, or for everything, answers with it first |
| Diagnostics.DeletionClearsTheRing | src/MasterControlApp/DiagnosticsService.cpp:127-155 | a deletion that works takes the same records from the ring as from the table, and one that fails none |
| Diagnostics.FiltersSelect | src/MasterControlApp/DiagnosticsStore.cpp:195-240 | a record passes exactly if each given filter fits: the severity named, the source, the event, and the instant or a later one |
| Diagnostics.AvailableStoreAnswers | src/MasterControlApp/DiagnosticsService.cpp:72-80 | an available store answers with its newest matching rows, or with nothing if its statement fails, whatever others do then |
| Diagnostics.RingAnswersLikeTheTable | src/MasterControlApp/DiagnosticsService.cpp:72-105 | for every filter the stored ordinary part of the ring's answer is a prefix of the table's newest-first answer, within the limit |
| Diagnostics.RingAnswersLikeTheStore | src/MasterControlApp/DiagnosticsStore.cpp:195-256 | in every run, for every filter and every limit, the stored ordinary part of the ring's answer is a prefix of the ordinary part of the store's own limited answer |
| Diagnostics.FallbackMeansNothingStored | src/MasterControlApp/DiagnosticsService.cpp:72-80 | in every run, while the database is not open the ring holds no stored record |
| Diagnostics.FallbackIsStoredInBetween | src/MasterControlApp/DiagnosticsService.cpp:72-105 | the ring answers a query after the mutex was released: a stored record in its answer was stored by a report between the two sections |
| Diagnostics.FallbackMayAnswerStored | src/MasterControlApp/DiagnosticsService.cpp:72-105 | one report in between that opens the database puts its row into the ring's answer |
| Diagnostics.QueriesAgreeWithTheStore | src/MasterControlApp/DiagnosticsService.cpp:72-105 | whichever section answers and whatever came between, the stored ordinary part of a query's answer is a prefix of the ordinary part of the store's own limited answer at that section |
| Diagnostics.PruneKeepsTheNewest | src/MasterControlApp/DiagnosticsStore.cpp:317-345 | a successful prune leaves exactly the newest self-test rows up to the bound and every other row in order; a failed one changes nothing |
| Diagnostics.AnswerIsTheNewest | src/MasterControlApp/DiagnosticsStore.cpp:195-256 | a query's answer holds matching rows only, by descending id and within the limit, and leaves a matching row out only when the limit is full of newer ones |
| Diagnostics.ClearLeavesTheLater | src/MasterControlApp/DiagnosticsStore.cpp:276-315 | a clear leaves exactly the rows of the instant or later, none without an instant, and gives no id back; a failed one leaves the rows alone |
| DiagnosticsService.DiagnosticsStore.Insert | src/MasterControlApp/DiagnosticsStore.cpp:151-193 | an insert appends the record under the next id and says which, or leaves the rows alone and says whether it threw |
| DiagnosticsService.Service.PushRing | src/MasterControlApp/DiagnosticsService.cpp:45-53 | the push and the eviction loop keep the newest 1000 records |
| DiagnosticsService.Service.Report | src/MasterControlApp/DiagnosticsService.cpp:18-54 | a report numbers, stores and remembers the record as specified, and says whether it was stored |
| DiagnosticsService.Service.RecordSelfTest | src/MasterControlApp/DiagnosticsService.cpp:56-70 | recording a self-test is the report section and then, unless the insert threw, the prune section |
| DiagnosticsService.Service.Clear | src/MasterControlApp/DiagnosticsService.cpp:122-165 | a clear is the deletion section on ring and table and then, if it succeeded, the section that reports it |
| DiagnosticsService.Service.QueryRing | src/MasterControlApp/DiagnosticsService.cpp:85-105 | the second section's backward loop with its early stop gives the newest matching records up to the limit |
| DiagnosticsService.Service.QueryStore | src/MasterControlApp/DiagnosticsService.cpp:72-79 | the first section answers exactly when the store is open, from its table or with nothing if its statement fails, whatever others do afterwards |
| SupervisorRecords.ProviderNamesRoundTrip | src/MasterControlApp/SupervisorAssignmentService.cpp:813-828 | every provider's name reads back as that provider |
| SupervisorRecords.ModeNamesRoundTrip | src/MasterControlApp/SupervisorAssignmentService.cpp:840-856 | every mode's name reads back as that mode |
| SupervisorRecords.StateNamesRoundTrip | src/MasterControlApp/SupervisorAssignmentService.cpp:858-876 | every state's name reads back as that state |
| SupervisorRecords.DecodeUndoesEncode | src/MasterControlApp/SupervisorAssignmentService.cpp:908-929 | the stored document decodes to exactly the assignment, all eighteen fields |
| SupervisorRecords.EmptyDocumentIsNoAssignment | src/MasterControlApp/SupervisorAssignmentService.cpp:908-950 | a document without any member reads as no assignment |
| SupervisorRecords.UnreadableIffIllTyped | src/MasterControlApp/SupervisorAssignmentService.cpp:736-775 | a document is unreadable exactly if a member has another type than the record's |
| SupervisorRecords.UnknownNames | src/MasterControlApp/SupervisorAssignmentService.cpp:813-876 | names are read without case, and exactly the unknown ones, with the default's own, as no provider, autonomous and Off |
| Supervisor.Refusal | src/MasterControlApp/SupervisorAssignmentService.cpp:406-428 | the capability loop accepts exactly the claims whose every capability is in the mode's list and none is forbidden |
| SupervisorSafety.FirstFaultIsTold | src/MasterControlApp/SupervisorAssignmentService.cpp:342-404 | a refused claim is told its first fault in the order assignment, provider, configuration, token, fingerprint, age |
| SupervisorSafety.FirstCapabilityIsTold | src/MasterControlApp/SupervisorAssignmentService.cpp:406-428 | the capability named in a refusal is the first that is forbidden or unlisted, and named as what it is |
| SupervisorSafety.MessagesTellRefusalsApart | src/MasterControlApp/SupervisorAssignmentService.cpp:352-404 | refusals for different reasons leave different messages |
| SupervisorSafety.ModesAllow | src/MasterControlApp/SupervisorAssignmentService.cpp:529-560 | the autonomous capabilities are allowed in all modes but the disabled and break-glass ones, less remedying in the decision mode, and less deciding too in the read-only mode |
| SupervisorSafety.RotationEndsTheToken | src/MasterControlApp/SupervisorAssignmentService.cpp:779-800 | a load that rotates a legacy token keeps the rest of the record, forgets the connection, and refuses claims with the former token |
| Supervisor.Service.Load | src/MasterControlApp/SupervisorAssignmentService.cpp:736-804 | loading decodes, clears a stale error at rest, rotates a legacy token and writes back only what it changed |
| SupervisorSafety.SelectReplacesEverything | src/MasterControlApp/SupervisorAssignmentService.cpp:230-282 | after a select of a known provider nothing of what was there before is left in memory, nor in the file unless the last write left it as it was |
| SupervisorSafety.SupersededClaimsAreRefused | src/MasterControlApp/SupervisorAssignmentService.cpp:230-317 | whoever still has the token from before a select or a regeneration is refused, whatever the writes did |
| SupervisorSafety.RevocationLasts | src/MasterControlApp/SupervisorAssignmentService.cpp:319-340 | after a revocation no run without a select of a known provider changes anything, and every claim finds no assignment; restarts included if it was written |
| Supervisor.Service.CheckCapabilities | src/MasterControlApp/SupervisorAssignmentService.cpp:406-428 | the loop stops at the first forbidden or unlisted capability |
| Supervisor.Service.ConfirmConnection | src/MasterControlApp/SupervisorAssignmentService.cpp:342-443 | the checks are made in order; the verdict, the new state and what is written are those of the first that fails |
| Supervisor.Service.RecordHeartbeat | src/MasterControlApp/SupervisorAssignmentService.cpp:445-451 | only the connected client's heartbeat is recorded; HeartbeatPutsOffTheWatchdog says what that achieves |
| Supervisor.Service.ExpireConnectionIfStale | src/MasterControlApp/SupervisorAssignmentService.cpp:466-489 | a connection is dropped exactly when its last heartbeat parses and is older than the threshold |
| SupervisorSafety.HeartbeatPutsOffTheWatchdog | src/MasterControlApp/SupervisorAssignmentService.cpp:445-489 | after a recorded heartbeat the watchdog fires exactly when more than its threshold has passed since that heartbeat |
| SupervisorSafety.TimesAreStamped | src/MasterControlApp/SupervisorAssignmentService.cpp:428-451 | the times of a connection are those of the last accepted claim and the last recorded heartbeat, and only issuing and revoking clear them |
| SupervisorSafety.EndingsAreStamped | src/MasterControlApp/SupervisorAssignmentService.cpp:240-340 | a revoked and a superseded record carry the time and the reason of their end |
| SupervisorSafety.OnlyFittingClaimsConnect | src/MasterControlApp/SupervisorAssignmentService.cpp:342-443 | outside a load, Connected is entered only by a confirm whose provider, configuration and token match, unexpired and within the mode's capabilities |
| SupervisorSafety.OnlySelectLeavesRest | src/MasterControlApp/SupervisorAssignmentService.cpp:230-340 | outside a load, Off and Revoked are left only by selecting a known provider, and nothing else changes anything there |
| SupervisorSafety.AcceptedDuringLifetime | src/MasterControlApp/SupervisorAssignmentService.cpp:384-392 | a claim that fits otherwise is accepted exactly while now is before issue plus lifetime |
| SupervisorSafety.IssuedIsRequested | src/MasterControlApp/SupervisorAssignmentService.cpp:253-272 | the issued record has the provider, exclusiveness and mode of the request, the disabled mode read as the autonomous one, all capabilities of that mode, and the identifiers and times drawn for it |
| SupervisorSafety.SelectionLasts | src/MasterControlApp/SupervisorAssignmentService.cpp:230-527 | until the next select of a known provider or restart the record keeps the provider, mode, exclusiveness, capabilities and identifiers of the last one |
| SupervisorSafety.IssuedConfigurationConnects | src/MasterControlApp/SupervisorAssignmentService.cpp:230-282 | whatever was there before, a claim built from the configuration just issued is accepted exactly during its lifetime and if the mode selected allows all it asks |
| SupervisorSafety.RegeneratedConfigurationConnects | src/MasterControlApp/SupervisorAssignmentService.cpp:284-317 | a claim built from a regenerated configuration, with the fingerprint left out, is accepted exactly during its own lifetime and if the assignment's mode allows all it asks |
| SupervisorSafety.EveryRunFits | include/MasterControl/SupervisorAssignment.h:85-104 | in every run, in memory and in the file, revocation time and reason are set exactly in Revoked; connection and heartbeat time are both set in Connected and Disconnected, both empty in Off, ConfigGenerated and PendingConnection, and both or neither set in Error and Revoked |
| SupervisorSafety.PromiseIsKeptUnlessBroken | include/MasterControl/SupervisorAssignment.h:101 | for every state and step, exactly when the error message is empty outside Error afterwards: the step is no claim refused outside Error for another reason than its age, no firing watchdog and no restart that rotates a token or reads such a message; and it was so before, or the step issues, regenerates, revokes, accepts, expires or loads |
| SupervisorSafety.PromiseHoldsUnlessBroken | include/MasterControl/SupervisorAssignment.h:101 | the message is empty outside Error throughout a run exactly when no step of it is one of those |
| SupervisorSafety.RefusalLeavesItsMessage | src/MasterControlApp/SupervisorAssignmentService.cpp:352-359 | a claim of another provider leaves its message in ConfigGenerated |
| SupervisorSafety.EmptyUntilBeatenUnlessAccepted | include/MasterControl/SupervisorAssignment.h:96 | the heartbeat time is empty until the first recorded heartbeat throughout a run exactly when it is empty after the first load and no claim is ever accepted |
| SupervisorSafety.AcceptedClaimSetsTheHeartbeat | src/MasterControlApp/SupervisorAssignmentService.cpp:430-437 | one accepted claim sets the heartbeat time without any heartbeat |
| SupervisorSafety.EveryConnectionWasConfirmed | src/MasterControlApp/SupervisorAssignmentService.cpp:342-443 | in every run a connection not read from disk belongs to a claim accepted since the load for the configuration, token and client that are live now |
| SupervisorSafety.RetirementLasts | src/MasterControlApp/SupervisorAssignmentService.cpp:730-804 | with fresh tokens, a superseded configuration becomes live again in a run exactly when the service restarts from a file that still holds it |
| SupervisorSafety.RetiredClaimsAreRefused | src/MasterControlApp/SupervisorAssignmentService.cpp:368-375 | while none is live again, a claim with a superseded token is refused |
| SupervisorSafety.RevivalIsLostWrites | src/MasterControlApp/SupervisorAssignmentService.cpp:736-804 | in a run with fresh tokens that revived nothing so far, a restart brings a superseded configuration back exactly when the file held it at the step that superseded it and no write took effect from that step on |
| SupervisorSafety.WritesReplaceTheFile | src/MasterControlApp/SupervisorAssignmentService.cpp:191-207 | a step whose writes take effect leaves in the file the record now in memory or one at rest; any other leaves the file alone |
| SupervisorSafety.LostWriteRevives | src/MasterControlApp/SupervisorAssignmentService.cpp:284-317 | a restart after a regeneration finds the former server, restored in full, if its one write was lost, the new configuration if it was written, and no assignment if the file is torn |
| SupervisorSafety.SelectThenRestart | src/MasterControlApp/SupervisorAssignmentService.cpp:230-282 | whatever was there before, what a restart finds after a select is decided by the last of its two writes that took effect: the new record, the superseded one at rest, nothing, or what a restart found before |
| SupervisorSafety.SelectIsAtomicUnlessHalfWritten | src/MasterControlApp/SupervisorAssignmentService.h:62-64 | after a select over a live assignment the file holds, a restart finds the new configuration exactly when the second write was made, the old one exactly when both were lost, and neither exactly when the second was torn or was lost after a first that took effect |
| SupervisorSafety.SelectMayLeaveNothing | src/MasterControlApp/SupervisorAssignmentService.cpp:243-274 | with the first write made and the second lost a restart finds the old assignment revoked and no new one |
| SupervisorSafety.LoadIsIdempotent | src/MasterControlApp/SupervisorAssignmentService.cpp:779-800 | after a load nothing is left to migrate, unless the random digits equal the configuration id |
| SupervisorSafety.DurableRunsSurviveRestarts | src/MasterControlApp/SupervisorAssignmentService.cpp:730-734 | while writes succeed the file decodes to the assignment in memory after every operation, a restart changes nothing, and superseded configurations stay refused |
| ApprovalQueue.Service.FindById | include/MasterControl/GovernanceApprovalQueue.h:171-178 | the loop finds the first action with the id |
| ApprovalQueue.Service.ListPending | include/MasterControl/GovernanceApprovalQueue.h:64-73 | the loop lists the pending actions in staging order, each as often as it was staged |
| ApprovalQueue.DecidingUnlists | include/MasterControl/GovernanceApprovalQueue.h:95-168 | approving or rejecting takes exactly the action decided off the list, and nothing if none is pending under the id |
| ApprovalQueue.ListedIffDecidable | include/MasterControl/GovernanceApprovalQueue.h:64-178 | up to 2^64 stagings, the ids listed as pending are exactly those that a decision finds pending |
| ApprovalQueue.StageIsListed | include/MasterControl/GovernanceApprovalQueue.h:80-93 | a staged action is listed last, pending and under the next id, and what was listed stays |
| ApprovalQueue.Service.Approve | include/MasterControl/GovernanceApprovalQueue.h:95-145 | approval claims a pending action before the executor sees it, and then records what the executor did |
| ApprovalQueue.Service.Reject | include/MasterControl/GovernanceApprovalQueue.h:147-168 | rejection decides a pending action and nothing else; DecidingUnlists, ActionsOnlyMoveForward and AuditIsTheTrail say what that achieves |
| ApprovalQueue.IdsRepeatPerTurn | include/MasterControl/GovernanceApprovalQueue.h:83-84 | two actions share an id exactly when a whole turn of the 64-bit counter lies between them |
| ApprovalQueue.IdsAreDistinctWithinATurn | include/MasterControl/GovernanceApprovalQueue.h:83-84 | ids are pairwise distinct exactly while no more than 2^64 actions were staged |
| ApprovalQueue.EveryRunExecutesOnce | include/MasterControl/GovernanceApprovalQueue.h:95-145 | in every run, however long, the executor saw each action at most once and only a claimed snapshot: never a pending or rejected one, exactly once one that ended |
| ApprovalQueue.ExecutedIsStaged | include/MasterControl/GovernanceApprovalQueue.h:80-145 | in every run what the executor is handed has the kind, actor, target, payload and time of the action as it was staged, on its record of approval |
| ApprovalQueue.DecisionsAreOnRecord | include/MasterControl/GovernanceApprovalQueue.h:95-168 | in every run each decided action was decided by one operation on its id, and records its actor, time, outcome and reason |
| ApprovalQueue.EveryRunIsAudited | include/MasterControl/GovernanceApprovalQueue.h:95-168 | up to 2^64 stagings each id's audit events are those of its action's status |
| ApprovalQueue.AuditedWithinATurn | include/MasterControl/GovernanceApprovalQueue.h:80-168 | every id's audit events are those of its action's status exactly while no more than 2^64 actions were staged |
| ApprovalQueue.AuditIsTheTrail | include/MasterControl/GovernanceApprovalQueue.h:95-168 | the audit events of an id are exactly the trail of its action's status |
| ApprovalQueue.AuditDeterminesStatus | include/MasterControl/GovernanceApprovalQueue.h:95-168 | equal audit events mean equal statuses, across any two runs |
| ApprovalQueue.ActionsOnlyMoveForward | include/MasterControl/GovernanceApprovalQueue.h:95-168 | a decided action never changes again, and a pending one only in its status and decision |
| LogRotation.LogFile.PerformRotation | include/MasterControl/MasterControlDiagnostics.h:309-349 | the renames and removals, each of which may fail, change the three files as specified |
| LogRotation.RotateKeepsSlices | include/MasterControl/MasterControlDiagnostics.h:309-349 | a rotation with any calls failing keeps the three files disjoint slices, in order, of what was written |
| LogRotation.LogFile.HasTooMany | include/MasterControl/MasterControlDiagnostics.h:290-302 | the counting loop says whether the file has more than 200000 lines |
| LogRotation.AgeIsOfTheFirstRecord | include/MasterControl/MasterControlDiagnostics.h:244-307 | a due check of a file whose first record the logger stamped rotates exactly when that record is more than fourteen days old or there are more than 200000 records |
| LogRotation.DueCheckBoundsAge | include/MasterControl/MasterControlDiagnostics.h:244-307 | while records are stamped in order, a due check that can move the file leaves no record in it older than fourteen days and no more than 200000 |
| LogRotation.SmallFilesStay | include/MasterControl/MasterControlDiagnostics.h:190-369 | an append to a file below the threshold that no due check finds old or long adds the line and leaves all else alone |
| LogRotation.FullFilesRotate | include/MasterControl/MasterControlDiagnostics.h:190-369 | an append to a file at the threshold, when all calls succeed, makes that file .1 and starts a new one with the line |
| LogRotation.BytesAreTheContent | include/MasterControl/MasterControlDiagnostics.h:190-200 | the size compared is that of the lines with their line feeds |
| LogRotation.LogFile.Append | include/MasterControl/MasterControlDiagnostics.h:351-369 | an append rotates where size, age or count ask for it and then writes, and keeps the files sliced |
| LogRotation.EveryRunIsSliced | include/MasterControl/MasterControlDiagnostics.h:190-369 | in every run, with any steps failing, the files .1, .rotating and live are disjoint slices, in order, of what was written, and live is a suffix |
| LogRotation.FailureFreeRunsAreTidy | include/MasterControl/MasterControlDiagnostics.h:190-369 | without failures .1 followed by live is a contiguous suffix, .rotating is gone, and their size stays below twice the threshold plus the longest record |
| LogRotation.PriorHistoryIsLost | include/MasterControl/MasterControlDiagnostics.h:319-344 | the prior .1 is lost with nothing in its place exactly when it was removed and the second rename fails |
| Timestamps.DaysByLeapYears | include/MasterControl/MasterControlDiagnostics.h:208-241 | the calendar's day count is 365 a year and one for each leap year passed |
| Timestamps.InstantOfUndoesFieldsOf | src/MasterControlApp/SupervisorAssignmentService.cpp:101-112 | the calendar fields of an instant give the instant back |
| Timestamps.IsoOrderIsTimeOrder | src/MasterControlApp/MasterControlModels.cpp:588-602 | texts in the format without milliseconds are ordered exactly as their instants, and equal exactly for equal ones |
| Timestamps.IsoMillisOrderIsTimeOrder | include/MasterControl/MasterControlDiagnostics.h:72-86 | texts in the format with milliseconds are ordered exactly as their instants |
| Timestamps.FormatsDoNotCompare | include/MasterControl/MasterControlDiagnostics.h:72-86 | across the two formats the order fails: within one second the longer text sorts first |
| Timestamps.ReadDigits | include/MasterControl/MasterControlDiagnostics.h:212-222 | the loop reads exactly a run of digits and gives its value |
| Timestamps.ParseCapturedAtUtcOrZero | include/MasterControl/MasterControlDiagnostics.h:208-241 | the result is the instant of the leading stamp, or 0 when there is none or it is before 1970 |
| Timestamps.ParsingUndoesFormatting | include/MasterControl/MasterControlDiagnostics.h:208-241 | both formats parse back to the instant at second precision |
| Timestamps.StampsAreTheirFields | include/MasterControl/MasterControlDiagnostics.h:208-241 | a text starts like a stamp with fields in the calendar exactly if it is the stamp of some fields in the calendar and a rest |
| Timestamps.AddSecondsAddsSeconds | src/MasterControlApp/SupervisorAssignmentService.cpp:92-116 | adding seconds to a formatted instant formats the later instant |
| Timestamps.ExpiryIsChronological | src/MasterControlApp/SupervisorAssignmentService.cpp:384-392 | the text comparison of the confirm step reports expiry exactly from issue plus lifetime on |
| ArgumentQuoting.QuoteWindowsArgument | src/MasterControlBootstrapper/launcher_main.cpp:14-40 | the loop with its pending backslashes computes the recursive quoting |
| ArgumentQuoting.ParsingUndoesQuoting | src/MasterControlBootstrapper/launcher_main.cpp:14-40 | for every argument, parsing its quoted form by the Microsoft C and C++ rules gives the argument and stops at what follows |
| ArgumentQuoting.SplittingUndoesJoining | src/MasterControlBootstrapper/launcher_main.cpp:14-40 | a command line of quoted arguments splits into exactly those arguments |
| ArgumentQuoting.ProgramReadsBack | src/MasterControlBootstrapper/launcher_main.cpp:83 | read by the rule for the first word, a quoted path gives itself exactly when it has no quote and does not end in a backslash |
| HeaderParse.TrimTakesTheMiddle | include/MasterControl/HttpHeaderParse.h:49-56 | a text with more than blanks and carriage returns is cut to its middle |
| HeaderParse.TrimOfBlanks | include/MasterControl/HttpHeaderParse.h:49-56 | a text of only blanks and carriage returns becomes empty, except that after leading blanks the rest from the first carriage return stays |
| HeaderParse.EqualsIgnoreCase | include/MasterControl/HttpHeaderParse.h:93-104 | the loop decides equality without case |
| HeaderParse.SameNameIgnoresCase | include/MasterControl/HttpHeaderParse.h:93-104 | names are the same exactly if they are in lower case |
| HeaderParse.ScanIsSplit | include/MasterControl/HttpHeaderParse.h:118-148 | the scan by positions finds what splitting the head into lines finds |
| HeaderParse.FindHeaderValueCaseInsensitive | include/MasterControl/HttpHeaderParse.h:32-79 | the result is the trimmed value of the first line with that name, or empty |
| HeaderParse.PushMembers | include/MasterControl/HttpHeaderParse.h:134-144 | the inner loop pushes the trimmed comma-separated members in order |
| HeaderParse.ParseLength | include/MasterControl/HttpHeaderParse.h:158-167 | the digit loop accepts 1 to 18 digits, gives their value, and stays below 10^18, so 64-bit arithmetic never wraps |
| HeaderParse.CommonLength | include/MasterControl/HttpHeaderParse.h:154-179 | the members are valid exactly when all are lengths with one value |
| HeaderParse.ParseContentLengthHeader | include/MasterControl/HttpHeaderParse.h:90-180 | the loops compute presence, validity and value from all headers of that name |
| HeaderParse.ValidIffAllSayTheSame | include/MasterControl/HttpHeaderParse.h:81-180 | valid exactly when present and some number is said by every member of every such header; the value is that number |
| HeaderParse.OnlyTheHeadMatters | include/MasterControl/HttpHeaderParse.h:115-116 | two requests that agree through the first blank line give the same result |
| HeaderParse.LookupsAgree | include/MasterControl/HttpHeaderParse.h:27-79 | a valid length is also what the first list member of the plain lookup says |
| HeaderText.HeadersReadBack | include/MasterControl/HttpHeaderParse.h:32-183 | from a request written with a list of headers both scans read exactly the values given under a name, in order, whatever the body holds |
| HeaderText.ContentLengthReadsBack | include/MasterControl/HttpHeaderParse.h:90-183 | a request that gives a decimal as its Content-Length is read as valid with that value exactly if it is below 10^18 |
| JsonMerge.DeepMergeObject | include/MasterControl/JsonMerge.h:32-44 | the loop over the patch's members, recursing where both are objects, computes the key-wise merge at every depth |
| JsonMerge.MergeConfigurationPatch | include/MasterControl/JsonMerge.h:58-69 | a patch that is no object is refused; any other is merged into the current document |
| JsonMerge.MissingTopLevelKeysForFullDocument | include/MasterControl/JsonMerge.h:78-94 | the loop lists each missing key once and nothing else |
| JsonMerge.PatchingTwiceIsPatchingOnce | include/MasterControl/JsonMerge.h:29-44 | merging a patch again changes nothing |
| JsonMerge.UnreachedPathsKeepTheirValues | include/MasterControl/JsonMerge.h:29-44 | a path the patch does not reach keeps its value |
| JsonMerge.PatchedPathsTakeItsValues | include/MasterControl/JsonMerge.h:29-44 | a value of the patch that is no object is in the result at its path |
| JsonMerge.TwoPatchesAreOne | include/MasterControl/JsonMerge.h:29-44 | applying two patches is applying their merge exactly when nowhere an object of the base and one of the second patch meet over a non-object of the first that the second does not cover |
| JsonMerge.PatchingFillsKeys | include/MasterControl/JsonMerge.h:71-94 | a patch takes from the missing keys just those it names, so a complete document stays complete |
| Text.JoiningUndoesSplitting | include/MasterControl/AdminRouteRegistry.h:34-48 | joining the segments gives the path back |
| Text.PiecesHaveNoSeparator | include/MasterControl/AdminRouteRegistry.h:34-48 | no segment contains a slash |
| Routes.SplitRouteSegments | include/MasterControl/AdminRouteRegistry.h:34-48 | the loop computes the pieces between slashes |
| Routes.RoutePatternMatches | include/MasterControl/AdminRouteRegistry.h:50-68 | the loop decides the match segment by segment |
| Routes.MatchesIffFilled | include/MasterControl/AdminRouteRegistry.h:50-68 | a path matches a pattern exactly when some nonempty slash-free texts in place of the stars turn the pattern into the path |
| Routes.MethodsByPriority | include/MasterControl/AdminRouteRegistry.h:74-264 | an exact entry decides, without one the first pattern that matches, without those the first prefix that fits, and without any nothing is supported |
| Routes.SupportedMethodsForPath | include/MasterControl/AdminRouteRegistry.h:74-264 | the lookup takes the exact entry, else the first pattern, else the first prefix |
| Routes.QueryIsIgnored | include/MasterControl/AdminRouteRegistry.h:75-81 | a query suffix never changes the methods found |
| QueryParams.ExtractQueryParam | include/MasterControl/QueryParamParse.h:40-77 | the code's search and slicing compute the value after the anchor |
| QueryParams.ExtractQueryParamAny | include/MasterControl/QueryParamParse.h:105-147 | the loop gives the value of the first candidate found, empty names skipped |
| QueryParams.SearchIsBySegments | include/MasterControl/QueryParamParse.h:32-39 | for an anchor without an ampersand the search finds the remainder of the first segment that starts with it |
| QueryParams.SearchIsLookup | include/MasterControl/QueryParamParse.h:32-77 | the search is the lookup by segments exactly when the name has no ampersand or is not found |
| QueryParams.EarlierCandidatesWin | include/MasterControl/QueryParamParse.h:105-147 | the value is that of the first candidate that has one |
| QueryParams.FirstSearchedIsFirstPresent | include/MasterControl/QueryParamParse.h:79-147 | for candidates without ampersands the loop's answer is the first present by segments |

## Left out

- The gateway, the catalog cache and the tool calls are state machines on values, one atomic step per critical section; data races inside a critical section and failures to create a thread are not modelled.
- HTTP.sys calls, the stdio RPC, SQLite and the lease router are steps that succeed, refuse or throw; no scheduling of leases is modelled.
- JoinPhaseIsBounded: counts steps of the joined threads, not time, and takes each RPC to return; a request's handler enters mutex_ at most a fixed number of times.
- A lease release that throws in the guard of a stateless call, which ends the process: `ToolCalls` lets only the release of a session lease throw, and counts a release that throws as none.
- A clock or an audit sink of the approval queue that throws: a sink that throws after the claim leaves an approved action without its event.
- Requests other than POST to the MCP endpoint are answered inline in one step, and the URL group and session handles open and close with the queue handle.
- The contents of replies: `ToolCalls` has their status, id and error code or kind; the results of initialize, ping and tools/list, the schemas in tool descriptors and the texts of errors are not modelled.
- requiredCapabilitiesForMcpTool is a function parameter of the tool-name model: it is a table of keywords over two names.
- highestCapabilityRisk, capabilityRisk and the lists of known capabilities: fixed tables.
- JSON text syntax, UTF-8 validation and number formats: JSON values are trees, files are documents or unreadable.
- Strings that contain NUL, which the SQLite bindings would cut.
- DeepMergeObject: returns the new tree instead of rewriting the target through a reference, and visits the patch's keys in any order.
- MissingTopLevelKeysForFullDocument: does not say in which order the missing keys come.
- The configuration file text and the instructions that selectAndIssue and regenerateConfig return, getStatus and setEndpoints: they copy fields.
- Randomness and hashing: tokens and identifiers are inputs, and the run lemmas take new tokens to be fresh.
- get_time reads more lenient texts than the fixed-width ones of `Timestamps.ReadsAsIso`; the service writes only those. Instants beyond the run-time library's limit are not formatted.
- A log line that is only partly written; lines are written whole or not at all.
- The tables of the admin routes: `Routes.SupportedMethodsForPath` takes them as a parameter.
- URL decoding of query parameters, which the code does not do either.
- The lease router and worker supervisor implementations, discovery, telemetry, the installer, the shell and the web interface.
