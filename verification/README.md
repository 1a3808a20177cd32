# A verified model of a state machine library and its messaging layer

The repository is a table-driven state machine library with hierarchical states and an active-object mode, on top
of a messaging layer: asynchronous and blocking delegates, acknowledgement and retry, remote calls, timers and a
fixed-block allocator. This project models its hardest parts in Dafny and proves what they keep over every run.
`dafny verify dfyconfig.toml` checks everything.

| file | models |
|---|---|
| `StateMachine.dfy` | the flat engine as a class, and its step and run as functions |
| `StateMachineHSM.dfy` | the hierarchical engine: common ancestor, exit and entry walks, runs, propagation; its relation to the flat engine |
| `StateTrace.dfy` | what an iteration of either engine lets user code see, said of the trace alone |
| `ActiveObject.dfy` | event functions marshalled to the machine's thread, for every interleaving of producers with the steps of the engine |
| `RetrySpec.dfy` | acknowledge / timeout / retry: the operations as functions on values |
| `RetryMessage.dfy`, `RetryRuns.dfy` | the same with every critical section as a step of its own: one message as an automaton, and any number of them in every interleaving of senders, receivers and Process |
| `RetryFate.dfy`, `RetryTime.dfy` | what becomes of a message over every run, and when it times out |
| `RetryTraces.dfy`, `RetryPaths.dfy` | runs that go wrong; the whole methods as interleavings |
| `RetryMonitor.dfy` | `TransportMonitor` and `RetryMonitor` as classes, proved against those functions |
| `AsyncWait.dfy` | blocking cross-thread calls as a transition system over any number of calls |
| `AsyncWaitThread.dfy` | the same calls on one destination thread with its two queues |
| `InvokeWait.dfy` | the early-status reconciliation of a blocking remote call |
| `SeqHistory.dfy` | the receiver's duplicate filter |
| `MulticastDelegate.dfy` | a list of callbacks that is changed by its own callbacks while it is being called |
| `Timer.dfy` | the intrusive timer list and its batched drain |
| `Allocator.dfy` | the free list threaded through the blocks, and the counters |
| `SizeClass.dfy`, `XAllocator.dfy` | rounding by bit smearing; headers, size classes, allocation, freeing, reallocation |
| `Crc16.dfy`, `Crc16Table.dfy` | both forms of the CRC, against feeding one bit at a time into the polynomial's register |

User code is an oracle throughout: guards and actions answer from a script, a physical send succeeds or fails as a
parameter says, callbacks follow a script of commands. The clock is a parameter. A failed assertion of the original
ends the run and is a result of its own (`None`, or `faulted`).

Some things that the original does are results here rather than assumptions:

- On a table without parents the two engines differ exactly when a guard that answers true raises an event which
  changes whether the current state is left (`FlatStepAgreesIff`, `GuardEventsDiverge`).
- The propagation loop has no step bound. It stops exactly when some state on the chain of the current state does not
  propagate or has no parent, and then in fewer steps than there are states (`ResolutionStopsIff`); on a cycle in which
  every state propagates it never does (`CyclicResolutionNeverStops`, `TwoStatesForEver`). The engine's own walks always
  stop.
- A message is reported a second time exactly when SUCCESS is signalled for it, or the failure of one of its physical
  sends is reported, at a moment when it is no longer stored (`SecondReportIff`, `ReportedOnceIff`). That takes a physical
  send that returned an error; it never happens a third time (`SecondNeedsRefusal`). It comes about in several ways: the
  failure may be reported after the SUCCESS, for a first send (`FirstSendReportsTwice`) or a retry (`RetryReportsTwice`);
  or the SUCCESS after the failure, because the acknowledgement took the entry out before (`SuccessAfterFailure`) or because
  the key was registered again too late (`SuccessAfterRenewal`). When nothing falls into a call of `SendWithRetry` or
  into the reaction to a TIMEOUT, every message is reported at most once (`SerialisedReportsOnce`).
- A key can stay registered although its message was reported as failed and erased, by exactly two steps (`StrayIff`).
- A message can be lost without any report: when it is timed out during its first send and the pending map is full by
  the time its registration is renewed, the refusal goes unnoticed (`LostIff`, `LostForGood`, `MessageLost`).
- An acknowledgement names no remote. It finds the message it is meant for exactly when no remote with a smaller id
  has the same sequence number pending (`AckFindsItIff`, `AckMisses`).
- A blocking call may report failure although its target ran to its normal end (`FailureDespiteCompletion`).
- A list moved out of a container while it broadcasts, into one at rest, brings its empty nodes along, and they
  outlast a whole broadcast there (`MoveFrom`, `EmptyNodeSurvives`). The rule that no node is erased during a broadcast
  fails for the container moved from exactly when it is broadcasting and had any node.
- An expired timer can miss its turn in two ways only. A callback that throws, as `Start` does on a timeout that is not
  positive, ends the drain, and the snapshots behind it in its pass are lost. When none throws, a timer misses its turn if
  and only if a callback named it before any pass had taken it, which needs at least 16 callbacks (`ProcessTimers`, with a
  run in `TurnMissed`). Within a pass every snapshot is invoked, whatever the callbacks before it did to its timer
  (`FireAll`).
- The outcome of a blocking remote call depends on when its number is recorded exactly when two statuses for that number
  differ (`OrderDoesNotMatterIff`), as they can: a message that is retried has several TIMEOUTs before its SUCCESS.
- A static pool sized by its object holds its blocks exactly when the object is at least pointer-sized
  (`StaticPoolFitsIff`).
- `xmalloc` computes a block that is large enough exactly when request, header and footer together do not exceed 2^63
  (`ClassFitsIff`, `HugeRequestGetsNothing`).

Where text and code of the original disagree, the code is modelled: `delegate-mq/port/os/stdlib/StdlibThread.h:17` speaks of
a priority queue, the thread has one queue for each of two priorities.

## Model

| member | source | states |
|---|---|---|
| StateMachine.StateMachine.constructor | state-machine/StateMachine.cpp:8-16 | a new machine is in its initial state with nothing pending |
| StateMachine.StateMachine.InternalEvent | state-machine/StateMachine.cpp:60-68 | records the event; a pending one is overwritten; missing data becomes empty data |
| StateMachine.StateMachine.ConsumeEvent | state-machine/StateMachine.h:239-243 | hands out the pending data and clears the pending flag, leaving the target readable |
| StateMachine.StateMachine.SwitchState | state-machine/StateMachine.cpp:173-199 | exit action and signal, state change, entry action and signal, in that order, or nothing on a self-transition |
| StateMachine.StateMachine.Iterate | state-machine/StateMachine.cpp:145-208 | one loop iteration refines the step function, faults included, with the target read again after the guard |
| StateMachine.StateMachine.StateEngine | state-machine/StateMachine.cpp:140-209 | the loop refines the run function over any script of guard answers and raised events |
| StateMachine.FlatStepInTable | state-machine/StateMachine.cpp:148-209 | a step that does not assert ends in a state of the table |
| StateMachineHSM.FindLCA | state-machine/StateMachineHSM.cpp:103-129 | the nested loops compute the two bounded walks, asserting exactly where those do |
| StateMachineHSM.LcaIsDeepestCommon | state-machine/StateMachineHSM.cpp:103-129 | on every table on which it returns, the result is the deepest common ancestor-or-self, or NO_PARENT exactly when there is none |
| StateMachineHSM.LcaOnWellFormed | state-machine/StateMachineHSM.cpp:103-129 | it always returns when every parent chain ends within 32 steps |
| StateMachineHSM.WalksAfterLca | state-machine/StateMachineHSM.cpp:43-69 | for every table, cyclic or not: once it has returned the exit walk stays within 32 steps, and the entry array overflows only if the machine was outside its table and the target's chain does not end |
| StateMachineHSM.ExitStates | state-machine/StateMachineHSM.cpp:48-57 | leaves the states of the walk in order and asserts exactly when the walk exceeds the bound |
| StateMachineHSM.CollectEntries | state-machine/StateMachineHSM.cpp:61-69 | fills the array with the entry walk, leaf first, and asserts exactly when it would overflow |
| StateMachineHSM.EnterStates | state-machine/StateMachineHSM.cpp:73-79 | enters the collected states outermost first |
| StateMachineHSM.SwitchState | state-machine/StateMachineHSM.cpp:39-87 | a transition exits up to the common ancestor, then enters down to the target |
| StateMachineHSM.Iterate | state-machine/StateMachineHSM.cpp:23-94 | one loop iteration refines the hierarchical step, faults included, with the target latched before the guard |
| StateMachineHSM.StateEngine | state-machine/StateMachineHSM.cpp:16-95 | the loop refines the hierarchical run |
| StateMachineHSM.ExternalEvent | state-machine/StateMachine.cpp:21-55 | ignored events do nothing, impossible ones fault, others are recorded and run |
| StateMachineHSM.TransitionReplays | state-machine/StateMachineHSM.cpp:41-79 | an observer's stack goes from the active path of the old state to that of the new one, each exit popping the top and each entry pushing a child of the top |
| StateMachineHSM.NoStateLeftAndEntered | state-machine/StateMachineHSM.cpp:43-79 | no state is both exited and entered by one transition, on any table |
| StateMachineHSM.ExitsStartAtCurrent | state-machine/StateMachineHSM.cpp:39-57 | whichever ancestor handled the event, the exits start from the current leaf and the entries end in the target; nothing is exited or entered exactly when one is an ancestor of the other |
| StateMachineHSM.StepLegal | state-machine/StateMachineHSM.cpp:23-94 | one iteration keeps the observer's stack equal to the active path |
| StateMachineHSM.RunLegal | state-machine/StateMachineHSM.cpp:23-94 | so does every run, for any events, guard answers and chains of raised events |
| StateMachineHSM.StepFaultsIff | state-machine/StateMachineHSM.cpp:25-89 | on a well-formed table an iteration asserts in exactly three cases |
| StateMachineHSM.FlatStepAgreesIff | state-machine/StateMachine.cpp:145-208 | without parents the two engines make the same step if and only if no accepting guard redirects the transition to or from the current state |
| StateMachineHSM.FlatRunAgrees | state-machine/StateMachineHSM.cpp:16-95 | with guards that raise no events they agree on every run: trace, states and faults |
| StateMachineHSM.GuardEventsDiverge | state-machine/StateMachine.cpp:168-184 | an input on which they differ |
| StateMachineHSM.ResolveTransition | state-machine/StateMachineHSM.h:97-108 | the resolution loop terminates wherever it can stop at all, with the recursive resolution as its result |
| StateMachineHSM.ResolveNearest | state-machine/StateMachineHSM.h:100-107 | propagation never yields PROPAGATE_TO_PARENT: it yields the entry of the nearest ancestor-or-self that does not propagate, or EVENT_IGNORED when every one does |
| StateMachineHSM.ResolutionStopsIff | state-machine/StateMachineHSM.h:102-107 | for every table and transition map: the loop stops if and only if an ancestor-or-self of the current state does not propagate or has no parent, and then in fewer steps than the table has states |
| StateMachineHSM.ResolutionStops | state-machine/StateMachineHSM.h:102-107 | on a chain that ends there is such a state |
| StateMachineHSM.CyclicResolutionNeverStops | state-machine/StateMachineHSM.h:102-107 | on any cycle in which every state propagates it never stops |
| StateMachineHSM.TwoStatesForEver | state-machine/StateMachineHSM.h:102-107 | a table and a transition map with such a cycle |
| StateTraces.HsmStepShows | state-machine/StateMachineHSM.cpp:23-94 | for every iteration that does not assert: the guard is asked first, exactly when the row has one, and a refusal is followed by nothing and moves nothing; otherwise come exits and entries, each signal directly preceded by its action exactly when its row has one, entry actions with the event's data, then the state action of the target with that data, and last the transition signal; the machine is then in the target, and what is pending is what user code raised last |
| StateTraces.FlatStepShows | state-machine/StateMachine.cpp:145-208 | the same of the flat engine, whose moves are one exit and one entry, and which goes where the guard sends it if the guard raises an event |
| StateTraces.HsmRunFramed | state-machine/StateMachineHSM.cpp:16-95 | over every run no exit or entry action stands anywhere but directly before the signal of its state, and none that a row has is missing |
| StateTraces.FlatRunFramed | state-machine/StateMachine.cpp:140-209 | the same over every run of the flat engine |
| StateTraces.ExternalShows | state-machine/StateMachine.cpp:21-55 | an impossible event asserts, an ignored one changes nothing, any other starts the engine with its data or with empty data |
| ActiveObjects.Serialised | state-machine/StateMachine.h:320-334 | for every interleaving of posts, dispatches and single engine iterations, at every moment: between calls the machine is where the dispatched calls, one after the other, would have put it; within a call it is where that call, run so far, would have put it; and every lookup saw the state at its dispatch |
| ActiveObjects.FirstInFirstOut | delegate-mq/port/os/stdlib/StdlibThread.cpp:318-321 | in each priority lane the calls taken, followed by those waiting, are exactly the calls posted, in order |
| ActiveObjects.ProducerOrder | delegate-mq/delegate/DelegateMsg.h:15-34 | each producer's calls of one priority are taken in the order in which it made them, without gaps |
| ActiveObjects.HighFirst | delegate-mq/port/os/stdlib/StdlibThread.cpp:467-473 | over every interleaving, the thread takes the oldest call of high priority that was posted and not yet taken, and one of normal priority, the oldest, only when there is none |
| ActiveObjects.OnlyHighBefore | delegate-mq/delegate/DelegateMsg.h:15-34 | between the posting of a call of high priority and its being taken, only calls of high priority posted before it are taken |
| ActiveObjects.CallReached | state-machine/StateMachine.h:320-334 | from any world, a call made in one piece is its start, single iterations of the engine and its return, each enabled in its turn |
| ActiveObjects.AlwaysLegal | state-machine/StateMachine.h:320-334 | every interleaving shows one legal sequence of exits and entries, also in the middle of a call, and leaves nothing pending between calls |
| ActiveObjects.LookupAtPostDiffers | state-machine/StateMachine.h:320-334 | a run of two producers on which looking a transition up when the call is made would give another target than looking it up when it is dispatched |
| ActiveObjects.ActiveObject.EventFunction | state-machine/StateMachine.h:320-334 | on another thread it is exactly the step that posts the call; on the machine's thread it is looked up and run, which is the inline call and the steps of the engine |
| ActiveObjects.ActiveObject.DispatchNext | state-machine/StateMachineHSM.h:95-111 | the oldest queued call, of high priority if there is one, is removed and run with the lookup made in the present state: the step that takes it, the iterations of the engine and the return |
| RetrySpec.PassShrinks | delegate-mq/extras/util/TransportMonitor.h:184-209 | a pass of Process never adds an expired entry and takes the whole batch out, although its callbacks put keys back |
| RetrySpec.ProcessDrains | delegate-mq/extras/util/TransportMonitor.h:166-218 | Process terminates with the clock fixed and leaves no entry past its timeout |
| RetrySpec.TakenIsDue | delegate-mq/extras/util/TransportMonitor.h:184-199 | a pass takes only entries registered more than the timeout before; in key order, and all of them unless it takes 16 |
| RetrySpec.ProcessLeavesNoneDue | delegate-mq/extras/util/TransportMonitor.h:166-218 | after Process every entry left was registered at most the timeout ago |
| RetrySpec.RemarksIff | delegate-mq/extras/util/TransportMonitor.h:190-215 | a pass reports that entries were left behind exactly when one that it left is past its timeout, with the number of entries left |
| RetryMessages.NextGood | delegate-mq/extras/util/RetryMonitor.h:92-258 | every critical section that concerns a message keeps it in order: one registration at most, and nothing reported, while it is stored; retransmissions with the submitted bytes, counted against its timeouts; what can still happen to it after it was erased |
| RetryMessages.RepeatsIff | delegate-mq/extras/util/RetryMonitor.h:130-142 | a step reports a message that was already reported exactly when it signals SUCCESS for it, or reports a failed send of it, and it is no longer stored |
| RetryMessages.StraysIff | delegate-mq/extras/util/RetryMonitor.h:248-251 | a step leaves the key registered without a message exactly when it renews the registration too late, or erases the message after it was renewed |
| RetryRuns.StepFollows | delegate-mq/extras/util/TransportMonitor.h:70-218 | each critical section of any thread is one step of that automaton for the messages it concerns, and leaves all others as they are |
| RetryRuns.RunSound | delegate-mq/extras/util/RetryMonitor.h:92-258 | every message, the pending map and the balance of signals are in order at every moment of every interleaving of the critical sections of senders, receivers of acknowledgements and Process |
| RetryFate.Conservation | delegate-mq/extras/util/TransportMonitor.h:70-218 | at every moment the map is within its cap, and successful Adds = SUCCESS signals + TIMEOUT signals + cancels + entries pending + entries taken whose signal is still to come; what is pending is stored, unless its first send failed, which was then reported |
| RetryFate.StrayIff | delegate-mq/extras/util/RetryMonitor.h:248-251 | in every run a key becomes pending without being stored by exactly those two steps |
| RetryFate.StoreIsPendingIff | delegate-mq/extras/util/RetryMonitor.h:157-258 | whenever no thread is at work, store and pending map have the same keys if and only if no stored message was forgotten by a refused registration and no failed one is registered |
| RetryFate.StoreIsPending | delegate-mq/extras/util/RetryMonitor.h:188-205 | that is so on every run on which no first send takes so long that it is timed out |
| RetryFate.RunAdmitted | delegate-mq/extras/util/RetryMonitor.h:213-251 | on every run on which no message is registered for the first time while Process is at work, no registration of a retry or of a running first send is refused |
| RetryFate.MessageFate | delegate-mq/extras/util/RetryMonitor.h:92-258 | at most maxRetries + 1 physical sends, all with the submitted bytes; a submitted message is stored exactly as long as nothing final was reported; given up on exactly the (maxRetries+1)-th timeout when nothing else fails |
| RetryFate.SecondReportIff | delegate-mq/extras/util/RetryMonitor.h:130-142 | in every run a second report is made by exactly those steps that signal SUCCESS, or report a failed send, for a message no longer stored |
| RetryFate.ReportedOnceIff | delegate-mq/extras/util/RetryMonitor.h:224-237 | a message gets at most one of SUCCESS and OnDeliveryFailed over a whole run if and only if no such step is made |
| RetryFate.SecondNeedsRefusal | delegate-mq/extras/util/RetryMonitor.h:125-142 | never more than two reports, and two only if a physical send of the message returned an error |
| RetryFate.SerialisedReportsOnce | delegate-mq/extras/util/RetryMonitor.h:92-258 | when nothing falls into a call of SendWithRetry or a reaction to a TIMEOUT, every message gets at most one |
| RetryTraces.FirstSendReportsTwice | delegate-mq/extras/util/RetryMonitor.h:125-142 | a run on which a first send fails after the SUCCESS of its message |
| RetryTraces.SuccessAfterFailure | delegate-mq/extras/util/TransportMonitor.h:112-139 | a run on which the acknowledgement takes the entry out, the send fails with the message still stored, and then SUCCESS is signalled |
| RetryTraces.SuccessAfterRenewal | delegate-mq/extras/util/RetryMonitor.h:188-251 | a run on which a first send is timed out and fails, is registered again after that, and then acknowledged |
| RetryTraces.RetryReportsTwice | delegate-mq/extras/util/RetryMonitor.h:213-237 | a run on which a retry fails after the SUCCESS, although the first send succeeded |
| RetryFate.LostIff | delegate-mq/extras/util/RetryMonitor.h:194-204 | a stored message whose call of SendWithRetry is over is dealt with by nobody if and only if a registration of it was refused while its first send was under way |
| RetryFate.LostForGood | delegate-mq/extras/util/RetryMonitor.h:248-251 | after that nothing brings it back, and it is never reported |
| RetryTimes.Stamped | delegate-mq/extras/util/TransportMonitor.h:70-100 | in every run, each pending entry carries the time of the latest registration of its key |
| RetryTimes.TimeoutIsDue | delegate-mq/extras/util/TransportMonitor.h:184-209 | in every run, a TIMEOUT is signalled for a key only when its latest registration was made more than the timeout before the pass that took it |
| RetryTimes.DueIsTaken | delegate-mq/extras/util/TransportMonitor.h:184-199 | and a pass leaves no key whose latest registration is longer ago than that, unless it takes 16 |
| RetryTimes.AcknowledgedIs | delegate-mq/extras/util/TransportMonitor.h:106-140 | an acknowledgement that names its remote takes out exactly that entry; one that does not, the first in key order with its number; nothing else changes |
| RetryTraces.MessageLost | delegate-mq/extras/util/RetryMonitor.h:248-251 | a run on which a message is lost |
| RetryPaths.ProcessReached | delegate-mq/extras/util/TransportMonitor.h:166-218 | a whole Process, with acknowledgements arriving during its retries, is one of these interleavings |
| RetryPaths.SendReached | delegate-mq/extras/util/RetryMonitor.h:92-154 | so is a whole SendWithRetry |
| RetryTraces.AckFindsItIff | delegate-mq/extras/util/TransportMonitor.h:123-133 | an acknowledgement without remote id finds its message exactly when no smaller remote id has that number pending |
| RetryTraces.AckMisses | delegate-mq/extras/util/TransportMonitor.h:123-143 | a run with two messages in flight on which the acknowledgement of one takes out the other |
| RetryMonitors.TransportMonitor.Add | delegate-mq/extras/util/TransportMonitor.h:70-100 | refuses exactly at 100 entries or on a key collision, otherwise records the time |
| RetryMonitors.TransportMonitor.Cancel | delegate-mq/extras/util/TransportMonitor.h:152-161 | removes silently and says whether there was an entry |
| RetryMonitors.TransportMonitor.Find | delegate-mq/extras/util/TransportMonitor.h:115-133 | exact lookup, or the first entry in key order with that sequence number |
| RetryMonitors.TransportMonitor.Remove | delegate-mq/extras/util/TransportMonitor.h:106-140 | removes the entry found and signals SUCCESS, whereupon the retry monitor forgets the message |
| RetryMonitors.TransportMonitor.Collect | delegate-mq/extras/util/TransportMonitor.h:175-203 | the scan takes the first 16 entries in key order that were registered more than the timeout before, leaves none such when it takes fewer, and notices when it leaves one behind |
| RetryMonitors.TransportMonitor.FireAll | delegate-mq/extras/util/TransportMonitor.h:205-209 | one TIMEOUT per entry taken, each handled by the retry monitor before the next |
| RetryMonitors.TransportMonitor.ProcessOnce | delegate-mq/extras/util/TransportMonitor.h:170-215 | one turn of the loop refines the specified pass |
| RetryMonitors.TransportMonitor.Process | delegate-mq/extras/util/TransportMonitor.h:166-218 | the loop refines the specified drain; every entry left was registered at most the timeout ago |
| RetryMonitors.RetryMonitor.OnStatusChanged | delegate-mq/extras/util/RetryMonitor.h:157-258 | refines the specified reaction to SUCCESS and TIMEOUT |
| RetryMonitors.TransportMonitor.Receive | delegate-mq/extras/util/TransportMonitor.h:106-140 | the acknowledgements that arrive during a physical send, in order |
| RetryMonitors.RetryMonitor.SendWithRetry | delegate-mq/extras/util/RetryMonitor.h:92-154 | refines beginning and end of a send, with acknowledgements arriving in between, and returns 0 exactly when the message was added and the transport took it |
| AsyncWait.StepInv | delegate-mq/delegate/DelegateAsyncWait.h:512-550 | every step of a call keeps the relation between its flags, its semaphore and its history |
| AsyncWait.EveryCallIsLegal | delegate-mq/delegate/DelegateAsyncWait.h:231-267 | in every interleaving of any number of calls: the target runs at most once, never starts after the caller returned, the caller never returns while it runs, and success is followed by reading the value written |
| AsyncWait.WaitEndsIff | delegate-mq/delegate/Semaphore.h:37-71 | in every interleaving: a wait can end by the signal exactly when the destination thread has signalled or discarded the message, and can expire exactly as long as it has not |
| AsyncWait.SuccessIff | delegate-mq/delegate/DelegateAsyncWait.h:259-266 | success is reported exactly when the wait was signalled and the target finished normally; undispatched, cancelled, timed-out and throwing calls report failure |
| AsyncWaitThread.RunsIsRun | delegate-mq/port/os/stdlib/StdlibThread.cpp:446-475 | every run of calls on one destination thread is one of those interleavings |
| AsyncWaitThread.StepGood | delegate-mq/port/os/stdlib/StdlibThread.cpp:318-321 | every step keeps exactly the queued messages in line, each once; a step of the thread brings every message nearer its turn, and only an urgent one that passes it sets a message back |
| AsyncWaitThread.NoLostWakeup | delegate-mq/delegate/Semaphore.h:37-71 | a blocked caller is either signalled already, or the destination thread has work, whichever message it is busy with, and its next step is enabled |
| AsyncWaitThread.WakesInTime | delegate-mq/port/os/stdlib/StdlibThread.cpp:446-475 | a blocked caller has its signal after five steps of the thread for each message before its own, and five for each urgent one that passes it |
| AsyncWaitThread.LeavesInTime | delegate-mq/delegate/DelegateAsyncWait.h:258-266 | a caller whose wait is over is delayed only while the thread runs or reports its own target, and by three steps of the thread at most |
| AsyncWaitThread.FailureDespiteCompletion | delegate-mq/delegate/DelegateAsyncWait.h:254-266 | from every world in which the thread is idle, a run in which a call reports failure although its target finished |
| InvokeWait.CompleteIffReported | delegate-mq/extras/rpc/RemoteDispatcher.h:316-364 | the wait is complete exactly when some status, early or late, names the dispatched number |
| InvokeWait.OutcomeStable | delegate-mq/extras/rpc/RemoteDispatcher.h:328-332 | a completed outcome never changes |
| InvokeWait.OrderDoesNotMatterIff | delegate-mq/extras/rpc/RemoteDispatcher.h:316-364 | the interleaving of the statuses with the send lambda makes no difference to the outcome if and only if all statuses for the number agree |
| InvokeWait.InvokeWaitState.OnStatus | delegate-mq/extras/rpc/RemoteDispatcher.h:316-336 | a status is buffered before the number is known, and completes the wait only for that number and remote |
| InvokeWait.InvokeWaitState.RecordSeq | delegate-mq/extras/rpc/RemoteDispatcher.h:345-362 | recording the number applies the last buffered status for it and clears the buffer; the wait is signalled at most once |
| InvokeWait.InvokeWaitState.Result | delegate-mq/extras/rpc/RemoteDispatcher.h:387-389 | the result is success exactly when the outcome is SUCCESS |
| SeqHistory.RingAccepts | delegate-mq/extras/databus/Participant.h:371-373 | for every size of the ring, writing at the head replaces the oldest accepted number by the new one |
| SeqHistory.SeqHistory.Find | delegate-mq/extras/databus/Participant.h:368-370 | the scan finds exactly the last accepted numbers, as many as the ring has slots |
| SeqHistory.SeqHistory.IsDuplicate | delegate-mq/extras/databus/Participant.h:367-375 | true exactly for those; otherwise the number is accepted and the oldest forgotten |
| SeqHistory.DeliveriesSpaced | delegate-mq/extras/databus/Participant.h:359-376 | two deliveries of one number are at least as many other accepted numbers apart as the ring has slots, for every sequence of arrivals |
| SeqHistory.RetransmissionsDropped | delegate-mq/extras/databus/Participant.h:359-376 | a retransmission among fewer other arrivals than that is dropped |
| SeqHistory.NothingElseDropped | delegate-mq/extras/databus/Participant.h:359-376 | a stream in which equal numbers are more than that far apart is delivered in full |
| SeqHistory.Participant.Filter | delegate-mq/extras/databus/Participant.h:99-102 | each channel has a ring of its own, made with its first message; an answer changes no other |
| SeqHistory.Participant.ProcessIncoming | delegate-mq/extras/databus/Participant.h:89-113 | filters per remote id, only for known channels, and never acknowledgements; what was delivered to an id is what its ring accepted |
| MulticastDelegates.NeverInvokedAfterRemoval | delegate-mq/delegate/MulticastDelegate.h:61-94 | a node whose delegate was removed is never invoked again |
| MulticastDelegates.RemovesOldest | delegate-mq/delegate/MulticastDelegate.h:61-81 | removing takes out the oldest registration of a delegate and no other |
| MulticastDelegates.MulticastDelegate.PushBack | delegate-mq/delegate/MulticastDelegate.h:282-284 | appends, at rest or during a broadcast |
| MulticastDelegates.MulticastDelegate.Remove | delegate-mq/delegate/MulticastDelegate.h:61-81 | removes the first equal delegate from the registrations; no node is erased while a broadcast runs |
| MulticastDelegates.MulticastDelegate.Clear | delegate-mq/delegate/MulticastDelegate.h:84-94 | nothing is registered afterwards; no node is erased while a broadcast runs |
| MulticastDelegates.MulticastDelegate.AppendAll | delegate-mq/delegate/MulticastDelegate.h:98-131 | appends what another list holds, with its empty nodes exactly when the list is moved |
| MulticastDelegates.MulticastDelegate.CopyAssign | delegate-mq/delegate/MulticastDelegate.h:247-253 | the registrations become those of the other list, in order |
| MulticastDelegates.MulticastDelegate.MoveAssign | delegate-mq/delegate/MulticastDelegate.h:258-275 | the receiving side of a move: it stays tidy exactly when it is broadcasting or the list has no empty node |
| MulticastDelegates.MulticastDelegate.MoveFrom | delegate-mq/delegate/MulticastDelegate.h:258-275 | both sides of a move, whatever either is doing: the registrations go over in order and the other container is empty afterwards; it loses nodes under a running broadcast exactly when it had any |
| MulticastDelegates.EmptyNodeSurvives | delegate-mq/delegate/MulticastDelegate.h:258-275 | the steps of a broadcast whose callback drops a delegate, moves the list into a container at rest and throws, and then of a broadcast there: the empty node is still there |
| MulticastDelegates.MulticastDelegate.Purge | delegate-mq/delegate/MulticastDelegate.h:144-153 | removes the empty nodes and keeps the registrations in order |
| MulticastDelegates.MulticastDelegate.Leave | delegate-mq/delegate/MulticastDelegate.h:144-153 | the end of the outermost broadcast cleans up if a removal was reported, and then no empty node is left; otherwise nothing changes |
| MulticastDelegates.MulticastDelegate.Change | delegate-mq/delegate/MulticastDelegate.h:61-131 | what one command of a callback makes of the registrations during a broadcast: adding appends, dropping removes the oldest equal one, clearing and assigning replace all; nodes stay where they are |
| MulticastDelegates.MulticastDelegate.Exec | delegate-mq/delegate/MulticastDelegate.h:214-217 | a callback makes exactly the changes its commands ask for, or a first part of them when it throws; it makes every broadcast they ask for, in order, and throws exactly when it comes to a Throw or when a broadcast lets out an exception that it does not catch; nodes stay where they are, and the list stands for what immediate removal would have left |
| MulticastDelegates.MulticastDelegate.CallAt | delegate-mq/delegate/MulticastDelegate.h:213-218 | the node at the cursor is called, and then its callback's own changes and broadcasts happen; an exception comes exactly from what the callback does |
| MulticastDelegates.SparedStays | delegate-mq/delegate/MulticastDelegate.h:61-94 | a registration that no call made removes stays, through all nested broadcasts |
| MulticastDelegates.MulticastDelegate.Broadcast | delegate-mq/delegate/MulticastDelegate.h:208-219 | calls are made in list order, each node at most once, only on registered delegates, and the list changes as the callbacks made ask for and in no other way; the broadcasts they ask for are made, and whatever comes out of one uncaught ends the pass, as does a Throw; nothing else does; otherwise every delegate registered at the beginning and removed by no call was called, and so was every one registered at the end; after the outermost broadcast the list holds no empty node |
| Timers.TimerList.Start | delegate-mq/extras/util/Timer.cpp:45-85 | a timer not on the list goes to the front, one that is stays; a timeout that is not positive throws and changes nothing |
| Timers.TimerList.Stop | delegate-mq/extras/util/Timer.cpp:90-101 | disables, and makes a sweep due |
| Timers.TimerList.Destroy | delegate-mq/extras/util/Timer.cpp:24-40 | exactly this timer leaves the list |
| Timers.TimerList.CheckExpired | delegate-mq/extras/util/Timer.cpp:106-140 | expired means enabled with the deadline reached; a one-shot is then disabled, and the deadline of a periodic timer moves on by one period, or to the present if that is still behind; exactly one expiry is consumed |
| Timers.TimerList.Sweep | delegate-mq/extras/util/Timer.cpp:162-179 | the list becomes its enabled timers, in order |
| Timers.TimerList.Collect | delegate-mq/extras/util/Timer.cpp:181-205 | takes the snapshots of the first 16 expired timers in list order; an expiry is consumed exactly for the timers whose snapshot is taken |
| Timers.TimerList.Perform | delegate-mq/extras/util/Timer.cpp:45-101 | whatever a callback constructs, starts, stops or deletes, it makes no timer due at once, leaves the timer it names with nothing to fire, and touches no other timer's expiries; it throws exactly where it starts a timer with a timeout that is not positive, or throws itself |
| Timers.TimerList.FireAll | delegate-mq/extras/util/Timer.cpp:213-217 | all snapshots are invoked in order, or those up to the first callback that throws; no callback makes a timer due at once, and only timers named by a callback made lose or change what they owe |
| Timers.TimerList.Gather | delegate-mq/extras/util/Timer.cpp:162-205 | sweep and scan together take the first 16 timers due, in list order, and consume one expiry for each of them and no other |
| Timers.BooksPass | delegate-mq/extras/util/Timer.cpp:153-223 | over a pass, callbacks made plus snapshots lost plus expiries outstanding never exceed what was due, and equal it for timers no callback names |
| Timers.PassShrinks | delegate-mq/extras/util/Timer.cpp:223 | a full pass leaves less to fire, whatever its callbacks start, stop or delete |
| Timers.DrainEnds | delegate-mq/extras/util/Timer.cpp:223 | after a pass that was not full every expired timer that no earlier callback named has fired |
| Timers.MissesIff | delegate-mq/extras/util/Timer.cpp:153-223 | in a drain that no callback ends, a timer that was due does not fire if and only if a callback named it before any pass had taken it |
| Timers.TimerList.ProcessTimers | delegate-mq/extras/util/Timer.cpp:145-224 | the drain terminates; a one-shot fires at most once and a periodic timer at most twice, the first 16 due first; it is ended early only by the last callback made throwing, which loses what stood behind it in its pass, at most 15 snapshots; otherwise a due timer misses its turn as `MissesIff` says, and never when fewer than 16 callbacks were made; no callback comes for a timer named in an earlier pass; what a timer that no callback made names fired, lost and would still fire adds up; such a timer keeps its period and stays enabled if it is periodic, its next deadline at most a period away: one period on for each firing, or the present when it was further behind |
| Timers.KeepsTime | delegate-mq/extras/util/Timer.cpp:106-140 | over successive drains less than a period apart, a periodic timer fires at most once in each, in all once for each whole period since its start, and its deadline stays a whole number of periods after the start |
| Timers.DrainsKeepTime | delegate-mq/extras/util/Timer.cpp:106-224 | that is what such drains of a list do, whatever other timers there are, for every timer that no callback names, when no callback throws |
| Timers.TurnMissed | delegate-mq/extras/util/Timer.cpp:153-223 | a drain of seventeen timers in which the last is stopped by the first callback and never fires |
| Allocators.StaticPoolFitsIff | delegate-mq/extras/allocator/Allocator.h:98-107 | a pool sized by its objects holds its blocks exactly when the object is at least pointer-sized, or there are none |
| Allocators.ChainUnique | delegate-mq/extras/allocator/Allocator.cpp:156-177 | the links in memory determine the free list |
| Allocators.LayoutPool | delegate-mq/extras/allocator/Allocator.cpp:78-84 | the next block of the pool is new, overlaps no issued block and fits |
| Allocators.LayoutGuards | delegate-mq/extras/allocator/Allocator.cpp:126-136 | the range and alignment checks hold of every issued block |
| Allocators.Allocator.constructor | delegate-mq/extras/allocator/Allocator.cpp:15-47 | in each of the three modes a new allocator has nothing issued; it is valid exactly when a pool handed in has memory for all its blocks |
| Allocators.Allocator.Pop | delegate-mq/extras/allocator/Allocator.cpp:166-177 | takes the first free block, or NULL when there is none |
| Allocators.Allocator.Push | delegate-mq/extras/allocator/Allocator.cpp:156-161 | the block goes to the front of the list, and only its own first cell is written |
| Allocators.Allocator.Allocate | delegate-mq/extras/allocator/Allocator.cpp:68-119 | the block is not in use already and overlaps none that is; it is the most recently freed one if there is one, and else a new one, which takes one block of the heap or the pool; it fails exactly when a pool is used up, changing nothing |
| Allocators.Allocator.Deallocate | delegate-mq/extras/allocator/Allocator.cpp:124-141 | the block becomes the first free one, the safeguards pass, and the counters still agree modulo 2^32 |
| Allocators.Allocator.AccountAlloc | delegate-mq/extras/allocator/Allocator.cpp:146-151 | keeps blocks, counts and statistics in step when Allocate is bypassed |
| Allocators.Allocator.ClientMayWrite | delegate-mq/extras/allocator/Allocator.cpp:156-161 | whatever a client writes into its block, the free list is untouched |
| SizeClass.SmearDoubles | delegate-mq/extras/allocator/xallocator.cpp:114-115 | one round of smearing doubles the ones at the top of the number |
| SizeClass.NextHigher | delegate-mq/extras/allocator/xallocator.cpp:110-117 | the loop computes the specified rounding, in unsigned arithmetic of any width |
| SizeClass.RoundUpIs | delegate-mq/extras/allocator/xallocator.cpp:106-117 | it is the least power of two not below k for 1 <= k <= 2^(w-1), and zero for every other k |
| XAllocators.ClassFitsIff | delegate-mq/extras/allocator/xallocator.cpp:297-301 | the block size holds request, header and footer if and only if their sum does not exceed 2^63 |
| XAllocators.HugeRequestGetsNothing | delegate-mq/extras/allocator/xallocator.cpp:297-301 | for larger sums that still fit in 64 bits the size computed is zero |
| XAllocators.XAllocator.FindAllocator | delegate-mq/extras/allocator/xallocator.cpp:196-208 | finds the allocator of a block size if there is one |
| XAllocators.XAllocator.InsertAllocator | delegate-mq/extras/allocator/xallocator.cpp:213-224 | appends it, unless 15 are there already |
| XAllocators.XAllocator.GetAllocator | delegate-mq/extras/allocator/xallocator.cpp:297-341 | the allocator for a request, made on demand, with blocks large enough; null stands for the assertion of lines 323-328 and is given exactly when no allocator has the block size and the table is full |
| XAllocators.XAllocator.SetBlockAllocator | delegate-mq/extras/allocator/xallocator.cpp:152-165 | the header takes the cell that was the block's link, and every allocator stays valid |
| XAllocators.XAllocator.GetBlockAllocator | delegate-mq/extras/allocator/xallocator.cpp:170-182 | the header of a block in use names the allocator that issued it |
| XAllocators.XAllocator.Contained | delegate-mq/extras/allocator/xallocator.cpp:146-165 | whatever is written inside one block in use, all free lists and all other headers survive |
| XAllocators.XAllocator.Xmalloc | delegate-mq/extras/allocator/xallocator.cpp:347-396 | a block that nobody was using, with enough usable bytes, unless that assertion fails: the one freed last when the allocator of its class has a free block, with no memory taken from the heap, and otherwise a new one, taking exactly one block; no other free list changes, and every other block in use keeps its cells |
| XAllocators.XAllocator.Xfree | delegate-mq/extras/allocator/xallocator.cpp:401-420 | the block becomes the first free one of the allocator that issued it; every other block in use stays in use and keeps its cells |
| XAllocators.FreedComesBack | delegate-mq/extras/allocator/xallocator.cpp:358-366 | a request made directly after a block of its class was freed gets that block, and takes no memory |
| XAllocators.Serves | delegate-mq/extras/allocator/xallocator.cpp:347-420 | over any sequence of allocating and freeing blocks of one class, the memory taken from the heap is the block size times the largest number of blocks held at one time (`PeakIs`) |
| XAllocators.XAllocator.ClientWrites | delegate-mq/extras/allocator/xallocator.cpp:152-165 | clients may write anything behind the headers of their blocks |
| XAllocators.XAllocator.Copy | delegate-mq/extras/allocator/xallocator.cpp:446 | copies the bytes and nothing else |
| XAllocators.XAllocator.Xrealloc | delegate-mq/extras/allocator/xallocator.cpp:425-456 | keeps the first min(old usable size, new size) bytes and gives the old block back, or changes nothing if no new block could be had; a new size of 0 only frees, with a null result; every other block in use stays in use and keeps its cells |
| Crc16.FeedInjective | delegate-mq/extras/util/crc16.h:68-84 | feeding a bit string is injective in the initial register |
| Crc16.BurstDetected | delegate-mq/extras/util/crc16.h:68-84 | two bit strings of equal length that differ only within 16 consecutive bits never have the same CRC, for any initial value |
| Crc16.MessageBurstDetected | delegate-mq/extras/util/crc16.h:68-84 | the same for messages of bytes |
| Crc16.AppendedCheckIff | delegate-mq/extras/util/crc16.h:68-84 | two bytes appended to a message give CRC 0 exactly when they are its CRC, high byte first |
| Crc16.Crc16Loop | delegate-mq/extras/util/crc16.h:68-84 | the bit-by-bit form feeds the message's bits, high bit first, into the register of x^16 + x^12 + x^5 + 1 |
| Crc16Table.EntryIsEight | delegate-mq/extras/util/crc16.h:24-51 | each of the 256 table entries is eight polynomial steps |
| Crc16Table.TableStep | delegate-mq/extras/util/crc16.h:58-60 | one table lookup feeds the eight bits of a byte |
| Crc16Table.Crc16CalcBlock | delegate-mq/extras/util/crc16.h:56-61 | the table form equals the bit-by-bit form for every message and initial value |

## Left out

- The engine over plain state maps (no guards, entries or exits) is the flat engine without those columns.
- Exit and entry actions that raise events: the original asserts against them; here they raise none.
- Events raised from signal subscribers, and event functions called from inside a running action.
- `PARENT_TRANSITION`, which chooses its target on the caller's thread before marshalling.
- Scripts of answers cut a run off after any finite number of steps; endless runs are covered by all their prefixes.
- StateMachineHSM.ExternalEvent: models the machine's own thread; marshalling to it is in `ActiveObject.dfy`.
- StateMachineHSM.StepFaultsIff: does not model the assertion against events raised by entry and exit actions, since here they raise none.
- Other traffic on the machine's thread than event functions, and the refusal of messages by anything but a full queue.
- Retry: one `Process` runs at a time, and a TIMEOUT subscriber other than the retry monitor sends nothing. Each critical section is a step, and what other threads do falls between two of them in any order; a report or a signal to subscribers, and the note of a physical send, are made with the section next to them, since they change no shared state.
- RetryRuns.RunSound: a key may be submitted again only when nothing deals with it; submitting a tracked key overwrites its stored message, which the original does not detect. Sequence numbers are the caller's; the original draws them from one 16-bit counter, so two messages in flight under one number, as in `AckMisses`, need it to wrap around.
- RetryMonitors.RetryMonitor.SendWithRetry: only acknowledgements fall into the sends of these methods; the other interleavings are those of `RetryRuns.dfy`.
- RetrySpec.ProcessDrains: the clock stands still during one `Process`.
- AsyncWaitThread.StepGood: the exit message of the thread and the limit of its queue are not modelled, except that a message may be refused or cancelled at any time.
- AsyncWait.EveryCallIsLegal: condition variables and memory order are not modelled; each critical section and each semaphore operation is one step.
- Remote calls made on the network thread itself, which do not wait.
- Copy and move construction of multicast containers, which start from an empty list.
- MulticastDelegates.MulticastDelegate.Broadcast: the callback script is finite, after which callbacks do nothing, and moves no list out of its own container; that step is `MoveFrom`, after which only an exception ends the broadcast properly. `EmptyNodeSurvives` is therefore put together from the steps of two broadcasts. Clones always succeed.
- Timers.TimerList.ProcessTimers: a snapshot is one callback here, where several subscribers may stand behind it; in builds that assert instead of throwing the program halts there; and commands for a timer that no longer exists do nothing.
- Allocators.Allocator.Allocate: does not model the new-handler loop on an exhausted pool, which ends in an assertion when there is no handler; it gives 0 there.
- Static pools behind `xmalloc`, and the guard words that safeguards put into headers and footers (the footer's size is modelled).
- XAllocators.XAllocator.Xmalloc: requires request, header and footer to fit in 2^63, where the original computes a block that is too small; the allocator table is a sequence of at most 15 instead of a null-terminated array; creating an allocator and taking a block from the heap are single steps rather than guarded by a lock. A result of 0 stands for the failed assertion on a full table.
- Allocators.Heap.New: a request to the process heap never fails, and memory is not returned to it.
- The CRC table is held as 16 rows of 16 entries.
- Sockets, serial ports, serializers, streams, thread pools and operating system ports.
- Delegate class hierarchies, signals and their connections, data bus registries: lookups and ownership without a hard claim.
