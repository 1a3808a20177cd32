/** Blocking cross-thread calls (delegate-mq/delegate/DelegateAsyncWait.h and Semaphore.h) as a
    transition system: any number of callers, each with its own message, lock and semaphore, and
    destination threads that pop, run or discard messages in any order.  Every step is one critical
    section or one semaphore operation of one thread; timeouts may fire at any time. */
module AsyncWait {
  import opened Common

  type Id = nat

  datatype Outcome = Finished(value: int) | Threw

  /** What can be observed of one call, in order. */
  datatype Event =
    | Start                     // the target function begins on the destination thread
    | End(outcome: Outcome)     // it returns a value, or throws
    | Return(success: bool)     // the blocked caller returns
    | Read(value: Option<int>)  // the caller reads the return value

  datatype CallerPc =
    | Created                   // message built, not yet dispatched
    | Waiting                   // blocked on the semaphore
    | Leaving(waited: bool)     // the wait is over; about to take the lock
    | Returned(success: bool)
    | Done

  datatype MessagePc =
    | Unsent                    // not in any queue
    | Queued
    | Popped                    // taken by the destination thread, lock not yet taken
    | Running                   // the target runs; the lock is held
    | Ended                     // the target is over; the lock is held, the semaphore not yet signalled
    | Signalled                 // signalled; the lock is still held
    | Gone                      // the destination thread is through with it, or discarded it

  datatype Call = Call(caller: CallerPc, message: MessagePc, invokerWaiting: bool, invokeSucceeded: bool,
                       signaled: bool, retVal: Option<int>, history: seq<Event>)

  /** The call as `DispatchAsyncWait` finds it, after SetInvokerWaiting(true). */
  const NEW_CALL := Call(Created, Unsent, true, false, false, None, [])

  datatype Action =
    | Dispatch(accepted: bool)  // caller: DispatchDelegate enqueues the message, or refuses it
    | Wake                      // caller: the wait sees the semaphore signalled and resets it
    | Timeout                   // caller: the wait expires while the semaphore is not signalled
    | Leave                     // caller: under the lock, reads the result and clears invokerWaiting
    | ReadValue                 // caller: reads the return value if the call succeeded
    | Pop                       // destination: takes the message off its queue
    | Enter                     // destination: takes the lock and tests invokerWaiting
    | Finish(outcome: Outcome)  // destination: the target ends
    | SignalSema                // destination: the scope guard signals, lock still held
    | Unlock                    // destination: releases the lock
    | Cancel                    // destination: discards a queued message, signalling its sender

  predicate LockFree(c: Call) {
    !c.message.Running? && !c.message.Ended? && !c.message.Signalled?
  }

  /** One step of one call; `None` when the step is not enabled. */
  function Step(c: Call, a: Action): Option<Call> {
    match a
    case Dispatch(accepted) =>
      if !c.caller.Created? then None
      else if accepted then Some(c.(caller := Waiting, message := Queued))
      else Some(c.(caller := Leaving(false)))
    case Wake =>
      if c.caller.Waiting? && c.signaled then Some(c.(caller := Leaving(true), signaled := false)) else None
    case Timeout =>
      if c.caller.Waiting? && !c.signaled then Some(c.(caller := Leaving(false))) else None
    case Leave =>
      if c.caller.Leaving? && LockFree(c) then
        var success := c.caller.waited && c.invokeSucceeded;
        Some(c.(caller := Returned(success), invokerWaiting := false, history := c.history + [Return(success)]))
      else None
    case ReadValue =>
      if c.caller.Returned? && c.caller.success then
        Some(c.(caller := Done, history := c.history + [Read(c.retVal)]))
      else None
    case Pop =>
      if c.message.Queued? then Some(c.(message := Popped)) else None
    case Enter =>
      if !c.message.Popped? then None
      else if c.invokerWaiting then Some(c.(message := Running, history := c.history + [Start]))
      else Some(c.(message := Gone))
    case Finish(outcome) =>
      if !c.message.Running? then None
      else
        var ended := c.(message := Ended, history := c.history + [End(outcome)]);
        if outcome.Finished? then Some(ended.(retVal := Some(outcome.value), invokeSucceeded := true))
        else Some(ended)
    case SignalSema =>
      if c.message.Ended? then Some(c.(message := Signalled, signaled := true)) else None
    case Unlock =>
      if c.message.Signalled? then Some(c.(message := Gone)) else None
    case Cancel =>
      if c.message.Queued? then Some(c.(message := Gone, signaled := true)) else None
  }

  // ---------------------------------------------------------------------------------------------
  // Any number of calls
  // ---------------------------------------------------------------------------------------------

  type System = map<Id, Call>

  datatype SysStep = Begin(id: Id) | Act(id: Id, action: Action)

  function SysNext(s: System, step: SysStep): Option<System> {
    match step
    case Begin(id) => if id in s then None else Some(s[id := NEW_CALL])
    case Act(id, a) =>
      if id !in s then None
      else
        var c := Step(s[id], a);
        if c.None? then None else Some(s[id := c.value])
  }

  /** Running an interleaving; `None` if some step of it was not enabled. */
  function Run(s: System, steps: seq<SysStep>): Option<System>
    decreases |steps|
  {
    if steps == [] then Some(s)
    else
      var next := SysNext(s, steps[0]);
      if next.None? then None else Run(next.value, steps[1..])
  }

  // ---------------------------------------------------------------------------------------------
  // What every call's history looks like
  // ---------------------------------------------------------------------------------------------

  /** The only histories a call may have.  The target runs at most once; it never starts after the
      caller has returned; the caller never returns while it runs; success is reported only after it
      has finished normally, and then the caller reads the value it returned. */
  ghost predicate LegalHistory(h: seq<Event>) {
    || h == []
    || h == [Return(false)]
    || h == [Start]
    || (|h| == 2 && h[0] == Start && h[1].End?)
    || (|h| == 3 && h[0] == Start && h[1].End? && h[2].Return? && (h[2].success ==> h[1].outcome.Finished?))
    || (|h| == 4 && h[0] == Start && h[1].End? && h[1].outcome.Finished? && h[2] == Return(true)
        && h[3] == Read(Some(h[1].outcome.value)))
  }

  /** How the fields of a call are tied to what has happened. */
  ghost predicate Inv(c: Call) {
    var h := c.history;
    && LegalHistory(h)
    && c.invokerWaiting == (c.caller.Created? || c.caller.Waiting? || c.caller.Leaving?)
    && (match c.caller
        case Created => c.message.Unsent? && h == []
        case Waiting => !c.message.Unsent? && (h == [] || h == [Start] || |h| == 2)
        case Leaving(waited) =>
          && (h == [] || h == [Start] || |h| == 2)
          && (waited ==> (c.message.Signalled? || c.message.Gone?) && !c.signaled)
        case Returned(success) => (h == [Return(false)] && !success) || (|h| == 3 && h[2] == Return(success))
        case Done => |h| == 4)
    && (match c.message
        case Unsent => h == [] || h == [Return(false)]
        case Queued => h == [] || h == [Return(false)]
        case Popped => h == [] || h == [Return(false)]
        case Running => h == [Start]
        case Ended => |h| == 2
        case Signalled => |h| == 2
        case Gone => h != [Start])
    && (if |h| >= 2 && h[1].End? && h[1].outcome.Finished?
        then c.invokeSucceeded && c.retVal == Some(h[1].outcome.value)
        else !c.invokeSucceeded && c.retVal == None)
    // a signal is never early, and never lost while the caller waits for it
    && (c.signaled ==> c.message.Signalled? || c.message.Gone?)
    && (c.caller.Waiting? && (c.message.Signalled? || c.message.Gone?) ==> c.signaled)
  }

  lemma StepInv(c: Call, a: Action)
    requires Inv(c) && Step(c, a).Some?
    ensures Inv(Step(c, a).value)
  {
  }

  ghost predicate SysInv(s: System) {
    forall id :: id in s ==> Inv(s[id])
  }

  lemma SysNextInv(s: System, step: SysStep)
    requires SysInv(s) && SysNext(s, step).Some?
    ensures SysInv(SysNext(s, step).value)
  {
    if step.Act? {
      StepInv(s[step.id], step.action);
    }
  }

  /** In every interleaving of any number of calls, every call's history is legal. */
  lemma {:induction false} RunInv(s: System, steps: seq<SysStep>)
    requires SysInv(s) && Run(s, steps).Some?
    ensures SysInv(Run(s, steps).value)
    decreases |steps|
  {
    if steps != [] {
      SysNextInv(s, steps[0]);
      RunInv(SysNext(s, steps[0]).value, steps[1..]);
    }
  }

  lemma EveryCallIsLegal(steps: seq<SysStep>, id: Id)
    requires Run(map[], steps).Some? && id in Run(map[], steps).value
    ensures LegalHistory(Run(map[], steps).value[id].history)
  {
    RunInv(map[], steps);
  }

  /** A wait ends by the signal exactly when the destination thread has signalled or discarded the message, and it
      can expire exactly as long as it has not. */
  lemma WaitEndsIff(steps: seq<SysStep>, id: Id)
    requires Run(map[], steps).Some? && id in Run(map[], steps).value
    requires Run(map[], steps).value[id].caller.Waiting?
    ensures var c := Run(map[], steps).value[id];
      && (Step(c, Wake).Some? <==> c.message.Signalled? || c.message.Gone?)
      && (Step(c, Timeout).Some? <==> !(c.message.Signalled? || c.message.Gone?))
  {
    RunInv(map[], steps);
  }

  /** A call reports success exactly when its wait saw the signal and its target had finished
      normally; so an undispatched, cancelled, timed-out or throwing call reports failure. */
  lemma SuccessIff(steps: seq<SysStep>, id: Id)
    requires Run(map[], steps).Some? && id in Run(map[], steps).value
    requires Step(Run(map[], steps).value[id], Leave).Some?
    ensures var c := Run(map[], steps).value[id];
      Step(c, Leave).value.caller.success <==>
        c.caller.waited && |c.history| == 2 && c.history[1].End? && c.history[1].outcome.Finished?
  {
    RunInv(map[], steps);
  }
}
