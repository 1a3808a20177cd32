/** Active-object mode (BEGIN_TRANSITION_MAP in state-machine/StateMachine.h): an event function called on any other
    thread posts the whole call to the machine's queue; the transition is looked up when the call is
    dispatched, and the engine then runs until no event is pending.  Any number of producers may post at
    any moment, also between two iterations of the engine's loop. */
module ActiveObjects {
  import opened Common
  import opened StateMachine
  import opened StateMachineHSM

  datatype Priority = NORMAL | HIGH

  /** A call of an event function: who called, with which priority its message is queued, the function's
      transition map, and the event data. */
  datatype Call = Call(producer: nat, priority: Priority, transitions: seq<uint8>, data: Option<EventData>)

  /** What user code answers while the engine runs one call. */
  type Script = seq<Answer>

  /** A call that was run: what the lookup saw and what it gave. */
  datatype Done = Done(call: Call, state: uint8, target: uint8, script: Script, queued: bool)

  /** What the machine's thread is doing. */
  datatype Frame = Idle | Running(call: Call, state: uint8, target: uint8, answers: Script, queued: bool)

  /** `None` is a failed assertion, which halts the machine's thread. */
  datatype World = World(engine: Option<Engine>, frame: Frame, high: seq<Call>, normal: seq<Call>, done: seq<Done>)

  datatype Step =
    | Post(call: Call, accepted: bool)  // another thread calls; a full queue may refuse the message
    | Inline(call: Call)                // the machine's own thread calls, outside the engine
    | Dispatch                          // the machine's thread takes the next message
    | Iterate(answer: Answer)           // one iteration of the engine's loop
    | Return                            // no event is pending any more

  // ---------------------------------------------------------------------------------------------
  // One call, and a sequence of calls
  // ---------------------------------------------------------------------------------------------

  /** The target of a call in state `s`. */
  ghost function Target(t: Table, transitions: seq<uint8>, s: uint8): uint8
    requires WellFormed(t) && |transitions| == |t| && s < |t|
  {
    ResolutionStops(t, transitions, s, MAX_HSM_DEPTH);
    Resolve(t, transitions, s, Depth(t, transitions, s))
  }

  /** A whole call on a thread of its own: look the transition up in the current state, then run the engine. */
  ghost function Handle(t: Table, e: Engine, call: Call, script: Script): Option<Engine>
    requires WellFormed(t) && |call.transitions| == |t|
  {
    if e.current >= |t| then None
    else External(t, e, Target(t, call.transitions, e.current), call.data, script)
  }

  ghost predicate Fits(t: Table, done: seq<Done>) {
    forall d :: d in done ==> |d.call.transitions| == |t|
  }

  /** Calls made one after the other on a single thread. */
  ghost function Sequential(t: Table, e: Engine, done: seq<Done>): Option<Engine>
    requires WellFormed(t) && Fits(t, done)
  {
    if done == [] then Some(e)
    else
      var d := done[|done| - 1];
      var before := Sequential(t, e, done[..|done| - 1]);
      if before.None? then None else Handle(t, before.value, d.call, d.script)
  }

  lemma SequentialStep(t: Table, e: Engine, done: seq<Done>, d: Done)
    requires WellFormed(t) && Fits(t, done) && |d.call.transitions| == |t|
    ensures Fits(t, done + [d])
    ensures var before := Sequential(t, e, done);
      Sequential(t, e, done + [d]) == if before.None? then None else Handle(t, before.value, d.call, d.script)
  {
    assert (done + [d])[..|done|] == done;
  }

  // ---------------------------------------------------------------------------------------------
  // Interleavings
  // ---------------------------------------------------------------------------------------------

  /** The start of a call: the lookup, and recording the event. */
  ghost function Start(t: Table, e: Engine, call: Call): Option<Engine>
    requires WellFormed(t) && |call.transitions| == |t|
  {
    if e.current >= |t| then None
    else
      var target := Target(t, call.transitions, e.current);
      if target == EVENT_IGNORED then Some(e)
      else if target == CANNOT_HAPPEN then None
      else Some(e.(pending := Some(Event(target, if call.data.Some? then call.data.value else NoEventData))))
  }

  ghost function Begin(t: Table, w: World, call: Call, queued: bool): World
    requires WellFormed(t) && |call.transitions| == |t| && w.engine.Some?
  {
    var e := w.engine.value;
    var target := if e.current < |t| then Target(t, call.transitions, e.current) else CANNOT_HAPPEN;
    w.(engine := Start(t, e, call), frame := Running(call, e.current, target, [], queued))
  }

  ghost predicate Enabled(t: Table, w: World, s: Step) {
    match s
    case Post(call, _) => |call.transitions| == |t|
    case Inline(call) => w.engine.Some? && w.frame.Idle? && |call.transitions| == |t|
    case Dispatch => w.engine.Some? && w.frame.Idle? && w.high + w.normal != []
                     && forall c :: c in w.high + w.normal ==> |c.transitions| == |t|
    case Iterate(_) => w.engine.Some? && w.frame.Running? && w.engine.value.pending.Some?
    case Return => w.engine.Some? && w.frame.Running? && w.engine.value.pending.None?
  }

  /** One step.  Messages of high priority are taken first; each lane is first in, first out. */
  ghost function Next(t: Table, w: World, s: Step): World
    requires WellFormed(t) && Enabled(t, w, s)
  {
    match s
    case Post(call, accepted) =>
      if !accepted then w
      else if call.priority.HIGH? then w.(high := w.high + [call]) else w.(normal := w.normal + [call])
    case Inline(call) => Begin(t, w, call, false)
    case Dispatch =>
      if w.high != [] then Begin(t, w.(high := w.high[1..]), w.high[0], true)
      else Begin(t, w.(normal := w.normal[1..]), w.normal[0], true)
    case Iterate(answer) =>
      w.(engine := HsmStep(t, w.engine.value, answer), frame := w.frame.(answers := w.frame.answers + [answer]))
    case Return =>
      var f := w.frame;
      w.(frame := Idle, done := w.done + [Done(f.call, f.state, f.target, f.answers, f.queued)])
  }

  /** `ws` is a run: each world follows from the one before it by an enabled step. */
  ghost predicate IsRun(t: Table, e: Engine, steps: seq<Step>, ws: seq<World>)
    requires WellFormed(t)
  {
    && |ws| == |steps| + 1 && ws[0] == World(Some(e), Idle, [], [], [])
    && forall i {:trigger steps[i]} :: 0 <= i < |steps| ==>
         Enabled(t, ws[i], steps[i]) && ws[i + 1] == Next(t, ws[i], steps[i])
  }

  // ---------------------------------------------------------------------------------------------
  // Between calls the machine is where the calls, one after the other, would have put it
  // ---------------------------------------------------------------------------------------------

  lemma {:induction false} HsmRunAppend(t: Table, e: Engine, script: Script, a: Answer)
    requires HsmRun(t, e, script).Some? && HsmRun(t, e, script).value.pending.Some?
    ensures HsmRun(t, e, script + [a]) == HsmStep(t, HsmRun(t, e, script).value, a)
    decreases |script|
  {
    if script == [] {
      var r := HsmStep(t, e, a);
      assert ([a])[1..] == [] && script + [a] == [a];
      assert r.Some? ==> HsmRun(t, r.value, []) == r;
    } else {
      assert (script + [a])[0] == script[0] && (script + [a])[1..] == script[1..] + [a];
      HsmRunAppend(t, HsmStep(t, e, script[0]).value, script[1..], a);
    }
  }

  /** A call that was just started is the call run with no answers yet. */
  lemma StartIsHandle(t: Table, e: Engine, call: Call)
    requires WellFormed(t) && |call.transitions| == |t|
    ensures Start(t, e, call) == Handle(t, e, call, [])
  {
    hide Target;
  }

  /** One more iteration is one more answer. */
  lemma IterateIsHandle(t: Table, e: Engine, call: Call, answers: Script, a: Answer)
    requires WellFormed(t) && |call.transitions| == |t| && e.pending.None?
    requires Handle(t, e, call, answers).Some? && Handle(t, e, call, answers).value.pending.Some?
    ensures Handle(t, e, call, answers + [a]) == HsmStep(t, Handle(t, e, call, answers).value, a)
  {
    hide Target;
    var target := Target(t, call.transitions, e.current);
    if target != EVENT_IGNORED {
      var data := if call.data.Some? then call.data.value else NoEventData;
      HsmRunAppend(t, e.(pending := Some(Event(target, data))), answers, a);
    }
  }

  /** What was looked up when a call was dispatched: the state at that moment. */
  ghost predicate LooksUp(t: Table, e: Engine, call: Call, state: uint8, target: uint8)
    requires WellFormed(t) && |call.transitions| == |t|
  {
    state == e.current && state < |t| && target == Target(t, call.transitions, state)
  }

  /** Every call in the history was looked up in the state the calls before it had led to. */
  ghost predicate LookedUp(t: Table, e: Engine, done: seq<Done>)
    requires WellFormed(t) && Fits(t, done)
  {
    done == [] ||
    var n := |done| - 1;
    var before := Sequential(t, e, done[..n]);
    && LookedUp(t, e, done[..n])
    && before.Some? && LooksUp(t, before.value, done[n].call, done[n].state, done[n].target)
  }

  /** The machine is where the calls run so far would have put it; in the middle of a call, where that call
      with the answers given so far would have put it. */
  ghost predicate InStep(t: Table, e: Engine, w: World)
    requires WellFormed(t)
  {
    && Fits(t, w.done) && LookedUp(t, e, w.done)
    && var base := Sequential(t, e, w.done);
    && base.Some? && base.value.pending.None?
    && match w.frame
       case Idle => w.engine == base
       case Running(call, state, target, answers, _) =>
         && |call.transitions| == |t| && w.engine == Handle(t, base.value, call, answers)
         && (w.engine.Some? ==> LooksUp(t, base.value, call, state, target))
  }

  lemma BeginInStep(t: Table, e: Engine, w: World, call: Call, queued: bool)
    requires WellFormed(t) && InStep(t, e, w) && w.frame.Idle? && w.engine.Some? && |call.transitions| == |t|
    ensures InStep(t, e, Begin(t, w, call, queued))
  {
    hide Target, Sequential, LookedUp, Handle;
    StartIsHandle(t, w.engine.value, call);
  }

  lemma ReturnInStep(t: Table, e: Engine, w: World)
    requires WellFormed(t) && InStep(t, e, w) && Enabled(t, w, Return)
    ensures InStep(t, e, Next(t, w, Return))
  {
    hide Target, Sequential, Handle, LooksUp;
    var f := w.frame;
    var d := Done(f.call, f.state, f.target, f.answers, f.queued);
    SequentialStep(t, e, w.done, d);
    assert (w.done + [d])[..|w.done|] == w.done;
  }

  lemma StepInStep(t: Table, e: Engine, w: World, s: Step)
    requires WellFormed(t) && InStep(t, e, w) && Enabled(t, w, s)
    ensures InStep(t, e, Next(t, w, s))
  {
    hide Target, Sequential, LookedUp, Handle, LooksUp, HsmStep;
    match s {
      case Post(_, _) =>
      case Inline(call) => BeginInStep(t, e, w, call, false);
      case Dispatch =>
        if w.high != [] {
          assert w.high[0] in w.high + w.normal;
          BeginInStep(t, e, w.(high := w.high[1..]), w.high[0], true);
        } else {
          assert w.normal[0] in w.high + w.normal;
          BeginInStep(t, e, w.(normal := w.normal[1..]), w.normal[0], true);
        }
      case Iterate(answer) =>
        IterateIsHandle(t, Sequential(t, e, w.done).value, w.frame.call, w.frame.answers, answer);
      case Return => ReturnInStep(t, e, w);
    }
  }

  /** For every interleaving of posts, dispatches and engine iterations, at every moment: between calls the
      machine is exactly where the calls run so far, one after the other, would have put it, every one of
      them looked up in the state it found; a call in progress is where it would be on a thread of its own. */
  lemma {:induction false} Serialised(t: Table, e: Engine, steps: seq<Step>, ws: seq<World>, i: nat)
    requires WellFormed(t) && IsRun(t, e, steps, ws) && i <= |steps| && e.pending.None?
    ensures InStep(t, e, ws[i])
    decreases i
  {
    hide InStep, Next, Enabled;
    if i == 0 {
      StartsInStep(t, e);
    } else {
      Serialised(t, e, steps, ws, i - 1);
      StepInStep(t, e, ws[i - 1], steps[i - 1]);
    }
  }

  lemma StartsInStep(t: Table, e: Engine)
    requires WellFormed(t) && e.pending.None?
    ensures InStep(t, e, World(Some(e), Idle, [], [], []))
  {
  }

  // ---------------------------------------------------------------------------------------------
  // The queue
  // ---------------------------------------------------------------------------------------------

  function Lane(w: World, p: Priority): seq<Call> {
    if p.HIGH? then w.high else w.normal
  }

  /** The calls of one priority that were taken from the queue, the one in progress included. */
  function Taken(done: seq<Done>, p: Priority): seq<Call> {
    if done == [] then []
    else
      var d := done[|done| - 1];
      Taken(done[..|done| - 1], p) + if d.queued && d.call.priority == p then [d.call] else []
  }

  function Current(w: World, p: Priority): seq<Call> {
    if w.frame.Running? && w.frame.queued && w.frame.call.priority == p then [w.frame.call] else []
  }

  /** The calls of one priority that the queue accepted, in the order in which they were posted. */
  function Posted(steps: seq<Step>, p: Priority): seq<Call> {
    if steps == [] then []
    else
      var s := steps[|steps| - 1];
      Posted(steps[..|steps| - 1], p) + Appends(s, p)
  }

  function From(producer: nat, calls: seq<Call>): seq<Call> {
    if calls == [] then []
    else
      var c := calls[|calls| - 1];
      From(producer, calls[..|calls| - 1]) + if c.producer == producer then [c] else []
  }

  lemma TakenStep(done: seq<Done>, d: Done, p: Priority)
    ensures Taken(done + [d], p) == Taken(done, p) + if d.queued && d.call.priority == p then [d.call] else []
  {
    assert (done + [d])[..|done|] == done;
  }

  lemma PostedStep(steps: seq<Step>, i: nat, p: Priority)
    requires i < |steps|
    ensures Posted(steps[..i + 1], p) == Posted(steps[..i], p) + Appends(steps[i], p)
  {
    assert steps[..i + 1][..i] == steps[..i];
  }

  /** The lanes hold calls of their own priority. */
  ghost predicate Sorted(w: World) {
    && (forall c :: c in w.high ==> c.priority == HIGH)
    && (forall c :: c in w.normal ==> c.priority == NORMAL)
  }

  /** What a step appends to the calls of priority `p` that the queue has accepted. */
  function Appends(s: Step, p: Priority): seq<Call> {
    if s.Post? && s.accepted && s.call.priority == p then [s.call] else []
  }

  /** All calls of one priority that the queue has accepted so far. */
  function All(w: World, p: Priority): seq<Call> {
    Taken(w.done, p) + Current(w, p) + Lane(w, p)
  }

  lemma PostQueues(t: Table, w: World, call: Call, accepted: bool, p: Priority)
    requires WellFormed(t) && Enabled(t, w, Post(call, accepted)) && Sorted(w)
    ensures var w' := Next(t, w, Post(call, accepted));
      Sorted(w') && All(w', p) == All(w, p) + Appends(Post(call, accepted), p)
  {
    hide Taken;
    var q := Taken(w.done, p) + Current(w, p);
    assert q + (Lane(w, p) + [call]) == q + Lane(w, p) + [call];
  }

  lemma DispatchQueues(t: Table, w: World, p: Priority)
    requires WellFormed(t) && Enabled(t, w, Dispatch) && Sorted(w)
    ensures Sorted(Next(t, w, Dispatch)) && All(Next(t, w, Dispatch), p) == All(w, p)
  {
    hide Taken, Target, Start;
    var lane := if w.high != [] then w.high else w.normal;
    assert lane[0] in w.high || lane[0] in w.normal;
    assert lane == [lane[0]] + lane[1..];
    assert Taken(w.done, p) + [lane[0]] + lane[1..] == Taken(w.done, p) + [] + lane;
  }

  lemma ReturnQueues(t: Table, w: World, p: Priority)
    requires WellFormed(t) && Enabled(t, w, Return) && Sorted(w)
    ensures Sorted(Next(t, w, Return)) && All(Next(t, w, Return), p) == All(w, p)
  {
    hide Taken;
    var f := w.frame;
    TakenStep(w.done, Done(f.call, f.state, f.target, f.answers, f.queued), p);
    assert Taken(w.done, p) + Current(w, p) + [] == Taken(w.done, p) + Current(w, p);
  }

  lemma StepQueues(t: Table, w: World, s: Step, p: Priority)
    requires WellFormed(t) && Enabled(t, w, s) && Sorted(w)
    ensures Sorted(Next(t, w, s)) && All(Next(t, w, s), p) == All(w, p) + Appends(s, p)
  {
    hide Taken, Target, HsmStep, Start;
    match s {
      case Post(call, accepted) => PostQueues(t, w, call, accepted, p);
      case Inline(call) =>
      case Dispatch => DispatchQueues(t, w, p);
      case Iterate(answer) =>
      case Return => ReturnQueues(t, w, p);
    }
  }

  /** In each lane the calls taken, with those still waiting behind them, are exactly the calls posted, in the
      order of posting. */
  lemma {:induction false} FirstInFirstOut(t: Table, e: Engine, steps: seq<Step>, ws: seq<World>, p: Priority, i: nat)
    requires WellFormed(t) && IsRun(t, e, steps, ws) && i <= |steps|
    ensures Sorted(ws[i])
    ensures Taken(ws[i].done, p) + Current(ws[i], p) + Lane(ws[i], p) == Posted(steps[..i], p)
    decreases i
  {
    hide Next, Enabled, Sorted, Taken, Current, Lane, Posted, Appends;
    if i == 0 {
      NothingQueued(e, p, steps);
    } else {
      FirstInFirstOut(t, e, steps, ws, p, i - 1);
      StepQueues(t, ws[i - 1], steps[i - 1], p);
      PostedStep(steps, i - 1, p);
    }
  }

  lemma NothingQueued(e: Engine, p: Priority, steps: seq<Step>)
    ensures var w := World(Some(e), Idle, [], [], []);
      Sorted(w) && Taken(w.done, p) + Current(w, p) + Lane(w, p) == Posted(steps[..0], p)
  {
  }

  lemma {:induction false} FromConcat(producer: nat, a: seq<Call>, b: seq<Call>)
    ensures From(producer, a + b) == From(producer, a) + From(producer, b)
    decreases |b|
  {
    if b == [] {
      assert a + b == a;
    } else {
      assert (a + b)[..|a + b| - 1] == a + b[..|b| - 1];
      FromConcat(producer, a, b[..|b| - 1]);
    }
  }

  /** Each producer's calls of one priority are taken in the order in which it made them, without gaps. */
  lemma ProducerOrder(t: Table, e: Engine, steps: seq<Step>, ws: seq<World>, producer: nat, p: Priority, i: nat)
    requires WellFormed(t) && IsRun(t, e, steps, ws) && i <= |steps|
    ensures From(producer, Taken(ws[i].done, p) + Current(ws[i], p)) <= From(producer, Posted(steps[..i], p))
  {
    FirstInFirstOut(t, e, steps, ws, p, i);
    FromConcat(producer, Taken(ws[i].done, p) + Current(ws[i], p), Lane(ws[i], p));
  }

  // ---------------------------------------------------------------------------------------------
  // Every interleaving is a legal run of the hierarchical machine
  // ---------------------------------------------------------------------------------------------

  lemma HandleLegal(t: Table, e: Engine, call: Call, script: Script)
    requires WellFormed(t) && |call.transitions| == |t| && e.current < |t| && Handle(t, e, call, script).Some?
    ensures Handle(t, e, call, script).value.current < |t|
    ensures LegalBetween(t, e, Handle(t, e, call, script).value)
  {
    hide LegalBetween, Target;
    var target := Target(t, call.transitions, e.current);
    if target == EVENT_IGNORED {
      Unmoved(t, e, e);
    } else {
      var pending := e.(pending := Some(Event(target, if call.data.Some? then call.data.value else NoEventData)));
      RunLegal(t, pending, script);
      Unmoved(t, e, pending);
      LegalTrans(t, e, pending, HsmRun(t, pending, script).value);
    }
  }

  lemma Unmoved(t: Table, e: Engine, e': Engine)
    requires WellFormed(t) && e.trace == e'.trace && e.current == e'.current
    ensures LegalBetween(t, e, e')
  {
    assert e'.trace[|e.trace|..] == [];
  }

  lemma {:induction false} SequentialLegal(t: Table, e: Engine, done: seq<Done>)
    requires WellFormed(t) && Fits(t, done) && e.current < |t| && Sequential(t, e, done).Some?
    ensures Sequential(t, e, done).value.current < |t|
    ensures LegalBetween(t, e, Sequential(t, e, done).value)
    decreases |done|
  {
    hide LegalBetween, Handle;
    if done == [] {
      Unmoved(t, e, e);
    } else {
      var n := |done| - 1;
      SequentialLegal(t, e, done[..n]);
      var before := Sequential(t, e, done[..n]).value;
      HandleLegal(t, before, done[n].call, done[n].script);
      LegalTrans(t, e, before, Sequential(t, e, done).value);
    }
  }

  /** Whatever the producers do, the exits and entries observed are those of one legal run, also in the middle
      of a call; and between calls nothing is pending. */
  lemma AlwaysLegal(t: Table, e: Engine, steps: seq<Step>, ws: seq<World>, i: nat)
    requires WellFormed(t) && IsRun(t, e, steps, ws) && i <= |steps| && e.current < |t| && e.pending.None?
    ensures ws[i].engine.Some? ==> ws[i].engine.value.current < |t| && LegalBetween(t, e, ws[i].engine.value)
    ensures ws[i].engine.Some? && ws[i].frame.Idle? ==> ws[i].engine.value.pending.None?
  {
    hide LegalBetween, Handle, Sequential, LookedUp, IsRun;
    RunShape(t, e, steps, ws);
    Serialised(t, e, steps, ws, i);
    var w := ws[i];
    SequentialLegal(t, e, w.done);
    if w.engine.Some? && w.frame.Running? {
      var base := Sequential(t, e, w.done).value;
      HandleLegal(t, base, w.frame.call, w.frame.answers);
      LegalTrans(t, e, base, w.engine.value);
    }
  }

  lemma RunShape(t: Table, e: Engine, steps: seq<Step>, ws: seq<World>)
    requires WellFormed(t) && IsRun(t, e, steps, ws)
    ensures |ws| == |steps| + 1
  {
  }

  // ---------------------------------------------------------------------------------------------
  // Looking up when the call is made would not do
  // ---------------------------------------------------------------------------------------------

  const TWO_STATES := [Row(true, false, false, false, NO_PARENT), Row(true, false, false, false, NO_PARENT)]
  const TO_ONE: seq<uint8> := [1, EVENT_IGNORED]

  lemma TargetsOfTwo()
    ensures WellFormed(TWO_STATES) && IsFlat(TWO_STATES)
    ensures Target(TWO_STATES, TO_ONE, 0) == 1 && Target(TWO_STATES, TO_ONE, 1) == EVENT_IGNORED
  {
    forall s: uint8 | s < |TWO_STATES|
      ensures Climb(TWO_STATES, s, NO_PARENT, MAX_HSM_DEPTH).Some?
    {
      FlatClimb(TWO_STATES, s, MAX_HSM_DEPTH - 1);
    }
    ResolutionStops(TWO_STATES, TO_ONE, 0, MAX_HSM_DEPTH);
    ResolutionStops(TWO_STATES, TO_ONE, 1, MAX_HSM_DEPTH);
  }

  lemma MovesToOne()
    ensures var r := HsmStep(TWO_STATES, Engine(0, Some(Event(1, NoEventData)), []), Answer(true, None, None));
      r.Some? && r.value.current == 1 && r.value.pending == None
  {
    TargetsOfTwo();
    FlatStepAgreesIff(TWO_STATES, Engine(0, Some(Event(1, NoEventData)), []), Answer(true, None, None));
  }

  /** Two threads call the same event function while the machine is in state 0, where it leads to state 1.  By the
      time the second call is dispatched the first has moved the machine, and it is ignored. */
  lemma LookupAtPostDiffers(a: Call, b: Call) returns (steps: seq<Step>, ws: seq<World>)
    requires a == Call(1, NORMAL, TO_ONE, None) && b == Call(2, NORMAL, TO_ONE, None)
    ensures WellFormed(TWO_STATES)
    ensures IsRun(TWO_STATES, Engine(0, None, []), steps, ws)
    ensures |steps| == 7 && steps[..2] == [Post(a, true), Post(b, true)]
    ensures ws[1].engine.Some? && ws[1].engine.value.current == 0 && Target(TWO_STATES, b.transitions, 0) == 1
    ensures |ws[7].done| == 2 && ws[7].done[1].call == b && ws[7].done[1].target == EVENT_IGNORED
    ensures ws[7].engine.Some? && ws[7].engine.value.current == 1
  {
    TargetsOfTwo();
    hide Target, WellFormed, HsmStep;
    MovesToOne();
    var t, answer := TWO_STATES, Answer(true, None, None);
    var w0 := World(Some(Engine(0, None, [])), Idle, [], [], []);
    var w1 := Next(t, w0, Post(a, true));
    var w2 := Next(t, w1, Post(b, true));
    assert w2.normal == [a, b];
    var w3 := Next(t, w2, Dispatch);
    assert w3.engine == Some(Engine(0, Some(Event(1, NoEventData)), [])) && w3.normal == [b];
    var w4 := Next(t, w3, Iterate(answer));
    assert w4.engine.Some? && w4.engine.value.current == 1 && w4.engine.value.pending == None;
    var w5 := Next(t, w4, Return);
    var w6 := Next(t, w5, Dispatch);
    assert w6.engine == w5.engine && w6.frame == Running(b, 1, EVENT_IGNORED, [], true);
    var w7 := Next(t, w6, Return);
    steps := [Post(a, true), Post(b, true), Dispatch, Iterate(answer), Return, Dispatch, Return];
    ws := [w0, w1, w2, w3, w4, w5, w6, w7];
  }

  // ---------------------------------------------------------------------------------------------
  // Priorities
  // ---------------------------------------------------------------------------------------------

  /** What the machine's thread takes when it takes a message: the oldest of high priority that was posted and not
      yet taken, and only when there is none, one of normal priority. */
  lemma HighFirst(t: Table, e: Engine, steps: seq<Step>, ws: seq<World>, i: nat)
    requires WellFormed(t) && IsRun(t, e, steps, ws) && i < |steps| && steps[i] == Dispatch
    ensures |ws| == |steps| + 1 && ws[i + 1].frame.Running? && ws[i + 1].frame.queued
    ensures var call := ws[i + 1].frame.call;
      var posted, taken := Posted(steps[..i], HIGH), Taken(ws[i].done, HIGH);
      && taken <= posted
      && (if posted != taken then call.priority == HIGH && call == posted[|taken|]
          else call.priority == NORMAL && |Taken(ws[i].done, NORMAL)| < |Posted(steps[..i], NORMAL)|
               && call == Posted(steps[..i], NORMAL)[|Taken(ws[i].done, NORMAL)|])
  {
    FirstInFirstOut(t, e, steps, ws, HIGH, i);
    FirstInFirstOut(t, e, steps, ws, NORMAL, i);
    RunShape(t, e, steps, ws);
    hide Taken, Posted, Target, Start, HsmStep;
    var w := ws[i];
    assert Taken(w.done, HIGH) + [] + w.high == Taken(w.done, HIGH) + w.high;
    assert Taken(w.done, NORMAL) + [] + w.normal == Taken(w.done, NORMAL) + w.normal;
    if w.high == [] {
      assert w.normal[0] in w.normal;
    } else {
      assert w.high[0] in w.high;
    }
  }

  lemma {:induction false} PostedGrows(steps: seq<Step>, i: nat, j: nat, p: Priority)
    requires i <= j <= |steps|
    ensures Posted(steps[..i], p) <= Posted(steps[..j], p)
    decreases j
  {
    if i < j {
      PostedGrows(steps, i, j - 1, p);
      PostedStep(steps, j - 1, p);
    }
  }

  /** While a call of high priority waits, only calls of high priority that were posted before it are taken. */
  lemma OnlyHighBefore(t: Table, e: Engine, steps: seq<Step>, ws: seq<World>, p: nat, i: nat)
    requires WellFormed(t) && IsRun(t, e, steps, ws) && p < i < |steps| && steps[i] == Dispatch
    requires steps[p].Post? && steps[p].accepted && steps[p].call.priority == HIGH
    requires |ws| == |steps| + 1 && |Taken(ws[i].done, HIGH)| <= |Posted(steps[..p], HIGH)|
    ensures var posted, n := Posted(steps[..p], HIGH) + [steps[p].call], |Taken(ws[i].done, HIGH)|;
      && posted <= Posted(steps[..i], HIGH)
      && ws[i + 1].frame.Running? && ws[i + 1].frame.call == posted[n] && ws[i + 1].frame.call.priority == HIGH
  {
    PostedStep(steps, p, HIGH);
    PostedGrows(steps, p + 1, i, HIGH);
    hide Posted, Taken;
    HighFirst(t, e, steps, ws, i);
  }

  // ---------------------------------------------------------------------------------------------
  // A whole call as steps
  // ---------------------------------------------------------------------------------------------

  /** Enabled steps lead from `w` to `w'`. */
  ghost predicate Reaches(t: Table, w: World, w': World)
    requires WellFormed(t)
  {
    exists steps, ws :: IsPath(t, steps, ws) && ws[0] == w && ws[|steps|] == w'
  }

  ghost predicate IsPath(t: Table, steps: seq<Step>, ws: seq<World>)
    requires WellFormed(t)
  {
    && |ws| == |steps| + 1
    && forall i {:trigger steps[i]} :: 0 <= i < |steps| ==>
         Enabled(t, ws[i], steps[i]) && ws[i + 1] == Next(t, ws[i], steps[i])
  }

  lemma ReachesItself(t: Table, w: World)
    requires WellFormed(t)
    ensures Reaches(t, w, w)
  {
    assert IsPath(t, [], [w]);
  }

  lemma ReachesThen(t: Table, w: World, w1: World, s: Step)
    requires WellFormed(t) && Reaches(t, w, w1) && Enabled(t, w1, s)
    ensures Reaches(t, w, Next(t, w1, s))
  {
    hide Enabled, Next;
    var steps, ws :| IsPath(t, steps, ws) && ws[0] == w && ws[|steps|] == w1;
    var steps', ws' := steps + [s], ws + [Next(t, w1, s)];
    forall i | 0 <= i < |steps'|
      ensures Enabled(t, ws'[i], steps'[i]) && ws'[i + 1] == Next(t, ws'[i], steps'[i])
    {
      if i < |steps| {
        assert steps'[i] == steps[i] && ws'[i] == ws[i] && ws'[i + 1] == ws[i + 1];
      }
    }
    assert IsPath(t, steps', ws') && ws'[0] == w && ws'[|steps'|] == Next(t, w1, s);
  }

  /** The answers that a run asks for. */
  function Used(t: Table, e: Engine, script: Script): Script
    decreases |script|
  {
    if script == [] || e.pending.None? then []
    else
      var r := HsmStep(t, e, script[0]);
      [script[0]] + if r.None? then [] else Used(t, r.value, script[1..])
  }

  lemma {:induction false} RunReached(t: Table, w: World, w1: World, script: Script)
    requires WellFormed(t) && Reaches(t, w, w1) && w1.engine.Some? && w1.frame.Running?
    ensures var e, f := w1.engine.value, w1.frame;
      Reaches(t, w, w1.(engine := HsmRun(t, e, script), frame := f.(answers := f.answers + Used(t, e, script))))
    decreases |script|
  {
    hide Reaches, HsmStep;
    var e, f := w1.engine.value, w1.frame;
    if script == [] || e.pending.None? {
      assert f.answers + [] == f.answers;
      assert w1.(engine := Some(e), frame := f) == w1;
    } else {
      ReachesThen(t, w, w1, Iterate(script[0]));
      var w2 := Next(t, w1, Iterate(script[0]));
      if w2.engine.Some? {
        RunReached(t, w, w2, script[1..]);
        var rest := Used(t, w2.engine.value, script[1..]);
        assert f.answers + [script[0]] + rest == f.answers + ([script[0]] + rest);
      } else {
        assert [script[0]] + [] == [script[0]];
      }
    }
  }

  /** A call in one piece is its start and then the run of the engine. */
  lemma HandleIsRun(t: Table, e: Engine, call: Call, script: Script)
    requires WellFormed(t) && |call.transitions| == |t| && e.pending.None?
    ensures var started := Start(t, e, call);
      Handle(t, e, call, script) == if started.None? then None else HsmRun(t, started.value, script)
  {
    hide Target;
  }

  /** What is left of a call that was begun in `w` and ran to its end. */
  ghost function Finished(t: Table, w: World, call: Call, queued: bool, script: Script): World
    requires WellFormed(t) && |call.transitions| == |t| && w.engine.Some? && w.engine.value.current < |t|
    requires Start(t, w.engine.value, call).Some?
  {
    var e := w.engine.value;
    var used := Used(t, Start(t, e, call).value, script);
    World(Handle(t, e, call, script), Idle, w.high, w.normal,
          w.done + [Done(call, e.current, Target(t, call.transitions, e.current), used, queued)])
  }

  lemma CallReached(t: Table, w: World, w1: World, call: Call, queued: bool, script: Script)
    requires WellFormed(t) && |call.transitions| == |t| && w1.engine.Some? && w1.frame.Idle?
    requires w1.engine.value.pending.None? && Reaches(t, w, Begin(t, w1, call, queued))
    requires Handle(t, w1.engine.value, call, script).Some?
    requires Handle(t, w1.engine.value, call, script).value.pending.None?
    ensures w1.engine.value.current < |t| && Start(t, w1.engine.value, call).Some?
    ensures Reaches(t, w, Finished(t, w1, call, queued, script))
  {
    hide Reaches, Target, HsmRun, Used;
    HandleIsRun(t, w1.engine.value, call, script);
    var w2 := Begin(t, w1, call, queued);
    RunReached(t, w, w2, script);
    var used := Used(t, w2.engine.value, script);
    assert [] + used == used;
    var w3 := w2.(engine := HsmRun(t, w2.engine.value, script), frame := w2.frame.(answers := used));
    ReachesThen(t, w, w3, Return);
  }

  // ---------------------------------------------------------------------------------------------
  // The object
  // ---------------------------------------------------------------------------------------------

  class ActiveObject {
    const t: Table
    const m: StateMachine
    var high: seq<Call>
    var normal: seq<Call>
    /** The calls that were run to their end. */
    ghost var done: seq<Done>

    constructor (t: Table, m: StateMachine)
      requires IsTable(t) && |t| == m.maxStates
      ensures this.t == t && this.m == m && high == normal == [] && done == []
    {
      this.t, this.m, high, normal, done := t, m, [], [], [];
    }

    ghost predicate Valid()
      reads this, m
    {
      && WellFormed(t) && |t| == m.maxStates && m.Valid()
      && (forall c :: c in high ==> |c.transitions| == |t|)
      && (forall c :: c in normal ==> |c.transitions| == |t|)
    }

    /** The object between two calls, as a world of the interleavings. */
    ghost function State(): World
      requires m.Valid()
      reads this, m
    {
      World(Some(m.View()), Idle, high, normal, done)
    }

    /** An event function: its first lines marshal the whole call, everything else runs on the machine's own
        thread.  Off the thread this is the step Post; on it, Inline and the steps of the call. */
    method EventFunction(call: Call, onThread: bool, accepted: bool, script: Script) returns (faulted: bool)
      requires Valid() && |call.transitions| == |t|
      modifies this, m
      ensures Valid()
      ensures !onThread ==> !faulted && m.View() == old(m.View())
      ensures !onThread && accepted ==>
        high + normal ==
          if call.priority.HIGH? then old(high) + [call] + old(normal) else old(high) + old(normal) + [call]
      ensures !onThread ==> State() == Next(t, old(State()), Post(call, accepted))
      ensures onThread || !accepted ==> high == old(high) && normal == old(normal)
      ensures onThread ==> (faulted <==> old(Handle(t, m.View(), call, script)).None?)
      ensures onThread && !faulted ==> Some(m.View()) == old(Handle(t, m.View(), call, script))
      ensures onThread && !faulted && old(m.View()).pending.None? && m.View().pending.None? ==>
        Reaches(t, old(State()), State())
    {
      hide Handle, Reaches, Target;
      if !onThread {
        if accepted && call.priority.HIGH? {
          high := high + [call];
        } else if accepted {
          normal := normal + [call];
        }
        return false;
      }
      ghost var w := State();
      faulted := RunCall(call, script);
      if !faulted && w.engine.value.pending.None? && m.View().pending.None? {
        ReachesItself(t, w);
        ReachesThen(t, w, w, Inline(call));
        CallReached(t, w, w, call, false, script);
        done := Finished(t, w, call, false, script).done;
      }
    }

    /** The lookup, and the engine's run. */
    method RunCall(call: Call, script: Script) returns (faulted: bool)
      requires Valid() && |call.transitions| == |t|
      modifies m
      ensures Valid()
      ensures faulted <==> old(Handle(t, m.View(), call, script)).None?
      ensures !faulted ==> Some(m.View()) == old(Handle(t, m.View(), call, script))
    {
      if m.currentState >= |t| {
        return true;
      }
      ResolutionStops(t, call.transitions, m.currentState, MAX_HSM_DEPTH);
      var target := ResolveTransition(t, call.transitions, m.currentState);
      faulted := ExternalEvent(m, t, target, call.data, script);
    }

    /** The machine's thread takes the next message, one of high priority if there is any: Dispatch, and the steps
        of the call. */
    method DispatchNext(script: Script) returns (faulted: bool)
      requires Valid() && high + normal != []
      modifies this, m
      ensures Valid() && high + normal == old(high + normal)[1..]
      ensures faulted <==> old(Handle(t, m.View(), (high + normal)[0], script)).None?
      ensures !faulted ==> Some(m.View()) == old(Handle(t, m.View(), (high + normal)[0], script))
      ensures !faulted && old(m.View()).pending.None? && m.View().pending.None? ==> Reaches(t, old(State()), State())
    {
      hide Handle, Reaches, Target;
      ghost var w := State();
      var call;
      if high != [] {
        call, high := high[0], high[1..];
      } else {
        call, normal := normal[0], normal[1..];
      }
      ghost var w1 := State();
      faulted := RunCall(call, script);
      if !faulted && w.engine.value.pending.None? && m.View().pending.None? {
        ReachesItself(t, w);
        ReachesThen(t, w, w, Dispatch);
        CallReached(t, w, w1, call, true, script);
        done := Finished(t, w1, call, true, script).done;
      }
    }
  }
}
