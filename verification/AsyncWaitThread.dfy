/** Blocking calls made on one destination thread, which takes one message at a time off its two queues
    (delegate-mq/port/os/stdlib/StdlibThread.cpp): whatever it is busy with, no caller waits for ever on its account. */
module AsyncWaitThread {
  import opened Common
  import opened AsyncWait

  /** The calls, the queues by priority, and the message the thread is handling. */
  datatype World = World(calls: System, high: seq<Id>, normal: seq<Id>, current: Option<Id>)

  const IDLE := World(map[], [], [], None)

  /** Messages in the order in which they will be taken. */
  function Line(w: World): seq<Id> {
    w.high + w.normal
  }

  function Without(q: seq<Id>, id: Id): seq<Id> {
    if q == [] then []
    else (if q[0] == id then [] else [q[0]]) + Without(q[1..], id)
  }

  /** The steps of the destination thread. */
  predicate OfThread(s: SysStep) {
    s.Act? && (s.action.Pop? || s.action.Enter? || s.action.Finish? || s.action.SignalSema? || s.action.Unlock?)
  }

  predicate Enqueues(s: SysStep) {
    s.Act? && s.action == Dispatch(true)
  }

  /** May the step be taken?  The thread handles one message at a time, urgent ones first, each kind in order. */
  predicate MayTake(w: World, s: SysStep) {
    if OfThread(s) then
      if s.action.Pop? then w.current.None? && Line(w) != [] && Line(w)[0] == s.id else w.current == Some(s.id)
    else true
  }

  /** One step; `None` when it is not enabled.  `urgent` tells which calls have high priority. */
  function Next(w: World, urgent: Id -> bool, s: SysStep): Option<World> {
    var next := SysNext(w.calls, s);
    if next.None? || !MayTake(w, s) then None
    else
      var v := w.(calls := next.value);
      if Enqueues(s) then Some(if urgent(s.id) then v.(high := w.high + [s.id]) else v.(normal := w.normal + [s.id]))
      else if s.Act? && s.action.Pop? then
        Some(if w.high != [] then v.(high := w.high[1..], current := Some(s.id))
             else v.(normal := w.normal[1..], current := Some(s.id)))
      else if s.Act? && s.action.Cancel? then Some(v.(high := Without(w.high, s.id), normal := Without(w.normal, s.id)))
      else if OfThread(s) && next.value[s.id].message.Gone? then Some(v.(current := None))
      else Some(v)
  }

  function Runs(w: World, urgent: Id -> bool, steps: seq<SysStep>): Option<World>
    decreases |steps|
  {
    if steps == [] then Some(w)
    else
      var next := Next(w, urgent, steps[0]);
      if next.None? then None else Runs(next.value, urgent, steps[1..])
  }

  /** Every such run is an interleaving of the calls, so whatever holds of those holds here. */
  lemma {:induction false} RunsIsRun(w: World, urgent: Id -> bool, steps: seq<SysStep>)
    requires Runs(w, urgent, steps).Some?
    ensures Run(w.calls, steps) == Some(Runs(w, urgent, steps).value.calls)
    decreases |steps|
  {
    if steps != [] {
      RunsIsRun(Next(w, urgent, steps[0]).value, urgent, steps[1..]);
    }
  }

  // ---------------------------------------------------------------------------------------------
  // Queues
  // ---------------------------------------------------------------------------------------------

  predicate Distinct(q: seq<Id>) {
    forall i, j :: 0 <= i < j < |q| ==> q[i] != q[j]
  }

  /** How many messages of a queue come before `id`. */
  function Place(q: seq<Id>, id: Id): nat {
    if q == [] || q[0] == id then 0 else 1 + Place(q[1..], id)
  }

  lemma {:induction false} PlaceConcat(a: seq<Id>, b: seq<Id>, id: Id)
    ensures Place(a + b, id) == if id in a then Place(a, id) else |a| + Place(b, id)
  {
    if a == [] {
      assert a + b == b;
    } else {
      assert (a + b)[1..] == a[1..] + b;
      PlaceConcat(a[1..], b, id);
    }
  }

  lemma WithoutStep(q: seq<Id>, j: Id)
    requires q != []
    ensures q[0] == j ==> Without(q, j) == Without(q[1..], j)
    ensures q[0] != j ==> Without(q, j) != [] && Without(q, j)[0] == q[0] && Without(q, j)[1..] == Without(q[1..], j)
  {
  }

  lemma {:induction false} WithoutIs(q: seq<Id>, j: Id)
    ensures |Without(q, j)| <= |q|
    ensures forall x :: x in Without(q, j) <==> x in q && x != j
    ensures Distinct(q) ==> Distinct(Without(q, j))
  {
    if q != [] {
      var rest := Without(q[1..], j);
      WithoutIs(q[1..], j);
      WithoutStep(q, j);
      assert Without(q, j) == if q[0] == j then rest else [q[0]] + rest;
      if Distinct(q) {
        assert Distinct(q[1..]);
        assert q[0] !in q[1..];
      }
    }
  }

  lemma {:induction false} PlaceWithout(q: seq<Id>, j: Id, x: Id)
    requires x != j
    ensures Place(Without(q, j), x) <= Place(q, x)
  {
    hide Without;
    if q == [] {
      WithoutIs(q, j);
    } else {
      WithoutStep(q, j);
      PlaceWithout(q[1..], j, x);
    }
  }

  lemma {:induction false} WithoutConcat(a: seq<Id>, b: seq<Id>, j: Id)
    ensures Without(a + b, j) == Without(a, j) + Without(b, j)
  {
    if a == [] {
      assert a + b == b;
    } else {
      assert (a + b)[1..] == a[1..] + b;
      WithoutConcat(a[1..], b, j);
    }
  }

  // ---------------------------------------------------------------------------------------------
  // What the thread keeps
  // ---------------------------------------------------------------------------------------------

  predicate Handled(m: MessagePc) {
    m.Popped? || m.Running? || m.Ended? || m.Signalled?
  }

  /** Exactly the queued messages are in line, each once, and the thread handles exactly the current one. */
  ghost predicate Scheduled(calls: System, line: seq<Id>, current: Option<Id>) {
    && Distinct(line) && (current.Some? ==> current.value in calls)
    && (forall id :: id in line ==> id in calls)
    && (forall id :: id in calls ==> (calls[id].message.Queued? <==> id in line))
    && (forall id :: id in calls ==> (Handled(calls[id].message) <==> current == Some(id)))
  }

  ghost predicate Inv(w: World) {
    SysInv(w.calls) && Scheduled(w.calls, Line(w), w.current)
  }

  /** Steps of the thread until it is through with a message that it handles. */
  function Left(m: MessagePc): nat {
    match m
    case Popped => 4
    case Running => 3
    case Ended => 2
    case Signalled => 1
    case _ => 0
  }

  /** Steps of the thread until it is through with the message of a call, if no urgent one comes between. */
  function Ahead(calls: System, line: seq<Id>, current: Option<Id>, id: Id): nat
    requires id in calls && (current.Some? ==> current.value in calls)
  {
    if calls[id].message.Queued? then
      5 * Place(line, id) + 5 + if current.Some? then Left(calls[current.value].message) else 0
    else Left(calls[id].message)
  }

  ghost function Wait(w: World, id: Id): nat
    requires Inv(w) && id in w.calls
  {
    Ahead(w.calls, Line(w), w.current, id)
  }

  lemma TakeNext(calls: System, line: seq<Id>, id: Id)
    requires Scheduled(calls, line, None) && line != [] && line[0] == id
    ensures calls[id].message.Queued?
    ensures var calls' := calls[id := calls[id].(message := Popped)];
      && Scheduled(calls', line[1..], Some(id))
      && forall x :: x in calls && !calls[x].message.Unsent? ==>
        || Ahead(calls', line[1..], Some(id), x) + 1 <= Ahead(calls, line, None, x)
        || Ahead(calls', line[1..], Some(id), x) == 0
  {
  }

  /** The thread moves on with the message that it handles. */
  lemma Handle(calls: System, line: seq<Id>, id: Id, c: Call, current: Option<Id>)
    requires Scheduled(calls, line, Some(id))
    requires Left(c.message) < Left(calls[id].message)
    requires if c.message.Gone? then current == None else Handled(c.message) && current == Some(id)
    ensures var calls' := calls[id := c];
      && Scheduled(calls', line, current)
      && forall x :: x in calls && !calls[x].message.Unsent? ==>
        Ahead(calls', line, current, x) + 1 <= Ahead(calls, line, Some(id), x) || Ahead(calls', line, current, x) == 0
  {
  }

  lemma Discard(calls: System, line: seq<Id>, current: Option<Id>, id: Id, c: Call)
    requires Scheduled(calls, line, current) && id in line && c.message.Gone?
    ensures var calls' := calls[id := c];
      && Scheduled(calls', Without(line, id), current)
      && forall x :: x in calls && !calls[x].message.Unsent? ==>
        Ahead(calls', Without(line, id), current, x) <= Ahead(calls, line, current, x)
  {
    WithoutIs(line, id);
    forall x | x in calls && x != id
      ensures Place(Without(line, id), x) <= Place(line, x)
    {
      PlaceWithout(line, id, x);
    }
  }

  lemma Inserted(a: seq<Id>, b: seq<Id>, id: Id)
    requires Distinct(a + b) && id !in a + b
    ensures Distinct(a + [id] + b)
    ensures forall x :: x in a + [id] + b <==> x in a + b || x == id
    ensures forall x :: x in a + b ==> Place(a + [id] + b, x) <= Place(a + b, x) + if x in a then 0 else 1
  {
    var q := a + [id] + b;
    assert forall i :: 0 <= i < |a| ==> q[i] == (a + b)[i];
    assert forall i :: |a| < i < |q| ==> q[i] == (a + b)[i - 1];
    forall x | x in a + b
      ensures Place(q, x) <= Place(a + b, x) + if x in a then 0 else 1
    {
      PlaceConcat(a, b, x);
      PlaceConcat(a, [id] + b, x);
      assert q == a + ([id] + b) && ([id] + b)[1..] == b;
    }
  }

  /** A message is put in line after `a` and before `b`. */
  lemma Queue(calls: System, a: seq<Id>, b: seq<Id>, current: Option<Id>, id: Id, c: Call)
    requires Scheduled(calls, a + b, current) && id in calls && calls[id].message.Unsent? && c.message.Queued?
    ensures var calls' := calls[id := c];
      && Scheduled(calls', a + [id] + b, current)
      && forall x :: x in calls && !calls[x].message.Unsent? ==>
        Ahead(calls', a + [id] + b, current, x) <= Ahead(calls, a + b, current, x) + if x in b then 5 else 0
  {
    assert id !in a + b;
    Inserted(a, b, id);
    hide Distinct, Place;
  }

  /** Steps that leave the message alone. */
  lemma Aside(calls: System, line: seq<Id>, current: Option<Id>, id: Id, c: Call)
    requires Scheduled(calls, line, current)
    requires if id in calls then c.message == calls[id].message else c.message.Unsent?
    ensures var calls' := calls[id := c];
      && Scheduled(calls', line, current)
      && forall x :: x in calls ==> Ahead(calls', line, current, x) == Ahead(calls, line, current, x)
  {
  }

  /** How much one step can set a call back: only an urgent message that passes it does. */
  function Setback(urgent: Id -> bool, s: SysStep, id: Id): nat {
    if Enqueues(s) && urgent(s.id) && !urgent(id) then 5 else 0
  }

  /** Urgent calls, and only they, are in the queue of urgent messages. */
  ghost predicate Sorted(w: World, urgent: Id -> bool) {
    (forall id :: id in w.high ==> urgent(id)) && (forall id :: id in w.normal ==> !urgent(id))
  }

  ghost predicate Good(w: World, urgent: Id -> bool) {
    Inv(w) && Sorted(w, urgent)
  }

  /** Only a call that is still in line can be set back. */
  function Slack(w: World, n: nat, id: Id): nat
    requires id in w.calls
  {
    if w.calls[id].message.Queued? then n else 0
  }

  lemma NotSentYet(w: World, id: Id)
    requires Inv(w) && id in w.calls && w.calls[id].caller.Created?
    ensures w.calls[id].message.Unsent?
  {
    assert AsyncWait.Inv(w.calls[id]);
  }

  lemma InLine(w: World, id: Id)
    requires Inv(w) && id in w.calls && w.calls[id].message.Queued?
    ensures id in Line(w)
  {
  }

  lemma LinePopped(w: World)
    requires Line(w) != []
    ensures Line(w)[1..] == if w.high != [] then w.high[1..] + w.normal else w.high + w.normal[1..]
  {
    if w.high == [] {
      assert Line(w) == w.normal;
    }
  }

  lemma StepSorted(w: World, urgent: Id -> bool, s: SysStep)
    requires Sorted(w, urgent) && Next(w, urgent, s).Some?
    ensures Sorted(Next(w, urgent, s).value, urgent)
  {
    hide Step, Without;
    if s.Act? {
      WithoutIs(w.high, s.id);
      WithoutIs(w.normal, s.id);
    }
  }

  /** What one step means for a call. */
  ghost predicate Nearer(w: World, v: World, urgent: Id -> bool, s: SysStep, x: Id)
    requires Inv(w) && Inv(v) && x in w.calls && x in v.calls
  {
    && !v.calls[x].message.Unsent?
    && (|| Wait(v, x) == 0
        || Wait(v, x) + (if OfThread(s) then 1 else 0) <= Wait(w, x) + Slack(w, Setback(urgent, s, x), x))
  }

  lemma Enqueued(w: World, urgent: Id -> bool, s: SysStep)
    requires Good(w, urgent) && Next(w, urgent, s).Some? && Enqueues(s)
    ensures var v := Next(w, urgent, s).value;
      && Inv(v) && w.calls.Keys <= v.calls.Keys
      && forall x :: x in w.calls && !w.calls[x].message.Unsent? ==> Nearer(w, v, urgent, s, x)
  {
    hide Scheduled, SysInv, Ahead;
    var v := Next(w, urgent, s).value;
    SysNextInv(w.calls, s);
    NotSentYet(w, s.id);
    if urgent(s.id) {
      Queue(w.calls, w.high, w.normal, w.current, s.id, v.calls[s.id]);
      forall x | x in w.calls && x in w.normal
        ensures w.calls[x].message.Queued?
      {
        assert x in Line(w);
        QueuedIf(w, x);
      }
    } else {
      assert Line(w) + [] == Line(w) && Line(v) == Line(w) + [s.id] + [];
      Queue(w.calls, Line(w), [], w.current, s.id, v.calls[s.id]);
    }
  }

  lemma QueuedIf(w: World, x: Id)
    requires Inv(w) && x in Line(w) && x in w.calls
    ensures w.calls[x].message.Queued?
  {
  }

  /** One step keeps the queues in order, and the thread's own steps bring every call nearer its turn. */
  lemma StepGood(w: World, urgent: Id -> bool, s: SysStep)
    requires Good(w, urgent) && Next(w, urgent, s).Some?
    ensures var v := Next(w, urgent, s).value;
      && Good(v, urgent) && w.calls.Keys <= v.calls.Keys
      && forall x :: x in w.calls && !w.calls[x].message.Unsent? ==> Nearer(w, v, urgent, s, x)
  {
    hide Scheduled, SysInv, Ahead, Without, Sorted, Slack;
    var v := Next(w, urgent, s).value;
    StepSorted(w, urgent, s);
    SysNextInv(w.calls, s);
    if Enqueues(s) {
      Enqueued(w, urgent, s);
    } else if s.Begin? {
      Aside(w.calls, Line(w), w.current, s.id, NEW_CALL);
    } else if s.action.Pop? {
      LinePopped(w);
      TakeNext(w.calls, Line(w), s.id);
    } else if OfThread(s) {
      Handle(w.calls, Line(w), s.id, v.calls[s.id], v.current);
    } else if s.action.Cancel? {
      InLine(w, s.id);
      WithoutConcat(w.high, w.normal, s.id);
      Discard(w.calls, Line(w), w.current, s.id, v.calls[s.id]);
    } else {
      Aside(w.calls, Line(w), w.current, s.id, v.calls[s.id]);
    }
  }

  // ---------------------------------------------------------------------------------------------
  // Whole runs
  // ---------------------------------------------------------------------------------------------

  function ThreadSteps(steps: seq<SysStep>): nat {
    if steps == [] then 0 else (if OfThread(steps[0]) then 1 else 0) + ThreadSteps(steps[1..])
  }

  function Setbacks(urgent: Id -> bool, steps: seq<SysStep>, id: Id): nat {
    if steps == [] then 0 else Setback(urgent, steps[0], id) + Setbacks(urgent, steps[1..], id)
  }

  lemma {:induction false} RunsGood(w: World, urgent: Id -> bool, steps: seq<SysStep>)
    requires Good(w, urgent) && Runs(w, urgent, steps).Some?
    ensures Good(Runs(w, urgent, steps).value, urgent) && w.calls.Keys <= Runs(w, urgent, steps).value.calls.Keys
    decreases |steps|
  {
    hide Good, Next;
    if steps != [] {
      StepGood(w, urgent, steps[0]);
      RunsGood(Next(w, urgent, steps[0]).value, urgent, steps[1..]);
    }
  }

  lemma GoodStart(urgent: Id -> bool)
    ensures Good(IDLE, urgent)
  {
  }

  /** Every step of the thread brings a message nearer its end, whatever else happens meanwhile. */
  lemma {:induction false} Progress(w: World, urgent: Id -> bool, steps: seq<SysStep>, id: Id)
    requires Good(w, urgent) && Runs(w, urgent, steps).Some? && id in w.calls && !w.calls[id].message.Unsent?
    ensures var v := Runs(w, urgent, steps).value;
      && Good(v, urgent) && id in v.calls && !v.calls[id].message.Unsent?
      && (|| Wait(v, id) == 0
          || Wait(v, id) + ThreadSteps(steps) <= Wait(w, id) + Slack(w, Setbacks(urgent, steps, id), id))
      && (Wait(w, id) == 0 ==> Wait(v, id) == 0)
    decreases |steps|
  {
    if steps != [] {
      StepGood(w, urgent, steps[0]);
      var v := Next(w, urgent, steps[0]).value;
      hide Next, Good, Inv;
      Progress(v, urgent, steps[1..], id);
    }
  }

  /** What the thread does next, if it has anything to do. */
  function Upcoming(w: World, outcome: Outcome): Option<SysStep> {
    if w.current.Some? && w.current.value in w.calls then
      var id := w.current.value;
      match w.calls[id].message
      case Popped => Some(Act(id, Enter))
      case Running => Some(Act(id, Finish(outcome)))
      case Ended => Some(Act(id, SignalSema))
      case Signalled => Some(Act(id, Unlock))
      case _ => None
    else if Line(w) != [] then Some(Act(Line(w)[0], Pop))
    else None
  }

  /** No wakeup is lost: while a caller is blocked and not signalled, the destination thread has work, and
      nothing can keep it from going on. */
  lemma NoLostWakeup(urgent: Id -> bool, steps: seq<SysStep>, id: Id, outcome: Outcome)
    requires Runs(IDLE, urgent, steps).Some? && id in Runs(IDLE, urgent, steps).value.calls
    requires Runs(IDLE, urgent, steps).value.calls[id].caller.Waiting?
    ensures var w := Runs(IDLE, urgent, steps).value;
      || Step(w.calls[id], Wake).Some?
      || (Upcoming(w, outcome).Some? && OfThread(Upcoming(w, outcome).value)
          && Next(w, urgent, Upcoming(w, outcome).value).Some?)
  {
    var w := Runs(IDLE, urgent, steps).value;
    GoodStart(urgent);
    RunsGood(IDLE, urgent, steps);
    assert AsyncWait.Inv(w.calls[id]);
    if !w.calls[id].signaled {
      Busy(w, urgent, id, outcome);
    }
  }

  /** The thread is never stuck. */
  lemma Busy(w: World, urgent: Id -> bool, id: Id, outcome: Outcome)
    requires Inv(w) && id in w.calls && (w.calls[id].message.Queued? || Handled(w.calls[id].message))
    ensures Upcoming(w, outcome).Some? && OfThread(Upcoming(w, outcome).value)
    ensures Next(w, urgent, Upcoming(w, outcome).value).Some?
  {
    hide Next, SysInv;
    if w.current.None? {
      assert Line(w) != [];
      assert Line(w)[0] in Line(w);
    }
    var s := Upcoming(w, outcome).value;
    assert Step(w.calls[s.id], s.action).Some? && MayTake(w, s);
    Allowed(w, urgent, s);
  }

  lemma Allowed(w: World, urgent: Id -> bool, s: SysStep)
    requires SysNext(w.calls, s).Some? && MayTake(w, s)
    ensures Next(w, urgent, s).Some?
  {
  }

  /** A blocked caller gets its signal within a bound: five steps of the thread for each message before its
      own, and five for each urgent message that passes it. */
  lemma WakesInTime(urgent: Id -> bool, before: seq<SysStep>, after: seq<SysStep>, id: Id)
    requires Runs(IDLE, urgent, before).Some? && Runs(Runs(IDLE, urgent, before).value, urgent, after).Some?
    requires id in Runs(IDLE, urgent, before).value.calls && Runs(IDLE, urgent, before).value.calls[id].caller.Waiting?
    requires var w := Runs(IDLE, urgent, before).value;
      ThreadSteps(after) >= 5 * Place(Line(w), id) + 8 + Setbacks(urgent, after, id)
    ensures var v := Runs(Runs(IDLE, urgent, before).value, urgent, after).value;
      id in v.calls && (v.calls[id].caller.Waiting? ==> Step(v.calls[id], Wake).Some?)
  {
    var w := Runs(IDLE, urgent, before).value;
    var v := Runs(w, urgent, after).value;
    GoodStart(urgent);
    RunsGood(IDLE, urgent, before);
    assert AsyncWait.Inv(w.calls[id]);
    Progress(w, urgent, after, id);
    assert AsyncWait.Inv(v.calls[id]);
    LeftBound(w);
  }

  lemma LeftBound(w: World)
    requires Inv(w)
    ensures w.current.Some? ==> Left(w.calls[w.current.value].message) <= 4
  {
  }

  /** A caller whose wait is over is kept from leaving only by its own target, which the thread is running or
      reporting; and then by three steps of the thread at most. */
  lemma LeavesInTime(urgent: Id -> bool, before: seq<SysStep>, after: seq<SysStep>, id: Id)
    requires Runs(IDLE, urgent, before).Some? && Runs(Runs(IDLE, urgent, before).value, urgent, after).Some?
    requires id in Runs(IDLE, urgent, before).value.calls && Runs(IDLE, urgent, before).value.calls[id].caller.Leaving?
    requires Step(Runs(IDLE, urgent, before).value.calls[id], Leave).None?
    ensures Runs(IDLE, urgent, before).value.current == Some(id)
    ensures var v := Runs(Runs(IDLE, urgent, before).value, urgent, after).value;
      id in v.calls && (ThreadSteps(after) >= 3 && v.calls[id].caller.Leaving? ==> Step(v.calls[id], Leave).Some?)
  {
    var w := Runs(IDLE, urgent, before).value;
    GoodStart(urgent);
    RunsGood(IDLE, urgent, before);
    assert Handled(w.calls[id].message);
    Progress(w, urgent, after, id);
  }

  /** The converse of success fails: whatever other calls there are, once the thread is idle a call may report
      failure although its target ran to its normal end, when the timeout expires while the target is running. */
  lemma FailureDespiteCompletion(w0: World, urgent: Id -> bool, id: Id) returns (steps: seq<SysStep>)
    requires w0.current.None? && Line(w0) == [] && id !in w0.calls
    ensures Runs(w0, urgent, steps).Some? && id in Runs(w0, urgent, steps).value.calls
    ensures Runs(w0, urgent, steps).value.calls[id].history == [Start, End(Finished(7)), Return(false)]
  {
    hide Runs, Next;
    var w: World, c: Call;
    steps, w := Sent(w0, urgent, id);
    steps, w, c := Then(w0, urgent, steps, w, id, Enter);
    steps, w, c := Then(w0, urgent, steps, w, id, Timeout);
    steps, w, c := Then(w0, urgent, steps, w, id, Finish(Finished(7)));
    steps, w, c := Then(w0, urgent, steps, w, id, SignalSema);
    steps, w, c := Then(w0, urgent, steps, w, id, Unlock);
    steps, w, c := Then(w0, urgent, steps, w, id, Leave);
  }

  /** A call is made, and the idle thread takes its message. */
  lemma Sent(w0: World, urgent: Id -> bool, id: Id) returns (steps: seq<SysStep>, w: World)
    requires w0.current.None? && Line(w0) == [] && id !in w0.calls
    ensures Runs(w0, urgent, steps) == Some(w) && w.current == Some(id)
    ensures id in w.calls && w.calls[id] == Call(Waiting, Popped, true, false, false, None, [])
  {
    hide Runs, Next;
    RunsNone(w0, urgent);
    RunsOn(w0, urgent, [], Begin(id));
    var w1 := Begun(w0, urgent, id);
    steps := [] + [Begin(id)];
    RunsOn(w0, urgent, steps, Act(id, Dispatch(true)));
    var w2 := Dispatched(w1, urgent, id);
    steps := steps + [Act(id, Dispatch(true))];
    RunsOn(w0, urgent, steps, Act(id, Pop));
    w := Picked(w2, urgent, id);
    steps := steps + [Act(id, Pop)];
  }

  lemma Begun(w: World, urgent: Id -> bool, id: Id) returns (v: World)
    requires id !in w.calls
    ensures Next(w, urgent, Begin(id)) == Some(v) && v == w.(calls := w.calls[id := NEW_CALL])
  {
    v := w.(calls := w.calls[id := NEW_CALL]);
  }

  lemma Dispatched(w: World, urgent: Id -> bool, id: Id) returns (v: World)
    requires id in w.calls && w.calls[id] == NEW_CALL && Line(w) == []
    ensures Next(w, urgent, Act(id, Dispatch(true))) == Some(v) && Line(v) == [id] && v.current == w.current
    ensures id in v.calls && v.calls[id] == NEW_CALL.(caller := Waiting, message := Queued)
  {
    v := Next(w, urgent, Act(id, Dispatch(true))).value;
  }

  lemma Picked(w: World, urgent: Id -> bool, id: Id) returns (v: World)
    requires id in w.calls && w.calls[id].message.Queued? && Line(w) == [id] && w.current.None?
    ensures Next(w, urgent, Act(id, Pop)) == Some(v) && v.current == Some(id)
    ensures id in v.calls && v.calls[id] == w.calls[id].(message := Popped)
  {
    v := Next(w, urgent, Act(id, Pop)).value;
  }

  /** One step more of one call. */
  lemma Then(w0: World, urgent: Id -> bool, steps: seq<SysStep>, w: World, id: Id, a: Action)
    returns (steps': seq<SysStep>, w': World, c: Call)
    requires Runs(w0, urgent, steps) == Some(w) && id in w.calls && Step(w.calls[id], a).Some?
    requires !a.Dispatch? && !a.Pop? && !a.Cancel? && w.current == (if a.Leave? then None else Some(id))
    ensures Runs(w0, urgent, steps') == Some(w') && Step(w.calls[id], a) == Some(c)
    ensures id in w'.calls && w'.calls[id] == c
    ensures w'.current == if OfThread(Act(id, a)) && c.message.Gone? then None else w.current
  {
    hide Runs;
    var s := Act(id, a);
    RunsOn(w0, urgent, steps, s);
    steps', w', c := steps + [s], Next(w, urgent, s).value, Step(w.calls[id], a).value;
  }

  lemma RunsNone(w: World, urgent: Id -> bool)
    ensures Runs(w, urgent, []) == Some(w)
  {
  }

  /** One step more. */
  lemma {:induction false} RunsOn(w: World, urgent: Id -> bool, steps: seq<SysStep>, s: SysStep)
    requires Runs(w, urgent, steps).Some?
    ensures Runs(w, urgent, steps + [s]) == Next(Runs(w, urgent, steps).value, urgent, s)
    decreases |steps|
  {
    if steps == [] {
      assert [s][1..] == [];
    } else {
      assert (steps + [s])[1..] == steps[1..] + [s];
      RunsOn(Next(w, urgent, steps[0]).value, urgent, steps[1..], s);
    }
  }
}
