/** The flat, table-driven state engine (state-machine/StateMachine.h and StateMachine.cpp).

    User code (guards, state actions) is an oracle: for every iteration of the engine loop an
    `Answer` says what the guard returned and which internal event, if any, the guard and the
    state action raised.  A script of answers describes any finite prefix of any run.  A failed
    assertion halts the program and is the result `None` (or `faulted`). */
module StateMachine {
  import opened Common

  const EVENT_IGNORED: uint8 := 0xFE
  const CANNOT_HAPPEN: uint8 := 0xFF

  /** One row of a state map; a false flag stands for a null slot.  The flat engine never looks
      at `parent`. */
  datatype Row = Row(hasState: bool, hasGuard: bool, hasEntry: bool, hasExit: bool, parent: uint8)
  type Table = seq<Row>

  datatype EventData = NoEventData | Payload(id: int)
  datatype Event = Event(target: uint8, data: EventData)

  /** What user code does during one iteration of the engine loop. */
  datatype Answer = Answer(guardOk: bool, guardRaises: Option<Event>, actionRaises: Option<Event>)

  /** Everything user code and the signal subscribers can observe, in order. */
  datatype Obs =
    | Guard(s: uint8, data: EventData, ok: bool)
    | Exit(s: uint8)
    | OnExit(s: uint8)
    | Entry(s: uint8, data: EventData)
    | OnEntry(s: uint8)
    | Action(s: uint8, data: EventData)
    | OnTransition(from: uint8, to: uint8)

  /** The engine's fields as a value, with the observations made so far. */
  datatype Engine = Engine(current: uint8, pending: Option<Event>, trace: seq<Obs>)

  function GuardObs(row: Row, e: Event, ok: bool): seq<Obs> {
    if row.hasGuard then [Guard(e.target, e.data, ok)] else []
  }

  function ExitObs(row: Row, s: uint8): seq<Obs> {
    (if row.hasExit then [Exit(s)] else []) + [OnExit(s)]
  }

  /** Leaving one state and entering another; the entry handler is taken from row `row` but the
      signal names the state entered. */
  function EntryObs(row: Row, handler: uint8, entered: uint8, data: EventData): seq<Obs> {
    (if row.hasEntry then [Entry(handler, data)] else []) + [OnEntry(entered)]
  }

  /** The event left pending: a later one overwrites an earlier one. */
  function Latest(earlier: Option<Event>, later: Option<Event>): Option<Event> {
    if later.Some? then later else earlier
  }

  /** One iteration of the extended flat engine.  `None` is a failed assertion.  The new state is
      read again after the guard, so an event raised by the guard redirects the transition while
      the handlers of the original target stay selected. */
  function FlatStep(t: Table, e: Engine, a: Answer): Option<Engine>
    requires e.pending.Some? && e.current < |t|
  {
    var ev := e.pending.value;
    if ev.target >= |t| then None
    else
      var row := t[ev.target];
      var seen := e.trace + GuardObs(row, ev, a.guardOk);
      var raised := if row.hasGuard then a.guardRaises else None;
      if row.hasGuard && !a.guardOk then Some(Engine(e.current, raised, seen))
      else
        var newState := if raised.Some? then raised.value.target else ev.target;
        if (newState != e.current && raised.Some?) || !row.hasState then None
        else
          var moves := if newState == e.current then []
                       else ExitObs(t[e.current], e.current) + EntryObs(row, ev.target, newState, ev.data);
          Some(Engine(newState, Latest(raised, a.actionRaises),
                      seen + moves + [Action(ev.target, ev.data), OnTransition(e.current, newState)]))
  }

  /** The engine loop over a script of answers: it stops when no event is pending or when the
      script ends. */
  function FlatRun(t: Table, e: Engine, script: seq<Answer>): Option<Engine>
    requires e.current < |t|
    decreases |script|
  {
    if script == [] || e.pending.None? then Some(e)
    else
      var r := FlatStep(t, e, script[0]);
      FlatStepInTable(t, e, script[0]);
      if r.None? then None else FlatRun(t, r.value, script[1..])
  }

  /** A step that does not fault stays inside the table. */
  lemma FlatStepInTable(t: Table, e: Engine, a: Answer)
    requires e.pending.Some? && e.current < |t|
    ensures var r := FlatStep(t, e, a); r.Some? ==> r.value.current < |t|
  {
  }

  class StateMachine {
    const maxStates: uint8
    var currentState: uint8
    var newState: uint8
    var eventGenerated: bool
    var pEventData: Option<EventData>
    var trace: seq<Obs>

    ghost predicate Valid()
      reads this
    {
      eventGenerated ==> pEventData.Some?
    }

    ghost function View(): Engine
      requires Valid()
      reads this
    {
      Engine(currentState, if eventGenerated then Some(Event(newState, pEventData.value)) else None, trace)
    }

    constructor (maxStates: uint8, initialState: uint8)
      requires maxStates < EVENT_IGNORED
      ensures Valid() && this.maxStates == maxStates
      ensures View() == Engine(initialState, None, [])
    {
      this.maxStates := maxStates;
      currentState := initialState;
      newState := 0;
      eventGenerated := false;
      pEventData := None;
      trace := [];
    }

    /** Records an event; one that is already pending is overwritten. */
    method InternalEvent(target: uint8, data: Option<EventData>)
      modifies this
      ensures Valid()
      ensures currentState == old(currentState) && trace == old(trace)
      ensures View().pending == Some(Event(target, if data.Some? then data.value else NoEventData))
    {
      pEventData := if data.None? then Some(NoEventData) else data;
      eventGenerated := true;
      newState := target;
    }

    /** Takes the pending event's data.  The target stays readable in `newState`. */
    method ConsumeEvent() returns (data: EventData)
      requires Valid() && eventGenerated
      modifies this
      ensures Valid() && !eventGenerated && newState == old(newState)
      ensures data == old(View().pending.value.data)
      ensures currentState == old(currentState) && trace == old(trace)
    {
      data := pEventData.value;
      pEventData := None;
      eventGenerated := false;
    }

    method Raise(e: Option<Event>)
      requires Valid()
      modifies this
      ensures Valid()
      ensures View() == old(View()).(pending := Latest(old(View().pending), e))
      ensures newState == if e.Some? then e.value.target else old(newState)
      ensures eventGenerated == (old(eventGenerated) || e.Some?)
    {
      if e.Some? {
        InternalEvent(e.value.target, Some(e.value.data));
      }
    }

    method Emit(obs: seq<Obs>)
      modifies this`trace
      ensures trace == old(trace) + obs
    {
      trace := trace + obs;
    }

    /** The part of an iteration between the guard and the state action. */
    method SwitchState(t: Table, target: uint8, exiting: uint8, data: EventData)
      requires |t| == maxStates && target < maxStates && exiting < maxStates && exiting == currentState
      modifies this`trace, this`currentState
      ensures currentState == newState
      ensures trace == old(trace) + if newState == exiting then []
                                    else ExitObs(t[exiting], exiting) + EntryObs(t[target], target, newState, data)
    {
      if newState != currentState {
        Emit((if t[exiting].hasExit then [Exit(exiting)] else []) + [OnExit(currentState)]);
        currentState := newState;
        Emit((if t[target].hasEntry then [Entry(target, data)] else []) + [OnEntry(currentState)]);
      } else {
        currentState := newState;
      }
    }

    /** One iteration of the loop of `StateEngine`. */
    method Iterate(t: Table, a: Answer) returns (faulted: bool)
      requires Valid() && eventGenerated && |t| == maxStates && currentState < maxStates
      modifies this
      ensures Valid()
      ensures faulted <==> old(FlatStep(t, View(), a)).None?
      ensures !faulted ==> Some(View()) == old(FlatStep(t, View(), a))
    {
      if newState >= maxStates {
        return true;
      }
      var target, exiting := newState, currentState;
      var row := t[target];
      var data := ConsumeEvent();
      var guardResult := true;
      if row.hasGuard {
        Emit([Guard(target, data, a.guardOk)]);
        Raise(a.guardRaises);
        guardResult := a.guardOk;
      }
      assert trace == old(trace) + GuardObs(row, Event(target, data), a.guardOk);
      if guardResult {
        var fromState := currentState;
        SwitchState(t, target, exiting, data);
        if (fromState != newState && eventGenerated) || !row.hasState {
          return true;
        }
        label acting:
        Emit([Action(target, data)]);
        Raise(a.actionRaises);
        Emit([OnTransition(fromState, currentState)]);
        assert trace == old@acting(trace) + [Action(target, data), OnTransition(fromState, currentState)];
      }
      faulted := false;
    }

    /** The extended flat engine. */
    method StateEngine(t: Table, script: seq<Answer>) returns (faulted: bool)
      requires Valid() && |t| == maxStates && currentState < maxStates
      modifies this
      ensures Valid()
      ensures faulted <==> old(FlatRun(t, View(), script)).None?
      ensures !faulted ==> Some(View()) == old(FlatRun(t, View(), script))
    {
      ghost var start := View();
      var i := 0;
      while eventGenerated && i < |script|
        invariant 0 <= i <= |script| && Valid() && currentState < maxStates
        invariant FlatRun(t, View(), script[i..]) == FlatRun(t, start, script)
        decreases |script| - i
      {
        ghost var before := View();
        assert script[i..][0] == script[i] && script[i..][1..] == script[i + 1..];
        FlatStepInTable(t, before, script[i]);
        var failed := Iterate(t, script[i]);
        if failed {
          return true;
        }
        i := i + 1;
      }
      faulted := false;
    }
  }
}
