/** What an iteration of either engine lets user code and subscribers see, said of the trace alone. */
module StateTraces {
  import opened Common
  import opened StateMachine
  import opened StateMachineHSM

  /** The observation before and after place `i`. */
  predicate Follows(obs: seq<Obs>, i: nat, o: Obs) {
    i + 1 < |obs| && obs[i + 1] == o
  }

  /** Entry and exit actions: each is run exactly where the row has one, directly before the signal for its state,
      and nowhere else; a state action is directly followed by OnTransition, which stands nowhere else. */
  ghost predicate Framed(t: Table, obs: seq<Obs>) {
    forall i {:trigger obs[i]} :: 0 <= i < |obs| ==> Fits(t, obs, i)
  }

  predicate Fits(t: Table, obs: seq<Obs>, i: nat)
    requires i < |obs|
  {
    match obs[i]
    case Entry(s, _) => s < |t| && t[s].hasEntry && Follows(obs, i, OnEntry(s))
    case OnEntry(s) => s < |t| && (t[s].hasEntry <==> i > 0 && obs[i - 1].Entry? && obs[i - 1].s == s)
    case Exit(s) => s < |t| && t[s].hasExit && Follows(obs, i, OnExit(s))
    case OnExit(s) => s < |t| && (t[s].hasExit <==> i > 0 && obs[i - 1] == Exit(s))
    case Guard(s, _, _) => s < |t| && t[s].hasGuard
    case Action(_, _) => i + 1 < |obs| && obs[i + 1].OnTransition?
    case OnTransition(_, _) => i > 0 && obs[i - 1].Action?
  }

  /** Nothing but exits and entries, with the event's data for the entry actions. */
  ghost predicate Moving(obs: seq<Obs>, data: EventData) {
    forall o {:trigger o in obs} :: o in obs ==>
      !o.Guard? && !o.Action? && !o.OnTransition? && (o.Entry? ==> o.data == data)
  }

  /** An accepted event is seen as: the guard's question if the row has a guard, the exits and entries `moved`, the
      state action with the event's data, and OnTransition. */
  ghost predicate Accepted(t: Table, obs: seq<Obs>, ev: Event, from: uint8, to: uint8, moved: seq<Obs>)
    requires ev.target < |t|
  {
    && obs == (if t[ev.target].hasGuard then [Guard(ev.target, ev.data, true)] else [])
              + moved + [Action(ev.target, ev.data), OnTransition(from, to)]
    && Moving(moved, ev.data) && (from == to ==> moved == [])
  }

  /** One iteration: from `e` to `e'` under the answer `a`. */
  ghost predicate Shows(t: Table, e: Engine, a: Answer, e': Engine)
    requires e.pending.Some? && e.pending.value.target < |t|
  {
    var ev := e.pending.value;
    var guarded := t[ev.target].hasGuard;
    && e.trace <= e'.trace
    && var obs := e'.trace[|e.trace|..];
    && Framed(t, obs)
    && (if guarded && !a.guardOk then
          // a refusal moves nothing, and what the guard raised is all that is pending
          && obs == [Guard(ev.target, ev.data, false)] && e'.current == e.current
          && e'.pending == a.guardRaises
        else
          && (exists moved :: Accepted(t, obs, ev, e.current, e'.current, moved))
          && e'.pending == (if a.actionRaises.Some? then a.actionRaises else if guarded then a.guardRaises else None))
  }

  lemma FramedConcat(t: Table, a: seq<Obs>, b: seq<Obs>)
    requires Framed(t, a) && Framed(t, b)
    ensures Framed(t, a + b)
  {
    var obs := a + b;
    forall i | 0 <= i < |obs|
      ensures Fits(t, obs, i)
    {
      if i < |a| {
        assert Fits(t, a, i) && obs[i] == a[i];
      } else {
        assert Fits(t, b, i - |a|) && obs[i] == b[i - |a|];
        if i == |a| && a != [] {
          assert Fits(t, a, |a| - 1);
        }
      }
    }
  }

  lemma MovingConcat(a: seq<Obs>, b: seq<Obs>, data: EventData)
    requires Moving(a, data) && Moving(b, data)
    ensures Moving(a + b, data)
  {
  }

  lemma OneExit(t: Table, s: uint8, data: EventData)
    requires s < |t|
    ensures Framed(t, ExitObs(t[s], s)) && Moving(ExitObs(t[s], s), data)
  {
  }

  lemma OneEntry(t: Table, s: uint8, data: EventData)
    requires s < |t|
    ensures Framed(t, EntryObs(t[s], s, s, data)) && Moving(EntryObs(t[s], s, s, data), data)
  {
  }

  lemma {:induction false} ManyExits(t: Table, path: seq<uint8>, data: EventData)
    requires InTable(t, path)
    ensures Framed(t, ExitsObs(t, path)) && Moving(ExitsObs(t, path), data)
  {
    hide Framed, Moving;
    if path == [] {
      Nothing(t, data);
    } else {
      OneExit(t, path[0], data);
      ManyExits(t, path[1..], data);
      FramedConcat(t, ExitObs(t[path[0]], path[0]), ExitsObs(t, path[1..]));
      MovingConcat(ExitObs(t[path[0]], path[0]), ExitsObs(t, path[1..]), data);
    }
  }

  lemma Nothing(t: Table, data: EventData)
    ensures Framed(t, []) && Moving([], data)
  {
  }

  lemma {:induction false} ManyEntries(t: Table, path: seq<uint8>, data: EventData)
    requires InTable(t, path)
    ensures Framed(t, EntriesObs(t, path, data)) && Moving(EntriesObs(t, path, data), data)
  {
    hide Framed, Moving;
    if path == [] {
      Nothing(t, data);
    } else {
      OneEntry(t, path[0], data);
      ManyEntries(t, path[1..], data);
      FramedConcat(t, EntriesObs(t, path[1..], data), EntryObs(t[path[0]], path[0], path[0], data));
      MovingConcat(EntriesObs(t, path[1..], data), EntryObs(t[path[0]], path[0], path[0], data), data);
    }
  }

  lemma MovesFramed(t: Table, from: uint8, to: uint8, data: EventData)
    requires Transition(t, from, to, data).Some?
    ensures var moved := Transition(t, from, to, data).value; Framed(t, moved) && Moving(moved, data)
  {
    hide Framed, Moving;
    if from == to {
      Nothing(t, data);
    } else {
      var m := Moves(t, from, to).value;
      ManyExits(t, m.0, data);
      ManyEntries(t, m.1, data);
      FramedConcat(t, ExitsObs(t, m.0), EntriesObs(t, m.1, data));
      MovingConcat(ExitsObs(t, m.0), EntriesObs(t, m.1, data), data);
    }
  }

  lemma GuardFramed(t: Table, ev: Event, ok: bool)
    requires ev.target < |t|
    ensures Framed(t, GuardObs(t[ev.target], ev, ok))
    ensures GuardObs(t[ev.target], ev, ok) == if t[ev.target].hasGuard then [Guard(ev.target, ev.data, ok)] else []
  {
  }

  lemma EndFramed(t: Table, ev: Event, from: uint8, to: uint8)
    ensures Framed(t, [Action(ev.target, ev.data), OnTransition(from, to)])
  {
    var obs := [Action(ev.target, ev.data), OnTransition(from, to)];
    assert Fits(t, obs, 0) && Fits(t, obs, 1);
  }

  /** An accepted event around its moves. */
  lemma AcceptedFramed(t: Table, ev: Event, from: uint8, to: uint8, moved: seq<Obs>)
    requires ev.target < |t| && Framed(t, moved) && Moving(moved, ev.data) && (from == to ==> moved == [])
    ensures var obs := GuardObs(t[ev.target], ev, true) + moved + [Action(ev.target, ev.data), OnTransition(from, to)];
      Framed(t, obs) && Accepted(t, obs, ev, from, to, moved)
  {
    var first, last := GuardObs(t[ev.target], ev, true), [Action(ev.target, ev.data), OnTransition(from, to)];
    GuardFramed(t, ev, true);
    EndFramed(t, ev, from, to);
    hide Framed, GuardObs;
    FramedConcat(t, first, moved);
    FramedConcat(t, first + moved, last);
  }

  /** Every iteration of the hierarchical engine that does not assert. */
  lemma HsmStepShows(t: Table, e: Engine, a: Answer)
    requires e.pending.Some? && HsmStep(t, e, a).Some?
    ensures e.pending.value.target < |t| && Shows(t, e, a, HsmStep(t, e, a).value)
    ensures var row := t[e.pending.value.target];
      (row.hasGuard ==> a.guardOk) ==> HsmStep(t, e, a).value.current == e.pending.value.target
  {
    hide Framed, Moving, Transition;
    var ev, e' := e.pending.value, HsmStep(t, e, a).value;
    var obs := e'.trace[|e.trace|..];
    if t[ev.target].hasGuard && !a.guardOk {
      GuardFramed(t, ev, false);
      assert obs == GuardObs(t[ev.target], ev, false);
    } else {
      var moved := Transition(t, e.current, ev.target, ev.data).value;
      MovesFramed(t, e.current, ev.target, ev.data);
      Unmoved(t, e.current, ev.target, ev.data);
      AcceptedFramed(t, ev, e.current, ev.target, moved);
      hide Accepted;
      var guard := GuardObs(t[ev.target], ev, true);
      var last := [Action(ev.target, ev.data), OnTransition(e.current, ev.target)];
      assert GuardObs(t[ev.target], ev, a.guardOk) == guard;
      assert e'.trace == e.trace + (guard + moved + last);
      assert obs == guard + moved + last;
    }
  }

  lemma Unmoved(t: Table, from: uint8, to: uint8, data: EventData)
    requires Transition(t, from, to, data).Some?
    ensures from == to ==> Transition(t, from, to, data).value == []
  {
  }

  /** The signals of states left and entered. */
  function Signals(obs: seq<Obs>): seq<Obs> {
    if obs == [] then []
    else Signals(obs[..|obs| - 1]) + if obs[|obs| - 1].OnExit? || obs[|obs| - 1].OnEntry? then [obs[|obs| - 1]] else []
  }

  lemma {:induction false} SignalsConcat(a: seq<Obs>, b: seq<Obs>)
    ensures Signals(a + b) == Signals(a) + Signals(b)
    decreases |b|
  {
    if b == [] {
      assert a + b == a;
    } else {
      assert (a + b)[..|a + b| - 1] == a + b[..|b| - 1];
      SignalsConcat(a, b[..|b| - 1]);
    }
  }

  lemma SignalsOne(o: Obs)
    ensures Signals([o]) == if o.OnExit? || o.OnEntry? then [o] else []
  {
    assert [o][..0] == [];
  }

  lemma NoSignals(t: Table, ev: Event, from: uint8, to: uint8)
    requires ev.target < |t|
    ensures Signals(GuardObs(t[ev.target], ev, true)) == []
    ensures Signals([Action(ev.target, ev.data), OnTransition(from, to)]) == []
  {
    hide Signals;
    SignalsNone();
    SignalsOne(Guard(ev.target, ev.data, true));
    SignalsOne(Action(ev.target, ev.data));
    SignalsOne(OnTransition(from, to));
    SignalsConcat([Action(ev.target, ev.data)], [OnTransition(from, to)]);
    assert [Action(ev.target, ev.data)] + [OnTransition(from, to)]
        == [Action(ev.target, ev.data), OnTransition(from, to)];
  }

  lemma SignalsNone()
    ensures Signals([]) == []
  {
  }

  lemma SignalsMove(t: Table, from: uint8, to: uint8, data: EventData)
    requires from < |t| && to < |t|
    ensures Signals(ExitObs(t[from], from)) == [OnExit(from)]
    ensures Signals(EntryObs(t[to], to, to, data)) == [OnEntry(to)]
  {
    hide Signals;
    SignalsNone();
    SignalsOne(Exit(from));
    SignalsOne(OnExit(from));
    SignalsOne(Entry(to, data));
    SignalsOne(OnEntry(to));
    SignalsConcat(if t[from].hasExit then [Exit(from)] else [], [OnExit(from)]);
    SignalsConcat(if t[to].hasEntry then [Entry(to, data)] else [], [OnEntry(to)]);
  }

  lemma FlatMoved(t: Table, from: uint8, to: uint8, data: EventData)
    requires from < |t| && to < |t|
    ensures var moved := ExitObs(t[from], from) + EntryObs(t[to], to, to, data);
      Framed(t, moved) && Moving(moved, data) && Signals(moved) == [OnExit(from), OnEntry(to)]
    ensures Framed(t, []) && Moving([], data)
  {
    OneExit(t, from, data);
    OneEntry(t, to, data);
    Nothing(t, data);
    SignalsMove(t, from, to, data);
    hide Framed, Moving, Signals, ExitObs, EntryObs;
    FramedConcat(t, ExitObs(t[from], from), EntryObs(t[to], to, to, data));
    MovingConcat(ExitObs(t[from], from), EntryObs(t[to], to, to, data), data);
    SignalsConcat(ExitObs(t[from], from), EntryObs(t[to], to, to, data));
  }

  /** What an accepted event adds in the flat engine. */
  lemma FlatAccepts(t: Table, e: Engine, a: Answer) returns (moved: seq<Obs>)
    requires e.pending.Some? && e.current < |t| && FlatStep(t, e, a).Some?
    requires t[e.pending.value.target].hasGuard ==> a.guardOk
    ensures var ev, e' := e.pending.value, FlatStep(t, e, a).value;
      && e'.trace == e.trace + (GuardObs(t[ev.target], ev, true) + moved
                                + [Action(ev.target, ev.data), OnTransition(e.current, e'.current)])
      && Framed(t, moved) && Moving(moved, ev.data)
      && (if e'.current == e.current then moved == []
          else e'.current == ev.target && Signals(moved) == [OnExit(e.current), OnEntry(e'.current)])
  {
    hide Framed, Moving, Signals;
    var ev, to := e.pending.value, FlatStep(t, e, a).value.current;
    moved := if to == e.current then [] else ExitObs(t[e.current], e.current) + EntryObs(t[to], to, to, ev.data);
    FlatMoved(t, e.current, to, ev.data);
    var guard, last := GuardObs(t[ev.target], ev, true), [Action(ev.target, ev.data), OnTransition(e.current, to)];
    hide ExitObs, EntryObs, GuardObs;
    assert e.trace + guard + moved + last == e.trace + (guard + moved + last);
  }

  /** Every iteration of the flat engine that does not assert; a move is one exit and one entry. */
  lemma FlatStepShows(t: Table, e: Engine, a: Answer)
    requires e.pending.Some? && e.current < |t| && FlatStep(t, e, a).Some?
    ensures e.pending.value.target < |t| && Shows(t, e, a, FlatStep(t, e, a).value)
    ensures var row := t[e.pending.value.target];
      (row.hasGuard ==> a.guardOk) ==>
        FlatStep(t, e, a).value.current
        == if row.hasGuard && a.guardRaises.Some? then a.guardRaises.value.target else e.pending.value.target
    ensures var e' := FlatStep(t, e, a).value;
      e'.current != e.current ==>
        && e'.current == e.pending.value.target
        && Signals(e'.trace[|e.trace|..]) == [OnExit(e.current), OnEntry(e'.current)]
  {
    hide Framed, Moving, Signals;
    var ev, e' := e.pending.value, FlatStep(t, e, a).value;
    var obs := e'.trace[|e.trace|..];
    if t[ev.target].hasGuard && !a.guardOk {
      GuardFramed(t, ev, false);
      assert obs == GuardObs(t[ev.target], ev, false);
    } else {
      var moved := FlatAccepts(t, e, a);
      AcceptedFramed(t, ev, e.current, e'.current, moved);
      hide Accepted, ExitObs, EntryObs;
      var guard := GuardObs(t[ev.target], ev, true);
      var last := [Action(ev.target, ev.data), OnTransition(e.current, e'.current)];
      assert obs == guard + moved + last;
      NoSignals(t, ev, e.current, e'.current);
      SignalsConcat(guard, moved);
      SignalsConcat(guard + moved, last);
    }
  }

  lemma ShowsFramed(t: Table, e: Engine, a: Answer, e': Engine)
    requires e.pending.Some? && e.pending.value.target < |t| && Shows(t, e, a, e')
    ensures e.trace <= e'.trace && Framed(t, e'.trace[|e.trace|..])
  {
    hide Framed, Accepted;
  }

  lemma TracesFramed(t: Table, a: seq<Obs>, b: seq<Obs>, c: seq<Obs>)
    requires a <= b <= c && Framed(t, b[|a|..]) && Framed(t, c[|b|..])
    ensures Framed(t, c[|a|..])
  {
    FramedConcat(t, b[|a|..], c[|b|..]);
    hide Framed;
    assert c[|a|..] == b[|a|..] + c[|b|..];
  }

  /** Over every run of the hierarchical engine: exit and entry actions stand where they should, and nowhere else. */
  lemma {:induction false} HsmRunFramed(t: Table, e: Engine, script: seq<Answer>)
    requires HsmRun(t, e, script).Some?
    ensures e.trace <= HsmRun(t, e, script).value.trace
    ensures Framed(t, HsmRun(t, e, script).value.trace[|e.trace|..])
    decreases |script|
  {
    hide Framed, Shows, HsmStep;
    if script == [] || e.pending.None? {
      Nothing(t, NoEventData);
      assert e.trace[|e.trace|..] == [];
    } else {
      var next, last := HsmStep(t, e, script[0]).value, HsmRun(t, e, script).value;
      HsmStepShows(t, e, script[0]);
      ShowsFramed(t, e, script[0], next);
      HsmRunFramed(t, next, script[1..]);
      TracesFramed(t, e.trace, next.trace, last.trace);
    }
  }

  /** And of the flat engine. */
  lemma {:induction false} FlatRunFramed(t: Table, e: Engine, script: seq<Answer>)
    requires e.current < |t| && FlatRun(t, e, script).Some?
    ensures e.trace <= FlatRun(t, e, script).value.trace
    ensures Framed(t, FlatRun(t, e, script).value.trace[|e.trace|..])
    decreases |script|
  {
    hide Framed, Shows, FlatStep;
    if script == [] || e.pending.None? {
      Nothing(t, NoEventData);
      assert e.trace[|e.trace|..] == [];
    } else {
      var next, last := FlatStep(t, e, script[0]).value, FlatRun(t, e, script).value;
      FlatStepInTable(t, e, script[0]);
      FlatStepShows(t, e, script[0]);
      ShowsFramed(t, e, script[0], next);
      FlatRunFramed(t, next, script[1..]);
      TracesFramed(t, e.trace, next.trace, last.trace);
    }
  }

  /** An external event: CANNOT_HAPPEN asserts, EVENT_IGNORED changes nothing, and any other target is taken up by
      the first iteration, with empty data if there is none; it asserts if that does. */
  lemma ExternalShows(t: Table, e: Engine, target: uint8, data: Option<EventData>, script: seq<Answer>)
    ensures target == CANNOT_HAPPEN ==> External(t, e, target, data, script).None?
    ensures target == EVENT_IGNORED ==> External(t, e, target, data, script) == Some(e)
    ensures target < EVENT_IGNORED && script != [] ==>
      var started := e.(pending := Some(Event(target, if data.Some? then data.value else NoEventData)));
      var first := HsmStep(t, started, script[0]);
      External(t, e, target, data, script) == if first.None? then None else HsmRun(t, first.value, script[1..])
  {
  }
}
