/** The hierarchical state engine (state-machine/StateMachineHSM.h and StateMachineHSM.cpp).

    A row's `parent` is a state, or any number outside the table (by convention NO_PARENT) for a
    top-level state.  Parent tables are arbitrary: they may be cyclic or deeper than the bound. */
module StateMachineHSM {
  import opened Common
  import opened StateMachine

  const NO_PARENT: uint8 := 0xFD
  const PROPAGATE_TO_PARENT: uint8 := 0xFC
  const MAX_HSM_DEPTH: nat := 32

  /** What the constructor asserts of the state map. */
  predicate IsTable(t: Table) {
    |t| < PROPAGATE_TO_PARENT
  }

  // ---------------------------------------------------------------------------------------------
  // Walking the parent table
  // ---------------------------------------------------------------------------------------------

  /** The state reached after `k` steps towards the root; a walk stays where it leaves the table. */
  function Up(t: Table, s: uint8, k: nat): uint8
    decreases k
  {
    if k == 0 || s >= |t| then s else Up(t, t[s].parent, k - 1)
  }

  /** `c` is `s` or one of its ancestors. */
  ghost predicate IsAncestor(t: Table, c: uint8, s: uint8) {
    c < |t| && exists k: nat :: Up(t, s, k) == c
  }

  /** The states met from `s` upward, leaf first, before `stop` or the end of the chain; `None`
      when neither is reached within `n` steps, where the engine's bounded walks assert. */
  function Climb(t: Table, s: uint8, stop: uint8, n: nat): (r: Option<seq<uint8>>)
    ensures r.Some? ==> |r.value| <= n
    decreases n
  {
    if s >= |t| || s == stop then Some([])
    else if n == 0 then None
    else
      var rest := Climb(t, t[s].parent, stop, n - 1);
      if rest.None? then None else Some([s] + rest.value)
  }

  /** Every state's chain ends within the depth bound (so the table is acyclic). */
  ghost predicate WellFormed(t: Table) {
    IsTable(t) && forall s: uint8 :: s < |t| ==> Climb(t, s, NO_PARENT, MAX_HSM_DEPTH).Some?
  }

  /** The active path of a configuration: the current state first, then its ancestors. */
  ghost function ActivePath(t: Table, s: uint8): seq<uint8>
    requires WellFormed(t)
  {
    if s < |t| then Climb(t, s, NO_PARENT, MAX_HSM_DEPTH).value else []
  }

  /** The inner walk of `FindLCA`: is `a` on the chain of `b`? */
  function Meets(t: Table, a: uint8, b: uint8, n: nat): Option<bool>
    decreases n
  {
    if b >= |t| then Some(false)
    else if n == 0 then None
    else if a == b then Some(true)
    else Meets(t, a, t[b].parent, n - 1)
  }

  /** The outer walk of `FindLCA`. */
  function Lca(t: Table, a: uint8, b: uint8, n: nat): Option<uint8>
    decreases n
  {
    if a >= |t| then Some(NO_PARENT)
    else if n == 0 then None
    else match Meets(t, a, b, MAX_HSM_DEPTH)
      case None => None
      case Some(found) => if found then Some(a) else Lca(t, t[a].parent, b, n - 1)
  }

  method FindLCA(t: Table, stateA: uint8, stateB: uint8) returns (lca: Option<uint8>)
    ensures lca == Lca(t, stateA, stateB, MAX_HSM_DEPTH)
  {
    var a: uint8, aSteps: nat := stateA, 0;
    while a < |t|
      invariant 0 <= aSteps <= MAX_HSM_DEPTH
      invariant Lca(t, stateA, stateB, MAX_HSM_DEPTH) == Lca(t, a, stateB, MAX_HSM_DEPTH - aSteps)
      decreases MAX_HSM_DEPTH - aSteps
    {
      if aSteps >= MAX_HSM_DEPTH {
        return None;
      }
      aSteps := aSteps + 1;
      var b: uint8, bSteps: nat := stateB, 0;
      while b < |t|
        invariant 0 <= bSteps <= MAX_HSM_DEPTH
        invariant Meets(t, a, stateB, MAX_HSM_DEPTH) == Meets(t, a, b, MAX_HSM_DEPTH - bSteps)
        decreases MAX_HSM_DEPTH - bSteps
      {
        if bSteps >= MAX_HSM_DEPTH {
          return None;
        }
        bSteps := bSteps + 1;
        if a == b {
          return Some(a);
        }
        b := t[b].parent;
      }
      a := t[a].parent;
    }
    return Some(NO_PARENT);
  }

  lemma {:induction false} ClimbMore(t: Table, s: uint8, stop: uint8, n: nat, m: nat)
    requires n <= m && Climb(t, s, stop, n).Some?
    ensures Climb(t, s, stop, m) == Climb(t, s, stop, n)
    decreases n
  {
    if s < |t| && s != stop {
      ClimbMore(t, t[s].parent, stop, n - 1, m - 1);
    }
  }

  lemma {:induction false} MeetsBoundsClimb(t: Table, a: uint8, b: uint8, n: nat)
    requires a < |t|
    ensures Meets(t, a, b, n) == Some(true) ==> Climb(t, b, a, n).Some?
    ensures Meets(t, a, b, n) == Some(false) ==> forall stop: uint8 :: Climb(t, b, stop, n).Some?
    decreases n
  {
    if b < |t| && n > 0 && a != b {
      MeetsBoundsClimb(t, a, t[b].parent, n - 1);
      if Meets(t, a, b, n) == Some(false) {
        forall stop: uint8
          ensures Climb(t, b, stop, n).Some?
        {
          assert Climb(t, t[b].parent, stop, n - 1).Some?;
        }
      }
    }
  }

  lemma {:induction false} LcaBoundsClimb(t: Table, a: uint8, b: uint8, n: nat)
    requires Lca(t, a, b, n).Some?
    ensures Climb(t, a, Lca(t, a, b, n).value, n).Some?
    ensures a < |t| ==> Climb(t, b, Lca(t, a, b, n).value, MAX_HSM_DEPTH).Some?
    decreases n
  {
    if a < |t| {
      MeetsBoundsClimb(t, a, b, MAX_HSM_DEPTH);
      if Meets(t, a, b, MAX_HSM_DEPTH) == Some(false) {
        LcaBoundsClimb(t, t[a].parent, b, n - 1);
      }
    }
  }

  /** For every parent table, cyclic or not: once `FindLCA` has returned, the exit walk finishes
      within the bound, and so does the entry walk (the 32-slot array never overflows) unless the
      machine was outside its table and the target's own chain does not end. */
  lemma {:induction false} WalksAfterLca(t: Table, from: uint8, to: uint8)
    requires IsTable(t) && Lca(t, from, to, MAX_HSM_DEPTH).Some?
    ensures var l := Lca(t, from, to, MAX_HSM_DEPTH).value;
      && Climb(t, from, l, MAX_HSM_DEPTH).Some?
      && (Climb(t, to, l, MAX_HSM_DEPTH).Some? <==>
          from < |t| || Climb(t, to, NO_PARENT, MAX_HSM_DEPTH).Some?)
  {
    LcaBoundsClimb(t, from, to, MAX_HSM_DEPTH);
  }

  // ---------------------------------------------------------------------------------------------
  // FindLCA finds the deepest common ancestor
  // ---------------------------------------------------------------------------------------------

  lemma {:induction false} MeetsIsAncestor(t: Table, a: uint8, b: uint8, n: nat)
    requires a < |t| && Meets(t, a, b, n).Some?
    ensures Meets(t, a, b, n).value <==> IsAncestor(t, a, b)
    decreases n
  {
    if b < |t| {
      if a == b {
        assert Up(t, b, 0) == a;
      } else {
        var p := t[b].parent;
        MeetsIsAncestor(t, a, p, n - 1);
        AncestorStep(t, a, b);
      }
    } else {
      forall k: nat
        ensures Up(t, b, k) != a
      {
      }
    }
  }

  /** The ancestors of a state other than itself are the ancestors of its parent. */
  lemma {:induction false} AncestorStep(t: Table, c: uint8, s: uint8)
    requires s < |t| && c != s
    ensures IsAncestor(t, c, s) <==> IsAncestor(t, c, t[s].parent)
  {
    if IsAncestor(t, c, s) {
      var k: nat :| Up(t, s, k) == c;
      assert Up(t, t[s].parent, k - 1) == c;
    }
    if IsAncestor(t, c, t[s].parent) {
      var k: nat :| Up(t, t[s].parent, k) == c;
      assert Up(t, s, k + 1) == c;
    }
  }

  lemma NoAncestorOutside(t: Table, c: uint8, s: uint8)
    requires s >= |t|
    ensures !IsAncestor(t, c, s)
  {
    assert forall k: nat :: Up(t, s, k) == s;
  }

  lemma {:induction false} ChainDecidesMeets(t: Table, a: uint8, b: uint8, n: nat)
    requires Climb(t, b, NO_PARENT, n).Some? && IsTable(t)
    ensures Meets(t, a, b, n).Some?
    decreases n
  {
    if b < |t| && a != b {
      ChainDecidesMeets(t, a, t[b].parent, n - 1);
    }
  }

  lemma {:induction false} LcaDecided(t: Table, a: uint8, b: uint8, n: nat)
    requires WellFormed(t) && Climb(t, a, NO_PARENT, n).Some?
    ensures Lca(t, a, b, n).Some?
    decreases n
  {
    if a < |t| {
      if b < |t| {
        ChainDecidesMeets(t, a, b, MAX_HSM_DEPTH);
      }
      if Meets(t, a, b, MAX_HSM_DEPTH) == Some(false) {
        LcaDecided(t, t[a].parent, b, n - 1);
      }
    }
  }

  /** What `FindLCA` returns, on every table on which it returns at all. */
  lemma {:induction false} LcaIsDeepestCommon(t: Table, a: uint8, b: uint8, n: nat)
    requires IsTable(t) && Lca(t, a, b, n).Some?
    ensures var l := Lca(t, a, b, n).value;
      if l < |t| then
        && IsAncestor(t, l, a) && IsAncestor(t, l, b)
        && forall c: uint8 :: IsAncestor(t, c, a) && IsAncestor(t, c, b) ==> IsAncestor(t, c, l)
      else
        && l == NO_PARENT
        && forall c: uint8 :: !(IsAncestor(t, c, a) && IsAncestor(t, c, b))
    decreases n
  {
    if a >= |t| {
      forall c: uint8
        ensures !IsAncestor(t, c, a)
      {
        NoAncestorOutside(t, c, a);
      }
    } else {
      MeetsIsAncestor(t, a, b, MAX_HSM_DEPTH);
      if Meets(t, a, b, MAX_HSM_DEPTH).value {
        assert Up(t, a, 0) == a;
      } else {
        var p := t[a].parent;
        LcaIsDeepestCommon(t, p, b, n - 1);
        forall c: uint8 | IsAncestor(t, c, b)
          ensures IsAncestor(t, c, a) <==> IsAncestor(t, c, p)
        {
          assert c != a;
          AncestorStep(t, c, a);
        }
      }
    }
  }

  /** On a well-formed table `FindLCA` always returns. */
  lemma LcaOnWellFormed(t: Table, a: uint8, b: uint8)
    requires WellFormed(t)
    ensures Lca(t, a, b, MAX_HSM_DEPTH).Some?
  {
    if a < |t| {
      LcaDecided(t, a, b, MAX_HSM_DEPTH);
    }
  }

  // ---------------------------------------------------------------------------------------------
  // The engine
  // ---------------------------------------------------------------------------------------------

  ghost predicate InTable(t: Table, path: seq<uint8>) {
    forall i :: 0 <= i < |path| ==> path[i] < |t|
  }

  /** Exit actions and signals, in the order of the walk. */
  function ExitsObs(t: Table, path: seq<uint8>): seq<Obs>
    requires InTable(t, path)
  {
    if path == [] then [] else ExitObs(t[path[0]], path[0]) + ExitsObs(t, path[1..])
  }

  /** Entry actions and signals for a leaf-first path: the outermost state is entered first. */
  function EntriesObs(t: Table, path: seq<uint8>, data: EventData): seq<Obs>
    requires InTable(t, path)
  {
    if path == [] then []
    else EntriesObs(t, path[1..], data) + EntryObs(t[path[0]], path[0], path[0], data)
  }

  lemma {:induction false} ClimbInTable(t: Table, s: uint8, stop: uint8, n: nat)
    requires Climb(t, s, stop, n).Some?
    ensures InTable(t, Climb(t, s, stop, n).value) && stop !in Climb(t, s, stop, n).value
    decreases n
  {
    if s < |t| && s != stop {
      ClimbInTable(t, t[s].parent, stop, n - 1);
    }
  }

  /** The states left and the states entered by a transition, both leaf first. */
  function Moves(t: Table, from: uint8, to: uint8): (r: Option<(seq<uint8>, seq<uint8>)>)
    ensures r.Some? ==> InTable(t, r.value.0) && InTable(t, r.value.1)
  {
    match Lca(t, from, to, MAX_HSM_DEPTH)
    case None => None
    case Some(l) =>
      var exits, entries := Climb(t, from, l, MAX_HSM_DEPTH), Climb(t, to, l, MAX_HSM_DEPTH);
      if exits.None? || entries.None? then None
      else
        ClimbInTable(t, from, l, MAX_HSM_DEPTH);
        ClimbInTable(t, to, l, MAX_HSM_DEPTH);
        Some((exits.value, entries.value))
  }

  /** The observations of moving between two states; a self-transition exits and enters nothing. */
  function Transition(t: Table, from: uint8, to: uint8, data: EventData): Option<seq<Obs>> {
    if from == to then Some([])
    else
      var m := Moves(t, from, to);
      if m.None? then None else Some(ExitsObs(t, m.value.0) + EntriesObs(t, m.value.1, data))
  }

  /** One iteration of the hierarchical engine; `None` is a failed assertion.  The target is
      latched before the guard runs. */
  function HsmStep(t: Table, e: Engine, a: Answer): Option<Engine>
    requires e.pending.Some?
  {
    var ev := e.pending.value;
    if ev.target >= |t| then None
    else
      var row := t[ev.target];
      var seen := e.trace + GuardObs(row, ev, a.guardOk);
      var raised := if row.hasGuard then a.guardRaises else None;
      if row.hasGuard && !a.guardOk then Some(Engine(e.current, raised, seen))
      else
        var moves := Transition(t, e.current, ev.target, ev.data);
        if moves.None? || (ev.target != e.current && raised.Some?) || !row.hasState then None
        else
          Some(Engine(ev.target, Latest(raised, a.actionRaises),
                      seen + moves.value + [Action(ev.target, ev.data), OnTransition(e.current, ev.target)]))
  }

  function HsmRun(t: Table, e: Engine, script: seq<Answer>): Option<Engine>
    decreases |script|
  {
    if script == [] || e.pending.None? then Some(e)
    else
      var r := HsmStep(t, e, script[0]);
      if r.None? then None else HsmRun(t, r.value, script[1..])
  }

  lemma {:induction false} ExitsAppend(t: Table, path: seq<uint8>, s: uint8)
    requires s < |t| && InTable(t, path)
    ensures ExitsObs(t, path + [s]) == ExitsObs(t, path) + ExitObs(t[s], s)
  {
    if path == [] {
      assert path + [s] == [s];
    } else {
      assert (path + [s])[1..] == path[1..] + [s];
      ExitsAppend(t, path[1..], s);
    }
  }

  /** A walk that has already passed `done`. */
  ghost function After(done: seq<uint8>, rest: Option<seq<uint8>>): Option<seq<uint8>> {
    if rest.None? then None else Some(done + rest.value)
  }

  lemma ClimbStep(t: Table, s: uint8, stop: uint8, n: nat, done: seq<uint8>)
    requires s < |t| && s != stop
    ensures After(done, Climb(t, s, stop, n + 1)) == After(done + [s], Climb(t, t[s].parent, stop, n))
  {
    var rest := Climb(t, t[s].parent, stop, n);
    assert rest.Some? ==> done + ([s] + rest.value) == (done + [s]) + rest.value;
  }

  /** The exit walk. */
  method ExitStates(m: StateMachine, t: Table, fromState: uint8, lca: uint8, maxDepth: nat) returns (faulted: bool)
    requires |t| == m.maxStates
    modifies m`trace
    ensures faulted <==> Climb(t, fromState, lca, maxDepth).None?
    ensures !faulted ==>
      && InTable(t, Climb(t, fromState, lca, maxDepth).value)
      && m.trace == old(m.trace) + ExitsObs(t, Climb(t, fromState, lca, maxDepth).value)
  {
    var s: uint8, exitSteps: nat := fromState, 0;
    ghost var done: seq<uint8> := [];
    ghost var whole := Climb(t, fromState, lca, maxDepth);
    assert whole.Some? ==> [] + whole.value == whole.value;
    while s < |t| && s != lca
      invariant 0 <= exitSteps <= maxDepth && |done| == exitSteps
      invariant InTable(t, done)
      invariant whole == After(done, Climb(t, s, lca, maxDepth - exitSteps))
      invariant m.trace == old(m.trace) + ExitsObs(t, done)
      decreases maxDepth - exitSteps
    {
      if exitSteps >= maxDepth {
        return true;
      }
      exitSteps := exitSteps + 1;
      m.Emit((if t[s].hasExit then [Exit(s)] else []) + [OnExit(s)]);
      ExitsAppend(t, done, s);
      ClimbStep(t, s, lca, maxDepth - exitSteps, done);
      done := done + [s];
      s := t[s].parent;
    }
    assert done + [] == done;
    return false;
  }

  /** Collects the entry chain, leaf first, into the fixed array. */
  method CollectEntries(t: Table, target: uint8, lca: uint8, entryChain: array<uint8>)
    returns (faulted: bool, entryCount: nat)
    requires entryChain.Length == MAX_HSM_DEPTH
    modifies entryChain
    ensures faulted <==> Climb(t, target, lca, MAX_HSM_DEPTH).None?
    ensures !faulted ==>
      && entryCount <= MAX_HSM_DEPTH
      && Some(entryChain[..entryCount]) == Climb(t, target, lca, MAX_HSM_DEPTH)
  {
    var s: uint8 := target;
    entryCount := 0;
    ghost var whole := Climb(t, target, lca, MAX_HSM_DEPTH);
    assert whole.Some? ==> entryChain[..0] + whole.value == whole.value;
    while s < |t| && s != lca
      invariant 0 <= entryCount <= MAX_HSM_DEPTH
      invariant whole == After(entryChain[..entryCount], Climb(t, s, lca, MAX_HSM_DEPTH - entryCount))
      decreases MAX_HSM_DEPTH - entryCount
    {
      if entryCount >= MAX_HSM_DEPTH {
        return true, entryCount;
      }
      ghost var done: seq<uint8> := entryChain[..entryCount];
      ClimbStep(t, s, lca, MAX_HSM_DEPTH - entryCount - 1, done);
      entryChain[entryCount] := s;
      entryCount := entryCount + 1;
      assert entryChain[..entryCount] == done + [s];
      s := t[s].parent;
    }
    assert entryChain[..entryCount] + [] == entryChain[..entryCount];
    faulted := false;
  }

  /** Runs the collected entry chain backwards. */
  method EnterStates(m: StateMachine, t: Table, entryChain: array<uint8>, entryCount: nat, data: EventData)
    requires entryCount <= entryChain.Length
    requires InTable(t, entryChain[..entryCount])
    modifies m`trace
    ensures entryChain[..] == old(entryChain[..])
    ensures m.trace == old(m.trace) + EntriesObs(t, entryChain[..entryCount], data)
  {
    ghost var path: seq<uint8> := entryChain[..entryCount];
    var i := entryCount;
    assert path[i..] == [];
    while i > 0
      invariant 0 <= i <= entryCount
      invariant path == entryChain[..entryCount] && InTable(t, path[i..])
      invariant m.trace == old(m.trace) + EntriesObs(t, path[i..], data)
    {
      i := i - 1;
      var s := entryChain[i];
      assert s == path[i];
      assert path[i..][1..] == path[i + 1..];
      m.Emit((if t[s].hasEntry then [Entry(s, data)] else []) + [OnEntry(s)]);
    }
    assert path[0..] == path;
  }

  /** The part of an iteration between the guard and the state action. */
  method SwitchState(m: StateMachine, t: Table, target: uint8, data: EventData) returns (faulted: bool)
    requires m.Valid() && |t| == m.maxStates && target < |t|
    modifies m`trace, m`currentState
    ensures m.Valid()
    ensures var moves := Transition(t, old(m.currentState), target, data);
      && (faulted <==> moves.None? || (target != old(m.currentState) && m.eventGenerated))
      && (!faulted ==>
          && m.currentState == target
          && m.trace == old(m.trace) + moves.value)
  {
    var fromState := m.currentState;
    if target != fromState {
      var lca := FindLCA(t, fromState, target);
      if lca.None? {
        return true;
      }
      faulted := ExitStates(m, t, fromState, lca.value, MAX_HSM_DEPTH);
      if faulted {
        return;
      }
      var entryChain := new uint8[MAX_HSM_DEPTH];
      var entryCount;
      faulted, entryCount := CollectEntries(t, target, lca.value, entryChain);
      if faulted {
        return;
      }
      m.currentState := target;
      ClimbInTable(t, target, lca.value, MAX_HSM_DEPTH);
      EnterStates(m, t, entryChain, entryCount, data);
      faulted := m.eventGenerated;
    } else {
      m.currentState := target;
      faulted := false;
    }
  }

  /** One iteration of the loop of `StateEngine`. */
  method Iterate(m: StateMachine, t: Table, a: Answer) returns (faulted: bool)
    requires m.Valid() && m.eventGenerated && |t| == m.maxStates
    modifies m
    ensures m.Valid()
    ensures faulted <==> old(HsmStep(t, m.View(), a)).None?
    ensures !faulted ==> Some(m.View()) == old(HsmStep(t, m.View(), a))
  {
    var target := m.newState;
    if target >= m.maxStates {
      return true;
    }
    var row := t[target];
    var data := m.ConsumeEvent();
    var guardResult := true;
    if row.hasGuard {
      m.Emit([Guard(target, data, a.guardOk)]);
      m.Raise(a.guardRaises);
      guardResult := a.guardOk;
    }
    assert m.trace == old(m.trace) + GuardObs(row, Event(target, data), a.guardOk);
    if guardResult {
      var fromState := m.currentState;
      faulted := SwitchState(m, t, target, data);
      if faulted || !row.hasState {
        return true;
      }
      label acting:
      m.Emit([Action(target, data)]);
      m.Raise(a.actionRaises);
      m.Emit([OnTransition(fromState, m.currentState)]);
      assert m.trace == old@acting(m.trace) + [Action(target, data), OnTransition(fromState, m.currentState)];
    }
    faulted := false;
  }

  method StateEngine(m: StateMachine, t: Table, script: seq<Answer>) returns (faulted: bool)
    requires m.Valid() && |t| == m.maxStates
    modifies m
    ensures m.Valid()
    ensures faulted <==> old(HsmRun(t, m.View(), script)).None?
    ensures !faulted ==> Some(m.View()) == old(HsmRun(t, m.View(), script))
  {
    ghost var start := m.View();
    var i := 0;
    while m.eventGenerated && i < |script|
      invariant 0 <= i <= |script| && m.Valid()
      invariant HsmRun(t, m.View(), script[i..]) == HsmRun(t, start, script)
      decreases |script| - i
    {
      assert script[i..][0] == script[i] && script[i..][1..] == script[i + 1..];
      var failed := Iterate(m, t, script[i]);
      if failed {
        return true;
      }
      i := i + 1;
    }
    faulted := false;
  }

  /** `ExternalEvent`, called on the machine's own thread: CANNOT_HAPPEN faults, EVENT_IGNORED
      does nothing, and anything else is recorded and run. */
  function External(t: Table, e: Engine, target: uint8, data: Option<EventData>, script: seq<Answer>): Option<Engine> {
    if target == EVENT_IGNORED then Some(e)
    else if target == CANNOT_HAPPEN then None
    else HsmRun(t, e.(pending := Some(Event(target, if data.Some? then data.value else NoEventData))), script)
  }

  method ExternalEvent(m: StateMachine, t: Table, target: uint8, data: Option<EventData>, script: seq<Answer>)
    returns (faulted: bool)
    requires m.Valid() && |t| == m.maxStates
    modifies m
    ensures m.Valid()
    ensures faulted <==> old(External(t, m.View(), target, data, script)).None?
    ensures !faulted ==> Some(m.View()) == old(External(t, m.View(), target, data, script))
  {
    if target == EVENT_IGNORED {
      return false;
    }
    if target == CANNOT_HAPPEN {
      return true;
    }
    m.InternalEvent(target, data);
    faulted := StateEngine(m, t, script);
  }

  // ---------------------------------------------------------------------------------------------
  // Exits and entries form a legal stack discipline
  // ---------------------------------------------------------------------------------------------

  /** An observer that keeps a stack (top first): OnExit must pop the top, OnEntry must push a
      child of the top, or a top-level state on the empty stack.  `None` is a violation. */
  function Observe(t: Table, stack: seq<uint8>, o: Obs): Option<seq<uint8>> {
    match o
    case OnExit(s) => if stack != [] && stack[0] == s then Some(stack[1..]) else None
    case OnEntry(s) =>
      if s < |t| && (if stack == [] then t[s].parent >= |t| else t[s].parent == stack[0])
      then Some([s] + stack) else None
    case _ => Some(stack)
  }

  function Replay(t: Table, stack: seq<uint8>, obs: seq<Obs>): Option<seq<uint8>>
    decreases |obs|
  {
    if obs == [] then Some(stack)
    else
      var next := Observe(t, stack, obs[0]);
      if next.None? then None else Replay(t, next.value, obs[1..])
  }

  lemma {:induction false} ReplayConcat(t: Table, stack: seq<uint8>, a: seq<Obs>, b: seq<Obs>)
    requires Replay(t, stack, a).Some?
    ensures Replay(t, stack, a + b) == Replay(t, Replay(t, stack, a).value, b)
    decreases |a|
  {
    if a == [] {
      assert a + b == b;
    } else {
      assert (a + b)[1..] == a[1..] + b;
      ReplayConcat(t, Observe(t, stack, a[0]).value, a[1..], b);
    }
  }

  lemma ReplayOne(t: Table, stack: seq<uint8>, o: Obs)
    ensures Replay(t, stack, [o]) == Observe(t, stack, o)
  {
    assert [o][1..] == [];
  }

  lemma ReplayTwo(t: Table, stack: seq<uint8>, a: Obs, b: Obs)
    requires Observe(t, stack, a) == Some(stack)
    ensures Replay(t, stack, [a, b]) == Observe(t, stack, b)
  {
    assert [a, b][1..] == [b];
    ReplayOne(t, stack, b);
  }

  lemma ReplayExit(t: Table, s: uint8, rest: seq<uint8>)
    requires s < |t|
    ensures Replay(t, [s] + rest, ExitObs(t[s], s)) == Some(rest)
  {
    if t[s].hasExit {
      assert ExitObs(t[s], s) == [Exit(s), OnExit(s)];
      ReplayTwo(t, [s] + rest, Exit(s), OnExit(s));
    } else {
      assert ExitObs(t[s], s) == [OnExit(s)];
      ReplayOne(t, [s] + rest, OnExit(s));
    }
  }

  lemma ReplayEntry(t: Table, s: uint8, stack: seq<uint8>, data: EventData)
    requires s < |t| && (if stack == [] then t[s].parent >= |t| else t[s].parent == stack[0])
    ensures Replay(t, stack, EntryObs(t[s], s, s, data)) == Some([s] + stack)
  {
    if t[s].hasEntry {
      assert EntryObs(t[s], s, s, data) == [Entry(s, data), OnEntry(s)];
      ReplayTwo(t, stack, Entry(s, data), OnEntry(s));
    } else {
      assert EntryObs(t[s], s, s, data) == [OnEntry(s)];
      ReplayOne(t, stack, OnEntry(s));
    }
  }

  lemma {:induction false} ReplayExits(t: Table, path: seq<uint8>, rest: seq<uint8>)
    requires InTable(t, path)
    ensures Replay(t, path + rest, ExitsObs(t, path)) == Some(rest)
    decreases |path|
  {
    if path == [] {
      assert path + rest == rest;
    } else {
      var s, below := path[0], path[1..] + rest;
      assert path + rest == [s] + below;
      ReplayExit(t, s, below);
      ReplayExits(t, path[1..], rest);
      ReplayConcat(t, path + rest, ExitObs(t[s], s), ExitsObs(t, path[1..]));
    }
  }

  /** Each state of the path is a child of the next one, and the last is a top-level state. */
  ghost predicate Linked(t: Table, path: seq<uint8>) {
    && InTable(t, path)
    && (forall i :: 0 <= i < |path| - 1 ==> t[path[i]].parent == path[i + 1])
    && (path != [] ==> t[path[|path| - 1]].parent >= |t|)
  }

  lemma LinkedTail(t: Table, s: uint8, below: seq<uint8>)
    requires Linked(t, [s] + below)
    ensures Linked(t, below)
    ensures s < |t| && if below == [] then t[s].parent >= |t| else t[s].parent == below[0]
  {
    var path := [s] + below;
    assert path[0] == s && (below != [] ==> t[path[0]].parent == path[0 + 1]);
    assert forall i :: 0 <= i < |below| ==> below[i] == path[i + 1];
  }

  lemma {:induction false} ReplayEntries(t: Table, path: seq<uint8>, rest: seq<uint8>, data: EventData)
    requires InTable(t, path) && Linked(t, path + rest)
    ensures Replay(t, rest, EntriesObs(t, path, data)) == Some(path + rest)
    decreases |path|
  {
    if path == [] {
      assert path + rest == rest;
    } else {
      var s, below := path[0], path[1..] + rest;
      assert path + rest == [s] + below;
      LinkedTail(t, s, below);
      ReplayEntries(t, path[1..], rest, data);
      ReplayEntry(t, s, below, data);
      ReplayConcat(t, rest, EntriesObs(t, path[1..], data), EntryObs(t[s], s, s, data));
    }
  }

  lemma {:induction false} ChainLinked(t: Table, s: uint8, n: nat)
    requires IsTable(t) && Climb(t, s, NO_PARENT, n).Some?
    ensures var c := Climb(t, s, NO_PARENT, n).value;
      Linked(t, c) && (if s < |t| then c != [] && c[0] == s else c == [])
    decreases n
  {
    if s < |t| {
      ChainLinked(t, t[s].parent, n - 1);
    }
  }

  /** A chain splits at any ancestor; at NO_PARENT the second part is empty. */
  lemma {:induction false} ChainSplits(t: Table, s: uint8, l: uint8, n: nat)
    requires WellFormed(t) && n <= MAX_HSM_DEPTH && (IsAncestor(t, l, s) || l == NO_PARENT)
    requires Climb(t, s, NO_PARENT, n).Some?
    ensures Climb(t, s, l, n).Some?
    ensures Climb(t, s, NO_PARENT, n).value == Climb(t, s, l, n).value + ActivePath(t, l)
    decreases n
  {
    if s < |t| && s != l {
      var p := t[s].parent;
      if l < |t| {
        AncestorStep(t, l, s);
      }
      ChainSplits(t, p, l, n - 1);
      var c, d := Climb(t, p, NO_PARENT, n - 1).value, Climb(t, p, l, n - 1).value;
      assert [s] + c == ([s] + d) + ActivePath(t, l);
    } else if s < |t| {
      ClimbMore(t, s, NO_PARENT, n, MAX_HSM_DEPTH);
    } else {
      assert forall k: nat :: Up(t, s, k) == s;
    }
  }

  lemma {:induction false} TransitionReplays(t: Table, from: uint8, to: uint8, data: EventData)
    requires WellFormed(t) && from < |t| && to < |t| && from != to
    ensures Transition(t, from, to, data).Some?
    ensures Replay(t, ActivePath(t, from), Transition(t, from, to, data).value) == Some(ActivePath(t, to))
  {
    LcaOnWellFormed(t, from, to);
    LcaIsDeepestCommon(t, from, to, MAX_HSM_DEPTH);
    var l := Lca(t, from, to, MAX_HSM_DEPTH).value;
    ChainSplits(t, from, l, MAX_HSM_DEPTH);
    ChainSplits(t, to, l, MAX_HSM_DEPTH);
    var m := Moves(t, from, to).value;
    ChainLinked(t, to, MAX_HSM_DEPTH);
    ReplayExits(t, m.0, ActivePath(t, l));
    ReplayEntries(t, m.1, ActivePath(t, l), data);
    ReplayConcat(t, ActivePath(t, from), ExitsObs(t, m.0), EntriesObs(t, m.1, data));
  }

  lemma {:induction false} ExitedMeetsNot(t: Table, a: uint8, b: uint8, n: nat, x: uint8)
    requires Lca(t, a, b, n).Some? && Climb(t, a, Lca(t, a, b, n).value, n).Some?
    requires x in Climb(t, a, Lca(t, a, b, n).value, n).value
    ensures Meets(t, x, b, MAX_HSM_DEPTH) == Some(false)
    decreases n
  {
    if x != a {
      ExitedMeetsNot(t, t[a].parent, b, n - 1, x);
    }
  }

  lemma {:induction false} EnteredMeets(t: Table, b: uint8, l: uint8, n: nat, x: uint8)
    requires Climb(t, b, l, n).Some? && x in Climb(t, b, l, n).value
    ensures Meets(t, x, b, n) == Some(true)
    decreases n
  {
    if x != b {
      EnteredMeets(t, t[b].parent, l, n - 1, x);
    }
  }

  /** No state is both left and entered by one transition, on any table. */
  lemma NoStateLeftAndEntered(t: Table, from: uint8, to: uint8)
    requires Moves(t, from, to).Some?
    ensures forall s: uint8 :: !(s in Moves(t, from, to).value.0 && s in Moves(t, from, to).value.1)
  {
    var l := Lca(t, from, to, MAX_HSM_DEPTH).value;
    forall s: uint8 | s in Moves(t, from, to).value.0 && s in Moves(t, from, to).value.1
      ensures false
    {
      ExitedMeetsNot(t, from, to, MAX_HSM_DEPTH, s);
      EnteredMeets(t, to, l, MAX_HSM_DEPTH, s);
    }
  }

  /** Two states of a well-formed table that are ancestors of each other are the same. */
  lemma {:induction false} AncestorsOrdered(t: Table, a: uint8, b: uint8)
    requires WellFormed(t) && IsAncestor(t, a, b) && IsAncestor(t, b, a)
    ensures a == b
  {
    ChainSplits(t, a, b, MAX_HSM_DEPTH);
    ChainSplits(t, b, a, MAX_HSM_DEPTH);
    assert |ActivePath(t, a)| == |Climb(t, a, b, MAX_HSM_DEPTH).value| + |ActivePath(t, b)|;
    assert |ActivePath(t, b)| == |Climb(t, b, a, MAX_HSM_DEPTH).value| + |ActivePath(t, a)|;
  }

  /** Whichever ancestor handled the event, the exits start from the leaf: the current state is the first to
      be left, or nothing is left when it is an ancestor of the target; and the target is the last to be
      entered, or nothing is entered when it is an ancestor of the current state. */
  lemma ExitsStartAtCurrent(t: Table, from: uint8, to: uint8)
    requires WellFormed(t) && from < |t| && to < |t| && Moves(t, from, to).Some?
    ensures var m := Moves(t, from, to).value;
      && (if IsAncestor(t, from, to) then m.0 == [] else m.0 != [] && m.0[0] == from)
      && (if IsAncestor(t, to, from) then m.1 == [] else m.1 != [] && m.1[0] == to)
  {
    LcaIsDeepestCommon(t, from, to, MAX_HSM_DEPTH);
    assert Up(t, from, 0) == from && Up(t, to, 0) == to;
    var l := Lca(t, from, to, MAX_HSM_DEPTH).value;
    if IsAncestor(t, from, to) {
      AncestorsOrdered(t, from, l);
    }
    if IsAncestor(t, to, from) {
      AncestorsOrdered(t, to, l);
    }
  }

  // ---------------------------------------------------------------------------------------------
  // Whole runs
  // ---------------------------------------------------------------------------------------------

  /** From `e` to `e'` the observer's stack went from one active path to the other. */
  ghost predicate LegalBetween(t: Table, e: Engine, e': Engine)
    requires WellFormed(t)
  {
    && e.trace <= e'.trace
    && Replay(t, ActivePath(t, e.current), e'.trace[|e.trace|..]) == Some(ActivePath(t, e'.current))
  }

  lemma LegalTrans(t: Table, a: Engine, b: Engine, c: Engine)
    requires WellFormed(t) && LegalBetween(t, a, b) && LegalBetween(t, b, c)
    ensures LegalBetween(t, a, c)
  {
    var x, y := b.trace[|a.trace|..], c.trace[|b.trace|..];
    assert c.trace[|a.trace|..] == x + y;
    ReplayConcat(t, ActivePath(t, a.current), x, y);
  }

  /** Observations other than OnExit and OnEntry leave the observer's stack alone. */
  lemma ReplayNeutral(t: Table, stack: seq<uint8>, obs: seq<Obs>)
    requires forall o :: o in obs ==> !o.OnExit? && !o.OnEntry?
    ensures Replay(t, stack, obs) == Some(stack)
    decreases |obs|
  {
    if obs != [] {
      assert obs[0] in obs;
      ReplayNeutral(t, stack, obs[1..]);
    }
  }

  /** A legal stretch of observations between neutral ones. */
  lemma ReplayAround(t: Table, from: seq<uint8>, to: seq<uint8>, before: seq<Obs>, moved: seq<Obs>, after: seq<Obs>)
    requires Replay(t, from, moved) == Some(to)
    requires forall o :: o in before || o in after ==> !o.OnExit? && !o.OnEntry?
    ensures Replay(t, from, before + moved + after) == Some(to)
  {
    ReplayNeutral(t, from, before);
    ReplayNeutral(t, to, after);
    ReplayConcat(t, from, before, moved);
    ReplayConcat(t, from, before + moved, after);
  }

  lemma Stays(t: Table, s: uint8, data: EventData)
    ensures Transition(t, s, s, data) == Some([])
  {
  }

  /** What one iteration adds to the trace: neutral observations around at most one transition. */
  lemma StepShape(t: Table, e: Engine, a: Answer) returns (before: seq<Obs>, moved: seq<Obs>, after: seq<Obs>)
    requires e.pending.Some? && HsmStep(t, e, a).Some?
    ensures var e' := HsmStep(t, e, a).value;
      && e'.trace == e.trace + (before + moved + after)
      && (forall o :: o in before || o in after ==> !o.OnExit? && !o.OnEntry?)
      && (e'.current == e.current || e'.current < |t|)
      && Transition(t, e.current, e'.current, e.pending.value.data) == Some(moved)
  {
    hide Transition;
    var ev := e.pending.value;
    var row := t[ev.target];
    before := GuardObs(row, ev, a.guardOk);
    if row.hasGuard && !a.guardOk {
      moved, after := [], [];
      Stays(t, e.current, ev.data);
      assert before + [] + [] == before;
    } else {
      moved := Transition(t, e.current, ev.target, ev.data).value;
      after := [Action(ev.target, ev.data), OnTransition(e.current, ev.target)];
      assert e.trace + before + moved + after == e.trace + (before + moved + after);
    }
  }

  lemma StepLegal(t: Table, e: Engine, a: Answer)
    requires WellFormed(t) && e.current < |t| && e.pending.Some? && HsmStep(t, e, a).Some?
    ensures HsmStep(t, e, a).value.current < |t|
    ensures LegalBetween(t, e, HsmStep(t, e, a).value)
  {
    var before, moved, after := StepShape(t, e, a);
    var e' := HsmStep(t, e, a).value;
    if e'.current != e.current {
      TransitionReplays(t, e.current, e'.current, e.pending.value.data);
    }
    ReplayAround(t, ActivePath(t, e.current), ActivePath(t, e'.current), before, moved, after);
    assert e'.trace[|e.trace|..] == before + moved + after;
  }

  /** Over every run on a well-formed table, with any events, guard answers and raised events
      (including events raised by guards): exits pop and entries push the active path, and at the
      end of every prefix of the run the stack is the active path of the current state. */
  lemma {:induction false} RunLegal(t: Table, e: Engine, script: seq<Answer>)
    requires WellFormed(t) && e.current < |t| && HsmRun(t, e, script).Some?
    ensures HsmRun(t, e, script).value.current < |t|
    ensures LegalBetween(t, e, HsmRun(t, e, script).value)
    decreases |script|
  {
    if script == [] || e.pending.None? {
      assert e.trace[|e.trace|..] == [];
    } else {
      StepLegal(t, e, script[0]);
      var next := HsmStep(t, e, script[0]).value;
      RunLegal(t, next, script[1..]);
      LegalTrans(t, e, next, HsmRun(t, e, script).value);
    }
  }

  /** On a well-formed table the engine asserts in exactly three cases: a target outside the table,
      a missing state function, or a guard that raised an event on a real transition. */
  lemma StepFaultsIff(t: Table, e: Engine, a: Answer)
    requires WellFormed(t) && e.current < |t| && e.pending.Some?
    ensures HsmStep(t, e, a).None? <==>
      || e.pending.value.target >= |t|
      || (var row := t[e.pending.value.target];
          && (row.hasGuard ==> a.guardOk)
          && (!row.hasState
              || (e.pending.value.target != e.current && row.hasGuard && a.guardRaises.Some?)))
  {
    var to := e.pending.value.target;
    if to < |t| && to != e.current {
      TransitionReplays(t, e.current, to, e.pending.value.data);
    }
  }

  // ---------------------------------------------------------------------------------------------
  // The hierarchical engine generalises the flat one
  // ---------------------------------------------------------------------------------------------

  /** No state has a parent. */
  ghost predicate IsFlat(t: Table) {
    IsTable(t) && forall s :: 0 <= s < |t| ==> t[s].parent >= |t|
  }

  lemma FlatClimb(t: Table, s: uint8, n: nat)
    requires IsFlat(t) && s < |t|
    ensures Climb(t, s, NO_PARENT, n + 1) == Some([s])
  {
    assert Climb(t, t[s].parent, NO_PARENT, n) == Some([]);
    assert [s] + [] == [s];
  }

  lemma FlatLca(t: Table, from: uint8, to: uint8, n: nat)
    requires IsFlat(t) && from < |t| && to < |t| && from != to && n > 0
    ensures Lca(t, from, to, n) == Some(NO_PARENT)
  {
    var d: nat := MAX_HSM_DEPTH - 1;
    assert Meets(t, from, t[to].parent, d) == Some(false);
    assert Meets(t, from, to, d + 1) == Some(false);
  }

  lemma FlatMoves(t: Table, from: uint8, to: uint8)
    requires IsFlat(t) && from < |t| && to < |t| && from != to
    ensures Moves(t, from, to) == Some(([from], [to]))
  {
    FlatClimb(t, from, MAX_HSM_DEPTH - 1);
    FlatClimb(t, to, MAX_HSM_DEPTH - 1);
    FlatLca(t, from, to, MAX_HSM_DEPTH);
  }

  /** On a table without parents the two engines make the same step, except exactly when a guard
      that answers true raises an event whose target is the current state while the transition's
      own target is not, or the other way round: the flat engine then follows the new event. */
  lemma {:induction false} FlatStepAgreesIff(t: Table, e: Engine, a: Answer)
    requires IsFlat(t) && e.current < |t| && e.pending.Some?
    ensures HsmStep(t, e, a) == FlatStep(t, e, a) <==>
      var to := e.pending.value.target;
      !(to < |t| && t[to].hasGuard && a.guardOk && t[to].hasState && a.guardRaises.Some?
        && ((to == e.current) != (a.guardRaises.value.target == e.current)))
  {
    var ev := e.pending.value;
    if ev.target < |t| && ev.target != e.current {
      FlatMoves(t, e.current, ev.target);
      var m := Moves(t, e.current, ev.target).value;
      assert ExitsObs(t, m.0) == ExitObs(t[e.current], e.current) by {
        assert m.0[1..] == [];
      }
      assert EntriesObs(t, m.1, ev.data) == EntryObs(t[ev.target], ev.target, ev.target, ev.data) by {
        assert m.1[1..] == [];
      }
    }
    var flat, hsm := FlatStep(t, e, a), HsmStep(t, e, a);
    if flat.Some? && hsm.Some? {
      assert flat.value.trace == hsm.value.trace;
    }
  }

  /** When guards raise no events the two engines agree on every run: the same observations, the
      same states and the same faults. */
  lemma {:induction false} FlatRunAgrees(t: Table, e: Engine, script: seq<Answer>)
    requires IsFlat(t) && e.current < |t|
    requires forall a :: a in script ==> a.guardRaises.None?
    ensures HsmRun(t, e, script) == FlatRun(t, e, script)
    decreases |script|
  {
    if script != [] && e.pending.Some? {
      assert script[0] in script;
      FlatStepAgreesIff(t, e, script[0]);
      FlatStepInTable(t, e, script[0]);
      if HsmStep(t, e, script[0]).Some? {
        FlatRunAgrees(t, HsmStep(t, e, script[0]).value, script[1..]);
      }
    }
  }

  /** A run on which they differ: in state 0, the guard of state 1 raises an event to state 0.  The
      flat engine runs the action of state 1 without leaving state 0; the hierarchical one asserts. */
  lemma GuardEventsDiverge()
    ensures var t := [Row(true, false, false, false, NO_PARENT), Row(true, true, false, false, NO_PARENT)];
      var e := Engine(0, Some(Event(1, NoEventData)), []);
      var a := Answer(true, Some(Event(0, NoEventData)), None);
      && HsmStep(t, e, a).None?
      && FlatStep(t, e, a) == Some(Engine(0, Some(Event(0, NoEventData)),
           [Guard(1, NoEventData, true), Action(1, NoEventData), OnTransition(0, 0)]))
  {
    var t := [Row(true, false, false, false, NO_PARENT), Row(true, true, false, false, NO_PARENT)];
    var e := Engine(0, Some(Event(1, NoEventData)), []);
    var a := Answer(true, Some(Event(0, NoEventData)), None);
    var flat := FlatStep(t, e, a);
    assert t[1].hasGuard && t[1].hasState;
    assert flat.Some?;
    assert flat.value.trace == [Guard(1, NoEventData, true), Action(1, NoEventData), OnTransition(0, 0)];
  }

  // ---------------------------------------------------------------------------------------------
  // Propagation in the transition map
  // ---------------------------------------------------------------------------------------------

  /** The resolution loop stops after `k` steps: it has met a state that handles the event, or one
      whose parent is outside the table. */
  predicate StopsAt(t: Table, transitions: seq<uint8>, s: uint8, k: nat)
    requires |transitions| == |t| && s < |t|
  {
    var x := Up(t, s, k);
    x >= |t| || transitions[x] != PROPAGATE_TO_PARENT || t[x].parent >= |t|
  }

  /** The loop of END_TRANSITION_MAP_HSM.  It has no step bound: without a state that handles the event, or one
      without a parent, on the chain of the current state it would run for ever (`ResolutionStopsIff`). */
  method ResolveTransition(t: Table, transitions: seq<uint8>, current: uint8) returns (resolved: uint8)
    requires |transitions| == |t| && current < |t| && Handled(t, transitions, current)
    ensures resolved == Resolve(t, transitions, current, Depth(t, transitions, current))
  {
    ghost var depth := Depth(t, transitions, current);
    ghost var steps: nat := 0;
    var state: uint8 := current;
    resolved := transitions[state];
    while resolved == PROPAGATE_TO_PARENT
      invariant state < |t| && resolved == transitions[state]
      invariant steps <= depth && StopsAt(t, transitions, state, depth - steps)
      invariant Resolve(t, transitions, state, depth - steps) == Resolve(t, transitions, current, depth)
      decreases depth - steps
    {
      var parent := t[state].parent;
      if parent >= |t| {
        resolved := EVENT_IGNORED;
        break;
      }
      state := parent;
      resolved := transitions[state];
      steps := steps + 1;
    }
  }

  /** Where the resolution loop stops first. */
  ghost function Depth(t: Table, transitions: seq<uint8>, s: uint8): (k: nat)
    requires |transitions| == |t| && s < |t| && Handled(t, transitions, s)
    ensures StopsAt(t, transitions, s, k)
  {
    ResolutionStopsIff(t, transitions, s);
    var k: nat :| StopsAt(t, transitions, s, k); k
  }

  function Resolve(t: Table, transitions: seq<uint8>, s: uint8, k: nat): uint8
    requires |transitions| == |t| && s < |t| && StopsAt(t, transitions, s, k)
    decreases k
  {
    if transitions[s] != PROPAGATE_TO_PARENT then transitions[s]
    else if t[s].parent >= |t| then EVENT_IGNORED
    else Resolve(t, transitions, t[s].parent, k - 1)
  }

  /** `h` is the nearest ancestor-or-self of `s`, `n` steps up, whose entry does not propagate. */
  ghost predicate HandledAt(t: Table, transitions: seq<uint8>, s: uint8, n: nat)
    requires |transitions| == |t|
  {
    && Up(t, s, n) < |t| && transitions[Up(t, s, n)] != PROPAGATE_TO_PARENT
    && forall j: nat :: j < n ==> Up(t, s, j) < |t| && transitions[Up(t, s, j)] == PROPAGATE_TO_PARENT
  }

  /** Propagation never hands PROPAGATE_TO_PARENT to the engine: it yields the entry of the nearest
      ancestor-or-self that does not propagate, or EVENT_IGNORED exactly when every one does. */
  lemma {:induction false} ResolveNearest(t: Table, transitions: seq<uint8>, s: uint8, k: nat)
    requires |transitions| == |t| && s < |t| && StopsAt(t, transitions, s, k)
    ensures Resolve(t, transitions, s, k) != PROPAGATE_TO_PARENT
    ensures (exists n: nat :: HandledAt(t, transitions, s, n)
               && Resolve(t, transitions, s, k) == transitions[Up(t, s, n)])
            || (Resolve(t, transitions, s, k) == EVENT_IGNORED
                && forall c: uint8 :: IsAncestor(t, c, s) ==> transitions[c] == PROPAGATE_TO_PARENT)
    decreases k
  {
    if transitions[s] != PROPAGATE_TO_PARENT {
      assert HandledAt(t, transitions, s, 0);
    } else if t[s].parent >= |t| {
      forall c: uint8 | IsAncestor(t, c, s)
        ensures c == s
      {
        if c != s {
          NoAncestorOutside(t, c, t[s].parent);
          AncestorStep(t, c, s);
        }
      }
    } else {
      var p := t[s].parent;
      ResolveNearest(t, transitions, p, k - 1);
      if n: nat :| HandledAt(t, transitions, p, n)
                   && Resolve(t, transitions, s, k) == transitions[Up(t, p, n)] {
        assert forall j: nat :: 0 < j ==> Up(t, s, j) == Up(t, p, j - 1);
        assert HandledAt(t, transitions, s, n + 1);
      } else {
        forall c: uint8 | IsAncestor(t, c, s) && c != s
          ensures IsAncestor(t, c, p)
        {
          AncestorStep(t, c, s);
        }
      }
    }
  }

  /** On a well-formed table the resolution loop always stops. */
  lemma {:induction false} ResolutionStops(t: Table, transitions: seq<uint8>, s: uint8, n: nat)
    requires IsTable(t) && |transitions| == |t| && s < |t| && Climb(t, s, NO_PARENT, n).Some?
    ensures Handled(t, transitions, s)
    decreases n
  {
    if StopsAt(t, transitions, s, 0) {
      ResolutionStopsIff(t, transitions, s);
    } else {
      var p := t[s].parent;
      ResolutionStops(t, transitions, p, n - 1);
      ResolutionStopsIff(t, transitions, p);
      var k: nat :| StopsAt(t, transitions, p, k);
      assert StopsAt(t, transitions, s, k + 1);
      ResolutionStopsIff(t, transitions, s);
    }
  }

  /** Some ancestor-or-self of `s` does not propagate, or has no parent to propagate to. */
  ghost predicate Handled(t: Table, transitions: seq<uint8>, s: uint8)
    requires |transitions| == |t|
  {
    exists c: uint8 :: IsAncestor(t, c, s) && (transitions[c] != PROPAGATE_TO_PARENT || t[c].parent >= |t|)
  }

  /** For every table and transition map: the resolution loop stops if and only if the chain of `s` has such
      a state, and then in fewer steps than the table has states; otherwise it propagates for ever. */
  lemma {:induction false} ResolutionStopsIff(t: Table, transitions: seq<uint8>, s: uint8)
    requires |transitions| == |t| && s < |t|
    ensures (exists k: nat :: StopsAt(t, transitions, s, k)) <==> Handled(t, transitions, s)
    ensures Handled(t, transitions, s) ==> exists k: nat :: k < |t| && StopsAt(t, transitions, s, k)
  {
    if k: nat :| StopsAt(t, transitions, s, k) {
      StopMeansHandled(t, transitions, s, k);
      ResolutionStopsSoon(t, transitions, s, k);
    }
    if Handled(t, transitions, s) {
      var c: uint8 :| IsAncestor(t, c, s) && (transitions[c] != PROPAGATE_TO_PARENT || t[c].parent >= |t|);
      var k: nat :| Up(t, s, k) == c;
      assert StopsAt(t, transitions, s, k);
      ResolutionStopsSoon(t, transitions, s, k);
    }
  }

  lemma {:induction false} StopMeansHandled(t: Table, transitions: seq<uint8>, s: uint8, k: nat)
    requires |transitions| == |t| && s < |t| && StopsAt(t, transitions, s, k)
    ensures Handled(t, transitions, s)
    decreases k
  {
    if transitions[s] != PROPAGATE_TO_PARENT || t[s].parent >= |t| {
      assert Up(t, s, 0) == s;
    } else {
      var p := t[s].parent;
      StopMeansHandled(t, transitions, p, k - 1);
      var c: uint8 :| IsAncestor(t, c, p) && (transitions[c] != PROPAGATE_TO_PARENT || t[c].parent >= |t|);
      if c != s {
        AncestorStep(t, c, s);
      }
    }
  }

  lemma {:induction false} UpAdd(t: Table, s: uint8, i: nat, j: nat)
    ensures Up(t, s, i + j) == Up(t, Up(t, s, i), j)
    decreases i
  {
    if s >= |t| {
      OutsideStays(t, s, i + j);
      OutsideStays(t, s, j);
    } else if i > 0 {
      UpAdd(t, t[s].parent, i - 1, j);
    }
  }

  lemma OutsideStays(t: Table, s: uint8, k: nat)
    requires s >= |t|
    ensures Up(t, s, k) == s
  {
  }

  /** A loop that stops does so in fewer steps than the table has states: before, it meets no state twice. */
  lemma {:induction false} ResolutionStopsSoon(t: Table, transitions: seq<uint8>, s: uint8, k: nat)
    requires |transitions| == |t| && s < |t| && StopsAt(t, transitions, s, k)
    ensures exists j: nat :: j < |t| && StopsAt(t, transitions, s, j)
    decreases k
  {
    if i: nat :| i < k && StopsAt(t, transitions, s, i) {
      ResolutionStopsSoon(t, transitions, s, i);
    } else {
      var path := seq(k + 1, i requires 0 <= i => Up(t, s, i));
      forall i | 0 <= i < |path|
        ensures path[i] < |t|
      {
        UntilStop(t, transitions, s, i, k);
      }
      forall i, j | 0 <= i < j < |path|
        ensures path[i] != path[j]
      {
        if path[i] == path[j] {
          UpAdd(t, s, i, k - j);
          UpAdd(t, s, j, k - j);
          assert StopsAt(t, transitions, s, i + (k - j));
        }
      }
      FewStates(path, |t|);
    }
  }

  /** As long as the loop has not stopped it stays inside the table. */
  lemma {:induction false} UntilStop(t: Table, transitions: seq<uint8>, s: uint8, i: nat, k: nat)
    requires |transitions| == |t| && s < |t| && i <= k
    requires forall j: nat :: j < k ==> !StopsAt(t, transitions, s, j)
    ensures Up(t, s, i) < |t|
    decreases i
  {
    if i > 0 {
      UntilStop(t, transitions, s, i - 1, k);
      assert !StopsAt(t, transitions, s, i - 1);
      UpAdd(t, s, i - 1, 1);
    }
  }

  /** Different states of a table of `n` states are at most `n`. */
  lemma {:induction false} FewStates(path: seq<uint8>, n: nat)
    requires forall i :: 0 <= i < |path| ==> path[i] < n
    requires forall i, j :: 0 <= i < j < |path| ==> path[i] != path[j]
    ensures |path| <= n
    decreases n
  {
    if i :| 0 <= i < |path| && path[i] == n - 1 {
      var rest := path[..i] + path[i + 1..];
      assert forall j :: 0 <= j < |rest| ==> rest[j] == if j < i then path[j] else path[j + 1];
      FewStates(rest, n - 1);
    } else if path != [] {
      assert path[0] < n;
      FewStates(path, n - 1);
    }
  }

  /** On a cycle in which every state propagates, the loop never reaches a stopping point. */
  lemma {:induction false} CyclicResolutionNeverStops(t: Table, transitions: seq<uint8>, s: uint8, n: nat, k: nat)
    requires |transitions| == |t| && s < |t| && n > 0 && Up(t, s, n) == s
    requires forall j: nat :: j < n ==> Up(t, s, j) < |t| && transitions[Up(t, s, j)] == PROPAGATE_TO_PARENT
    ensures !StopsAt(t, transitions, s, k)
    decreases k
  {
    if k >= n {
      CyclicResolutionNeverStops(t, transitions, s, n, k - n);
      UpAdd(t, s, n, k - n);
    } else if k + 1 < n {
      assert Up(t, s, k + 1) < |t|;
      UpAdd(t, s, k, 1);
    } else {
      UpAdd(t, s, k, 1);
    }
  }

  /** Such a table: two states that are each other's parents and both propagate. */
  lemma TwoStatesForEver(k: nat)
    ensures var t := [Row(true, false, false, false, 1), Row(true, false, false, false, 0)];
      !StopsAt(t, [PROPAGATE_TO_PARENT, PROPAGATE_TO_PARENT], 0, k)
  {
    var t := [Row(true, false, false, false, 1), Row(true, false, false, false, 0)];
    assert Up(t, 1, 1) == Up(t, 0, 0) && Up(t, 0, 2) == Up(t, 1, 1) && Up(t, 0, 1) == Up(t, 1, 0);
    CyclicResolutionNeverStops(t, [PROPAGATE_TO_PARENT, PROPAGATE_TO_PARENT], 0, 2, k);
  }
}
