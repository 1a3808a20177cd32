/** A multicast delegate whose callbacks may change it while it is broadcasting
    (delegate-mq/delegate/MulticastDelegate.h).  Removal during a broadcast only empties a list node; the
    node itself goes when the outermost broadcast ends. */
module MulticastDelegates {
  import opened Common

  /** A bound target; two delegates are equal when they are bound to the same target. */
  type Delegate = nat

  /** A list node: its identity, and its delegate unless it has been emptied. */
  datatype Node = Node(tag: nat, target: Option<Delegate>)

  /** What a callback can do to the container it is called from. */
  datatype Command =
    | Add(d: Delegate)
    | Drop(d: Delegate)
    | Clear
    | Nest(caught: bool)                  // broadcast again; an exception from it may be caught
    | CopyAssign(rhs: seq<Option<Delegate>>)
    | MoveAssign(rhs: seq<Option<Delegate>>)
    | Throw

  /** What happens, at which nesting depth of broadcasts. */
  datatype Event =
    | Appended(depth: nat, tag: nat, target: Option<Delegate>)  // an empty node can only come from a moved list
    | Removed(depth: nat, d: Delegate)
    | Cleared(depth: nat)
    | Invoked(depth: nat, tag: nat, d: Delegate)
    | Ended(depth: nat, threw: bool)                            // a broadcast whose calls are made at this depth

  /** A registration: a delegate and the node that holds it. */
  datatype Entry = Entry(tag: nat, d: Delegate)

  // ---------------------------------------------------------------------------------------------
  // The container without deferral: removal takes effect at once
  // ---------------------------------------------------------------------------------------------

  function RemoveFirst(s: seq<Entry>, d: Delegate): seq<Entry> {
    if s == [] then []
    else if s[0].d == d then s[1..]
    else [s[0]] + RemoveFirst(s[1..], d)
  }

  function Act(s: seq<Entry>, e: Event): seq<Entry> {
    match e
    case Appended(_, tag, target) => if target.Some? then s + [Entry(tag, target.value)] else s
    case Removed(_, d) => RemoveFirst(s, d)
    case Cleared(_) => []
    case Invoked(_, _, _) => s
    case Ended(_, _) => s
  }

  /** The registrations after everything in `log`. */
  function Registered(log: seq<Event>): seq<Entry> {
    if log == [] then [] else Act(Registered(log[..|log| - 1]), log[|log| - 1])
  }

  /** Every call went to a delegate registered at that moment, and node identities are never reused. */
  predicate Sound(log: seq<Event>) {
    log == [] ||
    var before, e := log[..|log| - 1], log[|log| - 1];
    && Sound(before)
    && (e.Invoked? ==> Entry(e.tag, e.d) in Registered(before))
    && (e.Appended? ==> e.tag == NextTag(before))
  }

  function NextTag(log: seq<Event>): nat {
    if log == [] then 0
    else NextTag(log[..|log| - 1]) + if log[|log| - 1].Appended? then 1 else 0
  }

  /** How many calls were made. */
  function Invocations(log: seq<Event>): nat {
    if log == [] then 0
    else Invocations(log[..|log| - 1]) + if log[|log| - 1].Invoked? then 1 else 0
  }

  lemma LogStep(log: seq<Event>, e: Event)
    ensures Registered(log + [e]) == Act(Registered(log), e)
    ensures NextTag(log + [e]) == NextTag(log) + if e.Appended? then 1 else 0
    ensures Invocations(log + [e]) == Invocations(log) + if e.Invoked? then 1 else 0
    ensures Sound(log + [e]) <==>
      (Sound(log) && (e.Invoked? ==> Entry(e.tag, e.d) in Registered(log)) && (e.Appended? ==> e.tag == NextTag(log)))
  {
    assert (log + [e])[..|log|] == log;
  }

  lemma {:induction false} RemoveFirstKeeps(s: seq<Entry>, d: Delegate)
    ensures forall x :: x in RemoveFirst(s, d) ==> x in s
  {
    if s != [] && s[0].d != d {
      RemoveFirstKeeps(s[1..], d);
    }
  }

  /** Removing takes out the oldest registration of `d` and nothing else; there may be none. */
  lemma {:induction false} RemovesOldest(s: seq<Entry>, d: Delegate, i: nat)
    requires i <= |s| && (forall j :: 0 <= j < i ==> s[j].d != d) && (i < |s| ==> s[i].d == d)
    ensures RemoveFirst(s, d) == if i < |s| then s[..i] + s[i + 1..] else s
  {
    if i > 0 {
      RemovesOldest(s[1..], d, i - 1);
    }
  }

  /** Only an appended node brings a registration. */
  lemma ActBrings(s: seq<Entry>, e: Event)
    ensures forall x :: x in Act(s, e) ==> x in s || (e.Appended? && x.tag == e.tag)
  {
    if e.Removed? {
      RemoveFirstKeeps(s, e.d);
    }
  }

  /** A registration that is gone stays gone: once removed, a node is never invoked again. */
  lemma {:induction false} NeverInvokedAfterRemoval(log: seq<Event>, j: nat, tag: nat)
    requires Sound(log) && j <= |log| && tag < NextTag(log[..j])
    requires forall d :: Entry(tag, d) !in Registered(log[..j])
    ensures forall d :: Entry(tag, d) !in Registered(log)
    ensures forall i :: j <= i < |log| && log[i].Invoked? ==> log[i].tag != tag
    ensures tag < NextTag(log)
    decreases |log|
  {
    if j == |log| {
      assert log[..j] == log;
    } else {
      var before, e := log[..|log| - 1], log[|log| - 1];
      assert before[..j] == log[..j] && before + [e] == log;
      LogStep(before, e);
      hide Registered, NextTag, Sound, Invocations;
      NeverInvokedAfterRemoval(before, j, tag);
      ActBrings(Registered(before), e);
    }
  }

  // ---------------------------------------------------------------------------------------------
  // Lists with emptied nodes
  // ---------------------------------------------------------------------------------------------

  /** The registrations a list stands for. */
  function Live(nodes: seq<Node>): seq<Entry> {
    if nodes == [] then []
    else (if nodes[0].target.Some? then [Entry(nodes[0].tag, nodes[0].target.value)] else []) + Live(nodes[1..])
  }

  lemma LiveStep(nodes: seq<Node>)
    requires nodes != []
    ensures if nodes[0].target.Some?
            then Live(nodes) == [Entry(nodes[0].tag, nodes[0].target.value)] + Live(nodes[1..])
              && Live(nodes)[0] == Entry(nodes[0].tag, nodes[0].target.value) && Live(nodes)[1..] == Live(nodes[1..])
            else Live(nodes) == Live(nodes[1..])
  {
  }

  /** What the first node contributes. */
  function Head(nodes: seq<Node>): seq<Entry>
    requires nodes != []
  {
    if nodes[0].target.Some? then [Entry(nodes[0].tag, nodes[0].target.value)] else []
  }

  lemma LiveHead(nodes: seq<Node>)
    requires nodes != []
    ensures Live(nodes) == Head(nodes) + Live(nodes[1..])
  {
  }

  lemma Joined(a: seq<Entry>, b: seq<Entry>, c: seq<Entry>)
    ensures a + b + c == a + (b + c)
  {
  }

  lemma {:induction false} LiveConcat(a: seq<Node>, b: seq<Node>)
    ensures Live(a + b) == Live(a) + Live(b)
  {
    if a == [] {
      assert a + b == b;
      assert Live(a) == [];
    } else {
      hide Live, Head;
      LiveConcat(a[1..], b);
      assert (a + b)[1..] == a[1..] + b;
      assert Head(a + b) == Head(a) by { SameHead(a, b); }
      LiveHead(a);
      LiveHead(a + b);
      Joined(Head(a), Live(a[1..]), Live(b));
    }
  }

  lemma SameHead(a: seq<Node>, b: seq<Node>)
    requires a != []
    ensures Head(a + b) == Head(a)
  {
  }

  lemma {:induction false} LiveHas(nodes: seq<Node>, x: Entry)
    ensures x in Live(nodes) <==> exists i :: 0 <= i < |nodes| && nodes[i] == Node(x.tag, Some(x.d))
  {
    if nodes != [] {
      LiveHas(nodes[1..], x);
      if x in Live(nodes[1..]) {
        var i :| 0 <= i < |nodes[1..]| && nodes[1..][i] == Node(x.tag, Some(x.d));
        assert nodes[i + 1] == Node(x.tag, Some(x.d));
      }
      if i :| 0 <= i < |nodes| && nodes[i] == Node(x.tag, Some(x.d)) {
        assert i == 0 || nodes[1..][i - 1] == Node(x.tag, Some(x.d));
      }
    }
  }

  predicate Holds(n: Node, d: Delegate) {
    n.target == Some(d)
  }

  /** Emptying or erasing the first node that holds `d` removes the first registration of `d`. */
  lemma {:induction false} LiveRemoves(nodes: seq<Node>, i: nat, d: Delegate)
    requires i < |nodes| && Holds(nodes[i], d) && forall j :: 0 <= j < i ==> !Holds(nodes[j], d)
    ensures Live(nodes[i := Node(nodes[i].tag, None)]) == RemoveFirst(Live(nodes), d)
    ensures Live(nodes[..i] + nodes[i + 1..]) == RemoveFirst(Live(nodes), d)
  {
    var emptied, erased := nodes[i := Node(nodes[i].tag, None)], nodes[..i] + nodes[i + 1..];
    LiveStep(nodes);
    LiveStep(emptied);
    if i == 0 {
      assert erased == nodes[1..] && emptied[1..] == nodes[1..];
    } else {
      var rest := nodes[1..];
      LiveRemoves(rest, i - 1, d);
      LiveStep(erased);
      assert emptied[1..] == rest[i - 1 := Node(rest[i - 1].tag, None)];
      assert erased[1..] == rest[..i - 1] + rest[i..];
      assert !Holds(nodes[0], d);
    }
  }

  lemma {:induction false} LiveWithout(nodes: seq<Node>, d: Delegate)
    requires forall j :: 0 <= j < |nodes| ==> !Holds(nodes[j], d)
    ensures RemoveFirst(Live(nodes), d) == Live(nodes)
  {
    if nodes != [] {
      assert !Holds(nodes[0], d);
      LiveStep(nodes);
      LiveWithout(nodes[1..], d);
    }
  }

  predicate NoNulls(nodes: seq<Node>) {
    forall i :: 0 <= i < |nodes| ==> nodes[i].target.Some?
  }

  function Emptied(nodes: seq<Node>): (r: seq<Node>)
    ensures |r| == |nodes| && forall i :: 0 <= i < |r| ==> r[i] == Node(nodes[i].tag, None)
  {
    seq(|nodes|, i requires 0 <= i < |nodes| => Node(nodes[i].tag, None))
  }

  lemma {:induction false} LiveEmptied(nodes: seq<Node>)
    requires forall i :: 0 <= i < |nodes| ==> nodes[i].target.None?
    ensures Live(nodes) == []
  {
    if nodes != [] {
      LiveEmptied(nodes[1..]);
    }
  }

  /** Identities ascend along the list. */
  predicate Ordered(nodes: seq<Node>, next: nat) {
    && (forall i, j :: 0 <= i < j < |nodes| ==> nodes[i].tag < nodes[j].tag)
    && (forall i :: 0 <= i < |nodes| ==> nodes[i].tag < next)
  }

  /** No node was erased: nodes were only emptied in place, or appended with fresh identities. */
  predicate Grown(a: seq<Node>, next: nat, b: seq<Node>) {
    && |a| <= |b|
    && (forall i :: 0 <= i < |a| ==> b[i].tag == a[i].tag && (b[i].target == a[i].target || b[i].target.None?))
    && (forall i :: |a| <= i < |b| ==> next <= b[i].tag)
  }

  /** Emptying or erasing one node. */
  lemma WithoutOne(nodes: seq<Node>, i: nat, next: nat)
    requires i < |nodes| && Ordered(nodes, next)
    ensures var emptied := nodes[i := Node(nodes[i].tag, None)]; Ordered(emptied, next) && Grown(nodes, next, emptied)
    ensures var erased := nodes[..i] + nodes[i + 1..]; Ordered(erased, next) && (NoNulls(nodes) ==> NoNulls(erased))
  {
    var erased := nodes[..i] + nodes[i + 1..];
    assert forall k :: 0 <= k < |erased| ==> erased[k] == nodes[if k < i then k else k + 1];
  }

  /** The nodes one broadcast invoked, in order: its own calls are those at its nesting depth. */
  function Calls(depth: nat, log: seq<Event>): seq<nat> {
    if log == [] then []
    else
      var e := log[|log| - 1];
      Calls(depth, log[..|log| - 1]) + if e.Invoked? && e.depth == depth then [e.tag] else []
  }

  predicate Deeper(depth: nat, log: seq<Event>) {
    forall i :: 0 <= i < |log| && (log[i].Invoked? || log[i].Ended?) ==> log[i].depth > depth
  }

  /** Everything happened at depth `depth` or deeper. */
  predicate AtLeast(depth: nat, log: seq<Event>) {
    forall i :: 0 <= i < |log| ==> log[i].depth >= depth
  }

  /** What an event does to the registrations, as a command. */
  function ChangeOf(e: Event): seq<Command> {
    match e
    case Appended(_, _, target) => if target.Some? then [Add(target.value)] else []
    case Removed(_, d) => [Drop(d)]
    case Cleared(_) => [Clear]
    case Invoked(_, _, _) => []
    case Ended(_, _) => []
  }

  /** The changes made at one depth: during a broadcast, those its own callbacks made. */
  function Changes(depth: nat, log: seq<Event>): seq<Command> {
    if log == [] then []
    else
      var e := log[|log| - 1];
      Changes(depth, log[..|log| - 1]) + if e.depth == depth then ChangeOf(e) else []
  }

  function Adds(ds: seq<Delegate>): seq<Command> {
    if ds == [] then [] else Adds(ds[..|ds| - 1]) + [Add(ds[|ds| - 1])]
  }

  /** The changes a command asks for; broadcasting again and throwing change nothing by themselves. */
  function Effect(c: Command): seq<Command> {
    match c
    case Add(_) => [c]
    case Drop(_) => [c]
    case Clear => [c]
    case CopyAssign(rhs) => [Clear] + Adds(Somes(rhs))
    case MoveAssign(rhs) => [Clear] + Adds(Somes(rhs))
    case Nest(_) => []
    case Throw => []
  }

  function Effects(commands: seq<Command>): seq<Command> {
    if commands == [] then [] else Effects(commands[..|commands| - 1]) + Effect(commands[|commands| - 1])
  }

  lemma {:induction false} ChangesConcat(depth: nat, a: seq<Event>, b: seq<Event>)
    ensures Changes(depth, a + b) == Changes(depth, a) + Changes(depth, b)
    decreases |b|
  {
    if b == [] {
      assert a + b == a;
    } else {
      assert (a + b)[..|a + b| - 1] == a + b[..|b| - 1];
      ChangesConcat(depth, a, b[..|b| - 1]);
    }
  }

  /** From one log to a later one by way of a third. */
  lemma ChangesVia(depth: nat, log0: seq<Event>, log1: seq<Event>, log2: seq<Event>)
    requires log0 <= log1 <= log2
    ensures Changes(depth, log2[|log0|..]) == Changes(depth, log1[|log0|..]) + Changes(depth, log2[|log1|..])
  {
    assert log2[|log0|..] == log1[|log0|..] + log2[|log1|..];
    ChangesConcat(depth, log1[|log0|..], log2[|log1|..]);
  }

  lemma OneChange(log: seq<Event>, e: Event)
    ensures Changes(e.depth, (log + [e])[|log|..]) == ChangeOf(e) && Flat(e.depth, (log + [e])[|log|..])
  {
    assert (log + [e])[|log|..] == [e];
    assert [e][..0] == [];
  }

  /** What happens in a nested broadcast is none of the enclosing callback's own doing. */
  lemma {:induction false} NestedChanges(depth: nat, log: seq<Event>)
    requires AtLeast(depth + 1, log)
    ensures Changes(depth, log) == [] && Deeper(depth, log) && AtLeast(depth, log)
  {
    if log != [] {
      NestedChanges(depth, log[..|log| - 1]);
    }
  }

  lemma EffectsStep(commands: seq<Command>, i: nat)
    requires i < |commands|
    ensures Effects(commands[..i + 1]) == Effects(commands[..i]) + Effect(commands[i])
  {
    assert commands[..i + 1][..i] == commands[..i];
  }

  lemma EffectIn(commands: seq<Command>, i: nat)
    requires i < |commands|
    ensures forall c :: c in Effect(commands[i]) ==> c in Effects(commands)
  {
    hide Effects, Effect;
    EffectsStep(commands, i);
    EffectsPrefix(commands, i + 1);
    forall c | c in Effect(commands[i])
      ensures c in Effects(commands)
    {
      assert c in Effects(commands[..i + 1]);
    }
  }

  lemma EffectsNone(commands: seq<Command>)
    ensures Effects(commands[..0]) == []
  {
  }

  lemma {:induction false} EffectsPrefix(commands: seq<Command>, i: nat)
    requires i <= |commands|
    ensures Effects(commands[..i]) <= Effects(commands)
    decreases |commands| - i
  {
    if i < |commands| {
      EffectsStep(commands, i);
      EffectsPrefix(commands, i + 1);
    } else {
      assert commands[..i] == commands;
    }
  }

  lemma AddsStep(ds: seq<Delegate>, d: Delegate)
    ensures Adds(ds + [d]) == Adds(ds) + [Add(d)]
  {
    assert (ds + [d])[..|ds|] == ds;
  }

  lemma {:induction false} CallsConcat(depth: nat, a: seq<Event>, b: seq<Event>)
    ensures Calls(depth, a + b) == Calls(depth, a) + Calls(depth, b)
    decreases |b|
  {
    if b == [] {
      assert a + b == a;
    } else {
      assert (a + b)[..|a + b| - 1] == a + b[..|b| - 1];
      CallsConcat(depth, a, b[..|b| - 1]);
    }
  }

  lemma {:induction false} NoCalls(depth: nat, log: seq<Event>)
    requires Deeper(depth, log)
    ensures Calls(depth, log) == []
  {
    if log != [] {
      NoCalls(depth, log[..|log| - 1]);
    }
  }

  predicate Ascending(s: seq<nat>) {
    forall i, j :: 0 <= i < j < |s| ==> s[i] < s[j]
  }

  lemma LiveSkips(nodes: seq<Node>, i: nat)
    requires i < |nodes| && nodes[i].target.None?
    ensures Live(nodes[..i] + nodes[i + 1..]) == Live(nodes)
  {
    assert nodes == nodes[..i] + ([nodes[i]] + nodes[i + 1..]);
    LiveConcat(nodes[..i], [nodes[i]] + nodes[i + 1..]);
    LiveConcat([nodes[i]], nodes[i + 1..]);
    LiveConcat(nodes[..i], nodes[i + 1..]);
  }

  function Delegates(s: seq<Entry>): (r: seq<Delegate>)
    ensures |r| == |s| && forall i :: 0 <= i < |s| ==> r[i] == s[i].d
  {
    if s == [] then [] else Delegates(s[..|s| - 1]) + [s[|s| - 1].d]
  }

  function Somes(rhs: seq<Option<Delegate>>): seq<Delegate> {
    if rhs == [] then []
    else Somes(rhs[..|rhs| - 1]) + if rhs[|rhs| - 1].Some? then [rhs[|rhs| - 1].value] else []
  }

  lemma AppendDelegate(nodes: seq<Node>, n: Node)
    ensures Delegates(Live(nodes + [n])) == Delegates(Live(nodes)) + if n.target.Some? then [n.target.value] else []
  {
    LiveConcat(nodes, [n]);
    if n.target.Some? {
      var s := Live(nodes) + [Entry(n.tag, n.target.value)];
      assert Live(nodes + [n]) == s && s[..|s| - 1] == Live(nodes);
    } else {
      assert Live(nodes + [n]) == Live(nodes);
    }
  }

  lemma LiveOne(n: Node)
    ensures Live([n]) == if n.target.Some? then [Entry(n.tag, n.target.value)] else []
  {
  }

  lemma ActAppended(s: seq<Entry>, depth: nat, tag: nat, target: Option<Delegate>)
    ensures Act(s, Appended(depth, tag, target)) == s + if target.Some? then [Entry(tag, target.value)] else []
  {
  }

  /** What the nodes of a list hold. */
  function Targets(nodes: seq<Node>): (r: seq<Option<Delegate>>)
    ensures |r| == |nodes| && forall i :: 0 <= i < |r| ==> r[i] == nodes[i].target
  {
    seq(|nodes|, i requires 0 <= i < |nodes| => nodes[i].target)
  }

  /** A list holds the delegates registered on it. */
  lemma {:induction false} TargetsHold(nodes: seq<Node>)
    ensures Somes(Targets(nodes)) == Delegates(Live(nodes))
    ensures None !in Targets(nodes) <==> NoNulls(nodes)
  {
    if nodes != [] {
      var front, n := nodes[..|nodes| - 1], nodes[|nodes| - 1];
      TargetsHold(front);
      AppendDelegate(front, n);
      assert front + [n] == nodes && Targets(nodes)[..|nodes| - 1] == Targets(front);
      NullsOf(nodes);
    }
  }

  lemma TargetsStep(nodes: seq<Node>, n: Node)
    ensures Targets(nodes + [n]) == Targets(nodes) + [n.target]
  {
  }

  lemma NullsOf(nodes: seq<Node>)
    ensures None !in Targets(nodes) <==> NoNulls(nodes)
  {
    forall i | 0 <= i < |nodes|
      ensures nodes[i].target == Targets(nodes)[i]
    {
    }
  }

  lemma SomesStep(rhs: seq<Option<Delegate>>, i: nat)
    requires i <= |rhs|
    ensures i == 0 ==> Somes(rhs[..i]) == []
    ensures i < |rhs| ==> Somes(rhs[..i + 1]) == Somes(rhs[..i]) + if rhs[i].Some? then [rhs[i].value] else []
    ensures i < |rhs| ==> rhs[..i + 1] == rhs[..i] + [rhs[i]]
  {
    if i < |rhs| {
      assert rhs[..i + 1][..i] == rhs[..i];
    }
  }

  lemma NoNullsStep(nodes: seq<Node>, n: Node)
    ensures NoNulls(nodes + [n]) <==> NoNulls(nodes) && n.target.Some?
  {
    assert forall i :: 0 <= i < |nodes| ==> (nodes + [n])[i] == nodes[i];
    assert (nodes + [n])[|nodes|] == n;
  }

  lemma GrownRefl(nodes: seq<Node>, next: nat)
    ensures Grown(nodes, next, nodes)
  {
  }

  lemma GrownTrans(a: seq<Node>, m: nat, b: seq<Node>, n: nat, c: seq<Node>)
    requires Grown(a, m, b) && Grown(b, n, c) && m <= n
    ensures Grown(a, m, c)
  {
    forall i | 0 <= i < |a|
      ensures c[i].tag == a[i].tag && (c[i].target == a[i].target || c[i].target.None?)
    {
      assert b[i].tag == a[i].tag;
    }
    forall i | |a| <= i < |c|
      ensures m <= c[i].tag
    {
      if i < |b| {
        assert m <= b[i].tag && c[i].tag == b[i].tag;
      }
    }
  }

  /** How far a pass has come: the nodes before `it` that still hold a delegate have been called, and the
      nodes from `it` on are newer than everything called. */
  predicate Passing(it: nat, nodes: seq<Node>, next: nat, mine: seq<nat>) {
    && it <= |nodes| && Ascending(mine)
    && (forall i :: 0 <= i < |mine| ==> mine[i] < next)
    && (forall i, j :: 0 <= i < |mine| && it <= j < |nodes| ==> mine[i] < nodes[j].tag)
    && (forall j :: 0 <= j < it && nodes[j].target.Some? ==> nodes[j].tag in mine)
  }

  lemma PassSkips(it: nat, nodes: seq<Node>, next: nat, mine: seq<nat>)
    requires Passing(it, nodes, next, mine) && it < |nodes| && nodes[it].target.None?
    ensures Passing(it + 1, nodes, next, mine)
  {
  }

  /** The node at the cursor is called, and the call changes the list. */
  lemma PassCalls(it: nat, nodes: seq<Node>, next: nat, mine: seq<nat>, nodes': seq<Node>, next': nat)
    requires Passing(it, nodes, next, mine) && it < |nodes|
    requires Grown(nodes, next, nodes') && Ordered(nodes, next) && Ordered(nodes', next') && next <= next'
    ensures Passing(it + 1, nodes', next', mine + [nodes[it].tag])
  {
    var mine' := mine + [nodes[it].tag];
    forall j | 0 <= j < it + 1 && nodes'[j].target.Some?
      ensures nodes'[j].tag in mine'
    {
      assert nodes'[j].tag == nodes[j].tag;
      if j < it {
        assert nodes[j].tag in mine;
      } else {
        assert mine'[|mine|] == nodes[it].tag;
      }
    }
    forall i, j | 0 <= i < |mine'| && it + 1 <= j < |nodes'|
      ensures mine'[i] < nodes'[j].tag
    {
      assert nodes'[it].tag == nodes[it].tag && nodes'[it].tag < nodes'[j].tag;
      if i < |mine| {
        assert mine[i] < nodes[it].tag;
      }
    }
  }

  lemma OneCall(depth: nat, tag: nat, d: Delegate, rest: seq<Event>)
    requires Deeper(depth, rest)
    ensures Calls(depth, [Invoked(depth, tag, d)] + rest) == [tag]
  {
    NoCalls(depth, rest);
    CallsConcat(depth, [Invoked(depth, tag, d)], rest);
    assert [Invoked(depth, tag, d)][..0] == [];
  }

  /** What holds during a pass at depth `depth + 1` that began with `nodes0`, `next0` and `log0`. */
  ghost predicate Underway(it: nat, depth: nat, nodes0: seq<Node>, next0: nat, log0: seq<Event>,
                           nodes: seq<Node>, next: nat, log: seq<Event>)
  {
    && Grown(nodes0, next0, nodes) && next0 <= next
    && log0 <= log && AtLeast(depth + 1, log[|log0|..])
    && Passing(it, nodes, next, Calls(depth + 1, log[|log0|..]))
  }

  lemma PassStarts(depth: nat, nodes: seq<Node>, next: nat, log: seq<Event>)
    ensures Underway(0, depth, nodes, next, log, nodes, next, log)
  {
    assert log[|log|..] == [];
  }

  lemma PassAdvances(it: nat, depth: nat, nodes0: seq<Node>, next0: nat, log0: seq<Event>,
                     nodes: seq<Node>, next: nat, log: seq<Event>, d: Delegate,
                     nodes': seq<Node>, next': nat, log': seq<Event>)
    requires Underway(it, depth, nodes0, next0, log0, nodes, next, log) && it < |nodes|
    requires Grown(nodes, next, nodes') && Ordered(nodes, next) && Ordered(nodes', next') && next <= next'
    requires log + [Invoked(depth + 1, nodes[it].tag, d)] <= log'
    requires Deeper(depth + 1, log'[|log| + 1..]) && AtLeast(depth + 1, log'[|log| + 1..])
    ensures Underway(it + 1, depth, nodes0, next0, log0, nodes', next', log')
  {
    hide Grown, Ordered, Passing, Calls;
    var call, rest := Invoked(depth + 1, nodes[it].tag, d), log'[|log| + 1..];
    GrownTrans(nodes0, next0, nodes, next, nodes');
    PassCalls(it, nodes, next, Calls(depth + 1, log[|log0|..]), nodes', next');
    OneCall(depth + 1, nodes[it].tag, d, rest);
    CallsConcat(depth + 1, log[|log0|..], [call] + rest);
    assert log'[|log0|..] == log[|log0|..] + ([call] + rest);
  }

  lemma PassGoesOn(it: nat, depth: nat, nodes0: seq<Node>, next0: nat, log0: seq<Event>,
                   nodes: seq<Node>, next: nat, log: seq<Event>)
    requires Underway(it, depth, nodes0, next0, log0, nodes, next, log) && it < |nodes| && nodes[it].target.None?
    ensures Underway(it + 1, depth, nodes0, next0, log0, nodes, next, log)
  {
    PassSkips(it, nodes, next, Calls(depth + 1, log[|log0|..]));
  }

  lemma PassEnds(it: nat, depth: nat, nodes0: seq<Node>, next0: nat, log0: seq<Event>,
                 nodes: seq<Node>, next: nat, log: seq<Event>)
    requires Underway(it, depth, nodes0, next0, log0, nodes, next, log)
    ensures Grown(nodes0, next0, nodes) && next0 <= next && log0 <= log && AtLeast(depth + 1, log[|log0|..])
    ensures Ascending(Calls(depth + 1, log[|log0|..])) && it <= |nodes|
    ensures it == |nodes| ==> forall x :: x in Live(nodes) ==> x.tag in Calls(depth + 1, log[|log0|..])
  {
    var mine := Calls(depth + 1, log[|log0|..]);
    if it == |nodes| {
      forall x | x in Live(nodes)
        ensures x.tag in mine
      {
        LiveHas(nodes, x);
      }
    }
  }

  // ---------------------------------------------------------------------------------------------
  // Where changes come from
  // ---------------------------------------------------------------------------------------------

  /** Everything happened at one depth. */
  predicate Flat(depth: nat, log: seq<Event>) {
    forall i :: 0 <= i < |log| ==> log[i].depth == depth
  }

  /** One of the calls numbered lo, ..., hi - 1 asks for this change. */
  predicate FromScript(script: seq<seq<Command>>, lo: nat, hi: nat, c: Command) {
    exists n :: lo <= n < hi && n < |script| && c in Effects(script[n])
  }

  /** Every change was asked for by `commands` or by one of those calls. */
  ghost predicate Sourced(script: seq<seq<Command>>, commands: seq<Command>, lo: nat, hi: nat, log: seq<Event>) {
    forall e, c :: e in log && c in ChangeOf(e) ==> c in Effects(commands) || FromScript(script, lo, hi, c)
  }

  lemma FlatVia(depth: nat, log0: seq<Event>, log1: seq<Event>, log2: seq<Event>)
    requires log0 <= log1 <= log2 && Flat(depth, log1[|log0|..]) && Flat(depth, log2[|log1|..])
    ensures Flat(depth, log2[|log0|..])
  {
    assert log2[|log0|..] == log1[|log0|..] + log2[|log1|..];
  }

  lemma FlatNone(depth: nat, log: seq<Event>)
    ensures Flat(depth, log[|log|..])
  {
  }

  lemma {:induction false} FlatSourced(script: seq<seq<Command>>, commands: seq<Command>, lo: nat, hi: nat,
                                       depth: nat, log: seq<Event>)
    requires Flat(depth, log) && forall c :: c in Changes(depth, log) ==> c in Effects(commands)
    ensures Sourced(script, commands, lo, hi, log)
  {
    hide Effects, FromScript;
    if log != [] {
      FlatSourced(script, commands, lo, hi, depth, log[..|log| - 1]);
      assert log == log[..|log| - 1] + [log[|log| - 1]];
    }
  }

  lemma SourcedVia(script: seq<seq<Command>>, commands: seq<Command>, lo: nat, mid: nat, hi: nat,
                   log0: seq<Event>, log1: seq<Event>, log2: seq<Event>)
    requires log0 <= log1 <= log2 && lo <= mid <= hi
    requires Sourced(script, commands, lo, mid, log1[|log0|..])
    requires Sourced(script, commands, lo, hi, log2[|log1|..])
    ensures Sourced(script, commands, lo, hi, log2[|log0|..])
  {
    hide Effects;
    assert log2[|log0|..] == log1[|log0|..] + log2[|log1|..];
  }

  /** Changes asked for by a later call, or by none but the calls, are changes asked for by the calls. */
  lemma SourcedAlso(script: seq<seq<Command>>, commands: seq<Command>, lo: nat, lo': nat, hi: nat, log: seq<Event>)
    requires Sourced(script, [], lo', hi, log) && lo <= lo'
    ensures Sourced(script, commands, lo, hi, log)
  {
    assert Effects([]) == [];
    hide Effects, FromScript, ChangeOf;
    forall e, c | e in log && c in ChangeOf(e)
      ensures FromScript(script, lo, hi, c)
    {
      FromEarlier(script, lo, lo', hi, c);
    }
  }

  lemma FromEarlier(script: seq<seq<Command>>, lo: nat, lo': nat, hi: nat, c: Command)
    requires lo <= lo' && FromScript(script, lo', hi, c)
    ensures FromScript(script, lo, hi, c)
  {
    hide Effects;
  }

  lemma SourcedLater(script: seq<seq<Command>>, commands: seq<Command>, lo: nat, lo': nat, hi: nat, log: seq<Event>)
    requires Sourced(script, commands, lo', hi, log) && lo <= lo'
    ensures Sourced(script, commands, lo, hi, log)
  {
    hide Effects, ChangeOf;
  }

  /** What the call numbered `n` does comes from the calls. */
  lemma SourcedCall(script: seq<seq<Command>>, n: nat, hi: nat, log: seq<Event>)
    requires n < |script| && n < hi && Sourced(script, script[n], n + 1, hi, log)
    ensures Sourced(script, [], n, hi, log)
  {
    hide Effects;
  }

  lemma SourcedNone(script: seq<seq<Command>>, commands: seq<Command>, lo: nat, hi: nat, e: Event)
    requires e.Invoked?
    ensures Sourced(script, commands, lo, hi, [])
    ensures Sourced(script, commands, lo, hi, [e])
  {
  }

  /** None of the calls numbered lo, ..., hi - 1 removes `d`. */
  predicate Spared(script: seq<seq<Command>>, lo: nat, hi: nat, d: Delegate) {
    forall n :: lo <= n < hi && n < |script| ==> Clear !in Effects(script[n]) && Drop(d) !in Effects(script[n])
  }

  lemma {:induction false} RemoveFirstSpares(s: seq<Entry>, d: Delegate, x: Entry)
    requires x in s && x.d != d
    ensures x in RemoveFirst(s, d)
  {
    if s[0].d != d && s[0] != x {
      RemoveFirstSpares(s[1..], d, x);
    }
  }

  lemma SparedBy(script: seq<seq<Command>>, lo: nat, hi: nat, d: Delegate, c: Command)
    requires Spared(script, lo, hi, d) && FromScript(script, lo, hi, c)
    ensures c != Clear && c != Drop(d)
  {
  }

  /** A registration that no call removes stays. */
  lemma {:induction false} SparedStays(script: seq<seq<Command>>, lo: nat, hi: nat, log0: seq<Event>, log: seq<Event>,
                                       x: Entry)
    requires log0 <= log && Sourced(script, [], lo, hi, log[|log0|..]) && Spared(script, lo, hi, x.d)
    requires x in Registered(log0)
    ensures x in Registered(log)
    decreases |log|
  {
    if |log| > |log0| {
      var front, e := log[..|log| - 1], log[|log| - 1];
      assert log[|log0|..] == front[|log0|..] + [e] && front + [e] == log;
      SparedStays(script, lo, hi, log0, front, x);
      LogStep(front, e);
      assert e in log[|log0|..];
      assert Effects([]) == [];
      hide Effects, Registered;
      if !e.Invoked? && ChangeOf(e) != [] {
        assert ChangeOf(e)[0] in ChangeOf(e);
        SparedBy(script, lo, hi, x.d, ChangeOf(e)[0]);
      }
      if e.Removed? {
        RemoveFirstSpares(Registered(front), e.d, x);
      }
    } else {
      assert log == log0;
    }
  }

  /** What the calls with these numbers ask for, in order. */
  function Asked(script: seq<seq<Command>>, made: seq<nat>): seq<Command> {
    if made == [] then []
    else
      var n := made[|made| - 1];
      Asked(script, made[..|made| - 1]) + if n < |script| then Effects(script[n]) else []
  }

  lemma AskedStep(script: seq<seq<Command>>, made: seq<nat>, n: nat)
    ensures Asked(script, made + [n]) == Asked(script, made) + if n < |script| then Effects(script[n]) else []
  {
    assert (made + [n])[..|made|] == made;
  }

  /** The call numbered `n` throws, or lets an exception out of a broadcast that it starts. */
  predicate MayThrow(script: seq<seq<Command>>, n: nat) {
    n < |script| && (Throw in script[n] || Nest(false) in script[n])
  }

  /** The broadcasts that the calls with these numbers start. */
  function Caughts(script: seq<seq<Command>>, made: seq<nat>): seq<bool> {
    if made == [] then []
    else
      var n := made[|made| - 1];
      Caughts(script, made[..|made| - 1]) + if n < |script| then Catches(script[n]) else []
  }

  lemma CaughtsStep(script: seq<seq<Command>>, made: seq<nat>, n: nat)
    ensures Caughts(script, made + [n]) == Caughts(script, made) + if n < |script| then Catches(script[n]) else []
  {
    assert (made + [n])[..|made|] == made;
  }

  lemma CaughtConcat(a: seq<bool>, b: seq<bool>, ca: seq<bool>, cb: seq<bool>)
    requires Caught(a, ca) && Caught(b, cb)
    ensures Caught(a + b, ca + cb)
  {
  }

  /** A broadcast at depth `depth` whose own calls are numbered `made`: as many as it invoked delegates, and the
      changes at its depth are what they ask for, in order, or a first part of that if one of them threw. */
  ghost predicate Making(script: seq<seq<Command>>, depth: nat, lo: nat, hi: nat, made: seq<nat>, threw: bool,
                         log: seq<Event>)
  {
    && |made| == |Calls(depth, log)| && Ascending(made) && (forall n :: n in made ==> lo <= n < hi)
    && (if threw then Changes(depth, log) <= Asked(script, made) else Changes(depth, log) == Asked(script, made))
    && (!threw ==> forall n :: n in made && n < |script| ==> Throw !in script[n])
    && (threw ==> made != [] && MayThrow(script, made[|made| - 1]))
    && (!threw ==> Caught(Ends(depth + 1, log), Caughts(script, made)))
    && Sourced(script, [], lo, hi, log)
  }

  lemma MakingStarts(script: seq<seq<Command>>, depth: nat, n: nat)
    ensures Making(script, depth, n, n, [], false, [])
  {
  }

  /** One more call, numbered `n`. */
  lemma MakingCall(script: seq<seq<Command>>, depth: nat, lo: nat, n: nat, hi: nat, made: seq<nat>, threw: bool,
                   log: seq<Event>, call: Event, rest: seq<Event>)
    requires Making(script, depth, lo, n, made, false, log) && lo <= n < hi
    requires call.Invoked? && call.depth == depth && Deeper(depth, rest)
    requires Sourced(script, [], n, hi, rest) && (!threw && n < |script| ==> Throw !in script[n])
    requires threw ==> MayThrow(script, n)
    requires !threw ==> Caught(Ends(depth + 1, rest), if n < |script| then Catches(script[n]) else [])
    requires var own := Changes(depth, rest);
      if n >= |script| then own == [] else if threw then own <= Effects(script[n]) else own == Effects(script[n])
    ensures Making(script, depth, lo, hi, made + [n], threw, log + ([call] + rest))
  {
    hide Sourced, Calls, Changes, Asked, Effects, Ascending, Deeper, Caught, Ends, Catches, Caughts;
    if !threw {
      CaughtsStep(script, made, n);
      EndsConcat(depth + 1, log, [call] + rest);
      EndsConcat(depth + 1, [call], rest);
      CallEnds(depth + 1, call);
      assert [] + Ends(depth + 1, rest) == Ends(depth + 1, rest);
      CaughtConcat(Ends(depth + 1, log), Ends(depth + 1, rest), Caughts(script, made),
                   if n < |script| then Catches(script[n]) else []);
    }
    MakingChanges(script, depth, made, n, log, call, rest);
    CallsConcat(depth, log, [call] + rest);
    OneCall(depth, call.tag, call.d, rest);
    LastAscends(made, n);
    SourcedMore(script, lo, n, hi, log);
    SourcedNone(script, [], lo, hi, call);
    SourcedAlso(script, [], lo, n, hi, rest);
    SourcedConcat(script, lo, hi, [call], rest);
    SourcedConcat(script, lo, hi, log, [call] + rest);
  }

  lemma LastAscends(made: seq<nat>, n: nat)
    requires Ascending(made) && forall m :: m in made ==> m < n
    ensures Ascending(made + [n])
  {
    forall i, j | 0 <= i < j < |made| + 1
      ensures (made + [n])[i] < (made + [n])[j]
    {
      assert made[i] in made;
    }
  }

  lemma MakingChanges(script: seq<seq<Command>>, depth: nat, made: seq<nat>, n: nat, log: seq<Event>, call: Event,
                      rest: seq<Event>)
    requires Changes(depth, log) == Asked(script, made) && call.Invoked?
    ensures Changes(depth, log + ([call] + rest)) == Asked(script, made) + Changes(depth, rest)
    ensures Asked(script, made + [n]) == Asked(script, made) + if n < |script| then Effects(script[n]) else []
  {
    hide Changes, Asked, Effects;
    AskedStep(script, made, n);
    ChangesConcat(depth, log, [call] + rest);
    ChangesConcat(depth, [call], rest);
    CallChanges(depth, call);
  }

  lemma CallEnds(depth: nat, call: Event)
    requires call.Invoked?
    ensures Ends(depth, [call]) == []
  {
    assert [call][..0] == [];
  }

  /** The end of the broadcast. */
  lemma MakingEnds(script: seq<seq<Command>>, depth: nat, lo: nat, hi: nat, made: seq<nat>, threw: bool,
                   log: seq<Event>)
    requires Making(script, depth, lo, hi, made, threw, log)
    ensures Making(script, depth, lo, hi, made, threw, log + [Ended(depth, threw)])
  {
    var last := [Ended(depth, threw)];
    OneEnd(depth, threw);
    NoEndsFlat(depth, last);
    CallsConcat(depth, log, last);
    ChangesConcat(depth, log, last);
    EndsConcat(depth + 1, log, last);
    hide Calls, Changes, Ends, Asked, Caught, Caughts, Ascending, Effects, FromScript;
    assert Calls(depth, log) + [] == Calls(depth, log) && Changes(depth, log) + [] == Changes(depth, log);
    assert Ends(depth + 1, log) + [] == Ends(depth + 1, log);
  }

  lemma CallChanges(depth: nat, call: Event)
    requires call.Invoked?
    ensures Changes(depth, [call]) == []
  {
    assert [call][..0] == [];
  }

  lemma MakingMeans(script: seq<seq<Command>>, depth: nat, lo: nat, hi: nat, made: seq<nat>, threw: bool,
                    log: seq<Event>)
    requires Making(script, depth, lo, hi, made, threw, log)
    ensures Sourced(script, [], lo, hi, log)
  {
  }

  lemma SourcedMore(script: seq<seq<Command>>, lo: nat, mid: nat, hi: nat, log: seq<Event>)
    requires Sourced(script, [], lo, mid, log) && mid <= hi
    ensures Sourced(script, [], lo, hi, log)
  {
    hide Effects;
  }

  lemma SourcedConcat(script: seq<seq<Command>>, lo: nat, hi: nat, a: seq<Event>, b: seq<Event>)
    requires Sourced(script, [], lo, hi, a) && Sourced(script, [], lo, hi, b)
    ensures Sourced(script, [], lo, hi, a + b)
  {
    hide Effects, FromScript;
  }

  /** How the broadcasts ended whose calls were made at one depth: whether an exception came out. */
  function Ends(depth: nat, log: seq<Event>): seq<bool> {
    if log == [] then []
    else
      var e := log[|log| - 1];
      Ends(depth, log[..|log| - 1]) + if e.Ended? && e.depth == depth then [e.threw] else []
  }

  lemma {:induction false} EndsConcat(depth: nat, a: seq<Event>, b: seq<Event>)
    ensures Ends(depth, a + b) == Ends(depth, a) + Ends(depth, b)
    decreases |b|
  {
    if b == [] {
      assert a + b == a;
    } else {
      assert (a + b)[..|a + b| - 1] == a + b[..|b| - 1];
      EndsConcat(depth, a, b[..|b| - 1]);
    }
  }

  lemma EndsVia(depth: nat, log0: seq<Event>, log1: seq<Event>, log2: seq<Event>)
    requires log0 <= log1 <= log2
    ensures Ends(depth, log2[|log0|..]) == Ends(depth, log1[|log0|..]) + Ends(depth, log2[|log1|..])
  {
    assert log2[|log0|..] == log1[|log0|..] + log2[|log1|..];
    EndsConcat(depth, log1[|log0|..], log2[|log1|..]);
  }

  lemma {:induction false} NoEnds(depth: nat, log: seq<Event>)
    requires Deeper(depth, log)
    ensures Ends(depth, log) == []
  {
    if log != [] {
      NoEnds(depth, log[..|log| - 1]);
    }
  }

  lemma {:induction false} NoEndsFlat(depth: nat, log: seq<Event>)
    requires Flat(depth, log)
    ensures Ends(depth + 1, log) == []
  {
    if log != [] {
      NoEndsFlat(depth, log[..|log| - 1]);
    }
  }

  lemma OneEnd(depth: nat, threw: bool)
    ensures Ends(depth, [Ended(depth, threw)]) == [threw]
    ensures Calls(depth, [Ended(depth, threw)]) == [] && Changes(depth, [Ended(depth, threw)]) == []
  {
    assert [Ended(depth, threw)][..0] == [];
  }

  lemma StillGoing(depth: nat, log: seq<Event>, call: Event, rest: seq<Event>)
    requires Ends(depth, log) == [] && call.Invoked? && Deeper(depth, rest)
    ensures Ends(depth, log + ([call] + rest)) == []
  {
    NoEnds(depth, rest);
    CallEnds(depth, call);
    EndsConcat(depth, [call], rest);
    EndsConcat(depth, log, [call] + rest);
  }

  lemma EndsLast(depth: nat, threw: bool, log: seq<Event>)
    requires Ends(depth, log) == []
    requires depth > 0 && AtLeast(depth, log)
    ensures Ends(depth, log + [Ended(depth, threw)]) == [threw]
    ensures Calls(depth, log + [Ended(depth, threw)]) == Calls(depth, log)
    ensures AtLeast(depth, log + [Ended(depth, threw)])
  {
    OneEnd(depth, threw);
    EndsConcat(depth, log, [Ended(depth, threw)]);
    CallsConcat(depth, log, [Ended(depth, threw)]);
  }

  /** The broadcasts that a callback starts: whether it catches what comes out. */
  function Catches(commands: seq<Command>): seq<bool> {
    if commands == [] then []
    else
      var c := commands[|commands| - 1];
      Catches(commands[..|commands| - 1]) + if c.Nest? then [c.caught] else []
  }

  lemma CatchesStep(commands: seq<Command>, i: nat)
    requires i < |commands|
    ensures Catches(commands[..i + 1])
      == Catches(commands[..i]) + if commands[i].Nest? then [commands[i].caught] else []
  {
    assert commands[..i + 1][..i] == commands[..i];
  }

  lemma CatchesNone(commands: seq<Command>)
    ensures Catches(commands[..0]) == []
  {
  }

  /** Every broadcast was made, and whatever came out of one was caught. */
  predicate Caught(ends: seq<bool>, catches: seq<bool>) {
    |ends| == |catches| && forall k :: 0 <= k < |ends| ==> ends[k] ==> catches[k]
  }

  /** A callback that carried out `done` of its commands, when the broadcasts it started ended with `ends`: it threw
      exactly if the last of them was a Throw, or a broadcast whose exception it does not catch. */
  ghost predicate Ran(commands: seq<Command>, done: nat, threw: bool, ends: seq<bool>) {
    && done <= |commands|
    && (if !threw then done == |commands| && Throw !in commands && Caught(ends, Catches(commands))
        else
          && done > 0 && Throw !in commands[..done - 1]
          && (if commands[done - 1].Throw? then Caught(ends, Catches(commands[..done - 1]))
              else
                && commands[done - 1] == Nest(false) && ends != [] && ends[|ends| - 1]
                && Caught(ends[..|ends| - 1], Catches(commands[..done - 1]))))
  }

  lemma RanMeans(commands: seq<Command>, done: nat, ends: seq<bool>)
    requires Ran(commands, done, false, ends)
    ensures Caught(ends, Catches(commands))
  {
  }

  lemma RanNothing()
    ensures Catches([]) == []
  {
  }

  /** Before the command `c` nothing threw: what its carrying out means for the callback. */
  lemma RanOn(commands: seq<Command>, i: nat, threw: bool, before: seq<bool>, ends: seq<bool>)
    requires i < |commands| && Throw !in commands[..i] && Caught(before, Catches(commands[..i]))
    requires match commands[i]
      case Nest(caught) => |ends| == 1 && threw == (ends[0] && !caught)
      case Throw => ends == [] && threw
      case _ => ends == [] && !threw
    ensures threw ==> Ran(commands, i + 1, true, before + ends)
    ensures !threw ==> Throw !in commands[..i + 1] && Caught(before + ends, Catches(commands[..i + 1]))
  {
    hide Catches;
    CatchesStep(commands, i);
    assert commands[..i + 1] == commands[..i] + [commands[i]];
    if commands[i].Nest? {
      assert threw ==> (before + ends)[..|before|] == before;
      if !threw {
        CaughtConcat(before, ends, Catches(commands[..i]), [commands[i].caught]);
      }
    } else {
      assert before + [] == before && Catches(commands[..i]) + [] == Catches(commands[..i]);
    }
  }

  lemma RanStarts(commands: seq<Command>, depth: nat)
    ensures Caught(Ends(depth + 1, []), Catches(commands[..0]))
  {
    NoEndsFlat(depth, []);
    CatchesNone(commands);
  }

  lemma RanAll(commands: seq<Command>, ends: seq<bool>)
    requires Throw !in commands[..|commands|] && Caught(ends, Catches(commands[..|commands|]))
    ensures Ran(commands, |commands|, false, ends)
  {
    assert commands[..|commands|] == commands;
  }

  /** One of the calls numbered lo, ..., hi - 1 throws. */
  predicate Throws(script: seq<seq<Command>>, lo: nat, hi: nat) {
    exists n :: lo <= n < hi && n < |script| && Throw in script[n]
  }

  class MulticastDelegate {
    var nodes: seq<Node>
    var broadcastCount: nat
    var cleanup: bool

    /** What the n-th call made by this container does to it; later calls do nothing. */
    const script: seq<seq<Command>>
    var calls: nat
    var nextTag: nat
    ghost var log: seq<Event>

    constructor (script: seq<seq<Command>>)
      ensures Valid() && nodes == [] && nextTag == 0 && broadcastCount == 0 && log == [] && this.script == script
    {
      nodes, broadcastCount, cleanup := [], 0, false;
      this.script, calls, nextTag, log := script, 0, 0, [];
    }

    /** The list stands for exactly the registrations that immediate removal would have left, and calls are
        numbered as they are made. */
    ghost predicate Refines()
      reads this
    {
      && Live(nodes) == Registered(log) && Sound(log) && Ordered(nodes, nextTag)
      && nextTag == NextTag(log) && calls == Invocations(log)
    }

    /** Empty nodes are always scheduled for clean-up, and there are none at rest. */
    ghost predicate Tidy()
      reads this
    {
      (!cleanup ==> NoNulls(nodes)) && (broadcastCount == 0 ==> !cleanup)
    }

    ghost predicate Valid()
      reads this
    {
      Refines() && Tidy()
    }

    function Left(): nat
      reads this
    {
      if calls < |script| then |script| - calls else 0
    }

    /** What may happen to the list during a broadcast at depth `depth`: nodes stay where they are. */
    ghost predicate Reentered(nodes0: seq<Node>, next0: nat, log0: seq<Event>, depth: nat)
      reads this
    {
      && broadcastCount == depth && Grown(nodes0, next0, nodes) && next0 <= nextTag
      && log0 <= log && Deeper(depth, log[|log0|..]) && AtLeast(depth, log[|log0|..])
    }

    method PushNode(target: Option<Delegate>)
      requires Refines()
      modifies `nodes, `nextTag, `log
      ensures Refines() && nodes == old(nodes) + [Node(old(nextTag), target)] && nextTag == old(nextTag) + 1
      ensures log == old(log) + [Appended(broadcastCount, old(nextTag), target)]
      ensures Reentered(old(nodes), old(nextTag), old(log), broadcastCount)
      ensures Delegates(Live(nodes)) == Delegates(old(Live(nodes))) + if target.Some? then [target.value] else []
    {
      hide Sound, Registered, Invocations, NextTag, Act, Live, Delegates;
      AppendDelegate(nodes, Node(nextTag, target));
      LiveOne(Node(nextTag, target));
      ActAppended(Live(nodes), broadcastCount, nextTag, target);
      LiveConcat(nodes, [Node(nextTag, target)]);
      LogStep(log, Appended(broadcastCount, nextTag, target));
      nodes := nodes + [Node(nextTag, target)];
      log := log + [Appended(broadcastCount, nextTag, target)];
      nextTag := nextTag + 1;
    }

    method PushBack(d: Delegate)
      requires Valid()
      modifies `nodes, `nextTag, `log
      ensures Valid() && Live(nodes) == old(Live(nodes)) + [Entry(old(nextTag), d)]
      ensures nodes == old(nodes) + [Node(old(nextTag), Some(d))] && nextTag == old(nextTag) + 1
      ensures log == old(log) + [Appended(broadcastCount, old(nextTag), Some(d))]
      ensures Reentered(old(nodes), old(nextTag), old(log), broadcastCount)
    {
      hide Sound, Registered, Invocations, NextTag, Live, Delegates, Ordered, NoNulls, Deeper, AtLeast, Grown;
      PushNode(Some(d));
      LiveConcat(old(nodes), [Node(old(nextTag), Some(d))]);
      LiveOne(Node(old(nextTag), Some(d)));
      NoNullsStep(old(nodes), Node(old(nextTag), Some(d)));
    }

    method Remove(d: Delegate)
      requires Valid()
      modifies `nodes, `cleanup, `log
      ensures Valid() && Live(nodes) == RemoveFirst(old(Live(nodes)), d)
      ensures log == old(log) + [Removed(broadcastCount, d)]
      ensures broadcastCount > 0 ==> Reentered(old(nodes), nextTag, old(log), broadcastCount) && |nodes| == |old(nodes)|
    {
      hide Sound, Registered, Invocations, NextTag, Live, RemoveFirst, Ordered, NoNulls, Grown;
      GrownRefl(nodes, nextTag);
      LogStep(log, Removed(broadcastCount, d));
      log := log + [Removed(broadcastCount, d)];
      var it: nat := 0;
      while it < |nodes| && nodes[it].target != Some(d)
        invariant it <= |nodes|
        invariant forall j :: 0 <= j < it ==> !Holds(nodes[j], d)
      {
        it := it + 1;
      }
      if it < |nodes| {
        LiveRemoves(nodes, it, d);
        WithoutOne(nodes, it, nextTag);
        if broadcastCount > 0 {
          nodes := nodes[it := Node(nodes[it].tag, None)];
          cleanup := true;
        } else {
          nodes := nodes[..it] + nodes[it + 1..];
        }
      } else {
        LiveWithout(nodes, d);
      }
    }

    method Clear()
      requires Valid()
      modifies `nodes, `cleanup, `log
      ensures Valid() && Live(nodes) == [] && log == old(log) + [Cleared(broadcastCount)]
      ensures if broadcastCount > 0 then cleanup && Reentered(old(nodes), nextTag, old(log), broadcastCount)
              else nodes == []
    {
      LogStep(log, Cleared(broadcastCount));
      log := log + [Cleared(broadcastCount)];
      if broadcastCount > 0 {
        nodes := Emptied(nodes);
        LiveEmptied(nodes);
        cleanup := true;
      } else {
        nodes := [];
      }
    }

    lemma ReenteredTrans(nodes0: seq<Node>, next0: nat, log0: seq<Event>,
                         nodes1: seq<Node>, next1: nat, log1: seq<Event>, depth: nat)
      requires Grown(nodes0, next0, nodes1) && next0 <= next1 && log0 <= log1
      requires Deeper(depth, log1[|log0|..]) && AtLeast(depth, log1[|log0|..])
      requires Reentered(nodes1, next1, log1, depth)
      ensures Reentered(nodes0, next0, log0, depth)
    {
      GrownTrans(nodes0, next0, nodes1, next1, nodes);
      assert log[|log0|..] == log1[|log0|..] + log[|log1|..];
    }

    lemma NothingYet()
      ensures Reentered(nodes, nextTag, log, broadcastCount)
      ensures Changes(broadcastCount, log[|log|..]) == [] && Adds([]) == []
    {
    }

    /** How far appending has come: the first `n` of `rhs`. */
    ghost predicate Appending(rhs: seq<Option<Delegate>>, n: nat, keepNulls: bool,
                              nodes0: seq<Node>, next0: nat, log0: seq<Event>)
      reads this
    {
      && n <= |rhs| && Refines() && Reentered(nodes0, next0, log0, broadcastCount)
      && Delegates(Live(nodes)) == Delegates(Live(nodes0)) + Somes(rhs[..n])
      && Changes(broadcastCount, log[|log0|..]) == Adds(Somes(rhs[..n]))
      && (NoNulls(nodes) <==> NoNulls(nodes0) && (keepNulls ==> None !in rhs[..n]))
      && (keepNulls ==> Targets(nodes) == Targets(nodes0) + rhs[..n])
      && Flat(broadcastCount, log[|log0|..])
    }

    lemma AppendingStarts(rhs: seq<Option<Delegate>>, keepNulls: bool)
      requires Refines()
      ensures Appending(rhs, 0, keepNulls, nodes, nextTag, log)
    {
      hide Sound, Registered, Invocations, NextTag, Live, Delegates, Somes, Ordered, NoNulls, Refines;
      hide Deeper, AtLeast, Targets, Flat, Changes, Adds;
      SomesStep(rhs, 0);
      NothingYet();
      GrownRefl(nodes, nextTag);
      FlatNone(broadcastCount, log);
    }

    /** An empty node that is not copied. */
    lemma AppendingSkips(rhs: seq<Option<Delegate>>, n: nat, nodes0: seq<Node>, next0: nat, log0: seq<Event>)
      requires Appending(rhs, n, false, nodes0, next0, log0) && n < |rhs| && rhs[n].None?
      ensures Appending(rhs, n + 1, false, nodes0, next0, log0)
    {
      hide Sound, Registered, Invocations, NextTag, Live, Delegates, Somes, Ordered, NoNulls, Refines, Grown;
      hide Deeper, AtLeast, Targets, Flat, Changes, Adds;
      SomesStep(rhs, n);
      assert Somes(rhs[..n + 1]) == Somes(rhs[..n]);
    }

    method AppendNext(rhs: seq<Option<Delegate>>, n: nat, keepNulls: bool,
                      ghost nodes0: seq<Node>, ghost next0: nat, ghost log0: seq<Event>)
      requires Appending(rhs, n, keepNulls, nodes0, next0, log0) && n < |rhs| && (keepNulls || rhs[n].Some?)
      modifies `nodes, `nextTag, `log
      ensures Appending(rhs, n + 1, keepNulls, nodes0, next0, log0)
    {
      hide Sound, Registered, Invocations, NextTag, Live, Delegates, Somes, Grown, Ordered, NoNulls, Refines;
      hide Changes, Adds, Deeper, AtLeast, Flat, Targets;
      SomesStep(rhs, n);
      if rhs[n].Some? {
        AddsStep(Somes(rhs[..n]), rhs[n].value);
      } else {
        assert Somes(rhs[..n + 1]) == Somes(rhs[..n]);
      }
      ghost var nodes1, next1, log1 := nodes, nextTag, log;
      PushNode(rhs[n]);
      OneChange(log1, Appended(broadcastCount, next1, rhs[n]));
      ChangesVia(broadcastCount, log0, log1, log);
      FlatVia(broadcastCount, log0, log1, log);
      TargetsStep(nodes1, Node(next1, rhs[n]));
      NoNullsStep(nodes1, Node(next1, rhs[n]));
      ReenteredTrans(nodes0, next0, log0, nodes1, next1, log1, broadcastCount);
    }

    /** Appending what another list holds.  `keepNulls` tells a moved list from a copied one. */
    method AppendAll(rhs: seq<Option<Delegate>>, keepNulls: bool)
      requires Refines()
      modifies `nodes, `nextTag, `log
      ensures Refines() && Reentered(old(nodes), old(nextTag), old(log), broadcastCount)
      ensures Delegates(Live(nodes)) == Delegates(old(Live(nodes))) + Somes(rhs)
      ensures Changes(broadcastCount, log[|old(log)|..]) == Adds(Somes(rhs))
      ensures NoNulls(nodes) <==> NoNulls(old(nodes)) && (keepNulls ==> None !in rhs)
      ensures keepNulls ==> Targets(nodes) == Targets(old(nodes)) + rhs
      ensures Flat(broadcastCount, log[|old(log)|..])
    {
      hide Appending;
      AppendingStarts(rhs, keepNulls);
      for i := 0 to |rhs|
        invariant Appending(rhs, i, keepNulls, old(nodes), old(nextTag), old(log))
      {
        if keepNulls || rhs[i].Some? {
          AppendNext(rhs, i, keepNulls, old(nodes), old(nextTag), old(log));
        } else {
          AppendingSkips(rhs, i, old(nodes), old(nextTag), old(log));
        }
      }
      AppendingEnds(rhs, keepNulls, old(nodes), old(nextTag), old(log));
    }

    lemma AppendingEnds(rhs: seq<Option<Delegate>>, keepNulls: bool, nodes0: seq<Node>, next0: nat, log0: seq<Event>)
      requires Appending(rhs, |rhs|, keepNulls, nodes0, next0, log0)
      ensures Refines() && Reentered(nodes0, next0, log0, broadcastCount)
      ensures Delegates(Live(nodes)) == Delegates(Live(nodes0)) + Somes(rhs)
      ensures Changes(broadcastCount, log[|log0|..]) == Adds(Somes(rhs))
      ensures NoNulls(nodes) <==> NoNulls(nodes0) && (keepNulls ==> None !in rhs)
      ensures keepNulls ==> Targets(nodes) == Targets(nodes0) + rhs
      ensures Flat(broadcastCount, log[|log0|..])
    {
      assert rhs[..|rhs|] == rhs;
    }

    method CopyAssign(rhs: seq<Option<Delegate>>)
      requires Valid()
      modifies `nodes, `cleanup, `nextTag, `log
      ensures Valid() && Delegates(Live(nodes)) == Somes(rhs)
      ensures old(log) <= log && Changes(broadcastCount, log[|old(log)|..]) == [Command.Clear] + Adds(Somes(rhs))
      ensures Flat(broadcastCount, log[|old(log)|..])
      ensures broadcastCount > 0 ==> Reentered(old(nodes), old(nextTag), old(log), broadcastCount)
    {
      hide Sound, Registered, Invocations, NextTag, Changes, Adds, Somes, Deeper, AtLeast, Ordered, Live;
      Clear();
      ghost var nodes1, next1, log1 := nodes, nextTag, log;
      AppendAll(rhs, false);
      OneChange(old(log), Cleared(broadcastCount));
      ChangesVia(broadcastCount, old(log), log1, log);
      if broadcastCount > 0 {
        ReenteredTrans(old(nodes), old(nextTag), old(log), nodes1, next1, log1, broadcastCount);
      }
    }

    /** A list moved in at rest brings its empty nodes with it, and nothing will clean them up. */
    method MoveAssign(rhs: seq<Option<Delegate>>)
      requires Valid()
      modifies `nodes, `cleanup, `nextTag, `log
      ensures Refines() && Delegates(Live(nodes)) == Somes(rhs)
      ensures old(log) <= log && Changes(broadcastCount, log[|old(log)|..]) == [Command.Clear] + Adds(Somes(rhs))
      ensures Flat(broadcastCount, log[|old(log)|..])
      ensures Valid() <==> broadcastCount > 0 || None !in rhs
      ensures broadcastCount > 0 ==> Reentered(old(nodes), old(nextTag), old(log), broadcastCount)
      ensures broadcastCount == 0 ==> Targets(nodes) == rhs && !cleanup
    {
      hide Sound, Registered, Invocations, NextTag, Changes, Adds, Somes, Deeper, AtLeast, Ordered, Live;
      Clear();
      ghost var nodes1, next1, log1 := nodes, nextTag, log;
      AppendAll(rhs, true);
      OneChange(old(log), Cleared(broadcastCount));
      ChangesVia(broadcastCount, old(log), log1, log);
      if broadcastCount > 0 {
        ReenteredTrans(old(nodes), old(nextTag), old(log), nodes1, next1, log1, broadcastCount);
      }
    }

    /** Move assignment between containers, whatever either of them is doing.  The destination gets the
        delegates registered on `rhs`, and is left tidy unless it is at rest and `rhs` has empty nodes, which
        only a broadcast of `rhs` can bring about.  `rhs` loses all its nodes: that no node is erased under a
        broadcast fails for it exactly when it had any. */
    method MoveFrom(rhs: MulticastDelegate)
      requires Valid() && rhs.Valid()
      modifies this`nodes, this`cleanup, this`nextTag, this`log, rhs`nodes, rhs`log
      ensures rhs == this ==> unchanged(this)
      ensures rhs != this ==> Refines() && Delegates(Live(nodes)) == old(Delegates(Live(rhs.nodes)))
      ensures rhs != this ==> (Valid() <==> broadcastCount > 0 || NoNulls(old(rhs.nodes)))
      ensures rhs != this && rhs.broadcastCount == 0 ==> Valid()
      ensures rhs != this && broadcastCount > 0 ==> Reentered(old(nodes), old(nextTag), old(log), broadcastCount)
      ensures rhs != this && broadcastCount == 0 ==> Targets(nodes) == old(Targets(rhs.nodes)) && !cleanup
      ensures rhs != this ==> rhs.Valid() && rhs.nodes == [] && rhs.log == old(rhs.log) + [Cleared(rhs.broadcastCount)]
      ensures rhs != this ==>
        (rhs.Reentered(old(rhs.nodes), rhs.nextTag, old(rhs.log), rhs.broadcastCount) <==> old(rhs.nodes) == [])
    {
      hide Sound, Registered, Invocations, NextTag, Delegates, Somes, Changes, Adds;
      if rhs != this {
        TargetsHold(rhs.nodes);
        MoveAssign(Targets(rhs.nodes));
        rhs.GiveUp();
      }
    }

    /** The container's list is taken away, whether it is broadcasting or not. */
    method GiveUp()
      requires Valid()
      modifies `nodes, `log
      ensures Valid() && nodes == [] && log == old(log) + [Cleared(broadcastCount)]
      ensures Reentered(old(nodes), nextTag, old(log), broadcastCount) <==> old(nodes) == []
    {
      LogStep(log, Cleared(broadcastCount));
      log := log + [Cleared(broadcastCount)];
      nodes := [];
    }

    method Purge()
      requires Refines()
      modifies `nodes
      ensures Refines() && NoNulls(nodes) && Live(nodes) == old(Live(nodes))
    {
      hide Sound, Registered, Invocations, NextTag, Live;
      var it: nat := 0;
      while it < |nodes|
        invariant it <= |nodes| && Refines() && Live(nodes) == old(Live(nodes))
        invariant forall i :: 0 <= i < it ==> nodes[i].target.Some?
        decreases |nodes| - it
      {
        if nodes[it].target.None? {
          LiveSkips(nodes, it);
          nodes := nodes[..it] + nodes[it + 1..];
        } else {
          it := it + 1;
        }
      }
    }

    /** Recording a call: the node at `it` holds a registered delegate. */
    method Note(it: nat, d: Delegate)
      requires Refines() && broadcastCount > 0 && it < |nodes| && nodes[it].target == Some(d)
      modifies `log, `calls
      ensures Refines() && log == old(log) + [Invoked(broadcastCount, nodes[it].tag, d)] && (old(Tidy()) ==> Tidy())
      ensures calls == old(calls) + 1
    {
      LiveHas(nodes, Entry(nodes[it].tag, d));
      LogStep(log, Invoked(broadcastCount, nodes[it].tag, d));
      calls := calls + 1;
      log := log + [Invoked(broadcastCount, nodes[it].tag, d)];
    }

    /** One call and everything its callback does. */
    method CallAt(it: nat, d: Delegate) returns (threw: bool, ghost done: nat)
      requires Valid() && broadcastCount > 0 && it < |nodes| && nodes[it].target == Some(d)
      modifies this
      ensures Valid()
      ensures Reentered(old(nodes), old(nextTag), old(log) + [Invoked(old(broadcastCount), old(nodes[it].tag), d)],
                        old(broadcastCount))
      ensures Left() < old(Left()) || (!threw && nodes == old(nodes) && Left() == old(Left()))
      ensures var made := Changes(old(broadcastCount), log[|old(log)| + 1..]);
        if old(calls) >= |script| then made == []
        else if threw then made <= Effects(script[old(calls)]) else made == Effects(script[old(calls)])
      ensures old(calls) < calls && (threw ==> Throws(script, old(calls), calls))
      ensures !threw && old(calls) < |script| ==> Throw !in script[old(calls)]
      ensures threw ==> MayThrow(script, old(calls))
      ensures Sourced(script, [], old(calls), calls, log[|old(log)| + 1..])
      ensures Ran(if old(calls) < |script| then script[old(calls)] else [], done, threw,
                  Ends(old(broadcastCount) + 1, log[|old(log)| + 1..]))
      decreases Left(), 0
    {
      hide Sound, Registered, Invocations, NextTag, Live, Grown, Ordered, NoNulls, Deeper, AtLeast, Calls, Delegates;
      hide Changes, Effects;
      Note(it, d);
      hide Sourced;
      if calls <= |script| {
        var n := calls - 1;
        threw, done := Exec(script[n]);
        SourcedCall(script, n, calls, log[|old(log)| + 1..]);
      } else {
        SourcedNone(script, [], calls, calls, Invoked(0, 0, 0));
        SourcedAlso(script, [], calls - 1, calls, calls, []);
        threw, done := false, 0;
        NothingYet();
        NoEndsFlat(broadcastCount, []);
      }
    }

    /** What a callback does, while this container is broadcasting: exactly what its commands say, or a first
        part of it if an exception cuts them short. */
    method Exec(commands: seq<Command>) returns (threw: bool, ghost done: nat)
      requires Valid() && broadcastCount > 0
      modifies this
      ensures Valid() && Reentered(old(nodes), old(nextTag), old(log), old(broadcastCount)) && Left() <= old(Left())
      ensures !threw ==> Changes(old(broadcastCount), log[|old(log)|..]) == Effects(commands)
      ensures threw ==> Changes(old(broadcastCount), log[|old(log)|..]) <= Effects(commands)
      ensures old(calls) <= calls && (threw ==> Throw in commands || Throws(script, old(calls), calls))
      ensures if threw then Throw in commands || Nest(false) in commands else Throw !in commands
      ensures Sourced(script, commands, old(calls), calls, log[|old(log)|..])
      ensures Ran(commands, done, threw, Ends(old(broadcastCount) + 1, log[|old(log)|..]))
      decreases Left(), 3
    {
      hide Sound, Registered, Invocations, NextTag, Live, Grown, Ordered, NoNulls, Deeper, AtLeast, Valid;
      hide Calls, Delegates, Changes, Adds, Somes, Effects;
      hide Sourced, Making, Spared, Ends, Catches, Caught, Ran;
      assert log[|log|..] == [];
      threw, done := false, 0;
      NothingYet();
      RanStarts(commands, broadcastCount);
      SourcedNone(script, commands, calls, calls, Invoked(0, 0, 0));
      EffectsPrefix(commands, 0);
      EffectsNone(commands);
      for i := 0 to |commands|
        invariant Valid() && Reentered(old(nodes), old(nextTag), old(log), old(broadcastCount))
        invariant Left() <= old(Left()) && !threw
        invariant Changes(old(broadcastCount), log[|old(log)|..]) == Effects(commands[..i])
        invariant old(calls) <= calls && Throw !in commands[..i]
        invariant Sourced(script, commands, old(calls), calls, log[|old(log)|..])
        invariant Caught(Ends(old(broadcastCount) + 1, log[|old(log)|..]), Catches(commands[..i]))
      {
        EffectIn(commands, i);
        EffectsStep(commands, i);
        EffectsPrefix(commands, i + 1);
        ghost var nodes1, next1, log1, calls1 := nodes, nextTag, log, calls;
        threw := ExecOne(commands, i);
        SourcedLater(script, commands, old(calls), calls1, calls, log[|log1|..]);
        EndsVia(old(broadcastCount) + 1, old(log), log1, log);
        RanOn(commands, i, threw, Ends(old(broadcastCount) + 1, log1[|old(log)|..]),
              Ends(old(broadcastCount) + 1, log[|log1|..]));
        SourcedVia(script, commands, old(calls), calls1, calls, old(log), log1, log);
        ChangesVia(old(broadcastCount), old(log), log1, log);
        ReenteredTrans(old(nodes), old(nextTag), old(log), nodes1, next1, log1, old(broadcastCount));
        if threw {
          done := i + 1;
          return;
        }
      }
      done := |commands|;
      RanAll(commands, Ends(old(broadcastCount) + 1, log[|old(log)|..]));
      assert commands[..|commands|] == commands;
    }

    /** One command of a callback. */
    method ExecOne(commands: seq<Command>, i: nat) returns (threw: bool)
      requires Valid() && broadcastCount > 0 && i < |commands|
      modifies this
      ensures Valid() && Reentered(old(nodes), old(nextTag), old(log), old(broadcastCount)) && Left() <= old(Left())
      ensures Changes(old(broadcastCount), log[|old(log)|..]) == Effect(commands[i])
      ensures old(calls) <= calls
      ensures Sourced(script, commands, old(calls), calls, log[|old(log)|..])
      ensures match commands[i]
        case Nest(caught) =>
          var ends := Ends(old(broadcastCount) + 1, log[|old(log)|..]);
          |ends| == 1 && threw == (ends[0] && !caught) && (threw ==> Throws(script, old(calls), calls))
        case Throw => Ends(old(broadcastCount) + 1, log[|old(log)|..]) == [] && threw
        case _ => Ends(old(broadcastCount) + 1, log[|old(log)|..]) == [] && !threw
      decreases Left(), 2
    {
      hide Sound, Registered, Invocations, NextTag, Live, Grown, Ordered, NoNulls, Deeper, AtLeast, Valid;
      hide Calls, Delegates, Changes, Adds, Somes, Effects;
      hide Sourced, Making, Spared, Ends, Catches;
      EffectIn(commands, i);
      if commands[i].Nest? {
        ghost var made;
        threw, made := Broadcast();
        MakingMeans(script, broadcastCount + 1, old(calls), calls, made, threw, log[|old(log)|..]);
        threw := threw && !commands[i].caught;
        NestedChanges(broadcastCount, log[|old(log)|..]);
        SourcedAlso(script, commands, old(calls), old(calls), calls, log[|old(log)|..]);
      } else {
        threw := Change(commands[i]);
        FlatSourced(script, commands, old(calls), calls, broadcastCount, log[|old(log)|..]);
        NoEndsFlat(broadcastCount, log[|old(log)|..]);
      }
    }

    /** A command that does not broadcast: what it makes of the registrations. */
    method Change(c: Command) returns (threw: bool)
      requires Valid() && broadcastCount > 0 && !c.Nest?
      modifies `nodes, `cleanup, `nextTag, `log
      ensures Valid() && Reentered(old(nodes), old(nextTag), old(log), broadcastCount)
      ensures Changes(broadcastCount, log[|old(log)|..]) == Effect(c) && Flat(broadcastCount, log[|old(log)|..])
      ensures threw <==> c.Throw?
      ensures match c
        case Add(d) => Live(nodes) == old(Live(nodes)) + [Entry(old(nextTag), d)]
        case Drop(d) => Live(nodes) == RemoveFirst(old(Live(nodes)), d)
        case Clear => Live(nodes) == []
        case CopyAssign(rhs) => Delegates(Live(nodes)) == Somes(rhs)
        case MoveAssign(rhs) => Delegates(Live(nodes)) == Somes(rhs)
        case _ => nodes == old(nodes)
    {
      hide Sound, Registered, Invocations, NextTag, Live, Grown, Ordered, NoNulls, Deeper, AtLeast, Valid;
      hide Delegates, Changes, Adds, Somes, RemoveFirst;
      threw := false;
      match c {
      case Add(d) =>
        PushBack(d);
        OneChange(old(log), Appended(broadcastCount, old(nextTag), Some(d)));
      case Drop(d) =>
        Remove(d);
        OneChange(old(log), Removed(broadcastCount, d));
      case Clear =>
        Clear();
        OneChange(old(log), Cleared(broadcastCount));
      case CopyAssign(rhs) => CopyAssign(rhs);
      case MoveAssign(rhs) => MoveAssign(rhs);
      case Throw =>
        NothingYet();
        FlatNone(broadcastCount, log);
        threw := true;
      }
    }

    /** The guard of a broadcast is constructed. */
    method Enter()
      requires Refines()
      modifies `broadcastCount
      ensures Refines() && broadcastCount == old(broadcastCount) + 1 && (old(Tidy()) ==> Tidy())
    {
      broadcastCount := broadcastCount + 1;
    }

    /** The guard is destroyed: when the outermost broadcast ends, empty nodes go if one was reported. */
    method Leave()
      requires Refines() && broadcastCount > 0
      modifies `broadcastCount, `nodes, `cleanup
      ensures Refines() && broadcastCount == old(broadcastCount) - 1 && Live(nodes) == old(Live(nodes))
      ensures if broadcastCount == 0 && old(cleanup) then NoNulls(nodes) && !cleanup
              else nodes == old(nodes) && cleanup == old(cleanup)
      ensures old(Tidy()) ==> Tidy()
    {
      hide Sound, Registered, Invocations, NextTag, Live, Ordered, NoNulls;
      broadcastCount := broadcastCount - 1;
      if broadcastCount == 0 && cleanup {
        Purge();
        cleanup := false;
      }
    }

    /** Calling every delegate.  Calls are made in list order, each node at most once, and always on a
        registered delegate.  What changes is what the callbacks ask for: `made` numbers this pass's own calls.
        An exception ends the pass, and comes from a call that was made.  Unless there is one, every delegate
        registered at the beginning is called if no call removes it, and every one registered when it ends has
        been called, be it old or new.  While any broadcast is running no node is erased; afterwards no empty node
        is left. */
    method Broadcast() returns (threw: bool, ghost made: seq<nat>)
      requires Valid()
      modifies this
      ensures Valid() && broadcastCount == old(broadcastCount) && Left() <= old(Left())
      ensures old(nextTag) <= nextTag && old(log) <= log && AtLeast(old(broadcastCount) + 1, log[|old(log)|..])
      ensures if old(broadcastCount) > 0 then Grown(old(nodes), old(nextTag), nodes) else NoNulls(nodes)
      ensures Ascending(Calls(old(broadcastCount) + 1, log[|old(log)|..]))
      ensures !threw ==> forall x :: x in Live(nodes) ==> x.tag in Calls(old(broadcastCount) + 1, log[|old(log)|..])
      ensures old(calls) <= calls && (threw ==> Throws(script, old(calls), calls))
      ensures Making(script, old(broadcastCount) + 1, old(calls), calls, made, threw, log[|old(log)|..])
      ensures Ends(old(broadcastCount) + 1, log[|old(log)|..]) == [threw]
      ensures !threw ==> forall x :: x in old(Live(nodes)) && Spared(script, old(calls), calls, x.d) ==>
        x.tag in Calls(old(broadcastCount) + 1, log[|old(log)|..])
      decreases Left(), 1
    {
      hide Sound, Registered, Invocations, NextTag, Live, Grown, Ordered, NoNulls, Deeper, AtLeast, Calls, Delegates;
      hide Ascending, Passing, Underway, Changes, Effects, Making, Sourced, Spared, Ends, Catches, Caught, Ran;
      threw, made := false, [];
      ghost var depth := broadcastCount;
      Enter();
      var it: nat := 0;
      PassStarts(depth, nodes, nextTag, log);
      MakingStarts(script, depth + 1, calls);
      assert log[|old(log)|..] == [];
      NoEndsFlat(depth, []);
      while it < |nodes| && !threw
        invariant Valid() && broadcastCount == depth + 1 && Left() <= old(Left())
        invariant old(calls) <= calls && (threw ==> Throws(script, old(calls), calls))
        invariant Underway(it, depth, old(nodes), old(nextTag), old(log), nodes, nextTag, log)
        invariant old(log) <= log && Making(script, depth + 1, old(calls), calls, made, threw, log[|old(log)|..])
        invariant Ends(depth + 1, log[|old(log)|..]) == []
        decreases Left(), |nodes| - it, !threw
      {
        var target := nodes[it].target;
        if target.Some? {
          ghost var nodes1, next1, log1, n := nodes, nextTag, log, calls;
          ghost var done;
          threw, done := CallAt(it, target.value);
          ghost var call, rest := Invoked(depth + 1, nodes1[it].tag, target.value), log[|log1| + 1..];
          RanNothing();
          if !threw {
            RanMeans(if n < |script| then script[n] else [], done, Ends(depth + 2, rest));
          }
          MakingCall(script, depth + 1, old(calls), n, calls, made, threw, log1[|old(log)|..], call, rest);
          made := made + [n];
          StillGoing(depth + 1, log1[|old(log)|..], call, rest);
          assert log[|old(log)|..] == log1[|old(log)|..] + ([call] + rest);
          PassAdvances(it, depth, old(nodes), old(nextTag), old(log), nodes1, next1, log1, target.value,
                       nodes, nextTag, log);
        } else {
          PassGoesOn(it, depth, old(nodes), old(nextTag), old(log), nodes, nextTag, log);
        }
        it := it + 1;
      }
      PassEnds(it, depth, old(nodes), old(nextTag), old(log), nodes, nextTag, log);
      MakingMeans(script, depth + 1, old(calls), calls, made, threw, log[|old(log)|..]);
      forall x | x in old(Live(nodes)) && Spared(script, old(calls), calls, x.d)
        ensures x in Live(nodes)
      {
        SparedStays(script, old(calls), calls, old(log), log, x);
      }
      ghost var log1 := log;
      Finish(threw);
      MakingEnds(script, depth + 1, old(calls), calls, made, threw, log1[|old(log)|..]);
      EndsLast(depth + 1, threw, log1[|old(log)|..]);
      assert log[|old(log)|..] == log1[|old(log)|..] + [Ended(depth + 1, threw)];
      Leave();
    }

    /** The broadcast is over. */
    method Finish(threw: bool)
      requires Refines()
      modifies `log
      ensures Refines() && log == old(log) + [Ended(broadcastCount, threw)] && (old(Tidy()) ==> Tidy())
    {
      LogStep(log, Ended(broadcastCount, threw));
      log := log + [Ended(broadcastCount, threw)];
    }
  }

  lemma SecondEmptied(a: seq<Node>, b: seq<Node>, next: nat)
    requires a == [Node(0, Some(1)), Node(1, Some(2))] && Grown(a, next, b) && |b| == 2
    requires Live(b) == RemoveFirst(Live(a), 2)
    ensures b == [Node(0, Some(1)), Node(1, None)]
  {
    assert Live(a[2..]) == [] && a[1..][1..] == a[2..];
    assert Live(a[1..]) == [Entry(1, 2)] && Live(a) == [Entry(0, 1)] + Live(a[1..]);
    LiveHas(b, Entry(0, 1));
    LiveHas(b, Entry(1, 2));
    assert b[0] == Node(0, Some(1));
    assert b[1] != Node(1, Some(2));
  }

  /** Empty nodes can outlive every broadcast.  While `a` calls its first delegate, the callback drops the second
      one, moves the list into `b`, which is at rest, and throws.  `b` has the empty node and does not know of
      it: a whole broadcast of `b` later it is still there. */
  method EmptyNodeSurvives() returns (nodes: seq<Option<Delegate>>, cleanup: bool, broadcasts: nat)
    ensures nodes == [Some(1), None] && !cleanup && broadcasts == 0
  {
    hide Sound, Registered, Invocations, NextTag, Live, Ordered, NoNulls, Grown, Deeper, AtLeast;
    hide Delegates, RemoveFirst;
    hide MulticastDelegate.Refines, MulticastDelegate.Tidy;
    var a := new MulticastDelegate([]);
    var b := new MulticastDelegate([]);
    a.PushBack(1);
    a.PushBack(2);
    a.Enter();
    a.Note(0, 1);
    ghost var before := a.nodes;
    a.Remove(2);
    SecondEmptied(before, a.nodes, a.nextTag);
    b.MoveFrom(a);
    a.Leave();
    assert b.nodes[0].target == Targets(b.nodes)[0];
    b.Enter();
    b.Note(0, 1);
    b.Leave();
    nodes, cleanup, broadcasts := Targets(b.nodes), b.cleanup, b.broadcastCount;
  }
}
