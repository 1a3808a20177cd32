/** Timers on an intrusive linked list, drained in batches (delegate-mq/extras/util/Timer.cpp).  The clock is a
    parameter and stands still during one drain.  A captured snapshot is the timer it was taken from;
    `log` records the snapshots invoked. */
module Timers {
  const MAX_TIMER_EXPIRED: nat := 16

  /** What a callback may do to timers. */
  datatype Command =
    | Restart(t: Timer, timeout: int, once: bool)
    | Halt(t: Timer)
    | Delete(t: Timer)
    | Launch(timeout: int, once: bool)  // construct a timer and start it
    | Throw

  /** The timer that a command names. */
  function Names(c: Command): set<Timer> {
    if c.Launch? || c.Throw? then {} else {c.t}
  }

  function NamedIn(commands: seq<Command>): set<Timer> {
    if commands == [] then {} else NamedIn(commands[..|commands| - 1]) + Names(commands[|commands| - 1])
  }

  /** Commands that can throw; the original's `Start` does so on a timeout that is not positive. */
  predicate MayThrow(c: Command) {
    c.Throw? || ((c.Restart? || c.Launch?) && c.timeout <= 0)
  }

  /** Commands that throw whatever has happened before. */
  predicate MustThrow(c: Command) {
    c.Throw? || (c.Launch? && c.timeout <= 0)
  }

  lemma {:induction false} NamedInPrefix(commands: seq<Command>, i: nat)
    requires i <= |commands|
    ensures NamedIn(commands[..i]) <= NamedIn(commands)
    decreases |commands| - i
  {
    if i < |commands| {
      NamedInStep(commands, i);
      NamedInPrefix(commands, i + 1);
    } else {
      assert commands[..i] == commands;
    }
  }

  /** The timers named by the callbacks lo + 1, ..., hi. */
  function Named(callback: nat -> seq<Command>, lo: nat, hi: nat): set<Timer> {
    if hi <= lo then {} else Named(callback, lo, hi - 1) + NamedIn(callback(hi))
  }

  lemma NamedInStep(commands: seq<Command>, i: nat)
    requires i < |commands|
    ensures NamedIn(commands[..i + 1]) == NamedIn(commands[..i]) + Names(commands[i])
  {
    assert commands[..i + 1][..i] == commands[..i];
  }

  lemma {:induction false} NamedSplits(callback: nat -> seq<Command>, lo: nat, mid: nat, hi: nat)
    requires lo <= mid <= hi
    ensures Named(callback, lo, hi) == Named(callback, lo, mid) + Named(callback, mid, hi)
    decreases hi
  {
    if mid < hi {
      NamedSplits(callback, lo, mid, hi - 1);
    }
  }

  lemma {:induction false} NamedHas(callback: nat -> seq<Command>, lo: nat, hi: nat, n: nat)
    requires lo < n <= hi
    ensures NamedIn(callback(n)) <= Named(callback, lo, hi)
    decreases hi
  {
    if n < hi {
      NamedHas(callback, lo, hi - 1, n);
    }
  }

  lemma {:induction false} NamedBy(callback: nat -> seq<Command>, lo: nat, hi: nat, t: Timer)
    requires t in Named(callback, lo, hi)
    ensures exists n: nat :: lo < n <= hi && t in NamedIn(callback(n))
    decreases hi
  {
    if t !in NamedIn(callback(hi)) {
      NamedBy(callback, lo, hi - 1, t);
    }
  }

  class Timer {
    var timeout: int
    var expireTime: int
    var enabled: bool
    var once: bool
    var next: Timer?

    constructor ()
      ensures !enabled && next == null
    {
      timeout, expireTime, enabled, once, next := 0, 0, false, false, null;
    }

    function Credit(now: int): (r: nat)
      reads `enabled, `once, `expireTime, `timeout
      ensures r > 0 <==> enabled && expireTime <= now
    {
      CreditOf(Now(), now)
    }

    function Now(): Fields
      reads `enabled, `once, `expireTime, `timeout
    {
      Fields(enabled, once, timeout, expireTime)
    }
  }

  /** What a timer is set to. */
  datatype Fields = Fields(enabled: bool, once: bool, timeout: int, expireTime: int)

  /** How often a timer would still fire if the clock stood still: a one-shot once, a periodic timer at most twice,
      for a deadline that is missed by a whole period is only brought up to now. */
  function CreditOf(f: Fields, now: int): (r: nat)
    ensures r > 0 <==> f.enabled && f.expireTime <= now
    ensures r == 2 <==> f.enabled && !f.once && f.expireTime <= now && f.expireTime + f.timeout <= now
    ensures r <= 2
  {
    if !f.enabled || now < f.expireTime then 0
    else if f.once || now < f.expireTime + f.timeout then 1
    else 2
  }

  function CreditsOf(a: map<Timer, Fields>, now: int): map<Timer, nat> {
    map t | t in a :: CreditOf(a[t], now)
  }

  lemma CreditIs(a: map<Timer, Fields>, t: Timer, now: int)
    requires t in a
    ensures t in CreditsOf(a, now) && CreditsOf(a, now)[t] == CreditOf(a[t], now) && CreditsOf(a, now).Keys == a.Keys
  {
  }

  lemma FiredCredit(f: Fields, now: int)
    requires CreditOf(f, now) > 0 && f.timeout > 0
    ensures CreditOf(Fired(f, now), now) == CreditOf(f, now) - 1
  {
  }

  /** From `a` to `b`: outside `touched` nothing changed, and what changed or is new is not due. */
  ghost predicate Eased(a: map<Timer, Fields>, b: map<Timer, Fields>, touched: set<Timer>, now: int) {
    && Kept(a, b, touched)
    && forall t :: t in b ==> (t in a && b[t] == a[t]) || CreditOf(b[t], now) == 0
  }

  lemma EasedWeaker(a: map<Timer, Fields>, b: map<Timer, Fields>, touched: set<Timer>, now: int)
    requires Eased(a, b, touched, now)
    ensures Weaker(CreditsOf(a, now), CreditsOf(b, now), touched)
  {
    hide CreditOf;
  }

  /** A timer after it fired at time `now`: a one-shot is disabled, a periodic timer is due again one period after its
      deadline, or at once if that has passed too. */
  function Fired(f: Fields, now: int): Fields {
    if f.once then f.(enabled := false)
    else f.(expireTime := if now > f.expireTime + f.timeout then now else f.expireTime + f.timeout)
  }

  function FiredTimes(f: Fields, now: int, n: nat): Fields {
    if n == 0 then f else Fired(FiredTimes(f, now, n - 1), now)
  }

  /** What a drain at time `now` that fired a timer `n` times made of it, in arithmetic on the clock. */
  predicate Ticked(f: Fields, now: int, n: nat, f': Fields) {
    && f'.once == f.once && f'.timeout == f.timeout && n <= 2
    && (n == 0 ==> f' == f)
    && (n > 0 ==> f.enabled && f.expireTime <= now && f'.enabled == !f.once)
    && (n > 0 && f.once ==> n == 1 && f'.expireTime == f.expireTime)
    && (n == 1 && !f.once ==>
          if f.expireTime + f.timeout < now then f'.expireTime == now else f'.expireTime == f.expireTime + f.timeout)
    && (n == 2 ==> f.expireTime + f.timeout <= now && f'.expireTime == now + f.timeout)
  }

  lemma TickedIs(f: Fields, now: int, n: nat)
    requires f.enabled ==> f.timeout > 0
    requires n <= CreditOf(f, now)
    ensures Ticked(f, now, n, FiredTimes(f, now, n))
  {
    if n == 1 {
      assert FiredTimes(f, now, 1) == Fired(f, now);
    } else if n == 2 {
      assert FiredTimes(f, now, 2) == Fired(FiredTimes(f, now, 1), now);
      assert FiredTimes(f, now, 1) == Fired(f, now);
    }
  }

  /** A scan of `list` that has passed its first `i` timers and taken snapshots of `s`; it found them as `a`. */
  ghost predicate Taking(list: seq<Timer>, credits: map<Timer, nat>, a: map<Timer, Fields>, b: map<Timer, Fields>,
                         i: nat, s: seq<Timer>, now: int)
  {
    && i <= |list| && |s| <= MAX_TIMER_EXPIRED && Distinct(s)
    && b.Keys == a.Keys && credits == CreditsOf(a, now)
    && (forall u :: u in a && a[u].enabled ==> a[u].timeout > 0)
    && (forall u {:trigger u in s} :: u in s ==> u in list[..i] && u in a && credits[u] > 0)
    && (forall u :: u in a ==> b[u] == if u in s then Fired(a[u], now) else a[u])
    && (forall u {:trigger u in list[..i]} :: u in list[..i] && u in a && credits[u] > 0 ==> u in s)
    && s == Picked(list[..i], credits)
  }

  lemma TakingNext(list: seq<Timer>, credits: map<Timer, nat>, a: map<Timer, Fields>, b: map<Timer, Fields>,
                   i: nat, s: seq<Timer>, now: int, t: Timer, expired: bool)
    requires Taking(list, credits, a, b, i, s, now) && i < |list| && list[i] == t && |s| < MAX_TIMER_EXPIRED
    requires t in a && t !in list[..i] && expired == (CreditOf(b[t], now) > 0)
    ensures Taking(list, credits, a, if expired then b[t := Fired(b[t], now)] else b, i + 1,
                   if expired then s + [t] else s, now)
  {
    hide Fired, CreditOf, CreditsOf, Picked, Distinct;
    CreditIs(a, t, now);
    PickedStep(list, credits, i);
    assert list[..i + 1] == list[..i] + [t];
    assert t !in s && b[t] == a[t];
    if expired {
      Appended(s, t);
    }
  }

  /** Outside `touched` nothing changed. */
  ghost predicate Kept(a: map<Timer, Fields>, b: map<Timer, Fields>, touched: set<Timer>) {
    forall t :: t in a && t !in touched ==> t in b && b[t] == a[t]
  }

  lemma KeptThen(a: map<Timer, Fields>, b: map<Timer, Fields>, d: map<Timer, Fields>, touched: set<Timer>,
                 more: set<Timer>)
    requires Kept(a, b, touched) && Kept(b, d, more)
    ensures Kept(a, d, touched + more)
  {
  }

  lemma KeptLess(a: map<Timer, Fields>, b: map<Timer, Fields>, touched: set<Timer>, more: set<Timer>)
    requires Kept(a, b, touched) && touched <= more
    ensures Kept(a, b, more)
  {
  }

  lemma KeptSelf(a: map<Timer, Fields>)
    ensures Kept(a, a, {})
  {
  }

  /** Exactly the timers in `s` fired once. */
  ghost predicate Advanced(a: map<Timer, Fields>, b: map<Timer, Fields>, s: seq<Timer>, now: int) {
    && b.Keys == a.Keys && Distinct(s)
    && forall t :: t in a ==> b[t] == if t in s then Fired(a[t], now) else a[t]
  }

  /** A timer that no callback names has changed only by what it fired. */
  ghost predicate Clocked(a: map<Timer, Fields>, b: map<Timer, Fields>, touched: set<Timer>, fired: seq<Timer>,
                          pending: seq<Timer>, now: int)
  {
    forall t :: t in a && t !in touched ==> t in b && b[t] == FiredTimes(a[t], now, In(fired, t) + In(pending, t))
  }

  /** A whole pass, of which the first `n` snapshots are invoked. */
  lemma ClockPass(a: map<Timer, Fields>, b: map<Timer, Fields>, d: map<Timer, Fields>, e: map<Timer, Fields>,
                  touched: set<Timer>, more: set<Timer>, fired: seq<Timer>, s: seq<Timer>, n: nat, now: int)
    requires Clocked(a, b, touched, fired, [], now) && Advanced(b, d, s, now) && Kept(d, e, more) && n <= |s|
    ensures Clocked(a, e, touched + more, fired + s[..n], s[n..], now)
  {
    hide FiredTimes, Fired;
    hide In, Distinct;
    DistinctCounts(s);
    forall t | t in a && t !in touched + more
      ensures t in e && e[t] == FiredTimes(a[t], now, In(fired + s[..n], t) + In(s[n..], t))
    {
      var m := In(fired, t) + In([], t);
      InSplit(fired, s, n, t);
      FiredMore(a[t], now, m);
    }
  }

  lemma InSplit(fired: seq<Timer>, s: seq<Timer>, n: nat, t: Timer)
    requires n <= |s|
    ensures In(fired + s[..n], t) + In(s[n..], t) == In(fired, t) + In([], t) + In(s, t)
  {
    assert s == s[..n] + s[n..];
  }

  lemma FiredMore(f: Fields, now: int, n: nat)
    ensures FiredTimes(f, now, n + 1) == Fired(FiredTimes(f, now, n), now)
  {
  }

  function NextOf(s: seq<Timer>, i: nat): Timer? {
    if i < |s| then s[i] else null
  }

  /** The nodes from `head` on are exactly `s`. */
  ghost predicate Linked(head: Timer?, s: seq<Timer>)
    reads s`next
  {
    head == NextOf(s, 0) && forall i {:trigger s[i].next} :: 0 <= i < |s| ==> s[i].next == NextOf(s, i + 1)
  }

  predicate Distinct(s: seq<Timer>) {
    forall i, j :: 0 <= i < j < |s| ==> s[i] != s[j]
  }

  function Erase(s: seq<Timer>, i: nat): seq<Timer>
    requires i < |s|
  {
    s[..i] + s[i + 1..]
  }

  lemma Erased(s: seq<Timer>, i: nat)
    requires Distinct(s) && i < |s|
    ensures Distinct(Erase(s, i)) && |Erase(s, i)| == |s| - 1
    ensures forall k {:trigger Erase(s, i)[k]} :: 0 <= k < |s| - 1 ==>
      Erase(s, i)[k] == if k < i then s[k] else s[k + 1]
    ensures forall x :: x in Erase(s, i) <==> x in s && x != s[i]
  {
    var r := Erase(s, i);
    forall x | x in s && x != s[i]
      ensures x in r
    {
      var k :| 0 <= k < |s| && s[k] == x;
      assert r[if k < i then k else k - 1] == x;
    }
  }

  lemma Unique(s: seq<Timer>, i: nat)
    requires Distinct(s) && i < |s|
    ensures forall k :: 0 <= k < |s| && k != i ==> s[k] != s[i]
  {
  }

  lemma NoneTwice()
    ensures Distinct([])
  {
  }

  lemma Appended(s: seq<Timer>, t: Timer)
    requires Distinct(s) && t !in s
    ensures Distinct(s + [t])
  {
  }

  lemma Fronted(s: seq<Timer>, t: Timer)
    requires Distinct(s) && t !in s
    ensures Distinct([t] + s)
    ensures forall x :: x in [t] + s <==> x in s || x == t
  {
  }

  /** The enabled timers of a list, in order. */
  ghost function Enabled(s: seq<Timer>): seq<Timer>
    reads s`enabled
  {
    if s == [] then []
    else Enabled(s[..|s| - 1]) + if s[|s| - 1].enabled then [s[|s| - 1]] else []
  }

  lemma EnabledStep(s: seq<Timer>, n: nat)
    requires n < |s|
    ensures Enabled(s[..n + 1]) == Enabled(s[..n]) + if s[n].enabled then [s[n]] else []
    ensures s[n..] == [s[n]] + s[n + 1..]
  {
    assert s[..n + 1][..n] == s[..n];
  }

  /** Where the sweep stands, the list goes on as it was. */
  lemma EnabledMeets(s: seq<Timer>, n: nat)
    requires n < |s|
    ensures (Enabled(s[..n]) + s[n..])[|Enabled(s[..n])|] == s[n]
    ensures Erase(Enabled(s[..n]) + s[n..], |Enabled(s[..n])|) == Enabled(s[..n]) + s[n + 1..]
  {
  }

  lemma {:induction false} EnabledOnly(s: seq<Timer>)
    ensures forall t :: t in Enabled(s) ==> t.enabled && t in s
  {
    if s != [] {
      EnabledOnly(s[..|s| - 1]);
    }
  }

  lemma {:induction false} AllEnabled(s: seq<Timer>)
    requires forall t :: t in s ==> t.enabled
    ensures Enabled(s) == s
  {
    if s != [] {
      AllEnabled(s[..|s| - 1]);
    }
  }

  function In(s: seq<Timer>, t: Timer): nat {
    multiset(s)[t]
  }

  lemma {:induction false} DistinctCounts(s: seq<Timer>)
    requires Distinct(s)
    ensures forall t :: In(s, t) == if t in s then 1 else 0
  {
    if s != [] {
      var rest := s[1..];
      DistinctCounts(rest);
      assert s == [s[0]] + rest;
    }
  }

  function At(credits: map<Timer, nat>, t: Timer): nat {
    if t in credits then credits[t] else 0
  }

  /** The expired timers of a list, in order. */
  function Picked(s: seq<Timer>, credits: map<Timer, nat>): seq<Timer> {
    if s == [] then []
    else
      var t := s[|s| - 1];
      Picked(s[..|s| - 1], credits) + if At(credits, t) > 0 then [t] else []
  }

  lemma PickedNone(s: seq<Timer>, credits: map<Timer, nat>)
    ensures Picked(s[..0], credits) == []
  {
  }

  lemma PickedStep(s: seq<Timer>, credits: map<Timer, nat>, i: nat)
    requires i < |s|
    ensures Picked(s[..i + 1], credits) == Picked(s[..i], credits) + if At(credits, s[i]) > 0 then [s[i]] else []
  {
    assert s[..i + 1][..i] == s[..i];
  }

  lemma PickedMore(s: seq<Timer>, t: Timer, credits: map<Timer, nat>)
    ensures Picked(s + [t], credits) == Picked(s, credits) + if At(credits, t) > 0 then [t] else []
  {
    assert (s + [t])[..|s|] == s;
  }

  lemma {:induction false} PickedPrefix(s: seq<Timer>, credits: map<Timer, nat>, i: nat)
    requires i <= |s|
    ensures Picked(s[..i], credits) <= Picked(s, credits)
    ensures i == |s| ==> Picked(s[..i], credits) == Picked(s, credits)
    decreases |s| - i
  {
    if i < |s| {
      PickedStep(s, credits, i);
      PickedPrefix(s, credits, i + 1);
    } else {
      assert s[..i] == s;
    }
  }

  /** The books of a drain, for every timer that existed when it began: the callbacks made (`fired`), the
      snapshots still to be invoked and what it would still fire never exceed what it would have fired
      then; for a timer that no callback touches they are equal to it. */
  ghost predicate Accounted(credit0: map<Timer, nat>, credits: map<Timer, nat>, touched: set<Timer>,
                            fired: seq<Timer>, pending: seq<Timer>)
  {
    && (forall t :: t in credit0 ==> In(fired, t) + In(pending, t) + At(credits, t) <= credit0[t])
    && (forall t :: t in credit0 && t !in touched ==>
          t in credits && In(fired, t) + In(pending, t) + credits[t] == credit0[t])
  }

  /** A pass took snapshots of `s`: one expiry of each was consumed, and no other. */
  ghost predicate Collected(a: map<Timer, nat>, b: map<Timer, nat>, s: seq<Timer>) {
    && b.Keys == a.Keys && Distinct(s)
    && (forall t :: t in s ==> t in a && a[t] > 0)
    && (forall t :: t in a ==> b[t] == a[t] - if t in s then 1 else 0)
  }

  lemma BooksCollect(credit0: map<Timer, nat>, a: map<Timer, nat>, b: map<Timer, nat>, touched: set<Timer>,
                     fired: seq<Timer>, s: seq<Timer>)
    requires Accounted(credit0, a, touched, fired, []) && Collected(a, b, s)
    ensures Accounted(credit0, b, touched, fired, s)
  {
    DistinctCounts(s);
    forall t | t in credit0
      ensures In(fired, t) + In(s, t) + At(b, t) == In(fired, t) + In([], t) + At(a, t)
    {
      assert t in s ==> t in a;
    }
  }

  lemma BooksFire(credit0: map<Timer, nat>, credits: map<Timer, nat>, touched: set<Timer>,
                  fired: seq<Timer>, s: seq<Timer>)
    requires s != [] && Accounted(credit0, credits, touched, fired, s)
    ensures Accounted(credit0, credits, touched, fired + [s[0]], s[1..])
  {
    assert s == [s[0]] + s[1..];
    forall t | t in credit0
      ensures In(fired + [s[0]], t) + In(s[1..], t) == In(fired, t) + In(s, t)
    {
    }
  }

  lemma BooksWeaken(credit0: map<Timer, nat>, a: map<Timer, nat>, b: map<Timer, nat>, touched: set<Timer>,
                    more: set<Timer>, fired: seq<Timer>, s: seq<Timer>)
    requires Accounted(credit0, a, touched, fired, s) && Weaker(a, b, more)
    ensures Accounted(credit0, b, touched + more, fired, s)
  {
  }

  lemma BooksClose(credit0: map<Timer, nat>, credits: map<Timer, nat>, touched: set<Timer>, fired: seq<Timer>,
                   lost: seq<Timer>)
    requires Accounted(credit0, credits, touched, fired, lost)
    ensures forall t :: t in credit0 ==> In(fired, t) + In(lost, t) <= credit0[t]
    ensures forall t :: t in credit0 && t !in touched ==>
      t in credits && In(fired, t) + In(lost, t) + credits[t] == credit0[t]
  {
  }

  lemma ShrinksMeans(a: map<Timer, nat>, b: map<Timer, nat>)
    requires Shrinks(a, b)
    ensures Owing(b, 2) < Owing(a, 2) || (Owing(b, 2) == Owing(a, 2) && Owing(b, 1) < Owing(a, 1))
  {
  }

  /** A whole pass: snapshots taken, then the first `n` of them invoked, with callbacks in between. */
  lemma BooksPass(credit0: map<Timer, nat>, a: map<Timer, nat>, b: map<Timer, nat>, d: map<Timer, nat>,
                  touched: set<Timer>, more: set<Timer>, fired: seq<Timer>, s: seq<Timer>, n: nat)
    requires Accounted(credit0, a, touched, fired, []) && Collected(a, b, s) && Weaker(b, d, more) && n <= |s|
    ensures Accounted(credit0, d, touched + more, fired + s[..n], s[n..])
  {
    hide Accounted, Collected, Weaker;
    BooksCollect(credit0, a, b, touched, fired, s);
    BooksWeaken(credit0, b, d, touched, more, fired, s);
    BooksInvoke(credit0, d, touched + more, fired, s, n);
  }

  lemma {:induction false} BooksInvoke(credit0: map<Timer, nat>, credits: map<Timer, nat>, touched: set<Timer>,
                                       fired: seq<Timer>, s: seq<Timer>, n: nat)
    requires Accounted(credit0, credits, touched, fired, s) && n <= |s|
    ensures Accounted(credit0, credits, touched, fired + s[..n], s[n..])
    decreases n
  {
    hide Accounted;
    if n == 0 {
      assert fired + s[..0] == fired && s[0..] == s;
    } else {
      BooksFire(credit0, credits, touched, fired, s);
      BooksInvoke(credit0, credits, touched, fired + [s[0]], s[1..], n - 1);
      assert fired + [s[0]] + s[1..][..n - 1] == fired + s[..n] && s[1..][n - 1..] == s[n..];
    }
  }

  /** Every expired timer had its snapshot taken. */
  predicate Served(a: map<Timer, nat>, s: seq<Timer>) {
    forall t :: t in a && a[t] > 0 ==> t in s
  }

  ghost predicate Reached(credit0: map<Timer, nat>, touched: set<Timer>, fired: seq<Timer>) {
    forall t :: t in credit0 && t !in touched && credit0[t] > 0 ==> t in fired
  }

  lemma WeakerSelf(a: map<Timer, nat>)
    ensures Weaker(a, a, {})
  {
  }

  lemma NamedInNone(commands: seq<Command>)
    ensures NamedIn(commands[..0]) == {}
  {
  }

  lemma WeakerThen(a: map<Timer, nat>, b: map<Timer, nat>, d: map<Timer, nat>, touched: set<Timer>, more: set<Timer>)
    requires Weaker(a, b, touched) && Weaker(b, d, more)
    ensures Weaker(a, d, touched + more)
  {
  }

  lemma WeakerLess(a: map<Timer, nat>, b: map<Timer, nat>, touched: set<Timer>, more: set<Timer>)
    requires Weaker(a, b, touched) && touched <= more
    ensures Weaker(a, b, more)
  {
  }

  lemma ReachedLess(credit0: map<Timer, nat>, touched: set<Timer>, more: set<Timer>, fired: seq<Timer>)
    requires Reached(credit0, touched, fired)
    ensures Reached(credit0, touched + more, fired)
  {
  }

  /** After a pass that was not full, every untouched timer that had expired has fired. */
  lemma DrainEnds(credit0: map<Timer, nat>, a: map<Timer, nat>, touched: set<Timer>, fired: seq<Timer>, s: seq<Timer>)
    requires Accounted(credit0, a, touched, fired, [])
    requires Served(a, s)
    ensures Reached(credit0, touched, fired + s)
  {
    forall t | t in credit0 && t !in touched && credit0[t] > 0
      ensures t in fired + s
    {
      if a[t] == 0 {
        assert In(fired, t) > 0;
        assert t in fired;
      }
    }
  }

  /** The timers of a set have nothing to fire. */
  predicate Settled(credits: map<Timer, nat>, s: set<Timer>) {
    forall t :: t in s ==> At(credits, t) == 0
  }

  lemma SettledThen(a: map<Timer, nat>, b: map<Timer, nat>, touched: set<Timer>, s: set<Timer>, more: set<Timer>)
    requires Settled(a, s) && Weaker(a, b, touched) && Settled(b, more)
    ensures Settled(b, s + more)
  {
  }

  lemma SettledPass(a: map<Timer, nat>, b: map<Timer, nat>, s: seq<Timer>, touched: set<Timer>)
    requires Settled(a, touched) && Collected(a, b, s)
    ensures Settled(b, touched) && forall t :: t in s ==> t !in touched
  {
  }

  lemma SettledNone(credits: map<Timer, nat>)
    ensures Settled(credits, {})
  {
  }

  /** None of the callbacks lo + 1, ..., hi has a command that must throw. */
  ghost predicate Harmless(callback: nat -> seq<Command>, lo: nat, hi: nat) {
    forall n: nat, c :: lo < n <= hi && c in callback(n) ==> !MustThrow(c)
  }

  lemma HarmlessAlso(callback: nat -> seq<Command>, lo: nat, mid: nat, hi: nat)
    requires lo <= mid <= hi && Harmless(callback, lo, mid) && Harmless(callback, mid, hi)
    ensures Harmless(callback, lo, hi)
  {
  }

  /** The pass in which the i-th callback of a drain falls: all but the last pass are full. */
  function PassOf(i: nat): nat {
    i / MAX_TIMER_EXPIRED
  }

  /** No callback comes for a timer that a callback of an earlier pass has named. */
  ghost predicate InTurn(callback: nat -> seq<Command>, start: nat, fired: seq<Timer>) {
    forall i: nat, j: nat :: j < i < |fired| && PassOf(j) < PassOf(i) ==> fired[i] !in NamedIn(callback(start + j + 1))
  }

  lemma TurnsGoOn(callback: nat -> seq<Command>, start: nat, fired: seq<Timer>, s: seq<Timer>)
    requires InTurn(callback, start, fired) && |fired| % MAX_TIMER_EXPIRED == 0 && |s| <= MAX_TIMER_EXPIRED
    requires forall t :: t in s ==> t !in Named(callback, start, start + |fired|)
    ensures InTurn(callback, start, fired + s)
  {
    hide Named, NamedIn;
    var all := fired + s;
    forall i: nat, j: nat | j < i < |all| && PassOf(j) < PassOf(i)
      ensures all[i] !in NamedIn(callback(start + j + 1))
    {
      if i >= |fired| {
        assert PassOf(i) == PassOf(|fired|);
        assert all[i] in s;
        NamedHas(callback, start, start + |fired|, start + j + 1);
      }
    }
  }

  /** A drain that ended with `fired` was broken off in the middle of a pass, of which `lost` was still to come. */
  predicate BrokenOff(fired: seq<Timer>, lost: seq<Timer>) {
    exists n :: 0 < n <= |fired| && PassBroken(fired, lost, n)
  }

  predicate PassBroken(fired: seq<Timer>, lost: seq<Timer>, n: nat)
    requires n <= |fired|
  {
    && (|fired| - n) % MAX_TIMER_EXPIRED == 0 && n + |lost| <= MAX_TIMER_EXPIRED
    && Distinct(fired[|fired| - n..] + lost)
  }

  lemma BreaksOff(fired: seq<Timer>, s: seq<Timer>, n: nat)
    requires |fired| % MAX_TIMER_EXPIRED == 0 && Distinct(s) && |s| <= MAX_TIMER_EXPIRED && 0 < n <= |s|
    ensures BrokenOff(fired + s[..n], s[n..])
  {
    var all := fired + s[..n];
    assert all[|all| - n..] + s[n..] == s;
    assert PassBroken(all, s[n..], n);
  }

  /** The first callback to name `t` when no pass had taken it, at the end of the n-th callback's pass. */
  ghost predicate CutOff(callback: nat -> seq<Command>, start: nat, fired: seq<Timer>, n: nat, t: Timer) {
    && n < |fired| && t in NamedIn(callback(start + n + 1))
    && forall i: nat :: i < |fired| && PassOf(i) <= PassOf(n) ==> fired[i] != t
  }

  /** A timer that was due does not fire, if and only if a callback named it before any pass had taken it. */
  lemma MissesIff(callback: nat -> seq<Command>, start: nat, fired: seq<Timer>, t: Timer)
    requires InTurn(callback, start, fired)
    requires t !in fired ==> t in Named(callback, start, start + |fired|)
    ensures t !in fired <==> exists n: nat :: CutOff(callback, start, fired, n, t)
  {
    hide Named, NamedIn;
    if t !in fired {
      NamedBy(callback, start, start + |fired|, t);
      var m: nat :| start < m <= start + |fired| && t in NamedIn(callback(m));
      assert CutOff(callback, start, fired, m - start - 1, t);
    }
    if n: nat :| CutOff(callback, start, fired, n, t) {
      forall i: nat | i < |fired|
        ensures fired[i] != t
      {
        if PassOf(i) > PassOf(n) {
          assert n < i;
        }
      }
    }
  }

  function FirstOf(s: seq<Timer>): (r: seq<Timer>)
    ensures r <= s && |r| <= MAX_TIMER_EXPIRED
  {
    if |s| <= MAX_TIMER_EXPIRED then s else s[..MAX_TIMER_EXPIRED]
  }

  function Owing(credits: map<Timer, nat>, n: nat): set<Timer> {
    set t | t in credits && credits[t] >= n
  }

  predicate Small(credits: map<Timer, nat>) {
    forall t :: t in credits ==> credits[t] <= 2
  }

  /** Fewer timers owe two callbacks, or as many owe two and fewer owe one. */
  ghost predicate Shrinks(a: map<Timer, nat>, b: map<Timer, nat>) {
    Owing(b, 2) < Owing(a, 2) || (Owing(b, 2) == Owing(a, 2) && Owing(b, 1) < Owing(a, 1))
  }

  lemma PassShrinks(a: map<Timer, nat>, b: map<Timer, nat>, s: seq<Timer>, d: map<Timer, nat>, touched: set<Timer>)
    requires Collected(a, b, s) && Weaker(b, d, touched) && s != []
    requires Small(a)
    ensures Shrinks(a, d)
  {
    var t := s[0];
    assert t in a && a[t] > 0 && b[t] == a[t] - 1;
    assert Owing(d, 2) <= Owing(a, 2) && Owing(d, 1) <= Owing(a, 1);
    if a[t] == 2 {
      assert t in Owing(a, 2) && t !in Owing(d, 2);
    } else {
      assert t in Owing(a, 1) && t !in Owing(d, 1);
    }
  }

  /** From `a` to `b` nothing was gained, timers may have come or gone, and outside `touched` nothing changed. */
  ghost predicate Weaker(a: map<Timer, nat>, b: map<Timer, nat>, touched: set<Timer>) {
    && (forall t :: t in b ==> b[t] <= At(a, t))
    && (forall t :: t in a && t !in touched ==> t in b && b[t] == a[t])
  }

  // ---------------------------------------------------------------------------------------------
  // One drain after the other
  // ---------------------------------------------------------------------------------------------

  function Sum(s: seq<nat>): nat {
    if s == [] then 0 else Sum(s[..|s| - 1]) + s[|s| - 1]
  }

  /** The time of the drain before the k-th, or of the start. */
  function Before(start: int, times: seq<int>, k: nat): int
    requires k <= |times|
  {
    if k == 0 then start else times[k - 1]
  }

  /** Drains that come less than a period apart, of a periodic timer that no callback names: `fields[k]` is how the
      k-th drain finds it, and it fires `fires[k]` times, once at least when it is due. */
  ghost predicate Regular(start: int, timeout: int, times: seq<int>, fields: seq<Fields>, fires: seq<nat>) {
    && |fields| == |times| + 1 && |fires| == |times|
    && fields[0] == Fields(true, false, timeout, start + timeout)
    && (forall k :: 0 <= k < |times| ==> Before(start, times, k) <= times[k] < Before(start, times, k) + timeout)
    && (forall k :: 0 <= k < |times| ==>
          && Ticked(fields[k], times[k], fires[k], fields[k + 1])
          && (fields[k].expireTime <= times[k] ==> fires[k] > 0))
  }

  /** Such a timer keeps time: after each drain it has fired exactly as often as whole periods have passed since the
      start, one drain fires it at most once, and its next deadline is a whole number of periods after the start. */
  lemma KeepsTime(start: int, timeout: int, times: seq<int>, fields: seq<Fields>, fires: seq<nat>, k: nat)
    requires Regular(start, timeout, times, fields, fires) && k <= |times| && timeout > 0
    ensures var n := Sum(fires[..k]);
      && fields[k] == Fields(true, false, timeout, start + (n + 1) * timeout)
      && start + n * timeout <= Before(start, times, k) < start + (n + 1) * timeout
    ensures k > 0 ==> fires[k - 1] <= 1
  {
    hide Regular;
    InPeriod(start, timeout, times, fields, fires, k);
  }

  function Periods(n: nat, timeout: int): int {
    n * timeout
  }

  lemma OnePeriod(n: nat, timeout: int)
    ensures Periods(n + 1, timeout) == Periods(n, timeout) + timeout && Periods(0, timeout) == 0
  {
  }

  lemma {:induction false} InPeriod(start: int, timeout: int, times: seq<int>, fields: seq<Fields>, fires: seq<nat>,
                                    k: nat)
    requires Regular(start, timeout, times, fields, fires) && k <= |times| && timeout > 0
    ensures |fields| == |times| + 1 && |fires| == |times|
    ensures var last := start + Periods(Sum(fires[..k]), timeout);
      && fields[k] == Fields(true, false, timeout, last + timeout)
      && last <= Before(start, times, k) < last + timeout
    ensures Periods(Sum(fires[..k]) + 1, timeout) == Periods(Sum(fires[..k]), timeout) + timeout
    ensures k > 0 ==> fires[k - 1] <= 1
    decreases k
  {
    hide Ticked, Periods;
    OnePeriod(Sum(fires[..k]), timeout);
    if k > 0 {
      InPeriod(start, timeout, times, fields, fires, k - 1);
      var n := Sum(fires[..k - 1]);
      SumStep(fires, k);
      OnePeriod(n, timeout);
      var last := start + Periods(n, timeout);
      OneTick(fields[k - 1], last, Before(start, times, k - 1), times[k - 1], fires[k - 1], fields[k]);
    } else {
      OnePeriod(0, timeout);
    }
  }

  lemma SumStep(s: seq<nat>, k: nat)
    requires 0 < k <= |s|
    ensures Sum(s[..k]) == Sum(s[..k - 1]) + s[k - 1]
  {
    assert s[..k][..k - 1] == s[..k - 1];
  }

  /** A drain less than a period after the last, which left the deadline one period after `last`. */
  lemma OneTick(f: Fields, last: int, before: int, now: int, n: nat, f': Fields)
    requires f.enabled && !f.once && f.timeout > 0 && f.expireTime == last + f.timeout
    requires last <= before < f.expireTime && before <= now < before + f.timeout
    requires Ticked(f, now, n, f') && (f.expireTime <= now ==> n > 0)
    ensures if f.expireTime <= now then n == 1 && f' == f.(expireTime := f.expireTime + f.timeout)
            else n == 0 && f' == f
    ensures now < f'.expireTime
  {
  }

  // ---------------------------------------------------------------------------------------------
  // A drain, pass by pass
  // ---------------------------------------------------------------------------------------------

  /** A pass that began with the m-th callback made: snapshots `s` taken, the first `n` of them invoked. */
  ghost predicate OnePass(callback: nat -> seq<Command>, now: int, m: nat, threw: bool,
                          a: map<Timer, nat>, b: map<Timer, nat>, d: map<Timer, nat>,
                          fa: map<Timer, Fields>, fb: map<Timer, Fields>, fd: map<Timer, Fields>,
                          s: seq<Timer>, n: nat)
  {
    && n <= |s| <= MAX_TIMER_EXPIRED && Distinct(s)
    && Collected(a, b, s) && Weaker(b, d, Named(callback, m, m + n))
    && Advanced(fa, fb, s, now) && Kept(fb, fd, Named(callback, m, m + n))
    && (if threw then n > 0
        else n == |s| && Harmless(callback, m, m + n) && Settled(d, Named(callback, m, m + n)))
    && (|s| < MAX_TIMER_EXPIRED ==> Served(a, s))
  }

  /** A drain between two passes. */
  ghost predicate Draining(callback: nat -> seq<Command>, now: int, start: nat, credit0: map<Timer, nat>,
                           field0: map<Timer, Fields>, first: seq<Timer>, credits: map<Timer, nat>,
                           fields: map<Timer, Fields>, fired: seq<Timer>)
  {
    var touched := Named(callback, start, start + |fired|);
    && Accounted(credit0, credits, touched, fired, []) && Settled(credits, touched)
    && Clocked(field0, fields, touched, fired, [], now)
    && InTurn(callback, start, fired) && |fired| % MAX_TIMER_EXPIRED == 0
    && Harmless(callback, start, start + |fired|)
    && (if fired == [] then credits == credit0 else |fired| >= MAX_TIMER_EXPIRED && first <= fired)
  }

  lemma DrainStarts(callback: nat -> seq<Command>, start: nat, credit0: map<Timer, nat>, field0: map<Timer, Fields>,
                    first: seq<Timer>, now: int)
    ensures Draining(callback, now, start, credit0, field0, first, credit0, field0, [])
  {
  }

  lemma NoneYet(callback: nat -> seq<Command>, now: int, start: nat, credit0: map<Timer, nat>,
                field0: map<Timer, Fields>, first: seq<Timer>, credits: map<Timer, nat>,
                fields: map<Timer, Fields>, fired: seq<Timer>)
    requires Draining(callback, now, start, credit0, field0, first, credits, fields, fired)
    ensures fired == [] ==> credits == credit0
  {
  }

  /** What a pass adds to the books, however it ends. */
  lemma PassBooks(callback: nat -> seq<Command>, now: int, start: nat, credit0: map<Timer, nat>,
                  field0: map<Timer, Fields>, first: seq<Timer>, a: map<Timer, nat>, fa: map<Timer, Fields>,
                  fired: seq<Timer>, threw: bool, b: map<Timer, nat>, fb: map<Timer, Fields>, d: map<Timer, nat>,
                  fd: map<Timer, Fields>, s: seq<Timer>, n: nat)
    requires Draining(callback, now, start, credit0, field0, first, a, fa, fired)
    requires OnePass(callback, now, start + |fired|, threw, a, b, d, fa, fb, fd, s, n)
    requires fired == [] ==> s == first
    ensures n <= |s|
    ensures var all, touched := fired + s[..n], Named(callback, start, start + |fired| + n);
      && Accounted(credit0, d, touched, all, s[n..]) && Clocked(field0, fd, touched, all, s[n..], now)
      && InTurn(callback, start, all) && first <= all + s[n..]
      && (threw ==> all != [] && BrokenOff(all, s[n..]) && |s[n..]| < MAX_TIMER_EXPIRED)
  {
    hide Accounted, Weaker, Collected, Served, Settled, InTurn, BrokenOff, Harmless, Kept, Advanced, Clocked, Named;
    var m := start + |fired|;
    var touched, more := Named(callback, start, m), Named(callback, m, m + n);
    NamedSplits(callback, start, m, m + n);
    BooksPass(credit0, a, b, d, touched, more, fired, s, n);
    ClockPass(field0, fa, fb, fd, touched, more, fired, s, n, now);
    SettledPass(a, b, s, touched);
    TurnsGoOn(callback, start, fired, s[..n]);
    assert s[..n] + s[n..] == s;
    assert fired + s[..n] + s[n..] == fired + s;
    if threw {
      BreaksOff(fired, s, n);
    }
  }

  /** A full pass that nothing ended: the drain goes on, and less is left to fire. */
  lemma FullPass(callback: nat -> seq<Command>, now: int, start: nat, credit0: map<Timer, nat>,
                 field0: map<Timer, Fields>, first: seq<Timer>, a: map<Timer, nat>, fa: map<Timer, Fields>,
                 fired: seq<Timer>, b: map<Timer, nat>, fb: map<Timer, Fields>, d: map<Timer, nat>,
                 fd: map<Timer, Fields>, s: seq<Timer>, n: nat)
    requires Draining(callback, now, start, credit0, field0, first, a, fa, fired) && Small(a)
    requires OnePass(callback, now, start + |fired|, false, a, b, d, fa, fb, fd, s, n) && |s| == MAX_TIMER_EXPIRED
    requires fired == [] ==> s == first
    ensures Draining(callback, now, start, credit0, field0, first, d, fd, fired + s)
    ensures Owing(d, 2) < Owing(a, 2) || (Owing(d, 2) == Owing(a, 2) && Owing(d, 1) < Owing(a, 1))
    ensures s[..n] == s && s[n..] == []
  {
    hide Accounted, Weaker, Collected, Served, Settled, InTurn, Harmless, Kept, Advanced, Clocked, Named, Owing, Small;
    hide BrokenOff, Distinct;
    PassBooks(callback, now, start, credit0, field0, first, a, fa, fired, false, b, fb, d, fd, s, n);
    var m := start + |fired|;
    assert s[..n] == s && s[n..] == [];
    assert fired + s[..n] + s[n..] == fired + s;
    NamedSplits(callback, start, m, m + n);
    SettledPass(a, b, s, Named(callback, start, m));
    SettledThen(b, d, Named(callback, m, m + n), Named(callback, start, m), Named(callback, m, m + n));
    HarmlessAlso(callback, start, m, m + n);
    PassShrinks(a, b, s, d, Named(callback, m, m + n));
    ShrinksMeans(a, d);
  }

  /** A pass that was not full, and that nothing ended. */
  lemma LastPass(callback: nat -> seq<Command>, now: int, start: nat, credit0: map<Timer, nat>,
                 field0: map<Timer, Fields>, first: seq<Timer>, a: map<Timer, nat>, fa: map<Timer, Fields>,
                 fired: seq<Timer>, b: map<Timer, nat>, fb: map<Timer, Fields>, d: map<Timer, nat>,
                 fd: map<Timer, Fields>, s: seq<Timer>, n: nat)
    requires Draining(callback, now, start, credit0, field0, first, a, fa, fired)
    requires OnePass(callback, now, start + |fired|, false, a, b, d, fa, fb, fd, s, n) && |s| < MAX_TIMER_EXPIRED
    ensures var touched := Named(callback, start, start + |fired| + |s|);
      Reached(credit0, touched, fired + s) && Settled(d, touched)
    ensures Harmless(callback, start, start + |fired| + |s|) && s[..n] == s && s[n..] == []
    ensures |fired + s| < MAX_TIMER_EXPIRED ==> Served(credit0, fired + s)
  {
    hide Accounted, Weaker, Collected, Served, Settled, InTurn, Harmless, Kept, Advanced, Clocked, Named, Reached;
    var m := start + |fired|;
    var touched, more := Named(callback, start, m), Named(callback, m, m + n);
    NamedSplits(callback, start, m, m + n);
    DrainEnds(credit0, a, touched, fired, s);
    ReachedLess(credit0, touched, more, fired + s);
    SettledPass(a, b, s, touched);
    SettledThen(b, d, more, touched, more);
    HarmlessAlso(callback, start, m, m + n);
    if |fired + s| < MAX_TIMER_EXPIRED {
      assert fired == [] && fired + s == s;
    }
  }

  class TimerList {
    var head: Timer?
    var timerStopped: bool
    /** The timers that exist. */
    var all: set<Timer>
    ghost var list: seq<Timer>
    var log: seq<Timer>

    constructor ()
      ensures Valid() && all == {} && list == [] && log == []
    {
      head, timerStopped, all, list, log := null, false, {}, [], [];
    }

    /** The list is acyclic and without duplicates, and holds every `next` there is. */
    ghost predicate Shape()
      reads `head, `list, `all, all`next, list`next
    {
      && Linked(head, list) && Distinct(list)
      && (forall t {:trigger t in list} :: t in list ==> t in all)
      && (forall t {:trigger t in all} :: t in all && t !in list ==> t.next == null)
    }

    /** Besides, every enabled timer is on the list, and a disabled timer is on it only while a sweep is due. */
    ghost predicate Valid()
      reads `head, `list, `all, `timerStopped, all, list
    {
      && Shape()
      && (forall t {:trigger t in all} :: t in all && t.enabled ==> t in list && t.timeout > 0)
      && (forall t {:trigger t in list} :: t in list && !t.enabled ==> timerStopped)
    }

    method Create() returns (t: Timer)
      requires Valid()
      modifies `all
      ensures Valid() && fresh(t) && all == old(all) + {t} && !t.enabled
    {
      t := new Timer();
      all := all + {t};
    }

    /** The place of a timer on the list, and the node before it. */
    method Find(t: Timer) returns (prev: Timer?, found: bool, ghost i: nat)
      requires Shape()
      ensures found == (t in list) && i <= |list|
      ensures found ==> i < |list| && list[i] == t && (if i == 0 then prev == null else prev == list[i - 1])
    {
      prev, i := null, 0;
      var p := head;
      while p != null && p != t
        invariant i <= |list| && p == NextOf(list, i) && t !in list[..i]
        invariant if i == 0 then prev == null else prev == list[i - 1]
        decreases |list| - i
      {
        prev, p := p, p.next;
        i := i + 1;
      }
      found := p != null;
    }

    /** Putting a timer in front of the list. */
    method PushFront(t: Timer)
      requires Shape() && t in all && t !in list
      modifies this`head, this`list, t`next
      ensures Shape() && list == [t] + old(list)
    {
      Fronted(list, t);
      t.next := head;
      head := t;
      list := [t] + list;
    }

    /** Starting a timer that is not on the list puts it in front; one that is stays where it is.  A timeout that is
        not positive throws, and nothing has changed. */
    method Start(t: Timer, timeout: int, once: bool, now: int) returns (threw: bool)
      requires Valid() && t in all
      modifies this`head, this`list, t
      ensures Valid() && threw == (timeout <= 0)
      ensures !threw ==> t.enabled && t.timeout == timeout && t.once == once && t.expireTime == now + timeout
      ensures threw ==> unchanged(t) && unchanged(this)
      ensures list == if !threw && t !in old(list) then [t] + old(list) else old(list)
    {
      hide Distinct, Linked;
      if timeout <= 0 {
        return true;
      }
      t.timeout, t.once, t.expireTime, t.enabled := timeout, once, now + timeout, true;
      var _, found, _ := Find(t);
      if !found {
        PushFront(t);
      }
      return false;
    }

    method Stop(t: Timer)
      requires Valid() && t in all
      modifies t`enabled, `timerStopped
      ensures Valid() && !t.enabled && timerStopped
    {
      t.enabled := false;
      timerStopped := true;
    }

    /** Taking the i-th node out of the list, whose predecessor is `prev`: the links. */
    method Splice(prev: Timer?, t: Timer, ghost i: nat)
      requires Linked(head, list) && Distinct(list) && i < |list| && list[i] == t && forall u :: u in list ==> u in all
      requires if i == 0 then prev == null else prev == list[i - 1]
      modifies this`head, this`list, all`next
      ensures Linked(head, list) && t.next == null && list == Erase(old(list), i)
      ensures forall u :: u in all && u !in old(list) ==> u.next == old(u.next)
    {
      hide Erase, Distinct;
      Erased(list, i);
      Unique(list, i);
      if prev == null {
        head := t.next;
      } else {
        Unique(list, i - 1);
        prev.next := t.next;
      }
      t.next := null;
      ghost var rest := Erase(list, i);
      forall k | 0 <= k < |rest|
        ensures rest[k].next == NextOf(rest, k + 1)
      {
        var m := if k < i then k else k + 1;
        assert old(list[m].next) == NextOf(old(list), m + 1);
      }
      list := rest;
    }

    method Unlink(prev: Timer?, t: Timer, ghost i: nat)
      requires Shape() && i < |list| && list[i] == t
      requires if i == 0 then prev == null else prev == list[i - 1]
      modifies this`head, this`list, all`next
      ensures Shape() && list == Erase(old(list), i)
      ensures forall u :: u in list <==> u in old(list) && u != t
    {
      hide Erase, Distinct, Linked;
      Erased(list, i);
      Splice(prev, t, i);
    }

    /** The destructor: the timer leaves the list. */
    method Destroy(t: Timer)
      requires Valid() && t in all
      modifies this`head, this`list, this`all, all`next
      ensures Valid() && all == old(all) - {t}
      ensures forall u :: u in list <==> u in old(list) && u != t
      ensures if t !in old(list) then list == old(list)
              else exists i :: 0 <= i < |old(list)| && old(list)[i] == t && list == Erase(old(list), i)
    {
      hide Distinct, Linked;
      var prev, found;
      ghost var i;
      prev, found, i := Find(t);
      if found {
        Unlink(prev, t, i);
      }
      all := all - {t};
    }

    /** A sweep of `list0` that has passed `n` of its timers and kept `i` of them. */
    ghost predicate Sweeping(list0: seq<Timer>, n: nat, i: nat, prev: Timer?, p: Timer?)
      reads `list, list0`enabled
    {
      && n <= |list0| && list == Enabled(list0[..n]) + list0[n..] && i == |Enabled(list0[..n])|
      && p == NextOf(list, i) && (if i == 0 then prev == null else prev == list[i - 1])
      && (forall u {:trigger u in list} :: u in list ==> u in list0)
      && (forall u {:trigger u in list0} :: u in list0 && u.enabled ==> u in list)
    }

    method SweepStep(ghost list0: seq<Timer>, ghost n: nat, ghost i: nat, prev: Timer?, p: Timer)
      returns (prev': Timer?, p': Timer?, ghost i': nat)
      requires Shape() && Sweeping(list0, n, i, prev, p)
      modifies `head, `list, all`next
      ensures Shape() && n < |list0| && Sweeping(list0, n + 1, i', prev', p')
    {
      hide Linked, Distinct, Enabled, Erase;
      EnabledStep(list0, n);
      EnabledMeets(list0, n);
      NextIs(i);
      p' := p.next;
      if !p.enabled {
        Unlink(prev, p, i);
        prev', i' := prev, i;
      } else {
        prev', i' := p, i + 1;
      }
    }

    method SweepAll()
      requires Shape()
      modifies `head, `list, all`next
      ensures Shape() && list == Enabled(old(list))
      ensures forall u :: u in list ==> u in old(list) && u.enabled
      ensures forall u :: u in old(list) && u.enabled ==> u in list
    {
      hide Shape, Sweeping, Linked, Distinct, Enabled, NextOf;
      ghost var list0 := list;
      var prev: Timer?, p := null, head;
      ghost var i: nat, n: nat := 0, 0;
      SweepStarts(list0, p);
      while p != null
        invariant Shape() && Sweeping(list0, n, i, prev, p)
        decreases |list0| - n
      {
        prev, p, i := SweepStep(list0, n, i, prev, p);
        n := n + 1;
      }
      SweepEnds(list0, n, i, prev);
    }

    /** Taking the disabled timers off the list. */
    method Sweep()
      requires Valid()
      modifies `head, `list, `timerStopped, all`next
      ensures Valid() && !timerStopped && list == Enabled(old(list))
    {
      hide Shape;
      if timerStopped {
        SweepAll();
        timerStopped := false;
      } else {
        AllEnabled(list);
      }
    }

    lemma {:induction false} SweepStarts(list0: seq<Timer>, p: Timer?)
      requires Shape() && list0 == list && p == head
      ensures Sweeping(list0, 0, 0, null, p)
    {
      assert Enabled(list0[..0]) == [] && list0[0..] == list0;
    }

    lemma {:induction false} SweepEnds(list0: seq<Timer>, n: nat, i: nat, prev: Timer?)
      requires Shape() && Sweeping(list0, n, i, prev, null)
      ensures list == Enabled(list0) && n == |list0|
      ensures forall u :: u in list ==> u in list0 && u.enabled
      ensures forall u :: u in list0 && u.enabled ==> u in list
    {
      assert list0[..n] == list0 && list0[n..] == [];
      EnabledOnly(list0);
    }

    lemma NextIs(i: nat)
      requires Shape() && i < |list|
      ensures list[i].next == NextOf(list, i + 1)
    {
    }

    method CheckExpired(t: Timer, now: int) returns (expired: bool)
      requires Valid() && t in list
      modifies t`enabled, t`expireTime, `timerStopped
      ensures Valid() && expired == (old(t.Credit(now)) > 0)
      ensures t.Credit(now) == old(t.Credit(now)) - if expired then 1 else 0
      ensures expired <==> old(t.enabled) && old(t.expireTime) <= now
      ensures t.Now() == if expired then Fired(old(t.Now()), now) else old(t.Now())
      ensures expired ==> Ticked(old(t.Now()), now, 1, t.Now())
    {
      if !t.enabled {
        return false;
      }
      if now < t.expireTime {
        return false;
      }
      if t.once {
        t.enabled := false;
        timerStopped := true;
      } else {
        t.expireTime := t.expireTime + t.timeout;
        if now > t.expireTime {
          t.expireTime := now;
        }
      }
      return true;
    }

    /** One pass under the lock: up to 16 snapshots of expired timers, in list order.  A deadline is consumed
        only for a timer whose snapshot is taken. */
    method Collect(now: int) returns (snapshots: seq<Timer>)
      requires Valid()
      modifies `timerStopped, all`enabled, all`expireTime
      ensures Valid() && |snapshots| <= MAX_TIMER_EXPIRED && Distinct(snapshots)
      ensures forall t :: t in snapshots ==> t in list && t in all && old(t.Credit(now)) > 0
      ensures forall t :: t in all ==> t.Credit(now) == old(t.Credit(now)) - if t in snapshots then 1 else 0
      ensures |snapshots| < MAX_TIMER_EXPIRED ==>
        forall t :: t in list && old(t.Credit(now)) > 0 ==> t in snapshots
      ensures forall t :: t in all ==> t.Now() == if t in snapshots then Fired(old(t.Now()), now) else old(t.Now())
      ensures snapshots <= Picked(list, old(Credits(now)))
      ensures |snapshots| < MAX_TIMER_EXPIRED ==> snapshots == Picked(list, old(Credits(now)))
    {
      hide Collecting, Shape, Distinct, Picked;
      snapshots := [];
      ghost var credits, fields := Credits(now), Setting();
      CollectStarts(now);
      var t := head;
      ghost var i: nat := 0;
      while t != null
        invariant Collecting(credits, fields, i, snapshots, now) && t == NextOf(list, i) && i <= |list|
        invariant |snapshots| <= MAX_TIMER_EXPIRED
        decreases |list| - i
      {
        StillValid(credits, fields, i, snapshots, now);
        assert t in list;
        if |snapshots| >= MAX_TIMER_EXPIRED {
          break;
        }
        snapshots, t := CollectNext(t, credits, fields, i, snapshots, now);
        i := i + 1;
      }
      CollectEnds(credits, fields, i, snapshots, now);
      ListExists();
    }

    lemma StillValid(credits: map<Timer, nat>, fields: map<Timer, Fields>, i: nat, s: seq<Timer>, now: int)
      requires Collecting(credits, fields, i, s, now)
      ensures Valid() && forall t :: t in list ==> t in all
    {
    }

    lemma ListExists()
      requires Shape()
      ensures forall t :: t in list ==> t in all
    {
    }

    /** A scan that has passed the first `i` timers of the list and taken snapshots of `s`. */
    ghost predicate Collecting(credits: map<Timer, nat>, fields: map<Timer, Fields>, i: nat, s: seq<Timer>, now: int)
      reads `head, `list, `all, `timerStopped, all, list
    {
      Valid() && Taking(list, credits, fields, Setting(), i, s, now)
    }

    lemma CollectStarts(now: int)
      requires Valid()
      ensures Collecting(Credits(now), Setting(), 0, [], now) && head == NextOf(list, 0)
    {
      hide Shape, Picked, CreditOf;
      assert Credits(now) == CreditsOf(Setting(), now);
      PickedNone(list, Credits(now));
      NoneTwice();
      HeadIs();
    }

    method CollectNext(t: Timer, ghost credits: map<Timer, nat>, ghost fields: map<Timer, Fields>, ghost i: nat,
                       s: seq<Timer>, now: int) returns (s': seq<Timer>, t': Timer?)
      requires Collecting(credits, fields, i, s, now) && i < |list| && list[i] == t && |s| < MAX_TIMER_EXPIRED
      modifies `timerStopped, t`enabled, t`expireTime
      ensures Collecting(credits, fields, i + 1, s', now) && t' == NextOf(list, i + 1) && |s'| <= MAX_TIMER_EXPIRED
    {
      hide Shape, Taking, Fired, CreditOf;
      NextIs(i);
      Later(i);
      t' := t.next;
      ghost var before := Setting();
      var expired := CheckExpired(t, now);
      assert Setting() == if expired then before[t := Fired(before[t], now)] else before;
      Room(credits, fields, before, i, s, now);
      TakingNext(list, credits, fields, before, i, s, now, t, expired);
      s' := if expired then s + [t] else s;
    }

    lemma Room(credits: map<Timer, nat>, a: map<Timer, Fields>, b: map<Timer, Fields>, i: nat, s: seq<Timer>, now: int)
      requires Taking(list, credits, a, b, i, s, now)
      ensures b.Keys == a.Keys
    {
    }

    lemma CollectEnds(credits: map<Timer, nat>, fields: map<Timer, Fields>, i: nat, s: seq<Timer>, now: int)
      requires Collecting(credits, fields, i, s, now) && (i == |list| || |s| == MAX_TIMER_EXPIRED)
      ensures Valid() && |s| <= MAX_TIMER_EXPIRED && Distinct(s) && credits.Keys == all && fields.Keys == all
      ensures forall t :: t in s ==> t in list && t in all && credits[t] > 0
      ensures forall t :: t in all ==> t.Credit(now) == credits[t] - if t in s then 1 else 0
      ensures forall t :: t in all ==> t.Now() == if t in s then Fired(fields[t], now) else fields[t]
      ensures |s| < MAX_TIMER_EXPIRED ==> forall t :: t in list && t in all && credits[t] > 0 ==> t in s
      ensures s <= Picked(list, credits) && (|s| < MAX_TIMER_EXPIRED ==> s == Picked(list, credits))
    {
      hide Shape, Distinct, Picked, Fired, CreditOf;
      PickedPrefix(list, credits, i);
      assert i == |list| ==> list[..i] == list;
      forall t | t in all
        ensures t.Credit(now) == credits[t] - if t in s then 1 else 0
      {
        CreditIs(fields, t, now);
        if t in s {
          FiredCredit(fields[t], now);
        }
      }
    }

    lemma HeadIs()
      requires Shape()
      ensures head == NextOf(list, 0)
    {
    }

    lemma Later(i: nat)
      requires Shape() && i < |list|
      ensures list[i] !in list[..i] && list[i] in list && list[i] in all
    {
    }

    /** What every timer is set to. */
    ghost function Setting(): map<Timer, Fields>
      reads `all, all`enabled, all`once, all`expireTime, all`timeout
    {
      map t | t in all :: t.Now()
    }

    /** What every timer would still fire. */
    ghost function Credits(now: int): map<Timer, nat>
      reads `all, all`enabled, all`once, all`expireTime, all`timeout
    {
      map t | t in all :: t.Credit(now)
    }

    /** A callback constructs a timer and starts it. */
    method New(timeout: int, once: bool, now: int) returns (threw: bool)
      requires Valid()
      modifies `head, `list, `all
      ensures Valid() && threw == (timeout <= 0) && Newer(old(all))
      ensures exists t ::
        && fresh(t) && all == old(all) + {t} && t.enabled == !threw
        && (!threw ==> t.Now() == Fields(true, once, timeout, now + timeout))
      ensures Eased(old(Setting()), Setting(), {}, now)
    {
      hide Shape;
      var t := Create();
      threw := Start(t, timeout, once, now);
    }

    /** Whatever one command does, it gives no timer anything to fire at once. */
    method Perform(c: Command, now: int) returns (threw: bool)
      requires Valid()
      modifies `head, `list, `all, `timerStopped, all
      ensures Valid() && Weaker(old(Credits(now)), Credits(now), Names(c)) && Newer(old(all))
      ensures Kept(old(Setting()), Setting(), Names(c))
      ensures threw == match c {
        case Restart(t, timeout, _) => t in old(all) && timeout <= 0
        case Launch(timeout, _) => timeout <= 0
        case Throw => true
        case _ => false
      }
      ensures !threw ==> Settled(Credits(now), Names(c))
      ensures c.Delete? ==> all == old(all) - {c.t}
      ensures c.Restart? || c.Halt? || c.Throw? ==> all == old(all)
      ensures c.Halt? && c.t in old(all) ==> !c.t.enabled
      ensures c.Restart? && c.t in old(all) && !threw ==> c.t.Now() == Fields(true, c.once, c.timeout, now + c.timeout)
      ensures c.Launch? ==> exists t ::
        && fresh(t) && all == old(all) + {t} && t.enabled == !threw
        && (!threw ==> t.Now() == Fields(true, c.once, c.timeout, now + c.timeout))
    {
      hide Shape, Weaker;
      threw := Act(c, now);
      EasedWeaker(old(Setting()), Setting(), Names(c), now);
      assert old(Credits(now)) == CreditsOf(old(Setting()), now);
      assert Credits(now) == CreditsOf(Setting(), now);
    }

    method Act(c: Command, now: int) returns (threw: bool)
      requires Valid()
      modifies `head, `list, `all, `timerStopped, all
      ensures Valid() && Newer(old(all)) && Eased(old(Setting()), Setting(), Names(c), now)
      ensures threw == match c {
        case Restart(t, timeout, _) => t in old(all) && timeout <= 0
        case Launch(timeout, _) => timeout <= 0
        case Throw => true
        case _ => false
      }
      ensures !threw ==> forall t :: t in Names(c) && t in all ==> CreditOf(t.Now(), now) == 0
      ensures c.Delete? ==> all == old(all) - {c.t}
      ensures c.Restart? || c.Halt? || c.Throw? ==> all == old(all)
      ensures c.Halt? && c.t in old(all) ==> !c.t.enabled
      ensures c.Restart? && c.t in old(all) && !threw ==> c.t.Now() == Fields(true, c.once, c.timeout, now + c.timeout)
      ensures c.Launch? ==> exists t ::
        && fresh(t) && all == old(all) + {t} && t.enabled == !threw
        && (!threw ==> t.Now() == Fields(true, c.once, c.timeout, now + c.timeout))
    {
      hide Shape;
      threw := false;
      match c {
        case Restart(t, timeout, once) =>
          if t in all {
            threw := Start(t, timeout, once, now);
          }
        case Halt(t) =>
          if t in all {
            Stop(t);
          }
        case Delete(t) =>
          if t in all {
            Destroy(t);
          }
        case Launch(timeout, once) => threw := New(timeout, once, now);
        case Throw => threw := true;
      }
    }

    /** The timers that exist are among `before`, or were constructed since. */
    twostate predicate Newer(before: set<Timer>)
      reads `all
    {
      forall t :: t in all ==> t in before || fresh(t)
    }

    /** What a callback does, up to its end or to the first command that throws. */
    method Exec(commands: seq<Command>, now: int) returns (threw: bool)
      requires Valid()
      modifies `head, `list, `all, `timerStopped, all
      ensures Valid() && Weaker(old(Credits(now)), Credits(now), NamedIn(commands)) && Newer(old(all))
      ensures Kept(old(Setting()), Setting(), NamedIn(commands))
      ensures threw ==> exists c :: c in commands && MayThrow(c)
      ensures !threw ==> Settled(Credits(now), NamedIn(commands)) && forall c :: c in commands ==> !MustThrow(c)
    {
      hide Valid, Credits, Weaker, NamedIn, Names, Settled, Setting, Kept;
      SettledNone(Credits(now));
      KeptSelf(Setting());
      WeakerSelf(Credits(now));
      NamedInNone(commands);
      for i := 0 to |commands|
        invariant Valid() && Newer(old(all))
        invariant Weaker(old(Credits(now)), Credits(now), NamedIn(commands[..i]))
        invariant Kept(old(Setting()), Setting(), NamedIn(commands[..i]))
        invariant Settled(Credits(now), NamedIn(commands[..i]))
        invariant forall c :: c in commands[..i] ==> !MustThrow(c)
      {
        ghost var credits, fields := Credits(now), Setting();
        threw := Perform(commands[i], now);
        NamedInStep(commands, i);
        KeptThen(old(Setting()), fields, Setting(), NamedIn(commands[..i]), Names(commands[i]));
        WeakerThen(old(Credits(now)), credits, Credits(now), NamedIn(commands[..i]), Names(commands[i]));
        if threw {
          NamedInPrefix(commands, i + 1);
          WeakerLess(old(Credits(now)), Credits(now), NamedIn(commands[..i + 1]), NamedIn(commands));
          KeptLess(old(Setting()), Setting(), NamedIn(commands[..i + 1]), NamedIn(commands));
          assert MayThrow(commands[i]);
          return;
        }
        SettledThen(credits, Credits(now), Names(commands[i]), NamedIn(commands[..i]), Names(commands[i]));
        assert commands[..i + 1] == commands[..i] + [commands[i]];
      }
      threw := false;
      assert commands[..|commands|] == commands;
    }

    /** Invoking the snapshots of a pass, whatever becomes of their timers meanwhile: the n-th callback since the list
        was made does what `callback(n)` says.  All are invoked, unless one throws; then those behind it are not. */
    method FireAll(snapshots: seq<Timer>, now: int, callback: nat -> seq<Command>) returns (threw: bool, ghost n: nat)
      requires Valid()
      modifies this, all
      ensures Valid() && Newer(old(all))
      ensures n <= |snapshots| && log == old(log) + snapshots[..n]
      ensures if threw then n > 0 && exists c :: c in callback(|log|) && MayThrow(c) else n == |snapshots|
      ensures !threw ==> Harmless(callback, |old(log)|, |log|)
      ensures !threw ==> Settled(Credits(now), Named(callback, |old(log)|, |log|))
      ensures Weaker(old(Credits(now)), Credits(now), Named(callback, |old(log)|, |log|))
      ensures Kept(old(Setting()), Setting(), Named(callback, |old(log)|, |log|))
    {
      hide Valid, Credits, Weaker, NamedIn, Settled, Setting, Kept;
      SettledNone(Credits(now));
      KeptSelf(Setting());
      WeakerSelf(Credits(now));
      for i := 0 to |snapshots|
        invariant Valid() && Newer(old(all)) && log == old(log) + snapshots[..i]
        invariant Weaker(old(Credits(now)), Credits(now), Named(callback, |old(log)|, |log|))
        invariant Kept(old(Setting()), Setting(), Named(callback, |old(log)|, |log|))
        invariant Settled(Credits(now), Named(callback, |old(log)|, |log|)) && Harmless(callback, |old(log)|, |log|)
      {
        ghost var credits, fields, m := Credits(now), Setting(), |log|;
        log := log + [snapshots[i]];
        threw := Exec(callback(|log|), now);
        WeakerThen(old(Credits(now)), credits, Credits(now), Named(callback, |old(log)|, m), NamedIn(callback(|log|)));
        KeptThen(old(Setting()), fields, Setting(), Named(callback, |old(log)|, m), NamedIn(callback(|log|)));
        if threw {
          return threw, i + 1;
        }
        SettledThen(credits, Credits(now), NamedIn(callback(|log|)), Named(callback, |old(log)|, m),
                    NamedIn(callback(|log|)));
      }
      threw, n := false, |snapshots|;
    }

    /** The pass under the lock: the disabled timers leave the list, then the snapshots are taken. */
    method Gather(now: int) returns (snapshots: seq<Timer>)
      requires Valid()
      modifies `head, `list, `timerStopped, all`enabled, all`expireTime, all`next
      ensures Valid() && Distinct(snapshots) && Collected(old(Credits(now)), Credits(now), snapshots)
      ensures Advanced(old(Setting()), Setting(), snapshots, now)
      ensures |snapshots| <= MAX_TIMER_EXPIRED && snapshots == FirstOf(Picked(old(list), old(Credits(now))))
      ensures |snapshots| < MAX_TIMER_EXPIRED ==> Served(old(Credits(now)), snapshots)
    {
      hide Valid, Distinct, Picked, Enabled, Credits, Setting, Collected, Advanced, Served, FirstOf;
      ghost var before, fields := Credits(now), Setting();
      PickedEnabled(list, now);
      Sweep();
      assert Credits(now) == before && Setting() == fields;
      snapshots := Snap(now);
    }

    method Snap(now: int) returns (snapshots: seq<Timer>)
      requires Valid()
      modifies `timerStopped, all`enabled, all`expireTime
      ensures Valid() && Distinct(snapshots) && Collected(old(Credits(now)), Credits(now), snapshots)
      ensures Advanced(old(Setting()), Setting(), snapshots, now)
      ensures |snapshots| <= MAX_TIMER_EXPIRED && snapshots == FirstOf(Picked(list, old(Credits(now))))
      ensures |snapshots| < MAX_TIMER_EXPIRED ==> Served(old(Credits(now)), snapshots)
    {
      hide Shape, Distinct, Picked, Fired;
      snapshots := Collect(now);
    }

    lemma DueEnabled(t: Timer, now: int)
      ensures At(Credits(now), t) > 0 ==> t.enabled
    {
    }

    /** Only enabled timers are due. */
    lemma {:induction false} PickedEnabled(s: seq<Timer>, now: int)
      ensures Picked(Enabled(s), Credits(now)) == Picked(s, Credits(now))
      decreases |s|
    {
      if s != [] {
        var front, t := s[..|s| - 1], s[|s| - 1];
        PickedEnabled(front, now);
        if t.enabled {
          PickedMore(Enabled(front), t, Credits(now));
        } else {
          assert Enabled(s) == Enabled(front);
        }
        DueEnabled(t, now);
        PickedStep(s, Credits(now), |s| - 1);
        assert s[..|s| - 1 + 1] == s;
      }
    }

    /** One pass of the drain. */
    method ProcessOnce(now: int, callback: nat -> seq<Command>)
      returns (threw: bool, count: nat, ghost taken: map<Timer, nat>, ghost passed: map<Timer, Fields>,
               ghost snapshots: seq<Timer>, ghost n: nat)
      requires Valid()
      modifies this, all
      ensures Valid() && Newer(old(all)) && count == |snapshots|
      ensures n <= count && log == old(log) + snapshots[..n]
      ensures threw ==> exists c :: c in callback(|log|) && MayThrow(c)
      ensures snapshots == FirstOf(Picked(old(list), old(Credits(now))))
      ensures OnePass(callback, now, |old(log)|, threw, old(Credits(now)), taken, Credits(now),
                      old(Setting()), passed, Setting(), snapshots, n)
    {
      hide Valid, Credits, Weaker, Collected, Served, Named, Settled, Picked, FirstOf, Harmless;
      hide Setting, Kept, Advanced, Distinct;
      var s := Gather(now);
      taken, passed := Credits(now), Setting();
      threw, n := FireAll(s, now, callback);
      count, snapshots := |s|, s;
      assert |log| == |old(log)| + n;
    }

    lemma Timeouts()
      requires Valid()
      ensures forall t :: t in Setting() && Setting()[t].enabled ==> Setting()[t].timeout > 0
    {
    }

    lemma CreditsAre(now: int)
      ensures Credits(now).Keys == all
      ensures forall t :: t in all ==> Credits(now)[t] == t.Credit(now)
      ensures Small(Credits(now))
    {
    }

    /** The loop of the drain.  `lost` are the snapshots behind a callback that threw. */
    method Drain(now: int, callback: nat -> seq<Command>)
      returns (threw: bool, ghost fired: seq<Timer>, ghost lost: seq<Timer>)
      requires Valid()
      modifies this, all
      ensures Valid() && log == old(log) + fired && |lost| < MAX_TIMER_EXPIRED && (!threw ==> lost == [])
      ensures Newer(old(all))
      ensures threw ==> fired != [] && BrokenOff(fired, lost) && exists c :: c in callback(|log|) && MayThrow(c)
      ensures !threw ==> Harmless(callback, |old(log)|, |log|)
      ensures !threw ==> Settled(Credits(now), Named(callback, |old(log)|, |log|))
      ensures Accounted(old(Credits(now)), Credits(now), Named(callback, |old(log)|, |log|), fired, lost)
      ensures Clocked(old(Setting()), Setting(), Named(callback, |old(log)|, |log|), fired, lost, now)
      ensures InTurn(callback, |old(log)|, fired) && FirstOf(Picked(old(list), old(Credits(now)))) <= fired + lost
      ensures !threw ==> Reached(old(Credits(now)), Named(callback, |old(log)|, |log|), fired)
      ensures !threw && |fired| < MAX_TIMER_EXPIRED ==> Served(old(Credits(now)), fired)
    {
      hide Valid, Credits, Accounted, Shrinks, Small, Served, Reached, Named, Settled, Picked;
      hide FirstOf, InTurn, BrokenOff, Harmless, Setting, Clocked, OnePass, Draining;
      ghost var start, first := |log|, FirstOf(Picked(list, Credits(now)));
      ghost var credit0, field0, credits, fields := Credits(now), Setting(), Credits(now), Setting();
      fired, lost := [], [];
      DrainStarts(callback, start, credit0, field0, first, now);
      while true
        invariant Valid() && Newer(old(all)) && log == old(log) + fired && lost == []
        invariant credits == Credits(now) && fields == Setting() && (fired == [] ==> list == old(list))
        invariant Draining(callback, now, start, credit0, field0, first, credits, fields, fired)
        decreases Owing(credits, 2), Owing(credits, 1)
      {
        ghost var taken, passed, snapshots, n;
        var count;
        CreditsAre(now);
        NoneYet(callback, now, start, credit0, field0, first, credits, fields, fired);
        threw, count, taken, passed, snapshots, n := ProcessOnce(now, callback);
        PassBooks(callback, now, start, credit0, field0, first, credits, fields, fired,
                  threw, taken, passed, Credits(now), Setting(), snapshots, n);
        if threw {
          fired, lost := fired + snapshots[..n], snapshots[n..];
          break;
        }
        if count != MAX_TIMER_EXPIRED {
          LastPass(callback, now, start, credit0, field0, first, credits, fields, fired,
                   taken, passed, Credits(now), Setting(), snapshots, n);
          fired := fired + snapshots;
          break;
        }
        FullPass(callback, now, start, credit0, field0, first, credits, fields, fired,
                 taken, passed, Credits(now), Setting(), snapshots, n);
        fired, credits, fields := fired + snapshots, Credits(now), Setting();
      }
    }

    /** The drain, with the clock standing still.  It terminates whatever the callbacks construct, start, stop
        or delete.  No timer fires more often than its credit allows: a one-shot at most once, a periodic timer
        at most twice; and the first pass takes the first 16 timers due, in list order.  A timer that no callback
        made names is afterwards set as `Ticked` says: a deadline missed by less than a period moves on by one.

        A callback that throws ends it, and only such a callback does.  The snapshots behind that callback in its
        pass are lost, at most 15; for a timer that no callback made names nothing else is lost: what it fired, what
        was lost and what it would still fire add up.

        When none throws, a timer that was due misses its turn if and only if a callback named it before any pass
        had taken it; then at least 16 callbacks were made.  No callback comes for a timer that a callback of an
        earlier pass has named, and such a timer has nothing left to fire. */
    method ProcessTimers(now: int, callback: nat -> seq<Command>) returns (threw: bool, ghost lost: seq<Timer>)
      requires Valid()
      modifies this, all
      ensures Valid() && old(log) <= log && |lost| < MAX_TIMER_EXPIRED && (!threw ==> lost == [])
      ensures Newer(old(all))
      ensures threw ==> |log| > |old(log)| && exists c :: c in callback(|log|) && MayThrow(c)
      ensures threw ==> BrokenOff(log[|old(log)|..], lost)
      ensures !threw ==> Harmless(callback, |old(log)|, |log|)
      ensures FirstOf(Picked(old(list), old(Credits(now)))) <= log[|old(log)|..] + lost
      ensures InTurn(callback, |old(log)|, log[|old(log)|..])
      ensures forall t :: t in old(all) ==> In(log[|old(log)|..], t) + In(lost, t) <= old(t.Credit(now))
      ensures forall t :: t in old(all) && t !in Named(callback, |old(log)|, |log|) ==>
        t in all && In(log[|old(log)|..], t) + In(lost, t) + t.Credit(now) == old(t.Credit(now))
      ensures forall t :: t in old(all) && t !in Named(callback, |old(log)|, |log|) ==>
        Ticked(old(t.Now()), now, In(log[|old(log)|..], t) + In(lost, t), t.Now())
      ensures !threw ==> forall t :: t in all && t in Named(callback, |old(log)|, |log|) ==> t.Credit(now) == 0
      ensures !threw ==> forall t :: t in old(all) && old(t.Credit(now)) > 0 ==>
        (t !in log[|old(log)|..] <==> exists n: nat :: CutOff(callback, |old(log)|, log[|old(log)|..], n, t))
      ensures !threw && |log| < |old(log)| + MAX_TIMER_EXPIRED ==>
        forall t :: t in old(all) && old(t.Credit(now)) > 0 ==> t in log[|old(log)|..]
    {
      hide Valid, Credits, Accounted, Named, NamedIn, InTurn, BrokenOff, CutOff, Picked, Harmless, FirstOf, Ticked;
      ghost var credit0, field0 := Credits(now), Setting();
      CreditsAre(now);
      Timeouts();
      ghost var fired;
      threw, fired, lost := Drain(now, callback);
      ghost var touched := Named(callback, |old(log)|, |log|);
      BooksClose(credit0, Credits(now), touched, fired, lost);
      CreditsAre(now);
      assert log[|old(log)|..] == fired;
      forall t | t in old(all) && t !in touched
        ensures Ticked(old(t.Now()), now, In(fired, t) + In(lost, t), t.Now())
      {
        TickedIs(field0[t], now, In(fired, t) + In(lost, t));
      }
      if !threw {
        forall t | t in old(all) && old(t.Credit(now)) > 0
          ensures t !in fired <==> exists n: nat :: CutOff(callback, |old(log)|, fired, n, t)
        {
          MissesIff(callback, |old(log)|, fired, t);
        }
      }
    }
  }

  lemma RegularGrows(start: int, timeout: int, times: seq<int>, fields: seq<Fields>, fires: seq<nat>,
                     now: int, n: nat, f: Fields)
    requires Regular(start, timeout, times, fields, fires)
    requires Before(start, times, |times|) <= now < Before(start, times, |times|) + timeout
    requires Ticked(fields[|times|], now, n, f) && (fields[|times|].expireTime <= now ==> n > 0)
    ensures Regular(start, timeout, times + [now], fields + [f], fires + [n])
    ensures Sum(fires + [n]) == Sum(fires) + n
  {
    hide Ticked;
    assert (fires + [n])[..|fires|] == fires;
  }

  lemma NotNamed(callback: nat -> seq<Command>, lo: nat, hi: nat, t: Timer)
    requires forall n :: t !in NamedIn(callback(n))
    ensures t !in Named(callback, lo, hi)
  {
    if t in Named(callback, lo, hi) {
      NamedBy(callback, lo, hi, t);
    }
  }

  /** One drain in which no callback throws or names the periodic timer `t`. */
  method DrainOnce(l: TimerList, t: Timer, now: int, callback: nat -> seq<Command>)
    requires l.Valid() && t in l.all && t.enabled
    requires forall n, c :: c in callback(n) ==> !MayThrow(c)
    requires forall n :: t !in NamedIn(callback(n))
    modifies l, l.all
    ensures l.Valid() && t in l.all && l.Newer(old(l.all)) && old(l.log) <= l.log
    ensures Ticked(old(t.Now()), now, In(l.log[|old(l.log)|..], t), t.Now())
    ensures old(t.expireTime) <= now ==> In(l.log[|old(l.log)|..], t) > 0
  {
    hide TimerList.Valid, InTurn, NamedIn, Named, BrokenOff, Picked, FirstOf, Harmless, Ticked, MayThrow;
    var threw;
    ghost var lost;
    threw, lost := l.ProcessTimers(now, callback);
    NotNamed(callback, |old(l.log)|, |l.log|, t);
    assert lost == [];
  }

  /** Drains of a list one after the other, each less than a period after the one before: a periodic timer that no
      callback names keeps time. */
  method DrainsKeepTime(l: TimerList, t: Timer, ghost start: int, times: seq<int>, callback: nat -> seq<Command>)
    returns (ghost fields: seq<Fields>, ghost fires: seq<nat>)
    requires l.Valid() && t in l.all && t.timeout > 0
    requires t.Now() == Fields(true, false, t.timeout, start + t.timeout)
    requires forall n, c :: c in callback(n) ==> !MayThrow(c)
    requires forall n :: t !in NamedIn(callback(n))
    requires forall k :: 0 <= k < |times| ==>
      Before(start, times, k) <= times[k] < Before(start, times, k) + t.timeout
    modifies l, l.all
    ensures l.Valid() && t in l.all && old(l.log) <= l.log
    ensures var n, timeout := In(l.log[|old(l.log)|..], t), old(t.timeout);
      && t.Now() == Fields(true, false, timeout, start + (n + 1) * timeout)
      && start + n * timeout <= Before(start, times, |times|) < start + (n + 1) * timeout
    ensures Regular(start, old(t.timeout), times, fields, fires)
  {
    hide TimerList.Valid, Regular, NamedIn, Ticked, MayThrow;
    ghost var timeout := t.timeout;
    fields, fires := [t.Now()], [];
    assert Regular(start, timeout, times[..0], fields, fires) by {
      RegularStarts(start, timeout, t.Now());
    }
    for k := 0 to |times|
      invariant l.Valid() && t in l.all && l.Newer(old(l.all)) && old(l.log) <= l.log
      invariant Regular(start, timeout, times[..k], fields, fires) && |fields| == k + 1 && fields[k] == t.Now()
      invariant In(l.log[|old(l.log)|..], t) == Sum(fires)
    {
      ghost var log1 := l.log;
      KeepsTime(start, timeout, times[..k], fields, fires, k);
      DrainOnce(l, t, times[k], callback);
      assert l.log[|old(l.log)|..] == log1[|old(l.log)|..] + l.log[|log1|..];
      ghost var n := In(l.log[|log1|..], t);
      assert Before(start, times[..k], k) == Before(start, times, k) && times[..k + 1] == times[..k] + [times[k]];
      RegularGrows(start, timeout, times[..k], fields, fires, times[k], n, t.Now());
      fields, fires := fields + [t.Now()], fires + [n];
    }
    assert times[..|times|] == times;
    FiresAre(start, timeout, times, fields, fires);
    KeepsTime(start, timeout, times, fields, fires, |times|);
  }

  lemma RegularStarts(start: int, timeout: int, f: Fields)
    requires f == Fields(true, false, timeout, start + timeout)
    ensures Regular(start, timeout, [], [f], []) && Sum([]) == 0
  {
  }

  lemma FiresAre(start: int, timeout: int, times: seq<int>, fields: seq<Fields>, fires: seq<nat>)
    requires Regular(start, timeout, times, fields, fires)
    ensures |fields| == |times| + 1 && fires[..|times|] == fires
  {
  }

  lemma {:induction false} AllPicked(s: seq<Timer>, credits: map<Timer, nat>)
    requires forall t :: t in s ==> At(credits, t) > 0
    ensures Picked(s, credits) == s
  {
    hide Picked;
    assert s[..|s|] == s;
    if s == [] {
      PickedNone(s, credits);
    } else {
      var front := s[..|s| - 1];
      AllPicked(front, credits);
      PickedStep(s, credits, |s| - 1);
      assert front + [s[|s| - 1]] == s;
    }
  }

  /** `n` timers exist, all of them on the list and due once at time 1; `first` was started first. */
  ghost predicate Due(l: TimerList, n: nat, first: Timer)
    reads l, l.all, l.list
  {
    && l.Valid() && l.log == [] && |l.list| == n > 0 && l.list[n - 1] == first
    && (forall t {:trigger t in l.all} :: t in l.all ==> t in l.list && t.Credit(1) == 1)
  }

  method OneMore(l: TimerList, ghost n: nat, ghost first: Timer)
    requires Due(l, n, first)
    modifies l`head, l`list, l`all
    ensures Due(l, n + 1, first) && forall t :: t in l.all ==> t in old(l.all) || fresh(t)
  {
    hide TimerList.Shape;
    var t := l.Create();
    var threw := l.Start(t, 1, true, 0);
  }

  /** Seventeen one-shots, all due at time 1. */
  method SeventeenDue() returns (l: TimerList, first: Timer)
    ensures fresh(l) && fresh(l.all) && Due(l, 17, first)
  {
    l := new TimerList();
    first := l.Create();
    var threw := l.Start(first, 1, true, 0);
    assert Due(l, 1, first);
    hide Due;
    for i := 1 to 17
      invariant fresh(l) && fresh(l.all) && Due(l, i, first)
    {
      OneMore(l, i, first);
    }
  }

  /** The first pass takes all but the last of them. */
  lemma LastOfSeventeen(l: TimerList, first: Timer)
    requires Due(l, 17, first)
    ensures var s := FirstOf(Picked(l.list, l.Credits(1))); |s| == 16 && first !in s
    ensures first in l.list
  {
    hide Picked;
    forall t | t in l.list
      ensures At(l.Credits(1), t) > 0
    {
      assert t in l.all;
    }
    AllPicked(l.list, l.Credits(1));
  }

  /** A timer that comes after the first pass and is named by the first callback does not fire. */
  lemma NotLater(callback: nat -> seq<Command>, fired: seq<Timer>, s: seq<Timer>, t: Timer)
    requires InTurn(callback, 0, fired) && s <= fired && |s| == 16 && t !in s && t in NamedIn(callback(1))
    ensures t !in fired
  {
    hide NamedIn;
    forall i: nat | i < |fired|
      ensures fired[i] != t
    {
      if i < 16 {
        assert fired[i] == s[i] && s[i] in s;
      } else {
        assert PassOf(0) < PassOf(i);
      }
    }
  }

  lemma NamesOne(t: Timer)
    ensures t in NamedIn([Halt(t)])
  {
    assert [Halt(t)][..0] == [];
  }

  /** A timer that misses its turn: it is the last of seventeen that are due, so that the first pass does not take it,
      and the first callback stops it. */
  method TurnMissed() returns (due: bool, threw: bool, fired: bool)
    ensures due && !threw && !fired
  {
    var l, first := SeventeenDue();
    LastOfSeventeen(l, first);
    due := first.enabled && 1 >= first.expireTime;
    ghost var s := FirstOf(Picked(l.list, l.Credits(1)));
    hide TimerList.Valid, Due, Picked, FirstOf, InTurn, NamedIn, Named, CutOff, BrokenOff, Distinct;
    var callback := (n: nat) => if n == 1 then [Halt(first)] else [];
    ghost var lost;
    threw, lost := l.ProcessTimers(1, callback);
    assert l.log[0..] == l.log;
    NamesOne(first);
    NotLater(callback, l.log, s, first);
    fired := first in l.log;
  }
}
