/** Acknowledge, timeout and retry (delegate-mq/extras/util/TransportMonitor.h and RetryMonitor.h) on
    values: the pending map, the retry store and the log of everything that can be observed.

    These are whole operations, of one thread with acknowledgements arriving inside its physical sends; RetryRuns
    takes them apart into their critical sections. */
module RetrySpec {
  import opened Common

  const MAX_TIMER_EXPIRED: nat := 16
  const MAX_PENDING: nat := 100

  /** A remote id and a sequence number packed into one map key. */
  type Key = uint32
  type Packet = seq<bv8>

  function KeyOf(id: uint16, seqNum: uint16): Key {
    id * 0x1_0000 + seqNum
  }

  function IdOf(k: Key): uint16 {
    k / 0x1_0000
  }

  function SeqOf(k: Key): uint16 {
    k % 0x1_0000
  }

  lemma KeyParts(id: uint16, seqNum: uint16)
    ensures IdOf(KeyOf(id, seqNum)) == id && SeqOf(KeyOf(id, seqNum)) == seqNum
  {
  }

  datatype Entry = Entry(packet: Packet, attemptsRemaining: int, isSent: bool)

  datatype Obs =
    | Submit(k: Key, packet: Packet)   // SendWithRetry is entered
    | Added(k: Key)                    // TransportMonitor::Add succeeded
    | Rejected(k: Key)                 // it failed, and the message is given up
    | CapExceeded(size: nat)
    | Physical(k: Key, packet: Packet) // ITransport::Send is called
    | Accepted(k: Key)                 // and returned 0
    | Refused(k: Key)                  // and returned an error
    | Cancelled(k: Key)
    | Success(k: Key)                  // OnSendStatus(SUCCESS)
    | Timeout(k: Key)                  // OnSendStatus(TIMEOUT)
    | Failed(k: Key)                   // OnDeliveryFailed
    | PendingExceeded(size: nat)
    | Forgotten(k: Key)                // a failed re-registration was ignored; the original emits nothing

  datatype Config = Config(timeout: nat, maxRetries: int)

  datatype Link = Link(pending: map<Key, int>, store: map<Key, Entry>, log: seq<Obs>)

  function Note(l: Link, o: Obs): Link {
    l.(log := l.log + [o])
  }

  // ---------------------------------------------------------------------------------------------
  // TransportMonitor
  // ---------------------------------------------------------------------------------------------

  predicate CanAdd(l: Link, k: Key) {
    |l.pending| < MAX_PENDING && k !in l.pending
  }

  function Add(l: Link, now: int, k: Key): Link {
    if |l.pending| >= MAX_PENDING then Note(l, CapExceeded(|l.pending|))
    else if k in l.pending then l
    else Note(l.(pending := l.pending[k := now]), Added(k))
  }

  function Cancel(l: Link, k: Key): Link {
    if k in l.pending then Note(l.(pending := l.pending - {k}), Cancelled(k)) else l
  }

  predicate IsMin(s: set<Key>, k: Key) {
    k in s && forall j :: j in s ==> k <= j
  }

  lemma {:induction false} MinExists(s: set<Key>)
    requires s != {}
    ensures exists k :: IsMin(s, k)
  {
    var k :| k in s;
    if s == {k} {
      assert IsMin(s, k);
    } else {
      MinExists(s - {k});
      var m :| IsMin(s - {k}, m);
      var least := if k < m then k else m;
      forall j | j in s
        ensures least <= j
      {
        assert j == k || j in s - {k};
      }
      assert IsMin(s, least);
    }
  }

  /** The smallest key: where an ordered map begins. */
  ghost function Min(s: set<Key>): (k: Key)
    requires s != {}
    ensures IsMin(s, k)
  {
    MinExists(s);
    var k :| IsMin(s, k);
    k
  }

  predicate Ascending(r: seq<Key>) {
    forall i, j :: 0 <= i < j < |r| ==> r[i] < r[j]
  }

  /** The first `n` keys of a set in ascending order; all of them when there are fewer. */
  ghost function Batch(s: set<Key>, n: nat): (r: seq<Key>)
    ensures |r| <= n && Ascending(r)
    ensures forall k :: k in r ==> k in s
    ensures if |r| < n then forall k :: k in s ==> k in r else n > 0 ==> s != {}
    decreases n
  {
    if s == {} || n == 0 then []
    else
      var m := Min(s);
      var rest := Batch(s - {m}, n - 1);
      assert forall i :: 0 <= i < |rest| ==> rest[i] in rest;
      [m] + rest
  }

  predicate IsExpired(timeout: nat, now: int, stamp: int) {
    now - stamp > timeout
  }

  function Expired(c: Config, pending: map<Key, int>, now: int): set<Key> {
    set k | k in pending && IsExpired(c.timeout, now, pending[k])
  }

  function Matches(l: Link, seqNum: uint16): set<Key> {
    set k | k in l.pending && SeqOf(k) == seqNum
  }

  /** The entry an acknowledgement removes: the exact key when the remote id is known, otherwise the
      first entry in key order with that sequence number. */
  ghost function AckTarget(l: Link, seqNum: uint16, id: uint16): Option<Key> {
    if id != 0 then
      if KeyOf(id, seqNum) in l.pending then Some(KeyOf(id, seqNum)) else None
    else if Matches(l, seqNum) == {} then None
    else Some(Min(Matches(l, seqNum)))
  }

  // ---------------------------------------------------------------------------------------------
  // RetryMonitor
  // ---------------------------------------------------------------------------------------------

  function Drop(l: Link, k: Key): Link {
    l.(store := l.store - {k})
  }

  /** Giving a message up: it is forgotten and reported. */
  function GiveUp(l: Link, k: Key): Link {
    Note(Drop(l, k), Failed(k))
  }

  function SendBegin(c: Config, l: Link, now: int, k: Key, packet: Packet): Link {
    var l1 := Note(l.(store := l.store[k := Entry(packet, c.maxRetries, false)]), Submit(k, packet));
    var l2 := Add(l1, now, k);
    if CanAdd(l1, k) then Note(l2, Physical(k, packet)) else GiveUp(Note(l2, Rejected(k)), k)
  }

  function SendEnd(l: Link, k: Key, ok: bool): Link {
    if !ok then GiveUp(Cancel(Note(l, Refused(k)), k), k)
    else
      var l1 := Note(l, Accepted(k));
      if k in l1.store then l1.(store := l1.store[k := l1.store[k].(isSent := true)]) else l1
  }

  /** Removing an acknowledged entry, with the retry monitor's reaction to SUCCESS. */
  ghost function Ack(l: Link, seqNum: uint16, id: uint16): Link {
    match AckTarget(l, seqNum, id)
    case None => l
    case Some(k) => Drop(Note(l.(pending := l.pending - {k}), Success(k)), k)
  }

  /** Whether the reaction to TIMEOUT starts a physical send. */
  predicate Resends(l: Link, k: Key) {
    && k in l.store && l.store[k].attemptsRemaining > 0 && l.store[k].isSent
    && CanAdd(l, k)
  }

  /** The retry monitor's reaction to TIMEOUT, up to the physical send if there is one. */
  function OnTimeout(l: Link, now: int, k: Key): Link {
    if k !in l.store then l
    else
      var e := l.store[k];
      if e.attemptsRemaining > 0 && e.isSent then
        var l1 := l.(store := l.store[k := e.(attemptsRemaining := e.attemptsRemaining - 1)]);
        var l2 := Add(l1, now, k);
        if CanAdd(l1, k) then Note(l2, Physical(k, e.packet)) else GiveUp(Note(l2, Rejected(k)), k)
      else if e.attemptsRemaining > 0 then
        if CanAdd(l, k) then Add(l, now, k) else Note(Add(l, now, k), Forgotten(k))
      else GiveUp(l, k)
  }

  /** The end of a retransmission. */
  function ResendEnd(l: Link, k: Key, ok: bool): Link {
    if ok then Note(l, Accepted(k)) else GiveUp(Cancel(Note(l, Refused(k)), k), k)
  }

  /** What a physical send returns, and the acknowledgements that arrive while it runs. */
  datatype Reply = Reply(ok: bool, acks: seq<(uint16, uint16)>)

  ghost function Acks(l: Link, acks: seq<(uint16, uint16)>): Link
    decreases |acks|
  {
    if acks == [] then l else Acks(Ack(l, acks[0].0, acks[0].1), acks[1..])
  }

  ghost function Timed(l: Link, now: int, k: Key, reply: Reply): Link {
    var l1 := OnTimeout(l, now, k);
    if Resends(l, k) then ResendEnd(Acks(l1, reply.acks), k, reply.ok) else l1
  }

  /** The signals for one batch, in order.  The oracle may depend on the whole past. */
  ghost function Fire(l: Link, now: int, items: seq<Key>, transport: nat -> Reply): Link
    decreases |items|
  {
    if items == [] then l
    else
      var l1 := Note(l, Timeout(items[0]));
      Fire(Timed(l1, now, items[0], transport(|l1.log|)), now, items[1..], transport)
  }

  function ToSet(items: seq<Key>): set<Key> {
    set k | k in items
  }

  function Erase(l: Link, items: seq<Key>): Link {
    l.(pending := l.pending - ToSet(items))
  }

  /** What one pass takes: at most 16 expired keys, in the map's order. */
  ghost function Taken(c: Config, l: Link, now: int): seq<Key> {
    Batch(Expired(c, l.pending, now), MAX_TIMER_EXPIRED)
  }

  /** One pass of `Process`: take the batch, fire its signals, and report when expired entries were
      left behind. */
  ghost function Pass(c: Config, l: Link, now: int, transport: nat -> Reply): Link {
    var items := Taken(c, l, now);
    var erased := Erase(l, items);
    var l1 := Fire(erased, now, items, transport);
    if Expired(c, erased.pending, now) != {} then Note(l1, PendingExceeded(|erased.pending|)) else l1
  }

  lemma {:induction false} AcksAddNothing(c: Config, l: Link, now: int, acks: seq<(uint16, uint16)>)
    ensures Expired(c, Acks(l, acks).pending, now) <= Expired(c, l.pending, now)
    decreases |acks|
  {
    hide AckTarget;
    if acks != [] {
      AcksAddNothing(c, Ack(l, acks[0].0, acks[0].1), now, acks[1..]);
    }
  }

  lemma TimedAddsFresh(c: Config, l: Link, now: int, k: Key, reply: Reply)
    ensures Expired(c, Timed(l, now, k, reply).pending, now) <= Expired(c, l.pending, now)
  {
    hide Acks;
    var l1 := OnTimeout(l, now, k);
    var l2 := Acks(l1, reply.acks);
    assert Expired(c, l1.pending, now) <= Expired(c, l.pending, now);
    AcksAddNothing(c, l1, now, reply.acks);
    assert Expired(c, ResendEnd(l2, k, reply.ok).pending, now) <= Expired(c, l2.pending, now);
  }

  lemma {:induction false} FireAddsFresh(c: Config, l: Link, now: int, items: seq<Key>, transport: nat -> Reply)
    ensures Expired(c, Fire(l, now, items, transport).pending, now) <= Expired(c, l.pending, now)
    decreases |items|
  {
    if items != [] {
      var l1 := Note(l, Timeout(items[0]));
      var l2 := Timed(l1, now, items[0], transport(|l1.log|));
      TimedAddsFresh(c, l1, now, items[0], transport(|l1.log|));
      FireAddsFresh(c, l2, now, items[1..], transport);
    }
  }

  /** A pass never adds an expired entry; it takes out the whole batch. */
  lemma PassShrinks(c: Config, l: Link, now: int, transport: nat -> Reply)
    ensures Expired(c, Pass(c, l, now, transport).pending, now) <= Expired(c, l.pending, now) - ToSet(Taken(c, l, now))
  {
    var items := Taken(c, l, now);
    FireAddsFresh(c, Erase(l, items), now, items, transport);
  }

  /** `Process`: passes until one is not full.  It terminates with the clock fixed although every
      callback may put its key back. */
  ghost function Process(c: Config, l: Link, now: int, transport: nat -> Reply): Link
    decreases Expired(c, l.pending, now)
  {
    if l.pending == map[] then l
    else
      var l1 := Pass(c, l, now, transport);
      var items := Taken(c, l, now);
      PassShrinks(c, l, now, transport);
      if |items| == MAX_TIMER_EXPIRED then
        assert items[0] in Expired(c, l.pending, now) && items[0] in ToSet(items);
        Process(c, l1, now, transport)
      else l1
  }

  /** After `Process` no entry is past its timeout. */
  lemma {:induction false} ProcessDrains(c: Config, l: Link, now: int, transport: nat -> Reply)
    ensures Expired(c, Process(c, l, now, transport).pending, now) == {}
    decreases Expired(c, l.pending, now)
  {
    if l.pending != map[] {
      PassShrinks(c, l, now, transport);
      var items := Taken(c, l, now);
      if |items| == MAX_TIMER_EXPIRED {
        assert items[0] in Expired(c, l.pending, now) && items[0] in ToSet(items);
        ProcessDrains(c, Pass(c, l, now, transport), now, transport);
      }
    }
  }

  // ---------------------------------------------------------------------------------------------
  // When things time out, in arithmetic on the clock
  // ---------------------------------------------------------------------------------------------

  /** What a pass takes is past its timeout; it takes the smallest keys first, and leaves none that is past its
      timeout unless it has taken 16. */
  lemma TakenIsDue(c: Config, l: Link, now: int)
    ensures forall k :: k in Taken(c, l, now) ==> k in l.pending && now - l.pending[k] > c.timeout
    ensures |Taken(c, l, now)| < MAX_TIMER_EXPIRED ==>
      forall k :: k in l.pending && now - l.pending[k] > c.timeout ==> k in Taken(c, l, now)
    ensures forall j, k ::
      (j in Taken(c, l, now) && k in l.pending && now - l.pending[k] > c.timeout && k !in Taken(c, l, now)) ==> j < k
  {
    BatchIsLeast(Expired(c, l.pending, now), MAX_TIMER_EXPIRED);
    forall k | k in l.pending && now - l.pending[k] > c.timeout
      ensures k in Expired(c, l.pending, now)
    {
    }
  }

  lemma {:induction false} BatchIsLeast(s: set<Key>, n: nat)
    ensures forall j, k :: j in Batch(s, n) && k in s && k !in Batch(s, n) ==> j < k
    decreases n
  {
    if s != {} && n > 0 {
      BatchIsLeast(s - {Min(s)}, n - 1);
    }
  }

  /** After Process nothing pending is past its timeout. */
  lemma ProcessLeavesNoneDue(c: Config, l: Link, now: int, transport: nat -> Reply)
    ensures var l' := Process(c, l, now, transport);
      forall k :: k in l'.pending ==> now - l'.pending[k] <= c.timeout
  {
    var l' := Process(c, l, now, transport);
    ProcessDrains(c, l, now, transport);
    hide Process;
    forall k | k in l'.pending
      ensures now - l'.pending[k] <= c.timeout
    {
      assert k !in Expired(c, l'.pending, now);
    }
  }

  /** OnPendingExceeded is signalled at the end of a pass exactly when entries past their timeout were left behind, and
      says how many entries were left. */
  lemma RemarksIff(c: Config, l: Link, now: int, transport: nat -> Reply)
    ensures var items := Taken(c, l, now);
      var left := l.pending - ToSet(items);
      var fired := Fire(Erase(l, items), now, items, transport);
      Pass(c, l, now, transport).log
      == fired.log + if exists k :: k in left && now - left[k] > c.timeout then [PendingExceeded(|left|)] else []
  {
    hide Fire, Taken;
    var items := Taken(c, l, now);
    var left := l.pending - ToSet(items);
    if k :| k in left && now - left[k] > c.timeout {
      assert k in Expired(c, left, now);
    }
  }
}
