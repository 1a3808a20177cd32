/** TransportMonitor and RetryMonitor as objects: `m_pending`, `m_expiredItems` and `m_retryStore` changed in
    place.  Every method is tied to the specification in `RetrySpec`.  The clock is a parameter, and so
    is what the physical transport would answer. */
module RetryMonitors {
  import opened Common
  import opened RetrySpec

  datatype Status = SUCCESS | TIMEOUT

  // ---------------------------------------------------------------------------------------------
  // Scanning an ordered map
  // ---------------------------------------------------------------------------------------------

  lemma MinUnique(s: set<Key>, k: Key)
    requires IsMin(s, k)
    ensures Min(s) == k
  {
  }

  lemma BatchTakes(s: set<Key>, n: nat, k: Key)
    requires IsMin(s, k) && n > 0
    ensures Batch(s, n) == [k] + Batch(s - {k}, n - 1)
  {
    MinUnique(s, k);
  }

  /** The expired keys that the scan has not passed yet. */
  function Ahead(timeout: nat, now: int, pending: map<Key, int>, rest: set<Key>): set<Key> {
    set k | k in rest && k in pending && IsExpired(timeout, now, pending[k])
  }

  lemma AheadSkips(timeout: nat, now: int, pending: map<Key, int>, rest: set<Key>, k: Key)
    requires k in rest && k in pending && !IsExpired(timeout, now, pending[k])
    ensures Ahead(timeout, now, pending, rest) == Ahead(timeout, now, pending, rest - {k})
  {
  }

  lemma AheadTakes(timeout: nat, now: int, pending: map<Key, int>, rest: set<Key>, k: Key)
    requires IsMin(rest, k) && k in pending && IsExpired(timeout, now, pending[k])
    ensures IsMin(Ahead(timeout, now, pending, rest), k)
    ensures Ahead(timeout, now, pending, rest) - {k} == Ahead(timeout, now, pending, rest - {k})
  {
  }

  /** How far a scan has come: `items` taken, the keys in `rest` still to be looked at. */
  ghost predicate Scanning(c: Config, all: map<Key, int>, now: int, rest: set<Key>, items: seq<Key>,
                           pending: map<Key, int>)
  {
    && |items| <= MAX_TIMER_EXPIRED && rest <= pending.Keys
    && pending == all - ToSet(items)
    && items + Batch(Ahead(c.timeout, now, all, rest), MAX_TIMER_EXPIRED - |items|)
         == Batch(Expired(c, all, now), MAX_TIMER_EXPIRED)
    && Expired(c, pending, now) == Ahead(c.timeout, now, all, rest)
  }

  lemma ScanStarts(c: Config, all: map<Key, int>, now: int)
    ensures Scanning(c, all, now, all.Keys, [], all)
  {
    assert Ahead(c.timeout, now, all, all.Keys) == Expired(c, all, now);
    assert all == all - ToSet([]);
    assert [] + Batch(Expired(c, all, now), MAX_TIMER_EXPIRED) == Batch(Expired(c, all, now), MAX_TIMER_EXPIRED);
  }

  lemma ScanSkips(c: Config, all: map<Key, int>, now: int, rest: set<Key>, items: seq<Key>,
                  pending: map<Key, int>, k: Key)
    requires Scanning(c, all, now, rest, items, pending) && k in rest && !IsExpired(c.timeout, now, pending[k])
    ensures Scanning(c, all, now, rest - {k}, items, pending)
  {
    hide Batch, Ahead, Expired;
    AheadSkips(c.timeout, now, all, rest, k);
  }

  lemma ScanTakes(c: Config, all: map<Key, int>, now: int, rest: set<Key>, items: seq<Key>,
                  pending: map<Key, int>, k: Key)
    requires Scanning(c, all, now, rest, items, pending) && IsMin(rest, k) && IsExpired(c.timeout, now, pending[k])
    requires |items| < MAX_TIMER_EXPIRED
    ensures Scanning(c, all, now, rest - {k}, items + [k], pending - {k})
  {
    hide Batch, Ahead;
    var room := MAX_TIMER_EXPIRED - |items|;
    var ahead, less := Ahead(c.timeout, now, all, rest), Ahead(c.timeout, now, all, rest - {k});
    AheadTakes(c.timeout, now, all, rest, k);
    BatchTakes(ahead, room, k);
    assert items + ([k] + Batch(less, room - 1)) == items + [k] + Batch(less, room - 1);
    assert pending - {k} == all - ToSet(items + [k]) by {
      assert ToSet(items + [k]) == ToSet(items) + {k};
    }
    assert Expired(c, pending - {k}, now) == Expired(c, pending, now) - {k};
  }

  /** A scan ends when the map or the batch is exhausted; in either case it has taken the right batch. */
  lemma ScanEnds(c: Config, all: map<Key, int>, now: int, rest: set<Key>, items: seq<Key>, pending: map<Key, int>)
    requires Scanning(c, all, now, rest, items, pending) && (rest == {} || |items| == MAX_TIMER_EXPIRED)
    ensures items == Batch(Expired(c, all, now), MAX_TIMER_EXPIRED)
    ensures rest == {} ==> Expired(c, pending, now) == {}
  {
    assert Batch(Ahead(c.timeout, now, all, rest), MAX_TIMER_EXPIRED - |items|) == [];
    assert items + [] == items;
  }

  lemma ScanInside(c: Config, all: map<Key, int>, now: int, rest: set<Key>, items: seq<Key>, pending: map<Key, int>)
    requires Scanning(c, all, now, rest, items, pending)
    ensures rest <= pending.Keys && pending == all - ToSet(items) && |items| <= MAX_TIMER_EXPIRED
  {
  }

  lemma ExpiredHas(c: Config, pending: map<Key, int>, now: int, k: Key)
    requires k in pending && now - pending[k] > c.timeout
    ensures Expired(c, pending, now) != {} && |pending| > 0
  {
    assert k in Expired(c, pending, now) && k in pending;
  }

  /** A full pass leaves fewer expired entries. */
  lemma PassProgress(c: Config, l: Link, now: int, transport: nat -> Reply)
    ensures Expired(c, Pass(c, l, now, transport).pending, now) <= Expired(c, l.pending, now)
    ensures |Taken(c, l, now)| == MAX_TIMER_EXPIRED
      ==> Expired(c, Pass(c, l, now, transport).pending, now) < Expired(c, l.pending, now)
  {
    hide Pass;
    PassShrinks(c, l, now, transport);
    var items := Taken(c, l, now);
    if |items| == MAX_TIMER_EXPIRED {
      assert items[0] in Expired(c, l.pending, now) && items[0] in ToSet(items);
    }
  }

  lemma PassUnfolds(c: Config, l: Link, now: int, transport: nat -> Reply, items: seq<Key>, remaining: nat)
    requires items == Taken(c, l, now)
    requires var left := Erase(l, items).pending; remaining == if Expired(c, left, now) != {} then |left| else 0
    ensures var fired := Fire(Erase(l, items), now, items, transport);
      Pass(c, l, now, transport) == if remaining > 0 then Note(fired, PendingExceeded(remaining)) else fired
  {
    hide Fire, Batch;
    var left := Erase(l, items).pending;
    if Expired(c, left, now) != {} {
      var k :| k in Expired(c, left, now);
      assert k in left;
    }
  }

  /** What a scan takes and leaves, in arithmetic on the clock. */
  lemma TakenAre(c: Config, l: Link, now: int, items: seq<Key>, pending: map<Key, int>)
    requires items == Taken(c, l, now) && pending == l.pending - ToSet(items)
    ensures forall i :: 0 <= i < |items| ==> items[i] in l.pending && now - l.pending[items[i]] > c.timeout
    ensures |items| < 16 ==> forall k :: k in pending ==> now - pending[k] <= c.timeout
  {
    TakenIsDue(c, l, now);
    hide Taken;
    forall i | 0 <= i < |items|
      ensures items[i] in l.pending && now - l.pending[items[i]] > c.timeout
    {
      assert items[i] in items;
    }
  }

  method FirstKey(s: set<Key>) returns (k: Key)
    requires s != {}
    ensures IsMin(s, k)
  {
    MinExists(s);
    k :| IsMin(s, k);
  }

  // ---------------------------------------------------------------------------------------------
  // TransportMonitor
  // ---------------------------------------------------------------------------------------------

  class TransportMonitor {
    const timeout: nat
    const expiredItems: array<Key>
    var pending: map<Key, int>
    var subscriber: RetryMonitor?
    /** Everything that can be observed, in order. */
    var log: seq<Obs>

    constructor (timeout: nat)
      ensures this.timeout == timeout && subscriber == null && State() == Link(map[], map[], []) && Valid()
      ensures fresh(expiredItems)
    {
      this.timeout := timeout;
      expiredItems := new Key[MAX_TIMER_EXPIRED](_ => 0);
      pending := map[];
      subscriber := null;
      log := [];
    }

    ghost predicate Valid()
      reads this
    {
      expiredItems.Length == MAX_TIMER_EXPIRED && (subscriber != null ==> subscriber.monitor == this)
    }

    ghost function State(): Link
      reads this, subscriber
    {
      Link(pending, if subscriber == null then map[] else subscriber.store, log)
    }

    method Add(now: int, k: Key) returns (added: bool)
      modifies `pending, `log
      ensures State() == RetrySpec.Add(old(State()), now, k)
      ensures added == CanAdd(old(State()), k)
      ensures added <==> |old(pending)| < 100 && k !in old(pending)
      ensures pending == if added then old(pending)[k := now] else old(pending)
      ensures log == old(log) + if added then [Added(k)]
                                else if |old(pending)| >= 100 then [CapExceeded(|old(pending)|)] else []
    {
      if |pending| >= MAX_PENDING {
        log := log + [CapExceeded(|pending|)];
        return false;
      }
      if k in pending {
        return false;
      }
      pending := pending[k := now];
      log := log + [Added(k)];
      return true;
    }

    method Cancel(k: Key) returns (found: bool)
      modifies `pending, `log
      ensures State() == RetrySpec.Cancel(old(State()), k)
      ensures found == (k in old(pending)) && pending == old(pending) - {k}
    {
      found := k in pending;
      if found {
        pending := pending - {k};
        log := log + [Cancelled(k)];
      }
    }

    /** The entry that `Remove` erases: an exact lookup, or a scan from the smallest key. */
    method Find(seqNum: uint16, id: uint16) returns (found: Option<Key>)
      ensures found == AckTarget(State(), seqNum, id)
    {
      if id != 0 {
        return if KeyOf(id, seqNum) in pending then Some(KeyOf(id, seqNum)) else None;
      }
      ghost var matches := Matches(State(), seqNum);
      var rest := pending.Keys;
      while rest != {}
        invariant rest <= pending.Keys && matches <= rest
        decreases rest
      {
        var k := FirstKey(rest);
        if SeqOf(k) == seqNum {
          MinUnique(matches, k);
          return Some(k);
        }
        rest := rest - {k};
      }
      return None;
    }

    method Remove(seqNum: uint16, id: uint16)
      requires Valid()
      modifies `pending, `log, subscriber
      ensures Valid() && subscriber == old(subscriber)
      ensures State() == Ack(old(State()), seqNum, id)
      ensures id != 0 ==> pending == old(pending) - {KeyOf(id, seqNum)}
      decreases 1
    {
      var found := Find(seqNum, id);
      if found.Some? {
        var k := found.value;
        pending := pending - {k};
        log := log + [Success(k)];
        if subscriber != null {
          subscriber.OnStatusChanged(0, k, SUCCESS, Reply(false, []));
        }
      }
    }

    /** Acknowledgements arriving one after the other. */
    method Receive(acks: seq<(uint16, uint16)>)
      requires Valid()
      modifies `pending, `log, subscriber
      ensures Valid() && subscriber == old(subscriber)
      ensures State() == Acks(old(State()), acks)
      decreases 2
    {
      hide AckTarget;
      for i := 0 to |acks|
        invariant Valid() && subscriber == old(subscriber)
        invariant Acks(State(), acks[i..]) == Acks(old(State()), acks)
      {
        assert acks[i..][0] == acks[i] && acks[i..][1..] == acks[i + 1..];
        Remove(acks[i].0, acks[i].1);
      }
    }

    /** The locked part of a pass: take up to 16 expired entries out of the map, in key order, and say
        how many entries are left when another expired one was met. */
    method Collect(ghost c: Config, now: int) returns (count: nat, remaining: nat)
      requires Valid() && c.timeout == timeout
      modifies `pending, expiredItems
      ensures count <= MAX_TIMER_EXPIRED && expiredItems[..count] == Taken(c, old(State()), now)
      ensures State() == Erase(old(State()), expiredItems[..count])
      ensures remaining == (if Expired(c, pending, now) != {} then |pending| else 0)
      ensures forall i :: 0 <= i < count ==>
        expiredItems[i] in old(pending) && now - old(pending)[expiredItems[i]] > timeout
      ensures count < 16 ==> forall k :: k in pending ==> now - pending[k] <= timeout
    {
      hide Scanning, Batch, Expired, ToSet;
      count, remaining := 0, 0;
      ghost var all := pending;
      var rest := pending.Keys;
      ScanStarts(c, all, now);
      assert expiredItems[..count] == [];
      while rest != {}
        invariant count <= MAX_TIMER_EXPIRED && rest <= pending.Keys && remaining == 0
        invariant Scanning(c, all, now, rest, expiredItems[..count], pending)
        decreases rest
      {
        var k := FirstKey(rest);
        if now - pending[k] > timeout {
          if count >= MAX_TIMER_EXPIRED {
            remaining := |pending|;
            ExpiredHas(c, pending, now, k);
            break;
          }
          ScanTakes(c, all, now, rest, expiredItems[..count], pending, k);
          ghost var before := expiredItems[..count];
          expiredItems[count] := k;
          count := count + 1;
          assert expiredItems[..count] == before + [k];
          pending := pending - {k};
        } else {
          ScanSkips(c, all, now, rest, expiredItems[..count], pending, k);
        }
        rest := rest - {k};
        ScanInside(c, all, now, rest, expiredItems[..count], pending);
      }
      ScanEnds(c, all, now, rest, expiredItems[..count], pending);
      ScanInside(c, all, now, rest, expiredItems[..count], pending);
      TakenAre(c, old(State()), now, expiredItems[..count], pending);
    }

    /** The callbacks of a pass, one TIMEOUT for each entry taken. */
    method FireAll(now: int, count: nat, transport: nat -> Reply)
      requires Valid() && count <= MAX_TIMER_EXPIRED
      modifies `pending, `log, subscriber
      ensures Valid() && subscriber == old(subscriber)
      ensures subscriber != null ==> subscriber.maxRetries == old(subscriber.maxRetries)
      ensures State() == Fire(old(State()), now, expiredItems[..count], transport)
    {
      for i := 0 to count
        invariant Valid() && subscriber == old(subscriber)
        invariant Fire(State(), now, expiredItems[i..count], transport)
          == Fire(old(State()), now, expiredItems[..count], transport)
      {
        assert expiredItems[i..count][1..] == expiredItems[i + 1..count];
        log := log + [Timeout(expiredItems[i])];
        if subscriber != null {
          subscriber.OnStatusChanged(now, expiredItems[i], TIMEOUT, transport(|log|));
        }
      }
    }

    ghost function Settings(): Config
      reads this
    {
      Config(timeout, if subscriber == null then 0 else subscriber.maxRetries)
    }

    /** One turn of the loop in `Process`. */
    method ProcessOnce(now: int, transport: nat -> Reply) returns (count: nat)
      requires Valid()
      modifies `pending, `log, subscriber, expiredItems
      ensures Valid() && subscriber == old(subscriber)
      ensures State() == Pass(Settings(), old(State()), now, transport)
      ensures count == |Taken(Settings(), old(State()), now)|
    {
      hide Fire, Batch, Expired, Pass, Taken, Erase;
      ghost var c, l := Settings(), State();
      var remaining;
      count, remaining := Collect(c, now);
      ghost var items := expiredItems[..count];
      PassUnfolds(c, l, now, transport, items, remaining);
      FireAll(now, count, transport);
      if remaining > 0 {
        log := log + [PendingExceeded(remaining)];
      }
    }

    method Process(now: int, transport: nat -> Reply)
      requires Valid()
      modifies `pending, `log, subscriber, expiredItems
      ensures Valid() && subscriber == old(subscriber)
      ensures State() == RetrySpec.Process(Settings(), old(State()), now, transport)
      ensures forall k :: k in pending ==> now - pending[k] <= timeout
    {
      hide Pass, Taken;
      ghost var c := Settings();
      while true
        invariant Valid() && subscriber == old(subscriber)
        invariant RetrySpec.Process(c, State(), now, transport) == RetrySpec.Process(c, old(State()), now, transport)
        decreases Expired(c, State().pending, now)
      {
        if pending == map[] {
          return;
        }
        ProcessLeavesNoneDue(c, State(), now, transport);
        PassProgress(c, State(), now, transport);
        var count := ProcessOnce(now, transport);
        if count != MAX_TIMER_EXPIRED {
          break;
        }
      }
    }
  }

  class RetryMonitor {
    const monitor: TransportMonitor
    const maxRetries: int
    var store: map<Key, Entry>

    constructor (monitor: TransportMonitor, maxRetries: int)
      requires monitor.Valid() && monitor.subscriber == null
      modifies monitor`subscriber
      ensures this.monitor == monitor && this.maxRetries == maxRetries && store == map[]
      ensures monitor.Valid() && monitor.subscriber == this
    {
      this.monitor := monitor;
      this.maxRetries := maxRetries;
      store := map[];
      new;
      monitor.subscriber := this;
    }

    /** The reaction to a status.  While the physical send of a retry runs, acknowledgements arrive. */
    method OnStatusChanged(now: int, k: Key, status: Status, reply: Reply)
      requires monitor.subscriber == this && monitor.Valid()
      modifies this, monitor`pending, monitor`log
      ensures monitor.Valid()
      ensures monitor.State()
        == if status == SUCCESS then Drop(old(monitor.State()), k) else Timed(old(monitor.State()), now, k, reply)
      decreases if status == SUCCESS then 0 else 3
    {
      hide Acks;
      var retry, reregister, failed, payload := false, false, false, [];
      if k !in store {
        return;
      }
      var e := store[k];
      if status == SUCCESS {
        store := store - {k};
        return;
      } else if e.attemptsRemaining > 0 && e.isSent {
        store := store[k := e.(attemptsRemaining := e.attemptsRemaining - 1)];
        payload, retry := e.packet, true;
      } else if e.attemptsRemaining > 0 {
        reregister := true;
      } else {
        store := store - {k};
        failed := true;
      }

      if retry {
        var added := monitor.Add(now, k);
        if added {
          monitor.log := monitor.log + [Physical(k, payload)];
          assert monitor.State() == old(OnTimeout(monitor.State(), now, k));
          monitor.Receive(reply.acks);
          Sent(k, reply.ok);
        } else {
          monitor.log := monitor.log + [Rejected(k)];
          store := store - {k};
          monitor.log := monitor.log + [Failed(k)];
        }
      }
      if reregister {
        var added := monitor.Add(now, k);
        if !added {
          monitor.log := monitor.log + [Forgotten(k)];
        }
      }
      if failed {
        monitor.log := monitor.log + [Failed(k)];
      }
    }

    /** What follows the physical send of a retry. */
    method Sent(k: Key, ok: bool)
      requires monitor.subscriber == this
      modifies `store, monitor`pending, monitor`log
      ensures monitor.State() == ResendEnd(old(monitor.State()), k, ok)
    {
      if ok {
        monitor.log := monitor.log + [Accepted(k)];
      } else {
        monitor.log := monitor.log + [Refused(k)];
        var _ := monitor.Cancel(k);
        store := store - {k};
        monitor.log := monitor.log + [Failed(k)];
      }
    }

    /** The first send of a message.  Acknowledgements arrive while the physical send runs. */
    method SendWithRetry(now: int, k: Key, packet: Packet, reply: Reply) returns (result: int)
      requires monitor.subscriber == this && monitor.Valid()
      modifies this, monitor`pending, monitor`log
      ensures monitor.Valid()
      ensures var l := SendBegin(Config(monitor.timeout, maxRetries), old(monitor.State()), now, k, packet);
        monitor.State() == if CanAdd(old(monitor.State()), k) then SendEnd(Acks(l, reply.acks), k, reply.ok) else l
      ensures result == 0 <==> CanAdd(old(monitor.State()), k) && reply.ok
    {
      hide Acks;
      ghost var c := Config(monitor.timeout, maxRetries);
      store := store[k := Entry(packet, maxRetries, false)];
      monitor.log := monitor.log + [Submit(k, packet)];
      var added := monitor.Add(now, k);
      if !added {
        monitor.log := monitor.log + [Rejected(k)];
        store := store - {k};
        monitor.log := monitor.log + [Failed(k)];
        return -1;
      }
      monitor.log := monitor.log + [Physical(k, packet)];
      assert monitor.State() == SendBegin(c, old(monitor.State()), now, k, packet);
      monitor.Receive(reply.acks);
      if !reply.ok {
        monitor.log := monitor.log + [Refused(k)];
        var _ := monitor.Cancel(k);
        store := store - {k};
        monitor.log := monitor.log + [Failed(k)];
        return -1;
      }
      monitor.log := monitor.log + [Accepted(k)];
      if k in store {
        store := store[k := store[k].(isSent := true)];
      }
      return 0;
    }
  }
}
