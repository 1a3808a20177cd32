/** The receiver's duplicate filter (delegate-mq/extras/databus/Participant.h). */
module SeqHistory {
  import opened Common

  /** How many numbers a filter remembers; the original's default is 8. */
  type Size = n: nat | n > 0 witness 8

  // ---------------------------------------------------------------------------------------------
  // What the filter means
  // ---------------------------------------------------------------------------------------------

  /** Is `s` among the last `size` accepted numbers? */
  predicate Recent(size: Size, accepted: seq<uint16>, s: uint16) {
    exists k :: 0 <= k < |accepted| && |accepted| - size <= k && accepted[k] == s
  }

  function Accept(size: Size, accepted: seq<uint16>, s: uint16): seq<uint16> {
    if Recent(size, accepted, s) then accepted else accepted + [s]
  }

  /** The numbers accepted out of a stream of arrivals, starting from a history. */
  function Accepted(size: Size, history: seq<uint16>, incoming: seq<uint16>): seq<uint16>
    decreases |incoming|
  {
    if incoming == [] then history else Accepted(size, Accept(size, history, incoming[0]), incoming[1..])
  }

  /** Equal numbers are more than `size` places apart; so any `size` consecutive ones are distinct. */
  ghost predicate Spaced(size: Size, accepted: seq<uint16>) {
    forall i, j :: 0 <= i < j < |accepted| && accepted[i] == accepted[j] ==> j - i > size
  }

  /** Over every stream of arrivals, two deliveries of the same number are separated by at least
      `size` other accepted numbers. */
  lemma {:induction false} DeliveriesSpaced(size: Size, history: seq<uint16>, incoming: seq<uint16>)
    requires Spaced(size, history)
    ensures Spaced(size, Accepted(size, history, incoming)) && history <= Accepted(size, history, incoming)
    decreases |incoming|
  {
    if incoming != [] {
      DeliveriesSpaced(size, Accept(size, history, incoming[0]), incoming[1..]);
    }
  }

  /** Every retransmission of `s` is dropped while fewer than `size` numbers have been accepted after
      it: in any stretch of arrivals that lets in at most `size - 1` others, `s` stays delivered once. */
  lemma {:induction false} RetransmissionsDropped(size: Size, history: seq<uint16>, s: uint16, arrivals: seq<uint16>)
    requires Spaced(size, history) && !Recent(size, history, s)
    requires |Accepted(size, history + [s], arrivals)| <= |history| + size
    ensures forall i :: |history| < i < |Accepted(size, history + [s], arrivals)| ==>
      Accepted(size, history + [s], arrivals)[i] != s
  {
    DeliveriesSpaced(size, history + [s], arrivals);
    assert (history + [s])[|history|] == s;
  }

  /** Nothing else is dropped: a stream in which equal numbers are far enough apart is accepted as it comes. */
  lemma {:induction false} NothingElseDropped(size: Size, history: seq<uint16>, incoming: seq<uint16>)
    requires Spaced(size, history + incoming)
    ensures Accepted(size, history, incoming) == history + incoming
    decreases |incoming|
  {
    if incoming != [] {
      var s, all := incoming[0], history + incoming;
      assert all[|history|] == s && forall k :: 0 <= k < |history| ==> all[k] == history[k];
      assert !Recent(size, history, s);
      assert history + [s] + incoming[1..] == all;
      NothingElseDropped(size, history + [s], incoming[1..]);
    }
  }

  // ---------------------------------------------------------------------------------------------
  // The ring
  // ---------------------------------------------------------------------------------------------

  /** The slot that the k-th accepted number is written to. */
  function Slot(k: nat, size: Size): (r: nat)
    ensures r < size
  {
    k % size
  }

  lemma Laps(d: int, n: nat)
    ensures d >= 1 ==> d * n >= n
    ensures d <= -1 ==> d * n <= -(n as int)
  {
  }

  lemma SlotIs(k: nat, size: Size, lap: nat, i: nat)
    requires i < size && k == lap * size + i
    ensures Slot(k, size) == i
  {
    assert k == k / size * size + k % size;
    assert (lap - k / size) * size == lap * size - k / size * size;
    Laps(lap - k / size, size);
  }

  /** The slot after the last one is the next in the ring. */
  lemma SlotNext(k: nat, size: Size)
    ensures Slot(Slot(k, size) + 1, size) == Slot(k + 1, size)
  {
    var lap, i := k / size, Slot(k, size);
    assert k == lap * size + i;
    hide Slot;
    if i + 1 < size {
      SlotIs(k + 1, size, lap, i + 1);
      FirstLap(i + 1, size);
    } else {
      assert (lap + 1) * size == lap * size + size;
      SlotIs(k + 1, size, lap + 1, 0);
      SlotIs(i + 1, size, 1, 0);
    }
  }

  /** Numbers accepted less than a lap apart are in different slots. */
  lemma SlotsApart(j: nat, k: nat, size: Size)
    requires j < k < j + size
    ensures Slot(j, size) != Slot(k, size)
  {
    assert j == j / size * size + j % size && k == k / size * size + k % size;
    assert (k / size - j / size) * size == k / size * size - j / size * size;
    Laps(k / size - j / size, size);
  }

  lemma FirstLap(k: nat, size: Size)
    requires k < size
    ensures Slot(k, size) == k
  {
  }

  /** The ring holds exactly the last min(n, size) accepted numbers. */
  ghost predicate Ring(size: Size, buffer: seq<uint16>, valid: seq<bool>, head: nat, accepted: seq<uint16>) {
    && |buffer| == |valid| == size && head == Slot(|accepted|, size)
    && (forall i :: 0 <= i < size ==> (valid[i] <==> i < |accepted|))
    && (forall k :: 0 <= k < |accepted| && |accepted| - size <= k ==> buffer[Slot(k, size)] == accepted[k])
  }

  /** Writing at the head replaces the oldest number. */
  lemma RingAccepts(size: Size, buffer: seq<uint16>, valid: seq<bool>, head: nat, accepted: seq<uint16>, s: uint16)
    requires Ring(size, buffer, valid, head, accepted)
    ensures Ring(size, buffer[head := s], valid[head := true], Slot(head + 1, size), accepted + [s])
  {
    hide Slot;
    SlotNext(|accepted|, size);
    forall k: nat | |accepted| - size < k < |accepted|
      ensures Slot(k, size) != head
    {
      SlotsApart(k, |accepted|, size);
    }
    if |accepted| < size {
      FirstLap(|accepted|, size);
    }
  }

  /** Every filled slot holds a number of the window. */
  lemma SlotIsRecent(size: Size, buffer: seq<uint16>, valid: seq<bool>, head: nat, accepted: seq<uint16>, i: nat)
    requires Ring(size, buffer, valid, head, accepted) && i < size && valid[i]
    ensures Recent(size, accepted, buffer[i])
  {
    var n := |accepted| - 1 - i;
    var lap := n / size;
    assert n == lap * size + n % size;
    SlotIs(lap * size + i, size, lap, i);
  }

  lemma RecentInSlot(size: Size, buffer: seq<uint16>, valid: seq<bool>, head: nat, accepted: seq<uint16>, s: uint16)
    requires Ring(size, buffer, valid, head, accepted) && Recent(size, accepted, s)
    ensures exists i :: 0 <= i < size && valid[i] && buffer[i] == s
  {
    hide Slot;
    var k :| 0 <= k < |accepted| && |accepted| - size <= k && accepted[k] == s;
    if |accepted| <= size {
      FirstLap(k, size);
    }
    assert valid[Slot(k, size)] && buffer[Slot(k, size)] == s;
  }

  lemma RecentIsInWindow(size: Size, accepted: seq<uint16>, s: uint16)
    ensures Recent(size, accepted, s) <==> s in if |accepted| > size then accepted[|accepted| - size..] else accepted
  {
    if |accepted| > size {
      var window := accepted[|accepted| - size..];
      if k :| 0 <= k < |accepted| && |accepted| - size <= k && accepted[k] == s {
        assert window[k - (|accepted| - size)] == s;
      }
    }
  }

  class SeqHistory {
    const size: Size
    const buffer: array<uint16>
    const valid: array<bool>
    var head: nat
    ghost var accepted: seq<uint16>

    ghost predicate Valid()
      reads this, buffer, valid
    {
      Ring(size, buffer[..], valid[..], head, accepted)
    }

    constructor (size: Size)
      ensures Valid() && accepted == [] && fresh(buffer) && fresh(valid) && this.size == size
    {
      this.size := size;
      buffer := new uint16[size];
      valid := new bool[size](_ => false);
      head := 0;
      accepted := [];
    }

    method Find(s: uint16) returns (found: bool)
      requires Valid()
      ensures found <==> Recent(size, accepted, s)
    {
      hide Recent, Slot;
      var i := 0;
      while i < size
        invariant 0 <= i <= size
        invariant forall k :: 0 <= k < i && valid[k] ==> buffer[k] != s
      {
        if valid[i] && buffer[i] == s {
          SlotIsRecent(size, buffer[..], valid[..], head, accepted, i);
          return true;
        }
        i := i + 1;
      }
      if Recent(size, accepted, s) {
        RecentInSlot(size, buffer[..], valid[..], head, accepted, s);
      }
      return false;
    }

    /** Says whether `s` is among the last `size` accepted numbers, and accepts it if not. */
    method IsDuplicate(s: uint16) returns (dup: bool)
      requires Valid()
      modifies this, buffer, valid
      ensures Valid()
      ensures dup <==> Recent(size, old(accepted), s)
      ensures dup <==> s in old(if |accepted| > size then accepted[|accepted| - size..] else accepted)
      ensures accepted == Accept(size, old(accepted), s)
    {
      RecentIsInWindow(size, accepted, s);
      hide Recent;
      dup := Find(s);
      if !dup {
        RingAccepts(size, buffer[..], valid[..], head, accepted, s);
        hide Ring;
        assert head < buffer.Length == valid.Length;
        ghost var b, v := buffer[..][head := s], valid[..][head := true];
        buffer[head] := s;
        valid[head] := true;
        head := (head + 1) % size;
        accepted := accepted + [s];
        assert buffer[..] == b && valid[..] == v;
      }
    }
  }

  // ---------------------------------------------------------------------------------------------
  // The participant's per-channel filters
  // ---------------------------------------------------------------------------------------------

  /** The numbers delivered to one remote id, in order. */
  function Numbers(delivered: seq<(uint16, uint16)>, id: uint16): seq<uint16> {
    if delivered == [] then []
    else
      var last := delivered[|delivered| - 1];
      var before := Numbers(delivered[..|delivered| - 1], id);
      if last.0 == id then before + [last.1] else before
  }

  lemma NumbersAppend(delivered: seq<(uint16, uint16)>, to: uint16, s: uint16, id: uint16)
    ensures Numbers(delivered + [(to, s)], id) == Numbers(delivered, id) + if to == id then [s] else []
  {
    assert (delivered + [(to, s)])[..|delivered|] == delivered;
  }

  lemma AcceptSpaced(size: Size, accepted: seq<uint16>, s: uint16)
    requires Spaced(size, accepted)
    ensures Spaced(size, Accept(size, accepted, s))
  {
  }

  /** The receiving side of a participant: a ring for every channel that has received something. */
  class Participant {
    const size: Size
    const ackId: uint16
    var channels: set<uint16>
    var history: map<uint16, SeqHistory>
    var delivered: seq<(uint16, uint16)>

    /** The numbers a channel's filter has accepted. */
    ghost function Known(id: uint16): seq<uint16>
      reads `history, history.Values
    {
      if id in history then history[id].accepted else []
    }

    ghost function Footprint(): set<object>
      reads `history
    {
      history.Values + (set h | h in history.Values :: h.buffer) + (set h | h in history.Values :: h.valid)
    }

    /** Every channel has a ring of its own. */
    ghost predicate Rings()
      reads `history, Footprint()
    {
      && (forall id :: id in history ==> history[id].Valid() && history[id].size == size)
      && (forall i, j :: i in history && j in history && i != j ==>
            history[i] != history[j] && history[i].buffer != history[j].buffer && history[i].valid != history[j].valid)
    }

    /** What was delivered to an id is exactly what its filter has accepted, so that any two
        deliveries of a number are at least `size` other deliveries to that id apart. */
    ghost predicate Valid()
      reads this, Footprint()
    {
      Rings() && forall id: uint16 :: id != ackId ==> Numbers(delivered, id) == Known(id) && Spaced(size, Known(id))
    }

    constructor (size: Size, ackId: uint16, channels: set<uint16>)
      ensures Valid() && delivered == [] && this.size == size && this.channels == channels && this.ackId == ackId
    {
      this.size, this.ackId := size, ackId;
      this.channels := channels;
      history := map[];
      delivered := [];
    }

    /** The filter of a channel, which comes into being with its first message. */
    method RingFor(id: uint16) returns (h: SeqHistory)
      requires Rings()
      modifies `history
      ensures Rings() && id in history && history[id] == h && h.accepted == old(Known(id))
      ensures forall other: uint16 :: Known(other) == old(Known(other))
      ensures forall o :: o in Footprint() ==> o in old(Footprint()) || fresh(o)
    {
      hide SeqHistory.Valid;
      if id !in history {
        h := new SeqHistory(size);
        history := history[id := h];
      }
      h := history[id];
    }

    /** The filter's answer, which only concerns this channel. */
    method Filter(id: uint16, seqNum: uint16) returns (dup: bool)
      requires Rings()
      modifies `history, Footprint()
      ensures Rings() && delivered == old(delivered) && channels == old(channels)
      ensures dup == Recent(size, old(Known(id)), seqNum) && Known(id) == Accept(size, old(Known(id)), seqNum)
      ensures forall other: uint16 :: other != id ==> Known(other) == old(Known(other))
    {
      hide Recent, Accept, SeqHistory.Valid;
      var h := RingFor(id);
      dup := h.IsDuplicate(seqNum);
    }

    method Deliver(id: uint16, seqNum: uint16)
      requires Rings()
      modifies `delivered
      ensures Rings() && delivered == old(delivered) + [(id, seqNum)]
      ensures forall other: uint16 :: Known(other) == old(Known(other))
    {
      delivered := delivered + [(id, seqNum)];
    }

    /** Delivers a received message unless it is a duplicate; acknowledgements are never filtered,
        and a message for an unknown id is an error that touches no filter. */
    method ProcessIncoming(id: uint16, seqNum: uint16) returns (invoked: bool)
      requires Valid()
      modifies `history, `delivered, Footprint()
      ensures Valid()
      ensures invoked <==> id in channels && (id == ackId || !Recent(size, old(Known(id)), seqNum))
      ensures delivered == old(delivered) + if invoked then [(id, seqNum)] else []
      ensures forall other: uint16 :: other != id ==> Known(other) == old(Known(other))
    {
      hide Rings, Known, Footprint, Numbers, Spaced, Recent;
      if id !in channels {
        return false;
      }
      if id != ackId {
        ghost var seen := Known(id);
        AcceptSpaced(size, seen, seqNum);
        var dup := Filter(id, seqNum);
        if dup {
          return false;
        }
      }
      Deliver(id, seqNum);
      forall o: uint16 | o != ackId
        ensures Numbers(delivered, o) == Known(o) && Spaced(size, Known(o))
      {
        NumbersAppend(old(delivered), id, seqNum, o);
      }
      return true;
    }
  }
}
