/** The methods of the two monitors, run on one thread with acknowledgements arriving inside their physical sends,
    are among the interleavings: so what holds of every run holds of them. */
module RetryPaths {
  import opened Common
  import opened RetrySpec
  import opened RetryMessages
  import opened RetryRuns
  import opened RetryTraces

  /** Legal steps lead from `w` to `w'`. */
  ghost predicate Reaches(c: Config, w: World, w': World) {
    exists ops, ws :: IsPath(c, ops, ws) && ws[0] == w && ws[|ops|] == w'
  }

  lemma ReachesItself(c: Config, w: World)
    ensures Reaches(c, w, w)
  {
    assert IsPath(c, [], [w]);
  }

  lemma ReachesThen(c: Config, w: World, w1: World, op: Op)
    requires Reaches(c, w, w1) && Legal(w1, op)
    ensures Reaches(c, w, Step(c, w1, op))
  {
    hide Step, Legal;
    var ops, ws :| IsPath(c, ops, ws) && ws[0] == w && ws[|ops|] == w1;
    PathStep(c, ops, ws, op);
    var ops', ws' := ops + [op], ws + [Step(c, w1, op)];
    assert IsPath(c, ops', ws') && ws'[0] == w && ws'[|ops'|] == Step(c, w1, op);
  }

  /** An acknowledgement with its signal. */
  lemma AckReached(c: Config, w: World, w1: World, seqNum: uint16, id: uint16)
    requires Reaches(c, w, w1) && w1.acking == {}
    ensures Reaches(c, w, w1.(link := Ack(w1.link, seqNum, id)))
  {
    hide Reaches, AckTarget;
    var op := Acknowledge(seqNum, id);
    ReachesThen(c, w, w1, op);
    var w2 := Step(c, w1, op);
    if AckTarget(w1.link, seqNum, id).Some? {
      var k := AckTarget(w1.link, seqNum, id).value;
      ReachesThen(c, w, w2, Signal(k));
      assert {} + {k} - {k} == {};
      assert Step(c, w2, Signal(k)) == w1.(link := Ack(w1.link, seqNum, id));
    } else {
      assert w2 == w1.(link := Ack(w1.link, seqNum, id));
    }
  }

  lemma {:induction false} AcksReached(c: Config, w: World, w1: World, acks: seq<(uint16, uint16)>)
    requires Reaches(c, w, w1) && w1.acking == {}
    ensures Reaches(c, w, w1.(link := Acks(w1.link, acks)))
    decreases |acks|
  {
    hide Reaches, Ack;
    if acks == [] {
      assert w1.(link := w1.link) == w1;
    } else {
      AckReached(c, w, w1, acks[0].0, acks[0].1);
      AcksReached(c, w, w1.(link := Ack(w1.link, acks[0].0, acks[0].1)), acks[1..]);
    }
  }

  /** The reaction to a TIMEOUT in one piece, and in its critical sections. */
  lemma Sections(w: World, now: int, k: Key)
    requires w.job.Free?
    ensures var w1, l := Decided(w, k), OnTimeout(w.link, now, k);
      if w1.job.Free? then l == w1.link && !Resends(w.link, k)
      else
        && (w1.job.Renewing? || w1.job.Readding?)
        && var w2 := Readded(w1, now);
           if w2.job.Abandoning? then w2.job.k == k && l == GiveUp(w2.link, k) && !Resends(w.link, k)
           else l == w2.link && w2.job == if Resends(w.link, k) then Resending(k) else Free
  {
  }

  lemma SectionsKeep(w: World, now: int, k: Key)
    requires w.job.Free?
    ensures var w1 := Decided(w, k);
      && w1.senders == w.senders && w1.acking == w.acking && w1.batch == w.batch
      && (w1.job.Renewing? || w1.job.Readding? ==>
            var w2 := Readded(w1, now);
            w2.senders == w.senders && w2.acking == w.acking && w2.batch == w.batch)
  {
  }

  /** The reaction to a TIMEOUT, up to the physical send if there is one. */
  lemma FiredReached(c: Config, w: World, w1: World, now: int)
    requires Reaches(c, w, w1) && w1.batch != [] && w1.job.Free?
    ensures var k := w1.batch[0];
      var l := Note(w1.link, Timeout(k));
      Reaches(c, w, World(OnTimeout(l, now, k), w1.senders, w1.acking, w1.batch[1..],
                          if Resends(l, k) then Resending(k) else Free))
  {
    hide Reaches, Decided, Readded, OnTimeout, Resends;
    var k := w1.batch[0];
    var fired := w1.(link := Note(w1.link, Timeout(k)), batch := w1.batch[1..]);
    Sections(fired, now, k);
    SectionsKeep(fired, now, k);
    ReachesThen(c, w, w1, FireNext);
    var w2 := Decided(fired, k);
    if !w2.job.Free? {
      ReachesThen(c, w, w2, Readd(now));
      var w3 := Readded(w2, now);
      if w3.job.Abandoning? {
        ReachesThen(c, w, w3, Abandon);
      }
    }
  }

  lemma TimedReached(c: Config, w: World, w1: World, now: int, reply: Reply)
    requires Reaches(c, w, w1) && w1.batch != [] && w1.job.Free? && w1.acking == {}
    ensures var l := Timed(Note(w1.link, Timeout(w1.batch[0])), now, w1.batch[0], reply);
      Reaches(c, w, World(l, w1.senders, {}, w1.batch[1..], Free))
  {
    hide Reaches, Acks, OnTimeout, Resends;
    var k := w1.batch[0];
    var l := Note(w1.link, Timeout(k));
    FiredReached(c, w, w1, now);
    if Resends(l, k) {
      var w2 := World(OnTimeout(l, now, k), w1.senders, {}, w1.batch[1..], Resending(k));
      AcksReached(c, w, w2, reply.acks);
      var w3 := w2.(link := Acks(w2.link, reply.acks));
      ReachesThen(c, w, w3, ResendDone(reply.ok));
      if !reply.ok {
        ReachesThen(c, w, Step(c, w3, ResendDone(false)), Abandon);
      }
    }
  }

  lemma {:induction false} FireReached(c: Config, w: World, w1: World, now: int, transport: nat -> Reply)
    requires Reaches(c, w, w1) && w1.job.Free? && w1.acking == {}
    ensures Reaches(c, w, World(Fire(w1.link, now, w1.batch, transport), w1.senders, {}, [], Free))
    decreases |w1.batch|
  {
    hide Reaches, Timed;
    if w1.batch != [] {
      var k := w1.batch[0];
      var l := Note(w1.link, Timeout(k));
      TimedReached(c, w, w1, now, transport(|l.log|));
      var w2 := World(Timed(l, now, k, transport(|l.log|)), w1.senders, {}, w1.batch[1..], Free);
      FireReached(c, w, w2, now, transport);
    } else {
      assert w1 == World(w1.link, w1.senders, {}, [], Free);
    }
  }

  lemma PassReached(c: Config, w: World, w1: World, now: int, transport: nat -> Reply)
    requires Reaches(c, w, w1) && w1.batch == [] && w1.job.Free? && w1.acking == {}
    ensures Reaches(c, w, w1.(link := Pass(c, w1.link, now, transport)))
  {
    hide Reaches, Fire, Taken, Expired, Erase;
    ReachesThen(c, w, w1, TakeBatch(now));
    var items := Taken(c, w1.link, now);
    var erased := Erase(w1.link, items);
    FireReached(c, w, w1.(link := erased, batch := items), now, transport);
    var w2 := w1.(link := Fire(erased, now, items, transport));
    assert w2 == World(w2.link, w1.senders, {}, [], Free);
    Remarked(c, w, w2, |erased.pending|);
  }

  lemma Remarked(c: Config, w: World, w1: World, size: nat)
    requires Reaches(c, w, w1) && w1.batch == [] && w1.job.Free?
    ensures Reaches(c, w, w1.(link := Note(w1.link, PendingExceeded(size))))
  {
    hide Reaches;
    ReachesThen(c, w, w1, Remark(size));
  }

  /** A whole Process. */
  lemma {:induction false} ProcessReached(c: Config, w: World, w1: World, now: int, transport: nat -> Reply)
    requires Reaches(c, w, w1) && w1.batch == [] && w1.job.Free? && w1.acking == {}
    ensures Reaches(c, w, w1.(link := Process(c, w1.link, now, transport)))
    decreases Expired(c, w1.link.pending, now)
  {
    hide Reaches, Pass;
    if w1.link.pending == map[] {
      assert w1.(link := w1.link) == w1;
    } else {
      PassReached(c, w, w1, now, transport);
      PassShrinks(c, w1.link, now, transport);
      var items := Taken(c, w1.link, now);
      if |items| == MAX_TIMER_EXPIRED {
        assert items[0] in Expired(c, w1.link.pending, now) && items[0] in ToSet(items);
        ProcessReached(c, w, w1.(link := Pass(c, w1.link, now, transport)), now, transport);
      }
    }
  }

  /** SendWithRetry up to the physical send, if there is one. */
  lemma EnteredReached(c: Config, w: World, now: int, k: Key, packet: Packet)
    requires Unused(w, k)
    ensures var l := SendBegin(c, w.link, now, k, packet);
      Reaches(c, w, w.(link := l, senders := if CanAdd(w.link, k) then w.senders[k := Sending] else w.senders))
  {
    hide Reaches, Add;
    ReachesItself(c, w);
    ReachesThen(c, w, w, Begin(k, packet));
    var w1 := Step(c, w, Begin(k, packet));
    ReachesThen(c, w, w1, Register(now, k));
    var w2 := Step(c, w1, Register(now, k));
    if CanAdd(w.link, k) {
      assert w2.senders == w.senders[k := Sending];
    } else {
      ReachesThen(c, w, w2, Quit(k));
      assert w2.senders - {k} == w.senders;
    }
  }

  /** What follows the physical send. */
  lemma LeftReached(c: Config, w: World, w1: World, k: Key, ok: bool)
    requires Reaches(c, w, w1) && k in w1.senders && w1.senders[k].Sending?
    ensures Reaches(c, w, w1.(link := SendEnd(w1.link, k, ok), senders := w1.senders - {k}))
  {
    hide Reaches;
    ReachesThen(c, w, w1, End(k, ok));
    if !ok {
      var w2 := Step(c, w1, End(k, false));
      ReachesThen(c, w, w2, Quit(k));
      assert w2.senders - {k} == w1.senders - {k};
    }
  }

  /** A whole SendWithRetry. */
  lemma SendReached(c: Config, w: World, now: int, k: Key, packet: Packet, reply: Reply)
    requires Unused(w, k) && w.acking == {}
    ensures var l := SendBegin(c, w.link, now, k, packet);
      var l' := if CanAdd(w.link, k) then SendEnd(Acks(l, reply.acks), k, reply.ok) else l;
      Reaches(c, w, w.(link := l'))
  {
    hide Reaches, Acks, SendBegin, SendEnd, CanAdd;
    EnteredReached(c, w, now, k, packet);
    if CanAdd(w.link, k) {
      var w1 := w.(link := SendBegin(c, w.link, now, k, packet), senders := w.senders[k := Sending]);
      AcksReached(c, w, w1, reply.acks);
      LeftReached(c, w, w1.(link := Acks(w1.link, reply.acks)), k, reply.ok);
      assert w1.senders - {k} == w.senders;
    }
  }
}
