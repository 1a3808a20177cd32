/** Runs on which the protocol does what one would rather it did not. */
module RetryTraces {
  import opened Common
  import opened RetrySpec
  import opened RetryMessages
  import opened RetryRuns
  import opened RetryFate

  lemma PathStep(c: Config, ops: seq<Op>, ws: seq<World>, op: Op)
    requires IsPath(c, ops, ws) && Legal(ws[|ops|], op)
    ensures IsPath(c, ops + [op], ws + [Step(c, ws[|ops|], op)])
  {
    hide Step, Legal;
    var ops', ws' := ops + [op], ws + [Step(c, ws[|ops|], op)];
    forall i | 0 <= i < |ops'|
      ensures Legal(ws'[i], ops'[i]) && ws'[i + 1] == Step(c, ws'[i], ops'[i])
    {
      if i < |ops| {
        assert ops'[i] == ops[i] && ws'[i] == ws[i] && ws'[i + 1] == ws[i + 1];
      }
    }
  }

  /** The last world of a run. */
  ghost predicate Leads(c: Config, ops: seq<Op>, ws: seq<World>, w: World) {
    IsRun(c, ops, ws) && |ws| == |ops| + 1 && ws[|ops|] == w
  }

  /** One step more. */
  lemma Then(c: Config, ops: seq<Op>, ws: seq<World>, w: World, op: Op)
    returns (ops': seq<Op>, ws': seq<World>, w': World)
    requires Leads(c, ops, ws, w) && Legal(w, op)
    ensures w' == Step(c, w, op) && Leads(c, ops', ws', w')
    ensures ops' == ops + [op] && ws' == ws + [w']
  {
    hide Step, Legal;
    RunShape(c, ops, ws);
    PathStep(c, ops, ws, op);
    w' := Step(c, w, op);
    ops', ws' := ops + [op], ws + [w'];
  }

  lemma Nothing(c: Config) returns (ops: seq<Op>, ws: seq<World>, w: World)
    ensures ops == [] && ws == [START] && w == START && Leads(c, ops, ws, w)
  {
    ops, ws, w := [], [START], START;
  }

  /** A message with room in the pending map, up to its first physical send. */
  lemma Submitted(c: Config, ops: seq<Op>, ws: seq<World>, w: World, k: Key, packet: Packet)
    returns (ops': seq<Op>, ws': seq<World>, w': World)
    requires Leads(c, ops, ws, w) && Unused(w, k) && |w.link.pending| < MAX_PENDING
    ensures Leads(c, ops', ws', w') && ops' == ops + [Begin(k, packet), Register(0, k)] && |ws'| == |ws| + 2
    ensures w'.link.pending == w.link.pending[k := 0] && w'.senders == w.senders[k := Sending]
    ensures w'.link.store == w.link.store[k := RetrySpec.Entry(packet, c.maxRetries, false)]
    ensures w'.acking == w.acking && w'.batch == w.batch && w'.job == w.job
  {
    hide Leads;
    ops', ws', w' := Then(c, ops, ws, w, Begin(k, packet));
    ops', ws', w' := Then(c, ops', ws', w', Register(0, k));
    assert ops + [Begin(k, packet)] + [Register(0, k)] == ops + [Begin(k, packet), Register(0, k)];
  }

  /** What a report of an erased message comes to. */
  lemma Twice(c: Config, ops: seq<Op>, ws: seq<World>, w: World, k: Key, op: Op,
              ops': seq<Op>, ws': seq<World>, w': World)
    requires Leads(c, ops, ws, w) && Legal(w, op) && ReportsErased(w, op, k)
    requires Leads(c, ops', ws', w') && ops' == ops + [op] && ws' == ws + [w']
    ensures ReportsIn(c, w', k) == 2
  {
    hide ReportsIn, ReportsErased, IsRun, Legal;
    SecondReportIff(c, ops', ws', |ops|, k);
    SecondNeedsRefusal(c, ops', ws', |ops'|, k);
  }

  lemma OnlyTarget(l: Link, id: uint16, seqNum: uint16)
    requires l.pending.Keys == {KeyOf(id, seqNum)}
    ensures AckTarget(l, seqNum, 0) == Some(KeyOf(id, seqNum))
  {
    KeyParts(id, seqNum);
    assert KeyOf(id, seqNum) in Matches(l, seqNum);
  }

  lemma OnlyTaken(c: Config, l: Link, now: int, k: Key)
    requires l.pending.Keys == {k} && IsExpired(c.timeout, now, l.pending[k])
    ensures Taken(c, l, now) == [k]
  {
    assert Expired(c, l.pending, now) == {k};
    assert Min({k}) == k;
    assert {k} - {k} == {};
    assert Batch({}, MAX_TIMER_EXPIRED - 1) == [];
  }

  /** The acknowledgement of the only entry pending. */
  lemma Acknowledged(c: Config, ops: seq<Op>, ws: seq<World>, w: World, id: uint16, seqNum: uint16)
    returns (ops': seq<Op>, ws': seq<World>, w': World)
    requires Leads(c, ops, ws, w) && w.link.pending.Keys == {KeyOf(id, seqNum)}
    ensures Leads(c, ops', ws', w') && ops' == ops + [Acknowledge(seqNum, 0)] && ws' == ws + [w']
    ensures w' == w.(link := w'.link, acking := w.acking + {KeyOf(id, seqNum)})
    ensures w'.link.pending == map[] && w'.link.store == w.link.store
  {
    hide Leads, AckTarget;
    OnlyTarget(w.link, id, seqNum);
    ops', ws', w' := Then(c, ops, ws, w, Acknowledge(seqNum, 0));
  }

  /** The acknowledgement arrives and SUCCESS is signalled while the first send runs, which then returns an error. */
  lemma FirstSendReportsTwice(c: Config, packet: Packet) returns (ops: seq<Op>, ws: seq<World>, w: World)
    ensures Leads(c, ops, ws, w) && ReportsIn(c, w, KeyOf(0, 1)) == 2
    ensures var k := KeyOf(0, 1);
      ops == [Begin(k, packet), Register(0, k), Acknowledge(1, 0), Signal(k), End(k, false), Quit(k)]
  {
    hide Leads, ReportsIn, AckTarget;
    var k := KeyOf(0, 1);
    ops, ws, w := Nothing(c);
    ops, ws, w := Submitted(c, ops, ws, w, k, packet);
    ops, ws, w := Acknowledged(c, ops, ws, w, 0, 1);
    ops, ws, w := Then(c, ops, ws, w, Signal(k));
    ops, ws, w := Then(c, ops, ws, w, End(k, false));
    var ops', ws', w' := Then(c, ops, ws, w, Quit(k));
    Twice(c, ops, ws, w, k, Quit(k), ops', ws', w');
    ops, ws, w := ops', ws', w';
  }

  /** The acknowledgement takes the entry out, and only after the failure of the send was reported does it signal
      SUCCESS. */
  lemma SuccessAfterFailure(c: Config, packet: Packet) returns (ops: seq<Op>, ws: seq<World>, w: World)
    ensures Leads(c, ops, ws, w) && ReportsIn(c, w, KeyOf(0, 1)) == 2
    ensures var k := KeyOf(0, 1);
      ops == [Begin(k, packet), Register(0, k), Acknowledge(1, 0), End(k, false), Quit(k), Signal(k)]
  {
    hide Leads, ReportsIn, AckTarget;
    var k := KeyOf(0, 1);
    ops, ws, w := Nothing(c);
    ops, ws, w := Submitted(c, ops, ws, w, k, packet);
    ops, ws, w := Acknowledged(c, ops, ws, w, 0, 1);
    ops, ws, w := Then(c, ops, ws, w, End(k, false));
    ops, ws, w := Then(c, ops, ws, w, Quit(k));
    var ops', ws', w' := Then(c, ops, ws, w, Signal(k));
    Twice(c, ops, ws, w, k, Signal(k), ops', ws', w');
    ops, ws, w := ops', ws', w';
  }

  /** The only entry pending times out: Process takes it out. */
  lemma TakenOut(c: Config, ops: seq<Op>, ws: seq<World>, w: World, k: Key)
    returns (ops': seq<Op>, ws': seq<World>, w': World)
    requires Leads(c, ops, ws, w) && w.link.pending == map[k := 0] && w.batch == [] && w.job.Free?
    ensures var op := TakeBatch(c.timeout + 1); Leads(c, ops', ws', w') && ops' == ops + [op] && ws' == ws + [w']
    ensures w' == w.(link := w'.link, batch := [k]) && w'.link.pending == map[] && w'.link.store == w.link.store
  {
    hide Leads, Taken;
    OnlyTaken(c, w.link, c.timeout + 1, k);
    ops', ws', w' := Then(c, ops, ws, w, TakeBatch(c.timeout + 1));
  }

  /** A first send is timed out, and fails before its registration is renewed. */
  lemma RenewedTooLate(c: Config, packet: Packet, k: Key) returns (ops: seq<Op>, ws: seq<World>, w: World)
    requires c.maxRetries > 0
    ensures Leads(c, ops, ws, w)
    ensures ops == [Begin(k, packet), Register(0, k), TakeBatch(c.timeout + 1), FireNext, End(k, false), Quit(k)]
    ensures w.job == Renewing(k) && w.link.pending == map[] && k !in w.link.store && w.acking == {}
  {
    hide Leads, Taken;
    ops, ws, w := Nothing(c);
    ops, ws, w := Submitted(c, ops, ws, w, k, packet);
    ops, ws, w := TakenOut(c, ops, ws, w, k);
    ops, ws, w := Then(c, ops, ws, w, FireNext);
    ops, ws, w := Then(c, ops, ws, w, End(k, false));
    ops, ws, w := Then(c, ops, ws, w, Quit(k));
  }

  /** The key then stays registered although the failure was reported and the message erased; and the
      acknowledgement of a copy that arrived is reported as a success. */
  lemma SuccessAfterRenewal(c: Config, packet: Packet) returns (ops: seq<Op>, ws: seq<World>, w: World)
    requires c.maxRetries > 0
    ensures Leads(c, ops, ws, w) && ReportsIn(c, w, KeyOf(0, 1)) == 2 && |ops| == 9 && StrayIn(ws[7], KeyOf(0, 1))
    ensures ops[4..] == [End(KeyOf(0, 1), false), Quit(KeyOf(0, 1)), Readd(0), Acknowledge(1, 0),
                         Signal(KeyOf(0, 1))]
  {
    hide Leads, ReportsIn, AckTarget;
    var k := KeyOf(0, 1);
    ops, ws, w := RenewedTooLate(c, packet, k);
    ops, ws, w := Then(c, ops, ws, w, Readd(0));
    LastIs(c, ops, ws, w);
    ops, ws, w := Acknowledged(c, ops, ws, w, 0, 1);
    var ops', ws', w' := Then(c, ops, ws, w, Signal(k));
    Twice(c, ops, ws, w, k, Signal(k), ops', ws', w');
    ops, ws, w := ops', ws', w';
  }

  lemma LastIs(c: Config, ops: seq<Op>, ws: seq<World>, w: World)
    requires Leads(c, ops, ws, w)
    ensures |ws| == |ops| + 1 && ws[|ops|] == w
  {
  }

  /** The first send succeeds and is timed out: what happens up to its first retry. */
  lemma FirstRetry(c: Config, packet: Packet, k: Key) returns (ops: seq<Op>, ws: seq<World>, w: World)
    requires c.maxRetries > 0
    ensures Leads(c, ops, ws, w)
    ensures ops == [Begin(k, packet), Register(0, k), End(k, true), TakeBatch(c.timeout + 1), FireNext, Readd(0)]
    ensures w.job == Resending(k) && w.link.pending.Keys == {k} && w.acking == {}
  {
    hide Leads, Taken;
    ops, ws, w := Nothing(c);
    ops, ws, w := Submitted(c, ops, ws, w, k, packet);
    ops, ws, w := Then(c, ops, ws, w, End(k, true));
    ops, ws, w := TakenOut(c, ops, ws, w, k);
    ops, ws, w := Then(c, ops, ws, w, FireNext);
    ops, ws, w := Then(c, ops, ws, w, Readd(0));
  }

  /** The acknowledgement is signalled while the retry is being sent, and the retry then returns an error. */
  lemma RetryReportsTwice(c: Config, packet: Packet) returns (ops: seq<Op>, ws: seq<World>, w: World)
    requires c.maxRetries > 0
    ensures Leads(c, ops, ws, w) && ReportsIn(c, w, KeyOf(0, 1)) == 2 && |ops| == 10
    ensures ops[2] == End(KeyOf(0, 1), true)
    ensures ops[6..] == [Acknowledge(1, 0), Signal(KeyOf(0, 1)), ResendDone(false), Abandon]
  {
    hide Leads, ReportsIn, AckTarget;
    var k := KeyOf(0, 1);
    ops, ws, w := FirstRetry(c, packet, k);
    ops, ws, w := Acknowledged(c, ops, ws, w, 0, 1);
    ops, ws, w := Then(c, ops, ws, w, Signal(k));
    ops, ws, w := Then(c, ops, ws, w, ResendDone(false));
    var ops', ws', w' := Then(c, ops, ws, w, Abandon);
    Twice(c, ops, ws, w, k, Abandon, ops', ws', w');
    ops, ws, w := ops', ws', w';
  }

  /** Message 0 has been taken out during its first send, and `n` others were submitted since. */
  lemma {:induction false} Filled(c: Config, packet: Packet, n: nat) returns (ops: seq<Op>, ws: seq<World>, w: World)
    requires n <= MAX_PENDING
    ensures Leads(c, ops, ws, w)
    ensures w.batch == [0] && w.job.Free? && w.acking == {} && |w.link.pending| == n
    ensures forall j :: j in w.link.pending ==> 0 < j as nat <= n
    ensures forall j :: j in w.senders || j in w.link.store ==> j as nat <= n
    ensures 0 in w.senders && w.senders[0].Sending?
    ensures 0 in w.link.store && w.link.store[0] == RetrySpec.Entry(packet, c.maxRetries, false)
    decreases n
  {
    hide Leads, Step, AckTarget, Taken;
    if n == 0 {
      ops, ws, w := Nothing(c);
      ops, ws, w := Submitted(c, ops, ws, w, 0, packet);
      ops, ws, w := TakenOut(c, ops, ws, w, 0);
    } else {
      ops, ws, w := Filled(c, packet, n - 1);
      ops, ws, w := Submitted(c, ops, ws, w, n as Key, packet);
    }
  }

  /** A message is timed out during its first send.  Before it is registered again others take every place in the
      pending map, and nobody looks at the refusal: the send then succeeds, and the message is lost. */
  lemma MessageLost(c: Config, packet: Packet) returns (ops: seq<Op>, ws: seq<World>, w: World)
    requires c.maxRetries > 0
    ensures Leads(c, ops, ws, w) && Lost(w, 0)
  {
    hide Leads, AckTarget, Taken;
    ops, ws, w := Filled(c, packet, MAX_PENDING);
    ops, ws, w := Then(c, ops, ws, w, FireNext);
    assert w.job == Renewing(0) && w.batch == [];
    ops, ws, w := Then(c, ops, ws, w, Readd(0));
    assert w.job.Free? && 0 in w.link.store && 0 !in w.link.pending;
    ops, ws, w := Then(c, ops, ws, w, End(0, true));
  }

  /** An acknowledgement carries no remote id (`id == 0`): it finds the entry it is meant for exactly
      when no remote with a smaller id has the same sequence number pending. */
  lemma AckFindsItIff(l: Link, id: uint16, seqNum: uint16)
    requires KeyOf(id, seqNum) in l.pending
    ensures AckTarget(l, seqNum, 0) == Some(KeyOf(id, seqNum))
      <==> forall other: uint16 :: KeyOf(other, seqNum) in l.pending ==> id <= other
  {
    KeyParts(id, seqNum);
    var matches := Matches(l, seqNum);
    var k := KeyOf(id, seqNum);
    assert k in matches;
    var m := Min(matches);
    var first := IdOf(m);
    assert m == KeyOf(first, seqNum);
    forall other: uint16 | KeyOf(other, seqNum) in l.pending
      ensures first <= other
    {
      KeyParts(other, seqNum);
      assert KeyOf(other, seqNum) in matches;
    }
    assert KeyOf(first, seqNum) in l.pending;
  }

  /** Two messages in flight to different remotes under one sequence number: the acknowledgement meant for the
      one with the larger id takes out the other, which is then reported as delivered and erased. */
  lemma AckMisses(c: Config, packet: Packet, id: uint16, other: uint16, seqNum: uint16)
    returns (ops: seq<Op>, ws: seq<World>, w: World)
    requires other < id
    ensures Leads(c, ops, ws, w)
    ensures var k, j := KeyOf(id, seqNum), KeyOf(other, seqNum);
      && ops == [Begin(k, packet), Register(0, k), Begin(j, packet), Register(0, j), Acknowledge(seqNum, 0), Signal(j)]
      && k in w.link.pending && j !in w.link.store
  {
    hide Leads, AckTarget, KeyOf;
    var k, j := KeyOf(id, seqNum), KeyOf(other, seqNum);
    KeysDiffer(id, other, seqNum);
    ops, ws, w := Nothing(c);
    ops, ws, w := Submitted(c, ops, ws, w, k, packet);
    ops, ws, w := Submitted(c, ops, ws, w, j, packet);
    SmallestFound(w.link, id, other, seqNum);
    ops, ws, w := Then(c, ops, ws, w, Acknowledge(seqNum, 0));
    ops, ws, w := Then(c, ops, ws, w, Signal(j));
  }

  lemma KeysDiffer(id: uint16, other: uint16, seqNum: uint16)
    requires id != other
    ensures KeyOf(id, seqNum) != KeyOf(other, seqNum)
  {
    KeyParts(id, seqNum);
    KeyParts(other, seqNum);
  }

  lemma SmallestFound(l: Link, id: uint16, other: uint16, seqNum: uint16)
    requires l.pending.Keys == {KeyOf(id, seqNum), KeyOf(other, seqNum)} && other < id
    ensures AckTarget(l, seqNum, 0) == Some(KeyOf(other, seqNum))
  {
    forall any: uint16 | KeyOf(any, seqNum) in l.pending
      ensures other <= any
    {
      KeyParts(any, seqNum);
      KeyParts(id, seqNum);
      KeyParts(other, seqNum);
    }
    AckFindsItIff(l, other, seqNum);
  }
}
