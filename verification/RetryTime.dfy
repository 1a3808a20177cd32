/** When things time out, in arithmetic on the clock. */
module RetryTimes {
  import opened Common
  import opened RetrySpec
  import opened RetryMessages
  import opened RetryRuns
  import opened RetryFate

  // ---------------------------------------------------------------------------------------------
  // Runs
  // ---------------------------------------------------------------------------------------------

  /** The step registers `k` at time `time`. */
  predicate Registers(w: World, op: Op, k: Key, time: int) {
    && |w.link.pending| < 100 && k !in w.link.pending
    && (op == Register(time, k) || (op == Readd(time) && (w.job == Renewing(k) || (w.job.Readding? && w.job.k == k))))
  }

  /** The latest registration of `k` before step `i` was made by step `j`, at time `time`. */
  ghost predicate LastRegistered(ops: seq<Op>, ws: seq<World>, i: nat, k: Key, j: nat, time: int)
    requires |ws| == |ops| + 1 && i <= |ops|
  {
    && j < i && Registers(ws[j], ops[j], k, time)
    && forall m, t :: j < m < i ==> !Registers(ws[m], ops[m], k, t)
  }

  lemma AddStamps(l: Link, now: int, j: Key, k: Key)
    requires k in Add(l, now, j).pending
    ensures if k in l.pending then Add(l, now, j).pending[k] == l.pending[k]
            else k == j && |l.pending| < 100 && Add(l, now, j).pending[k] == now
  {
  }

  lemma CancelStamps(l: Link, j: Key, k: Key)
    requires k in Cancel(l, j).pending
    ensures k in l.pending && Cancel(l, j).pending[k] == l.pending[k]
  {
  }

  lemma StepPending(c: Config, w: World, op: Op, k: Key)
    requires Legal(w, op) && k in Step(c, w, op).link.pending
    ensures var stamp := Step(c, w, op).link.pending[k];
      if k in w.link.pending then w.link.pending[k] == stamp else Registers(w, op, k, stamp)
  {
    hide Taken, AckTarget, Add, Cancel;
    match op
    case Register(now, j) => AddStamps(w.link, now, j, k);
    case Readd(now) => AddStamps(w.link, now, w.job.k, k);
    case End(j, ok) =>
      if !ok {
        CancelStamps(Note(w.link, Refused(j)), j, k);
      }
    case ResendDone(ok) =>
      if !ok {
        CancelStamps(Note(w.link, Refused(w.job.k)), w.job.k, k);
      }
    case _ =>
  }

  /** Every pending entry carries the time of its latest registration. */
  lemma {:induction false} Stamped(c: Config, ops: seq<Op>, ws: seq<World>, i: nat, k: Key) returns (j: nat)
    requires IsRun(c, ops, ws) && i <= |ops| && i < |ws| && k in ws[i].link.pending
    ensures |ws| == |ops| + 1 && LastRegistered(ops, ws, i, k, j, ws[i].link.pending[k])
    decreases i
  {
    hide Step, Legal;
    if i == 0 {
      assert false;
    } else {
      StepPending(c, ws[i - 1], ops[i - 1], k);
      if k in ws[i - 1].link.pending {
        j := Stamped(c, ops, ws, i - 1, k);
      } else {
        j := i - 1;
      }
    }
  }

  /** A key whose TIMEOUT is still to be signalled is not registered. */
  lemma NotWhileOut(c: Config, ops: seq<Op>, ws: seq<World>, i: nat, k: Key, time: int)
    requires IsRun(c, ops, ws) && i < |ops| && i < |ws| && k in ws[i].batch
    ensures !Registers(ws[i], ops[i], k, time)
  {
    hide IsRun, TallyOf, Step;
    CellSteps(c, ops, ws, i, k);
    OutIsIdle(c, CellOf(c, ws[i], k));
  }

  lemma OutIsIdle(c: Config, x: Cell)
    requires Good(c, x) && x.out
    ensures !x.stage.Entering? && !x.job.Renewing? && !x.job.Readding?
  {
  }

  /** `k` was taken by step `i`, when its latest registration, by step `j`, was more than the timeout ago. */
  ghost predicate TakenDue(c: Config, ops: seq<Op>, ws: seq<World>, n: nat, k: Key, i: nat, j: nat, time: int)
    requires |ws| == |ops| + 1 && n <= |ops|
  {
    i < n && LastRegistered(ops, ws, n, k, j, time) && j < i && ops[i].TakeBatch? && ops[i].now - time > c.timeout
  }

  lemma StepBatch(c: Config, w: World, op: Op, k: Key)
    requires Legal(w, op) && k in Step(c, w, op).batch
    ensures k in w.batch || (op.TakeBatch? && k in w.link.pending && op.now - w.link.pending[k] > c.timeout)
  {
    hide Taken, AckTarget;
    if op.TakeBatch? {
      TakenIsDue(c, w.link, op.now);
    }
  }

  lemma {:induction false} OutIsDue(c: Config, ops: seq<Op>, ws: seq<World>, n: nat, k: Key)
    returns (i: nat, j: nat, time: int)
    requires IsRun(c, ops, ws) && n <= |ops| && n < |ws| && k in ws[n].batch
    ensures |ws| == |ops| + 1 && TakenDue(c, ops, ws, n, k, i, j, time)
    decreases n
  {
    hide Step, Legal;
    if n == 0 {
      assert false;
    } else {
      StepBatch(c, ws[n - 1], ops[n - 1], k);
      if k in ws[n - 1].batch {
        i, j, time := OutIsDue(c, ops, ws, n - 1, k);
        forall t {:trigger Registers(ws[n - 1], ops[n - 1], k, t)}
          ensures !Registers(ws[n - 1], ops[n - 1], k, t)
        {
          NotWhileOut(c, ops, ws, n - 1, k, t);
        }
      } else {
        i, time := n - 1, ws[n - 1].link.pending[k];
        j := Stamped(c, ops, ws, n - 1, k);
      }
    }
  }

  /** In every run, a TIMEOUT is signalled for a key only when its latest registration was made more than the
      timeout before the step that took it. */
  lemma TimeoutIsDue(c: Config, ops: seq<Op>, ws: seq<World>, n: nat)
    requires IsRun(c, ops, ws) && n < |ops| && ops[n].FireNext?
    ensures |ws| == |ops| + 1 && ws[n].batch != []
    ensures exists i: nat, j: nat, time :: TakenDue(c, ops, ws, n, ws[n].batch[0], i, j, time)
  {
    var i, j, time := OutIsDue(c, ops, ws, n, ws[n].batch[0]);
  }

  /** And Process leaves behind no key whose latest registration was made longer ago than that, unless it takes 16. */
  lemma DueIsTaken(c: Config, ops: seq<Op>, ws: seq<World>, i: nat, k: Key, j: nat, time: int)
    requires IsRun(c, ops, ws) && i < |ops| && |ws| == |ops| + 1 && ops[i].TakeBatch?
    requires k in ws[i].link.pending && LastRegistered(ops, ws, i, k, j, time) && ops[i].now - time > c.timeout
    ensures k in ws[i + 1].batch || |ws[i + 1].batch| == 16
  {
    hide Taken;
    var j' := Stamped(c, ops, ws, i, k);
    assert j' == j;
    TakenIsDue(c, ws[i].link, ops[i].now);
    AtMostBatch(c, ws[i].link, ops[i].now);
  }

  lemma AtMostBatch(c: Config, l: Link, now: int)
    ensures |Taken(c, l, now)| <= 16
  {
  }

  // ---------------------------------------------------------------------------------------------
  // Acknowledgements, and what the application is told
  // ---------------------------------------------------------------------------------------------

  /** An acknowledgement that names its remote takes out exactly that entry; one that does not, the entry with this
      sequence number that comes first in the map; and nothing when there is none. */
  lemma AcknowledgedIs(c: Config, w: World, seqNum: uint16, id: uint16)
    ensures var w' := Step(c, w, Acknowledge(seqNum, id));
      && w'.link.store == w.link.store && w'.batch == w.batch && w'.senders == w.senders && w'.job == w.job
      && (id != 0 ==>
            && w'.link.pending == w.link.pending - {KeyOf(id, seqNum)}
            && w'.acking == w.acking + if KeyOf(id, seqNum) in w.link.pending then {KeyOf(id, seqNum)} else {})
      && (id == 0 && (exists k :: k in w.link.pending && SeqOf(k) == seqNum) ==>
            exists k ::
              && k in w.link.pending && SeqOf(k) == seqNum && w'.link.pending == w.link.pending - {k}
              && w'.acking == w.acking + {k}
              && forall j :: j in w.link.pending && SeqOf(j) == seqNum ==> k <= j)
      && (id == 0 && (forall k :: k in w.link.pending ==> SeqOf(k) != seqNum) ==> w' == w)
  {
    var l := w.link;
    if id != 0 && KeyOf(id, seqNum) !in l.pending {
      assert l.pending - {KeyOf(id, seqNum)} == l.pending;
    }
    if id == 0 {
      var matches := Matches(l, seqNum);
      if k :| k in l.pending && SeqOf(k) == seqNum {
        assert k in matches;
        var least := Min(matches);
        assert least in l.pending && SeqOf(least) == seqNum;
        forall j | j in l.pending && SeqOf(j) == seqNum
          ensures least <= j
        {
          assert j in matches;
        }
      }
    }
  }
}
