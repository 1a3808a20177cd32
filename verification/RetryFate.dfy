/** What becomes of a message, over every run. */
module RetryFate {
  import opened Common
  import opened RetrySpec
  import opened RetryMessages
  import opened RetryRuns

  function TallyIn(c: Config, w: World, k: Key): Tally {
    TallyOf(c.maxRetries, w.link.log, k)
  }

  /** Final reports about a message: SUCCESS and OnDeliveryFailed. */
  function ReportsIn(c: Config, w: World, k: Key): nat {
    Reports(TallyIn(c, w, k))
  }

  lemma CellIs(c: Config, ops: seq<Op>, ws: seq<World>, i: nat, k: Key)
    requires IsRun(c, ops, ws) && i <= |ops|
    ensures i < |ws| && Even(ws[i]) && Good(c, CellOf(c, ws[i], k)) && CellOf(c, ws[i], k).tally == TallyIn(c, ws[i], k)
  {
    hide Good, TallyOf;
    RunSound(c, ops, ws, i);
  }

  /** The message under `k` makes one step of its automaton, or none. */
  lemma CellSteps(c: Config, ops: seq<Op>, ws: seq<World>, i: nat, k: Key)
    requires IsRun(c, ops, ws) && i < |ops|
    ensures |ws| == |ops| + 1 && Legal(ws[i], ops[i]) && ws[i + 1] == Step(c, ws[i], ops[i])
    ensures Good(c, CellOf(c, ws[i], k)) && Follows(c, ws[i], ops[i], k)
  {
    hide Good, TallyOf, Legal, Step, Follows;
    RunSound(c, ops, ws, i);
    StepFollows(c, ws[i], ops[i], k);
  }

  // ---------------------------------------------------------------------------------------------
  // Registrations
  // ---------------------------------------------------------------------------------------------

  /** At every moment the map is within its cap, and successful Adds = SUCCESS signals + TIMEOUT signals +
      cancels + entries pending + entries taken whose signal is still to come.  What is pending is stored, unless
      its first send failed, which was then reported. */
  lemma Conservation(c: Config, ops: seq<Op>, ws: seq<World>, i: nat)
    requires IsRun(c, ops, ws) && i <= |ops|
    ensures var w := ws[i];
      && |w.link.pending| <= MAX_PENDING && Balance(w.link.log) == |w.link.pending| + |w.batch| + |w.acking|
      && forall k :: k in w.link.pending && k !in w.link.store ==>
           var t := TallyIn(c, w, k); !t.sent && t.refused == t.failures == 1 && t.successes == 0
  {
    hide IsRun, TallyOf, Balance, Good;
    CellIs(c, ops, ws, i, 0);
    forall k | k in ws[i].link.pending && k !in ws[i].link.store
      ensures var t := TallyIn(c, ws[i], k); !t.sent && t.refused == t.failures == 1 && t.successes == 0
    {
      CellIs(c, ops, ws, i, k);
      StrayMeans(c, CellOf(c, ws[i], k));
    }
  }

  lemma StrayMeans(c: Config, x: Cell)
    requires Good(c, x) && Stray(x)
    ensures !x.tally.sent && x.tally.refused == x.tally.failures == 1 && x.tally.successes == 0
  {
  }

  predicate StrayIn(w: World, k: Key) {
    k in w.link.pending && k !in w.link.store
  }

  /** The registration of a first send is renewed when the message has been erased, or the message is erased
      after it was renewed. */
  predicate LeavesStray(w: World, op: Op, k: Key) {
    || (op.Readd? && w.job == Renewing(k) && k !in w.link.store && CanAdd(w.link, k))
    || (op == Quit(k) && k in w.link.pending)
  }

  /** A key becomes pending without being stored by exactly those steps. */
  lemma StrayIff(c: Config, ops: seq<Op>, ws: seq<World>, i: nat, k: Key)
    requires IsRun(c, ops, ws) && i < |ops|
    ensures StrayIn(ws[i + 1], k) && !StrayIn(ws[i], k) <==> LeavesStray(ws[i], ops[i], k)
  {
    hide IsRun, TallyOf, Step, Good, RetryMessages.Next, AckTarget, Taken;
    CellSteps(c, ops, ws, i, k);
    var x, e := CellOf(c, ws[i], k), EventFor(c, ws[i], ops[i], k);
    assert CellOf(c, ws[i + 1], k).pending == (k in ws[i + 1].link.pending);
    if e.Some? {
      StraysIff(c, x, k, e.value);
    }
  }

  /** No thread is at work. */
  predicate Quiet(w: World) {
    w.senders == map[] && w.acking == {} && w.batch == [] && w.job.Free?
  }

  /** When no thread is at work, the retry store and the pending map have the same keys, if and only if no stored
      message was forgotten by a registration that was refused, and no failed one is still registered. */
  lemma StoreIsPendingIff(c: Config, ops: seq<Op>, ws: seq<World>, i: nat)
    requires IsRun(c, ops, ws) && i <= |ops| && Quiet(ws[i])
    ensures ws[i].link.store.Keys == ws[i].link.pending.Keys
      <==> && (forall k :: k in ws[i].link.store ==> !TallyIn(c, ws[i], k).forgotten)
           && (forall k :: k in ws[i].link.pending ==> TallyIn(c, ws[i], k).failures == 0)
  {
    hide IsRun, TallyOf;
    RunSound(c, ops, ws, i);
    var w := ws[i];
    forall k: Key
      ensures k in w.link.store ==> (TallyIn(c, w, k).forgotten <==> k !in w.link.pending)
      ensures k in w.link.pending ==> (TallyIn(c, w, k).failures == 0 <==> k in w.link.store)
    {
      CellIs(c, ops, ws, i, k);
      QuietMeans(c, CellOf(c, w, k));
    }
  }

  lemma QuietMeans(c: Config, x: Cell)
    requires Good(c, x) && x.stage.Outside? && x.job.Free? && !x.out && !x.acking
    ensures x.entry.Some? ==> (x.tally.forgotten <==> !x.pending)
    ensures x.pending ==> (x.tally.failures == 0 <==> x.entry.Some?)
  {
  }

  /** No TIMEOUT is signalled for a message whose first send is under way. */
  predicate InTime(w: World, op: Op) {
    op.FireNext? && w.batch != [] ==> w.batch[0] !in w.senders
  }

  lemma {:induction false} RunPlain(c: Config, ops: seq<Op>, ws: seq<World>, i: nat, k: Key)
    requires IsRun(c, ops, ws) && i <= |ops|
    requires forall j :: 0 <= j < i ==> InTime(ws[j], ops[j])
    ensures Plain(CellOf(c, ws[i], k))
    decreases i
  {
    hide IsRun, TallyOf, Step, Good, RetryMessages.Next, AckTarget, Taken, Plain;
    if i == 0 {
      StartIs(c, ops, ws, k);
    } else {
      RunPlain(c, ops, ws, i - 1, k);
      CellSteps(c, ops, ws, i - 1, k);
      var e := EventFor(c, ws[i - 1], ops[i - 1], k);
      if e.Some? {
        assert InTime(ws[i - 1], ops[i - 1]);
        NextPlain(c, CellOf(c, ws[i - 1], k), k, e.value);
      }
    }
  }

  lemma StartIs(c: Config, ops: seq<Op>, ws: seq<World>, k: Key)
    requires IsRun(c, ops, ws)
    ensures var x := CellOf(c, ws[0], k);
      x == Cell(false, None, UNKNOWN, Outside, Free, false, false) && Plain(x) && Tidy(x) && Admitted(x)
  {
  }

  /** That is so on every run on which no first send takes so long that it is timed out. */
  lemma StoreIsPending(c: Config, ops: seq<Op>, ws: seq<World>, i: nat)
    requires IsRun(c, ops, ws) && i <= |ops| && Quiet(ws[i])
    requires forall j :: 0 <= j < i ==> InTime(ws[j], ops[j])
    ensures ws[i].link.store.Keys == ws[i].link.pending.Keys
  {
    hide IsRun, TallyOf, Good, Quiet;
    RunSound(c, ops, ws, i);
    forall k: Key
      ensures !TallyIn(c, ws[i], k).forgotten
      ensures k in ws[i].link.pending ==> TallyIn(c, ws[i], k).failures == 0
    {
      RunPlain(c, ops, ws, i, k);
      CellIs(c, ops, ws, i, k);
      if k in ws[i].link.pending {
        PendingUnreported(c, CellOf(c, ws[i], k));
      }
    }
    StoreIsPendingIff(c, ops, ws, i);
  }

  lemma PendingUnreported(c: Config, x: Cell)
    requires Good(c, x) && Plain(x) && x.pending
    ensures x.tally.failures == 0
  {
  }

  /** There is room in the pending map for everything that Process has taken out of it. */
  predicate Room(w: World) {
    |w.link.pending| + |w.batch| + (if w.job.Renewing? || w.job.Readding? then 1 else 0) <= MAX_PENDING
  }

  /** No message is registered for the first time while Process is at work. */
  predicate NoNewcomer(w: World, op: Op) {
    op.Register? ==> w.batch == [] && !w.job.Renewing? && !w.job.Readding?
  }

  lemma StepRoom(c: Config, w: World, op: Op)
    requires Legal(w, op) && Room(w) && NoNewcomer(w, op)
    ensures Room(Step(c, w, op))
  {
    hide AckTarget, Taken;
    match op
    case TakeBatch(now) =>
      TakenPending(c, w.link, now);
      EraseCounts(w.link.pending.Keys, Taken(c, w.link, now));
      assert Erase(w.link, Taken(c, w.link, now)).pending.Keys == w.link.pending.Keys - ToSet(Taken(c, w.link, now));
    case Acknowledge(seqNum, id) => TargetPending(w.link, seqNum, id);
    case _ =>
  }

  lemma {:induction false} RunRoom(c: Config, ops: seq<Op>, ws: seq<World>, i: nat)
    requires IsRun(c, ops, ws) && i <= |ops|
    requires forall j :: 0 <= j < i ==> NoNewcomer(ws[j], ops[j])
    ensures Room(ws[i])
    decreases i
  {
    hide Step, Legal;
    if i > 0 {
      RunRoom(c, ops, ws, i - 1);
      StepRoom(c, ws[i - 1], ops[i - 1]);
    }
  }

  /** When no message is registered for the first time while Process is at work, there is room for what it took
      out: no registration of a retry or of a running first send is ever refused. */
  lemma {:induction false} RunAdmitted(c: Config, ops: seq<Op>, ws: seq<World>, i: nat, k: Key)
    requires IsRun(c, ops, ws) && i <= |ops|
    requires forall j :: 0 <= j < i ==> NoNewcomer(ws[j], ops[j])
    ensures Admitted(CellOf(c, ws[i], k))
    decreases i
  {
    hide IsRun, TallyOf, Step, Good, RetryMessages.Next, AckTarget, Taken, Admitted, NoNewcomer;
    if i == 0 {
      StartIs(c, ops, ws, k);
    } else {
      RunAdmitted(c, ops, ws, i - 1, k);
      CellSteps(c, ops, ws, i - 1, k);
      RunRoom(c, ops, ws, i - 1);
      var x, e := CellOf(c, ws[i - 1], k), EventFor(c, ws[i - 1], ops[i - 1], k);
      if e.Some? {
        if e.value.Readds? {
          AddingUnregistered(c, x);
        }
        NextAdmitted(c, x, k, e.value);
      }
    }
  }

  lemma AddingUnregistered(c: Config, x: Cell)
    requires Good(c, x) && Adding(x)
    ensures !x.pending
  {
  }

  // ---------------------------------------------------------------------------------------------
  // Reports
  // ---------------------------------------------------------------------------------------------

  /** SUCCESS is signalled for a message, or the failure of a physical send of it is reported, when it is no
      longer stored. */
  predicate ReportsErased(w: World, op: Op, k: Key) {
    k !in w.link.store && (op == Signal(k) || op == Quit(k) || (op.Abandon? && w.job == Abandoning(k)))
  }

  /** A message is reported a second time by exactly those steps. */
  lemma SecondReportIff(c: Config, ops: seq<Op>, ws: seq<World>, i: nat, k: Key)
    requires IsRun(c, ops, ws) && i < |ops|
    ensures ReportsIn(c, ws[i + 1], k) > 1 && ReportsIn(c, ws[i], k) <= 1 <==> ReportsErased(ws[i], ops[i], k)
  {
    hide IsRun, TallyOf, Step, Good, RetryMessages.Next, AckTarget, Taken, Reports;
    CellSteps(c, ops, ws, i, k);
    var x, e := CellOf(c, ws[i], k), EventFor(c, ws[i], ops[i], k);
    assert CellOf(c, ws[i + 1], k).tally == TallyIn(c, ws[i + 1], k);
    if e.Some? {
      RepeatsIff(c, x, k, e.value);
    }
  }

  ghost predicate ReportedOnce(c: Config, ws: seq<World>, k: Key) {
    forall i :: 0 <= i < |ws| ==> ReportsIn(c, ws[i], k) <= 1
  }

  ghost predicate NeverReportsErased(ops: seq<Op>, ws: seq<World>, k: Key)
    requires |ws| == |ops| + 1
  {
    forall i :: 0 <= i < |ops| ==> !ReportsErased(ws[i], ops[i], k)
  }

  /** At most one of SUCCESS and OnDeliveryFailed over a whole run, if and only if no such step is made. */
  lemma ReportedOnceIff(c: Config, ops: seq<Op>, ws: seq<World>, k: Key)
    requires IsRun(c, ops, ws)
    ensures ReportedOnce(c, ws, k) <==> NeverReportsErased(ops, ws, k)
  {
    hide IsPath, ReportsIn, ReportsErased;
    RunShape(c, ops, ws);
    if NeverReportsErased(ops, ws, k) {
      forall i | 0 <= i < |ws|
        ensures ReportsIn(c, ws[i], k) <= 1
      {
        OnceUpTo(c, ops, ws, k, i);
      }
    } else {
      var i: nat :| i < |ops| && ReportsErased(ws[i], ops[i], k);
      SecondReportIff(c, ops, ws, i, k);
      assert ReportsIn(c, ws[i + 1], k) > 1;
    }
  }

  lemma {:induction false} OnceUpTo(c: Config, ops: seq<Op>, ws: seq<World>, k: Key, i: nat)
    requires IsRun(c, ops, ws) && i <= |ops| && NeverReportsErased(ops, ws, k)
    ensures ReportsIn(c, ws[i], k) <= 1
    decreases i
  {
    hide ReportsIn, ReportsErased, IsPath;
    RunShape(c, ops, ws);
    if i == 0 {
      StartOnce(c, k);
    } else {
      OnceUpTo(c, ops, ws, k, i - 1);
      SecondReportIff(c, ops, ws, i - 1, k);
    }
  }

  lemma StartOnce(c: Config, k: Key)
    ensures ReportsIn(c, START, k) == 0
  {
  }

  /** There is never a third report, and a second one only if a physical send of the message returned an error:
      so a message whose sends all succeed is reported at most once, in every interleaving. */
  lemma SecondNeedsRefusal(c: Config, ops: seq<Op>, ws: seq<World>, i: nat, k: Key)
    requires IsRun(c, ops, ws) && i <= |ops|
    ensures i < |ws| && ReportsIn(c, ws[i], k) <= 2
    ensures ReportsIn(c, ws[i], k) == 2 ==> TallyIn(c, ws[i], k).refused == 1 && TallyIn(c, ws[i], k).successes <= 1
  {
    hide IsRun, TallyOf;
    CellIs(c, ops, ws, i, k);
    AtMostTwice(c, CellOf(c, ws[i], k));
  }

  lemma AtMostTwice(c: Config, x: Cell)
    requires Good(c, x)
    ensures Reports(x.tally) <= 2
    ensures Reports(x.tally) == 2 ==> x.tally.refused == 1 && x.tally.successes <= 1
  {
  }

  /** While a call of SendWithRetry or a reaction to a TIMEOUT is under way, nothing else happens. */
  predicate Serialised(w: World, op: Op) {
    && (w.senders != map[] ==> op.Register? || op.End? || op.Quit?)
    && (!w.job.Free? ==> op.Readd? || op.ResendDone? || op.Abandon?)
  }

  lemma {:induction false} RunTidy(c: Config, ops: seq<Op>, ws: seq<World>, i: nat, k: Key)
    requires IsRun(c, ops, ws) && i <= |ops|
    requires forall j :: 0 <= j < i ==> Serialised(ws[j], ops[j])
    ensures Tidy(CellOf(c, ws[i], k))
    decreases i
  {
    hide IsRun, TallyOf, Step, Good, RetryMessages.Next, AckTarget, Taken, Tidy, Serialised;
    if i == 0 {
      StartIs(c, ops, ws, k);
    } else {
      RunTidy(c, ops, ws, i - 1, k);
      CellSteps(c, ops, ws, i - 1, k);
      assert Serialised(ws[i - 1], ops[i - 1]);
      StepTidy(c, ws[i - 1], ops[i - 1], k);
    }
  }

  lemma StepTidy(c: Config, w: World, op: Op, k: Key)
    requires Legal(w, op) && Serialised(w, op) && Follows(c, w, op, k)
    requires Good(c, CellOf(c, w, k)) && Tidy(CellOf(c, w, k))
    ensures Tidy(CellOf(c, Step(c, w, op), k)) && !ReportsErased(w, op, k)
  {
    hide TallyOf, Step, Good, RetryMessages.Next, AckTarget, Taken, Tidy;
    var e := EventFor(c, w, op, k);
    if e.Some? {
      NextTidy(c, CellOf(c, w, k), k, e.value);
    }
  }

  /** With serialised sends every message is reported at most once. */
  lemma SerialisedReportsOnce(c: Config, ops: seq<Op>, ws: seq<World>, k: Key)
    requires IsRun(c, ops, ws)
    requires forall j :: 0 <= j < |ops| ==> Serialised(ws[j], ops[j])
    ensures ReportedOnce(c, ws, k)
  {
    hide IsRun, TallyOf, Step, Good, Tidy, Serialised, ReportsErased, ReportedOnce, Follows;
    ReportedOnceIff(c, ops, ws, k);
    RunSound(c, ops, ws, 0);
    forall i: nat | i < |ops|
      ensures !ReportsErased(ws[i], ops[i], k)
    {
      RunTidy(c, ops, ws, i, k);
      CellSteps(c, ops, ws, i, k);
      StepTidy(c, ws[i], ops[i], k);
    }
  }

  /** Every message, in every interleaving: never more than maxRetries + 1 physical sends, all with the
      submitted bytes; nothing final while it is stored, and something final when it no longer is; given up on its
      (maxRetries+1)-th timeout, and not before unless a physical send or a registration failed. */
  lemma MessageFate(c: Config, ops: seq<Op>, ws: seq<World>, i: nat, k: Key)
    requires IsRun(c, ops, ws) && i <= |ops|
    ensures i < |ws|
    ensures var w, t := ws[i], TallyIn(c, ws[i], k);
      && t.physical <= Retries(c) + 1 && t.faithful && t.timeouts <= Retries(c) + 1
      && (t.submitted ==> (k in w.link.store <==> Reports(t) == 0))
      && (t.timeouts == Retries(c) + 1 ==> k !in w.link.store && t.failures >= 1 && t.successes == 0)
      && (t.failures >= 1 && t.refused == t.rejected == 0 ==> t.timeouts == Retries(c) + 1)
  {
    hide IsRun, TallyOf;
    CellIs(c, ops, ws, i, k);
    FateOf(c, CellOf(c, ws[i], k));
  }

  lemma FateOf(c: Config, x: Cell)
    requires Good(c, x)
    ensures var t := x.tally;
      && t.physical <= Retries(c) + 1 && t.faithful && t.timeouts <= Retries(c) + 1
      && (t.submitted ==> (x.entry.Some? <==> Reports(t) == 0))
      && (t.timeouts == Retries(c) + 1 ==> x.entry.None? && t.failures >= 1 && t.successes == 0)
      && (t.failures >= 1 && t.refused == t.rejected == 0 ==> t.timeouts == Retries(c) + 1)
  {
  }

  // ---------------------------------------------------------------------------------------------
  // Messages that are lost
  // ---------------------------------------------------------------------------------------------

  /** Stored, but nothing will ever deal with it again. */
  predicate Lost(w: World, k: Key) {
    && k in w.link.store && k !in w.link.pending && k !in w.acking && k !in w.batch
    && StageIn(w, k).Outside? && !JobAt(w, k)
  }

  lemma LostIs(c: Config, w: World, k: Key)
    ensures var x := CellOf(c, w, k);
      Lost(w, k) <==> x.entry.Some? && !Held(x) && x.stage.Outside? && x.job.Free?
  {
    hide TallyOf;
  }

  /** A lost message stays lost whatever happens, and is never reported. */
  lemma {:induction false} LostForGood(c: Config, ops: seq<Op>, ws: seq<World>, i: nat, n: nat, k: Key)
    requires IsRun(c, ops, ws) && i <= n <= |ops| && i < |ws| && Lost(ws[i], k)
    ensures n < |ws| && Lost(ws[n], k) && ReportsIn(c, ws[n], k) == 0
    decreases n
  {
    hide IsRun, TallyOf, Step, Good, RetryMessages.Next, AckTarget, Taken, Reports;
    if i < n {
      LostForGood(c, ops, ws, i, n - 1, k);
      CellSteps(c, ops, ws, n - 1, k);
      var x, y := CellOf(c, ws[n - 1], k), CellOf(c, ws[n], k);
      LostIs(c, ws[n - 1], k);
      NoStep(x);
      LostIs(c, ws[n], k);
      assert y == x;
    }
    CellIs(c, ops, ws, n, k);
    assert CellOf(c, ws[n], k).entry.Some?;
    StoredUnreported(c, CellOf(c, ws[n], k));
  }

  lemma NoStep(x: Cell)
    requires x.entry.Some? && !Held(x) && x.stage.Outside? && x.job.Free?
    ensures forall e :: !Can(x, e)
  {
  }

  lemma StoredUnreported(c: Config, x: Cell)
    requires Good(c, x) && x.entry.Some?
    ensures Reports(x.tally) == 0
  {
  }

  /** A stored message whose call of SendWithRetry is over is lost if and only if a registration of it was once
      refused while its first send was under way. */
  lemma LostIff(c: Config, ops: seq<Op>, ws: seq<World>, i: nat, k: Key)
    requires IsRun(c, ops, ws) && i <= |ops| && i < |ws| && k in ws[i].link.store && k !in ws[i].senders
    ensures Lost(ws[i], k) <==> TallyIn(c, ws[i], k).forgotten
  {
    hide IsRun, TallyOf;
    CellIs(c, ops, ws, i, k);
    ForgottenMeans(c, CellOf(c, ws[i], k));
  }

  lemma ForgottenMeans(c: Config, x: Cell)
    requires Good(c, x) && x.entry.Some? && x.stage.Outside?
    ensures x.tally.forgotten <==> !Held(x) && x.job.Free?
  {
  }
}
