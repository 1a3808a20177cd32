/** One message of the acknowledge / timeout / retry protocol: everything that concerns its key, as an automaton
    whose steps are the critical sections of RetryMonitor.h and TransportMonitor.h. */
module RetryMessages {
  import opened Common
  import opened RetrySpec

  // ---------------------------------------------------------------------------------------------
  // Reading the log
  // ---------------------------------------------------------------------------------------------

  /** What the log says of one key since it was last submitted.  Timeouts count from the moment the
      first physical send has returned; with no retries allowed they count at once. */
  datatype Tally = Tally(submitted: bool, packet: Packet, sent: bool, physical: nat, timeouts: nat,
                         rejected: nat, refused: nat, successes: nat, failures: nat,
                         faithful: bool, forgotten: bool)

  const UNKNOWN := Tally(false, [], false, 0, 0, 0, 0, 0, 0, true, false)

  function Update(maxRetries: int, t: Tally, o: Obs, k: Key): Tally {
    match o
    case Submit(j, packet) => if j == k then UNKNOWN.(submitted := true, packet := packet) else t
    case Physical(j, packet) =>
      if j == k then t.(physical := t.physical + 1, faithful := t.faithful && packet == t.packet) else t
    case Accepted(j) => if j == k then t.(sent := true) else t
    case Refused(j) => if j == k then t.(refused := t.refused + 1) else t
    case Rejected(j) => if j == k then t.(rejected := t.rejected + 1) else t
    case Timeout(j) => if j == k && (t.sent || maxRetries <= 0) then t.(timeouts := t.timeouts + 1) else t
    case Success(j) => if j == k then t.(successes := t.successes + 1) else t
    case Failed(j) => if j == k then t.(failures := t.failures + 1) else t
    case Forgotten(j) => if j == k then t.(forgotten := true) else t
    case _ => t
  }

  function TallyOf(maxRetries: int, log: seq<Obs>, k: Key): Tally {
    if log == [] then UNKNOWN
    else Update(maxRetries, TallyOf(maxRetries, log[..|log| - 1], k), log[|log| - 1], k)
  }

  /** Successful Adds minus SUCCESS signals, TIMEOUT signals and cancels. */
  function Balance(log: seq<Obs>): int {
    if log == [] then 0 else Balance(log[..|log| - 1]) + Delta(log[|log| - 1])
  }

  function Delta(o: Obs): int {
    if o.Added? then 1 else if o.Success? || o.Timeout? || o.Cancelled? then -1 else 0
  }

  predicate Concerns(o: Obs, k: Key) {
    !o.CapExceeded? && !o.PendingExceeded? && o.k == k
  }

  lemma NoteTally(m: int, l: Link, o: Obs, k: Key)
    ensures TallyOf(m, Note(l, o).log, k)
      == if Concerns(o, k) then Update(m, TallyOf(m, l.log, k), o, k) else TallyOf(m, l.log, k)
  {
    assert (l.log + [o])[..|l.log|] == l.log;
  }

  lemma NoteBalance(l: Link, o: Obs)
    ensures Balance(Note(l, o).log) == Balance(l.log) + Delta(o)
  {
    assert (l.log + [o])[..|l.log|] == l.log;
  }

  /** The retries a message can really get: a negative limit acts like none. */
  function Retries(c: Config): nat {
    if c.maxRetries > 0 then c.maxRetries else 0
  }

  // ---------------------------------------------------------------------------------------------
  // The automaton
  // ---------------------------------------------------------------------------------------------

  /** How far a call of SendWithRetry is. */
  datatype Stage =
    | Outside
    | Entering(packet: Packet)  // stored, about to be registered
    | Sending                   // the physical send runs
    | Quitting                  // it failed and its registration is cancelled; about to erase and report

  /** What the thread of Process does between two critical sections of the reaction to a TIMEOUT. */
  datatype Job =
    | Free
    | Renewing(k: Key)                   // it saw an unfinished first send; about to register the key again
    | Readding(k: Key, packet: Packet)   // it took one attempt off; about to register the key again
    | Resending(k: Key)                  // the physical send of a retry runs
    | Abandoning(k: Key)                 // it failed and its registration is cancelled; about to erase and report

  /** All that concerns one key: whether it is pending, its store entry, what the log says of it, its sender, what
      Process does with it, whether its TIMEOUT is still to be signalled (`out`) or its SUCCESS (`acking`). */
  datatype Cell = Cell(pending: bool, entry: Option<Entry>, tally: Tally, stage: Stage, job: Job,
                       out: bool, acking: bool)

  datatype Event =
    | Submits(packet: Packet)
    | Registers(added: bool)
    | Ends(ok: bool)
    | Quits
    | Erases                  // an acknowledgement takes the key out of the pending map
    | Signals                 // and signals SUCCESS
    | Takes                   // Process takes the key out of the pending map
    | Fires                   // and signals TIMEOUT
    | Readds(added: bool)
    | Retried(ok: bool)
    | Abandons

  predicate Can(x: Cell, e: Event) {
    match e
    case Submits(_) => x.entry.None? && !x.pending && x.stage.Outside? && x.job.Free? && !x.out && !x.acking
    case Registers(_) => x.stage.Entering?
    case Ends(_) => x.stage.Sending?
    case Quits => x.stage.Quitting?
    case Erases => x.pending
    case Signals => x.acking
    case Takes => x.pending && x.job.Free?
    case Fires => x.out && x.job.Free?
    case Readds(_) => x.job.Renewing? || x.job.Readding?
    case Retried(_) => x.job.Resending?
    case Abandons => x.job.Abandoning?
  }

  function Saw(c: Config, x: Cell, o: Obs, k: Key): Cell {
    x.(tally := Update(c.maxRetries, x.tally, o, k))
  }

  function Undone(c: Config, x: Cell, k: Key): Cell {
    if x.pending then Saw(c, x.(pending := false), Cancelled(k), k) else x
  }

  function Next(c: Config, x: Cell, k: Key, e: Event): Cell
    requires Can(x, e)
  {
    match e
    case Submits(packet) =>
      Saw(c, x.(entry := Some(Entry(packet, c.maxRetries, false)), stage := Entering(packet)), Submit(k, packet), k)
    case Registers(added) =>
      if added then Saw(c, Saw(c, x.(pending := true, stage := Sending), Added(k), k), Physical(k, x.stage.packet), k)
      else Saw(c, x.(stage := Quitting), Rejected(k), k)
    case Ends(ok) =>
      if !ok then Undone(c, Saw(c, x.(stage := Quitting), Refused(k), k), k)
      else
        var sent := if x.entry.Some? then Some(x.entry.value.(isSent := true)) else None;
        Saw(c, x.(entry := sent, stage := Outside), Accepted(k), k)
    case Quits => Saw(c, x.(entry := None, stage := Outside), Failed(k), k)
    case Erases => x.(pending := false, acking := true)
    case Signals => Saw(c, x.(entry := None, acking := false), Success(k), k)
    case Takes => x.(pending := false, out := true)
    case Fires =>
      var y := Saw(c, x.(out := false), Timeout(k), k);
      if y.entry.None? then y
      else
        var e := y.entry.value;
        if e.attemptsRemaining <= 0 then Saw(c, y.(entry := None), Failed(k), k)
        else if e.isSent then
          y.(entry := Some(e.(attemptsRemaining := e.attemptsRemaining - 1)), job := Readding(k, e.packet))
        else y.(job := Renewing(k))
    case Readds(added) =>
      if x.job.Renewing? then
        if added then Saw(c, x.(pending := true, job := Free), Added(k), k)
        else Saw(c, x.(job := Free), Forgotten(k), k)
      else if added then
        Saw(c, Saw(c, x.(pending := true, job := Resending(k)), Added(k), k), Physical(k, x.job.packet), k)
      else Saw(c, x.(job := Abandoning(k)), Rejected(k), k)
    case Retried(ok) =>
      if ok then Saw(c, x.(job := Free), Accepted(k), k)
      else Undone(c, Saw(c, x.(job := Abandoning(k)), Refused(k), k), k)
    case Abandons => Saw(c, x.(entry := None, job := Free), Failed(k), k)
  }

  // ---------------------------------------------------------------------------------------------
  // What a message keeps
  // ---------------------------------------------------------------------------------------------

  function Reports(t: Tally): nat {
    t.successes + t.failures
  }

  predicate Adding(x: Cell) {
    x.job.Renewing? || x.job.Readding?
  }

  /** A successful registration is somewhere: in the pending map, taken by an acknowledgement or by Process, or
      about to be made again. */
  predicate Held(x: Cell) {
    x.pending || x.out || x.acking || Adding(x)
  }

  /** And never in two places. */
  predicate HeldOnce(x: Cell) {
    && (x.pending ==> !x.out && !x.acking && !Adding(x))
    && (x.out ==> !x.acking && !Adding(x))
    && (x.acking ==> !Adding(x))
  }

  /** It was given up on its last timeout. */
  predicate Exhausted(c: Config, t: Tally) {
    t.timeouts == Retries(c) + 1
  }

  /** Counting: one physical send, and one more for each timeout that was followed by one. */
  predicate Counted(c: Config, x: Cell) {
    var t := x.tally;
    && t.faithful && t.timeouts <= Retries(c) + 1 && t.refused + t.rejected <= 1
    && t.physical + t.rejected + (if x.job.Readding? then 1 else 0) + (if Exhausted(c, t) then 1 else 0)
         == 1 + t.timeouts
    && (!t.sent && c.maxRetries > 0 ==> t.timeouts == 0)
  }

  /** A stored message: nothing final was reported. */
  predicate Stored(c: Config, x: Cell) {
    var t, e := x.tally, x.entry;
    e.Some? ==>
      && Reports(t) == 0 && !Exhausted(c, t)
      && e.value.packet == t.packet && e.value.isSent == t.sent
      && e.value.attemptsRemaining == c.maxRetries - t.timeouts
      && (t.forgotten ==> !Held(x) && x.job.Free? && !x.stage.Entering?)
      && (!t.sent ==> !x.stage.Outside?)
      && (t.refused + t.rejected == 1 <==> x.stage.Quitting? || x.job.Abandoning?)
      && ((x.stage.Outside? && x.job.Free?) || x.stage.Sending? ==> Held(x) || t.forgotten)
      && (x.job.Resending? ==> x.pending || x.acking)
  }

  /** A message that was erased: it has been reported, and a second time only if a physical send of it failed. */
  predicate Erased(c: Config, x: Cell) {
    var t := x.tally;
    x.entry.None? ==>
      && 1 <= Reports(t) <= 2 && t.successes <= 1
      && (Reports(t) == 2 ==> t.refused == 1 && !Held(x) && x.stage.Outside? && x.job.Free?)
      && (Held(x) ==> t.successes == 0 && t.refused == 1 && !Exhausted(c, t) && x.stage.Outside? && !x.job.Readding?)
      && (!x.stage.Outside? || x.job.Resending? || x.job.Abandoning? ==> Reports(t) == 1 && !Held(x))
      && (x.stage.Sending? || x.job.Resending? ==> t.refused == 0)
      && (x.stage.Quitting? || x.job.Abandoning? ==> t.refused == 1)
      && (t.rejected == 1 ==> Reports(t) == 1 && t.successes == 0)
      && (t.refused + t.rejected == 0 && t.failures > 0 ==> Exhausted(c, t))
      && (t.refused + t.rejected == 0 ==> Reports(t) == 1)
      && (t.refused == 1 && x.stage.Outside? && x.job.Free? ==> t.failures >= 1)
      && (Exhausted(c, t) ==> t.failures >= 1 && t.successes == 0)
      && (x.pending || x.job.Renewing? || x.out ==> !t.sent)
  }

  predicate Good(c: Config, x: Cell) {
    var t := x.tally;
    if !t.submitted then x == Cell(false, None, UNKNOWN, Outside, Free, false, false)
    else if x.stage.Entering? then
      && t == UNKNOWN.(submitted := true, packet := x.stage.packet) && !Held(x) && x.job.Free?
      && x.entry == Some(Entry(t.packet, c.maxRetries, false))
    else
      && HeldOnce(x) && Counted(c, x) && Stored(c, x) && Erased(c, x)
      && (x.stage.Sending? ==> t.refused + t.rejected == 0)
      && (x.stage.Quitting? ==> t.refused + t.rejected == 1 && (t.rejected == 1 ==> !Held(x) && x.entry.Some?))
      && (!x.stage.Outside? ==> !t.sent && (x.job.Free? || x.job.Renewing?))
      && (x.stage.Outside? && !t.sent ==> t.refused + t.rejected == 1 && (x.job.Free? || x.job.Renewing?))
      && (x.job.Readding? ==> x.entry.Some? && x.job.packet == t.packet)
      && (x.job.Resending? ==> t.refused + t.rejected == 0 && !x.out)
      && (x.job.Abandoning? ==> !x.pending && !x.out && t.refused + t.rejected == 1
                                && (t.rejected == 1 ==> !Held(x) && x.entry.Some?))
  }

  /** Every step keeps that. */
  lemma NextGood(c: Config, x: Cell, k: Key, e: Event)
    requires Good(c, x) && Can(x, e)
    ensures Good(c, Next(c, x, k, e))
  {
    hide Good, Next;
    match e
    case Submits(_) => EnterGood(c, x, k, e);
    case Registers(_) => EnterGood(c, x, k, e);
    case Ends(ok) => EndsGood(c, x, k, ok);
    case Quits => QuitsGood(c, x, k);
    case Fires => FiresGood(c, x, k);
    case Readds(added) => ReaddsGood(c, x, k, added);
    case Retried(ok) => RetriedGood(c, x, k, ok);
    case Abandons => AbandonsGood(c, x, k);
    case _ => MonitorGood(c, x, k, e);
  }

  lemma EnterGood(c: Config, x: Cell, k: Key, e: Event)
    requires Good(c, x) && Can(x, e) && (e.Submits? || e.Registers?)
    ensures Good(c, Next(c, x, k, e))
  {
  }

  lemma EndsGood(c: Config, x: Cell, k: Key, ok: bool)
    requires Good(c, x) && Can(x, Ends(ok))
    ensures Good(c, Next(c, x, k, Ends(ok)))
  {
  }

  lemma QuitsGood(c: Config, x: Cell, k: Key)
    requires Good(c, x) && Can(x, Quits)
    ensures Good(c, Next(c, x, k, Quits))
  {
  }

  lemma MonitorGood(c: Config, x: Cell, k: Key, e: Event)
    requires Good(c, x) && Can(x, e) && (e.Erases? || e.Signals? || e.Takes?)
    ensures Good(c, Next(c, x, k, e))
  {
  }

  lemma FiresGood(c: Config, x: Cell, k: Key)
    requires Good(c, x) && Can(x, Fires)
    ensures Good(c, Next(c, x, k, Fires))
  {
  }

  lemma ReaddsGood(c: Config, x: Cell, k: Key, added: bool)
    requires Good(c, x) && Can(x, Readds(added))
    ensures Good(c, Next(c, x, k, Readds(added)))
  {
  }

  lemma RetriedGood(c: Config, x: Cell, k: Key, ok: bool)
    requires Good(c, x) && Can(x, Retried(ok))
    ensures Good(c, Next(c, x, k, Retried(ok)))
  {
  }

  lemma AbandonsGood(c: Config, x: Cell, k: Key)
    requires Good(c, x) && Can(x, Abandons)
    ensures Good(c, Next(c, x, k, Abandons))
  {
  }

  /** A message is reported again by exactly those steps: SUCCESS is signalled for it, or the failure of one of
      its physical sends is reported, when it is no longer stored. */
  predicate Repeats(x: Cell, e: Event) {
    x.entry.None? && (e.Signals? || e.Quits? || e.Abandons?)
  }

  /** The last timeout, after which nothing is left but to give up. */
  predicate GivesUp(x: Cell, e: Event) {
    e.Fires? && x.entry.Some? && x.entry.value.attemptsRemaining <= 0
  }

  lemma SawReports(c: Config, x: Cell, o: Obs, k: Key)
    requires Concerns(o, k)
    ensures var y := Saw(c, x, o, k);
      && y == x.(tally := y.tally)
      && Reports(y.tally) == if o.Submit? then 0 else Reports(x.tally) + if o.Success? || o.Failed? then 1 else 0
  {
  }

  lemma UndoneReports(c: Config, x: Cell, k: Key)
    ensures Reports(Undone(c, x, k).tally) == Reports(x.tally)
  {
  }

  /** Which steps report. */
  lemma NextReports(c: Config, x: Cell, k: Key, e: Event)
    requires Can(x, e)
    ensures Reports(Next(c, x, k, e).tally) ==
      if e.Submits? then 0
      else Reports(x.tally) + if e.Signals? || e.Quits? || e.Abandons? || GivesUp(x, e) then 1 else 0
  {
    hide Saw, Undone, Reports;
    match e
    case Submits(packet) =>
      var y := x.(entry := Some(Entry(packet, c.maxRetries, false)), stage := Entering(packet));
      SawReports(c, y, Submit(k, packet), k);
    case Registers(added) =>
      var y := x.(pending := true, stage := Sending);
      SawReports(c, y, Added(k), k);
      SawReports(c, Saw(c, y, Added(k), k), Physical(k, x.stage.packet), k);
      SawReports(c, x.(stage := Quitting), Rejected(k), k);
    case Ends(ok) =>
      var sent := if x.entry.Some? then Some(x.entry.value.(isSent := true)) else None;
      SawReports(c, x.(entry := sent, stage := Outside), Accepted(k), k);
      SawReports(c, x.(stage := Quitting), Refused(k), k);
      UndoneReports(c, Saw(c, x.(stage := Quitting), Refused(k), k), k);
    case Quits => SawReports(c, x.(entry := None, stage := Outside), Failed(k), k);
    case Signals => SawReports(c, x.(entry := None, acking := false), Success(k), k);
    case Fires =>
      var y := x.(out := false);
      SawReports(c, y, Timeout(k), k);
      SawReports(c, Saw(c, y, Timeout(k), k).(entry := None), Failed(k), k);
    case Readds(added) =>
      var y := x.(pending := true, job := if x.job.Renewing? then Free else Resending(k));
      SawReports(c, y, Added(k), k);
      SawReports(c, x.(job := Free), Forgotten(k), k);
      SawReports(c, x.(job := Abandoning(k)), Rejected(k), k);
      if x.job.Readding? {
        SawReports(c, Saw(c, y, Added(k), k), Physical(k, x.job.packet), k);
      }
    case Retried(ok) =>
      SawReports(c, x.(job := Free), Accepted(k), k);
      SawReports(c, x.(job := Abandoning(k)), Refused(k), k);
      UndoneReports(c, Saw(c, x.(job := Abandoning(k)), Refused(k), k), k);
    case Abandons => SawReports(c, x.(entry := None, job := Free), Failed(k), k);
    case _ =>
  }

  /** A stored message is unreported; one that is still dealt with after it was erased was reported once. */
  lemma ReportsSoFar(c: Config, x: Cell)
    requires Good(c, x)
    ensures x.entry.Some? ==> Reports(x.tally) == 0
    ensures x.entry.None? && (x.acking || x.stage.Quitting? || x.job.Abandoning?) ==> Reports(x.tally) == 1
  {
    hide Counted;
  }

  lemma RepeatsIff(c: Config, x: Cell, k: Key, e: Event)
    requires Good(c, x) && Can(x, e)
    ensures Repeats(x, e) <==> Reports(x.tally) <= 1 && Reports(Next(c, x, k, e).tally) > 1
  {
    hide Next, Good, Reports;
    NextReports(c, x, k, e);
    ReportsSoFar(c, x);
  }

  /** A key that is pending although its message is no longer stored. */
  predicate Stray(x: Cell) {
    x.pending && x.entry.None?
  }

  /** That comes about in exactly two ways: the registration of a first send is renewed after the send failed
      and its message was erased, or between the cancelling of the registration and the erasing. */
  predicate Strays(x: Cell, e: Event) {
    (e == Readds(true) && x.job.Renewing? && x.entry.None?) || (e.Quits? && x.pending)
  }

  lemma StraysIff(c: Config, x: Cell, k: Key, e: Event)
    requires Good(c, x) && Can(x, e)
    ensures Strays(x, e) <==> !Stray(x) && Stray(Next(c, x, k, e))
  {
  }

  // ---------------------------------------------------------------------------------------------
  // What more can be said when less happens at once
  // ---------------------------------------------------------------------------------------------

  /** Nothing is left of an erased message, and what is under way is still registered. */
  predicate Tidy(x: Cell) {
    && (x.entry.None? ==> !Held(x) && x.stage.Outside? && x.job.Free?)
    && (x.stage.Sending? || x.job.Resending? ==> x.pending)
    && (x.stage.Quitting? || x.job.Abandoning? ==> !Held(x))
    && !x.job.Renewing?
  }

  /** No step of another thread falls into a call of SendWithRetry or into a reaction to a TIMEOUT. */
  predicate Undisturbed(x: Cell, e: Event) {
    && (e.Registers? || e.Ends? || e.Quits? || x.stage.Outside?)
    && (e.Readds? || e.Retried? || e.Abandons? || x.job.Free?)
  }

  lemma NextTidy(c: Config, x: Cell, k: Key, e: Event)
    requires Good(c, x) && Can(x, e) && Tidy(x) && Undisturbed(x, e)
    ensures Tidy(Next(c, x, k, e)) && !Repeats(x, e)
  {
  }

  /** No first send was timed out: no registration is renewed, refused or left behind. */
  predicate Plain(x: Cell) {
    !x.job.Renewing? && !x.tally.forgotten && !Stray(x) && (x.stage.Quitting? ==> !x.pending)
  }

  lemma NextPlain(c: Config, x: Cell, k: Key, e: Event)
    requires Good(c, x) && Can(x, e) && Plain(x) && (e.Fires? ==> x.stage.Outside?)
    ensures Plain(Next(c, x, k, e))
  {
  }

  /** No registration was ever refused, but for a message that was then never sent. */
  predicate Admitted(x: Cell) {
    !x.tally.forgotten && (x.tally.rejected > 0 ==> x.tally.physical == 0)
  }

  lemma NextAdmitted(c: Config, x: Cell, k: Key, e: Event)
    requires Good(c, x) && Can(x, e) && Admitted(x) && e != Readds(false)
    ensures Admitted(Next(c, x, k, e))
  {
  }
}
