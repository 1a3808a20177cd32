/** The protocol over whole runs.  Every critical section is a step of its own, and the steps of any number of
    senders, of receivers of acknowledgements and of one Process may fall in any order. */
module RetryRuns {
  import opened Common
  import opened RetrySpec
  import opened RetryMessages

  // ---------------------------------------------------------------------------------------------
  // Runs
  // ---------------------------------------------------------------------------------------------

  datatype Op =
    | Begin(k: Key, packet: Packet)            // SendWithRetry stores the message
    | Register(now: int, k: Key)               // it registers the key, and starts the physical send if it could
    | End(k: Key, ok: bool)                    // the send returns; on an error the registration is cancelled
    | Quit(k: Key)                             // the message that could not be sent is erased and reported
    | Acknowledge(seqNum: uint16, id: uint16)  // an acknowledgement takes an entry out of the map
    | Signal(k: Key)                           // and signals SUCCESS, upon which the message is erased
    | TakeBatch(now: int)                      // Process takes expired entries out of the map
    | FireNext                                 // it signals the next TIMEOUT, and the retry monitor decides
    | Readd(now: int)                          // it registers the key again, and starts the retry if there is one
    | ResendDone(ok: bool)                     // the retry returns; on an error the registration is cancelled
    | Abandon                                  // the message that could not be sent is erased and reported
    | Remark(size: nat)                        // Process reports that expired entries were left behind

  /** The link; the calls of SendWithRetry under way; the keys whose SUCCESS is still to be signalled; those whose
      TIMEOUT is; and where the reaction to the last TIMEOUT stands. */
  datatype World = World(link: Link, senders: map<Key, Stage>, acking: set<Key>, batch: seq<Key>, job: Job)

  const START := World(Link(map[], map[], []), map[], {}, [], Free)

  predicate JobAt(w: World, k: Key) {
    !w.job.Free? && w.job.k == k
  }

  /** Nothing deals with the key. */
  predicate Unused(w: World, k: Key) {
    k !in w.link.store && k !in w.link.pending && k !in w.senders && k !in w.acking && k !in w.batch && !JobAt(w, k)
  }

  /** A key may be submitted again only when nothing deals with it any more; one Process runs at a time. */
  predicate Legal(w: World, op: Op) {
    match op
    case Begin(k, _) => Unused(w, k)
    case Register(_, k) => k in w.senders && w.senders[k].Entering?
    case End(k, _) => k in w.senders && w.senders[k].Sending?
    case Quit(k) => k in w.senders && w.senders[k].Quitting?
    case Acknowledge(_, _) => true
    case Signal(k) => k in w.acking
    case TakeBatch(_) => w.batch == [] && w.job.Free?
    case FireNext => w.batch != [] && w.job.Free?
    case Readd(_) => w.job.Renewing? || w.job.Readding?
    case ResendDone(_) => w.job.Resending?
    case Abandon => w.job.Abandoning?
    case Remark(_) => w.batch == [] && w.job.Free?
  }

  function Registered(w: World, now: int, k: Key, packet: Packet): World {
    var l := Add(w.link, now, k);
    if CanAdd(w.link, k) then w.(link := Note(l, Physical(k, packet)), senders := w.senders[k := Sending])
    else w.(link := Note(l, Rejected(k)), senders := w.senders[k := Quitting])
  }

  function Returned(l: Link, k: Key): Link {
    var l1 := Note(l, Accepted(k));
    if k in l1.store then l1.(store := l1.store[k := l1.store[k].(isSent := true)]) else l1
  }

  /** The critical section of the reaction to a TIMEOUT. */
  function Decided(w: World, k: Key): World {
    if k !in w.link.store then w
    else
      var l, e := w.link, w.link.store[k];
      if e.attemptsRemaining <= 0 then w.(link := GiveUp(l, k))
      else if e.isSent then
        w.(link := l.(store := l.store[k := e.(attemptsRemaining := e.attemptsRemaining - 1)]),
           job := Readding(k, e.packet))
      else w.(job := Renewing(k))
  }

  function Readded(w: World, now: int): World
    requires w.job.Renewing? || w.job.Readding?
  {
    var k, l := w.job.k, Add(w.link, now, w.job.k);
    if w.job.Renewing? then w.(link := if CanAdd(w.link, k) then l else Note(l, Forgotten(k)), job := Free)
    else if CanAdd(w.link, k) then w.(link := Note(l, Physical(k, w.job.packet)), job := Resending(k))
    else w.(link := Note(l, Rejected(k)), job := Abandoning(k))
  }

  ghost function Step(c: Config, w: World, op: Op): World
    requires Legal(w, op)
  {
    var l := w.link;
    match op
    case Begin(k, packet) =>
      var stored := l.(store := l.store[k := Entry(packet, c.maxRetries, false)]);
      w.(link := Note(stored, Submit(k, packet)), senders := w.senders[k := Entering(packet)])
    case Register(now, k) => Registered(w, now, k, w.senders[k].packet)
    case End(k, ok) =>
      if ok then w.(link := Returned(l, k), senders := w.senders - {k})
      else w.(link := Cancel(Note(l, Refused(k)), k), senders := w.senders[k := Quitting])
    case Quit(k) => w.(link := GiveUp(l, k), senders := w.senders - {k})
    case Acknowledge(seqNum, id) =>
      (match AckTarget(l, seqNum, id)
       case None => w
       case Some(k) => w.(link := l.(pending := l.pending - {k}), acking := w.acking + {k}))
    case Signal(k) => w.(link := Drop(Note(l, Success(k)), k), acking := w.acking - {k})
    case TakeBatch(now) => w.(link := Erase(l, Taken(c, l, now)), batch := Taken(c, l, now))
    case FireNext =>
      var k := w.batch[0];
      Decided(w.(link := Note(l, Timeout(k)), batch := w.batch[1..]), k)
    case Readd(now) => Readded(w, now)
    case ResendDone(ok) =>
      var k := w.job.k;
      if ok then w.(link := Note(l, Accepted(k)), job := Free)
      else w.(link := Cancel(Note(l, Refused(k)), k), job := Abandoning(k))
    case Abandon => w.(link := GiveUp(l, w.job.k), job := Free)
    case Remark(size) => w.(link := Note(l, PendingExceeded(size)))
  }

  /** Each world follows from the one before it by a legal operation. */
  ghost predicate IsPath(c: Config, ops: seq<Op>, ws: seq<World>) {
    && |ws| == |ops| + 1
    && forall i {:trigger ops[i]} :: 0 <= i < |ops| ==> Legal(ws[i], ops[i]) && ws[i + 1] == Step(c, ws[i], ops[i])
  }

  ghost predicate IsRun(c: Config, ops: seq<Op>, ws: seq<World>) {
    IsPath(c, ops, ws) && ws[0] == START
  }

  lemma RunShape(c: Config, ops: seq<Op>, ws: seq<World>)
    requires IsPath(c, ops, ws)
    ensures |ws| == |ops| + 1
  {
  }

  // ---------------------------------------------------------------------------------------------
  // Every step is a step of the automaton of each message, or leaves it as it is
  // ---------------------------------------------------------------------------------------------

  function StageIn(w: World, k: Key): Stage {
    if k in w.senders then w.senders[k] else Outside
  }

  function CellOf(c: Config, w: World, k: Key): Cell {
    Cell(k in w.link.pending,
         if k in w.link.store then Some(w.link.store[k]) else None,
         TallyOf(c.maxRetries, w.link.log, k),
         StageIn(w, k),
         if JobAt(w, k) then w.job else Free,
         k in w.batch,
         k in w.acking)
  }

  function Only(k: Key, j: Key, e: Event): Option<Event> {
    if j == k then Some(e) else None
  }

  /** What a step means for the message under `k`. */
  ghost function EventFor(c: Config, w: World, op: Op, k: Key): Option<Event>
    requires Legal(w, op)
  {
    match op
    case Begin(j, packet) => Only(k, j, Submits(packet))
    case Register(_, j) => Only(k, j, Registers(CanAdd(w.link, j)))
    case End(j, ok) => Only(k, j, Ends(ok))
    case Quit(j) => Only(k, j, Quits)
    case Acknowledge(seqNum, id) => if AckTarget(w.link, seqNum, id) == Some(k) then Some(Erases) else None
    case Signal(j) => Only(k, j, Signals)
    case TakeBatch(now) => if k in Taken(c, w.link, now) then Some(Takes) else None
    case FireNext => Only(k, w.batch[0], Fires)
    case Readd(_) => Only(k, w.job.k, Readds(CanAdd(w.link, w.job.k)))
    case ResendDone(ok) => Only(k, w.job.k, Retried(ok))
    case Abandon => Only(k, w.job.k, Abandons)
    case Remark(_) => None
  }

  /** The message under `k` makes the step that `EventFor` says. */
  ghost predicate Follows(c: Config, w: World, op: Op, k: Key)
    requires Legal(w, op)
  {
    var x, y, e := CellOf(c, w, k), CellOf(c, Step(c, w, op), k), EventFor(c, w, op, k);
    if e.None? then y == x else Can(x, e.value) && y == Next(c, x, k, e.value)
  }

  lemma EnterFollows(c: Config, w: World, op: Op, k: Key)
    requires Legal(w, op) && (op.Begin? || op.Register?)
    ensures Follows(c, w, op, k)
  {
    hide TallyOf, Update, Add, CanAdd;
    var m, l := c.maxRetries, w.link;
    match op
    case Begin(j, packet) =>
      NoteTally(m, l.(store := l.store[j := Entry(packet, m, false)]), Submit(j, packet), k);
    case Register(now, j) =>
      AddTally(m, l, now, j, k);
      AddPending(l, now, j);
      NoteTally(m, Add(l, now, j), Physical(j, w.senders[j].packet), k);
      NoteTally(m, Add(l, now, j), Rejected(j), k);
  }

  lemma EndFollows(c: Config, w: World, op: Op, k: Key)
    requires Legal(w, op) && (op.End? || op.Quit?)
    ensures Follows(c, w, op, k)
  {
    hide TallyOf, Update;
    var m, l := c.maxRetries, w.link;
    match op
    case End(j, ok) =>
      NoteTally(m, l, Accepted(j), k);
      NoteTally(m, l, Refused(j), k);
      CancelTally(m, Note(l, Refused(j)), j, k);
    case Quit(j) => NoteTally(m, Drop(l, j), Failed(j), k);
  }

  lemma AddTally(m: int, l: Link, now: int, j: Key, k: Key)
    ensures TallyOf(m, Add(l, now, j).log, k)
      == if CanAdd(l, j) && j == k then Update(m, TallyOf(m, l.log, k), Added(j), k) else TallyOf(m, l.log, k)
  {
    hide TallyOf;
    NoteTally(m, l, CapExceeded(|l.pending|), k);
    NoteTally(m, l.(pending := l.pending[j := now]), Added(j), k);
  }

  lemma CancelTally(m: int, l: Link, j: Key, k: Key)
    ensures TallyOf(m, Cancel(l, j).log, k)
      == if j in l.pending && j == k then Update(m, TallyOf(m, l.log, k), Cancelled(j), k) else TallyOf(m, l.log, k)
  {
    hide TallyOf;
    NoteTally(m, l.(pending := l.pending - {j}), Cancelled(j), k);
  }

  lemma AckFollows(c: Config, w: World, op: Op, k: Key)
    requires Legal(w, op) && (op.Acknowledge? || op.Signal?)
    ensures Follows(c, w, op, k)
  {
    hide TallyOf, Update, AckTarget;
    match op
    case Acknowledge(seqNum, id) => TargetPending(w.link, seqNum, id);
    case Signal(j) => NoteTally(c.maxRetries, w.link, Success(j), k);
  }

  lemma TakeFollows(c: Config, w: World, op: Op, k: Key)
    requires Legal(w, op) && (op.TakeBatch? || op.Remark?)
    ensures Follows(c, w, op, k)
  {
    hide TallyOf, Update, Taken;
    match op
    case TakeBatch(now) => TakenPending(c, w.link, now);
    case Remark(size) => NoteTally(c.maxRetries, w.link, PendingExceeded(size), k);
  }

  lemma TargetPending(l: Link, seqNum: uint16, id: uint16)
    ensures AckTarget(l, seqNum, id).Some? ==> AckTarget(l, seqNum, id).value in l.pending
  {
  }

  lemma TakenPending(c: Config, l: Link, now: int)
    ensures Distinct(Taken(c, l, now)) && forall k :: k in Taken(c, l, now) ==> k in l.pending
  {
  }

  predicate Distinct(items: seq<Key>) {
    forall i, j :: 0 <= i < j < |items| ==> items[i] != items[j]
  }

  lemma FireFollows(c: Config, w: World, k: Key)
    requires Legal(w, FireNext) && Distinct(w.batch)
    ensures Follows(c, w, FireNext, k)
  {
    hide TallyOf, Update;
    var j := w.batch[0];
    assert w.batch == [j] + w.batch[1..];
    var w1 := w.(link := Note(w.link, Timeout(j)), batch := w.batch[1..]);
    NoteTally(c.maxRetries, w.link, Timeout(j), k);
    DecidedTally(c.maxRetries, w1, j, k);
    if k != j {
      hide RetryMessages.Next;
      DecidedElsewhere(w1, j, k);
    }
  }

  lemma DecidedTally(m: int, w: World, j: Key, k: Key)
    ensures TallyOf(m, Decided(w, j).link.log, k)
      == if k == j && k in w.link.store && w.link.store[k].attemptsRemaining <= 0 then
           Update(m, TallyOf(m, w.link.log, k), Failed(k), k)
         else TallyOf(m, w.link.log, k)
  {
    hide TallyOf;
    NoteTally(m, Drop(w.link, j), Failed(j), k);
  }

  lemma DecidedElsewhere(w: World, j: Key, k: Key)
    requires k != j && w.job.Free?
    ensures var v := Decided(w, j);
      && (k in v.link.store <==> k in w.link.store) && (k in w.link.store ==> v.link.store[k] == w.link.store[k])
      && v.link.pending == w.link.pending && v.senders == w.senders && v.acking == w.acking && v.batch == w.batch
      && !JobAt(v, k)
  {
  }

  lemma ReaddFollows(c: Config, w: World, now: int, k: Key)
    requires Legal(w, Readd(now))
    ensures Follows(c, w, Readd(now), k)
  {
    hide TallyOf, Update, Add, CanAdd;
    var m, l, j := c.maxRetries, w.link, w.job.k;
    AddTally(m, l, now, j, k);
    AddPending(l, now, j);
    NoteTally(m, Add(l, now, j), Forgotten(j), k);
    NoteTally(m, Add(l, now, j), Rejected(j), k);
    if w.job.Readding? {
      NoteTally(m, Add(l, now, j), Physical(j, w.job.packet), k);
    }
  }

  lemma AddPending(l: Link, now: int, j: Key)
    ensures Add(l, now, j).store == l.store
    ensures Add(l, now, j).pending == if CanAdd(l, j) then l.pending[j := now] else l.pending
  {
  }

  lemma ResendFollows(c: Config, w: World, ok: bool, k: Key)
    requires Legal(w, ResendDone(ok))
    ensures Follows(c, w, ResendDone(ok), k)
  {
    hide TallyOf, Update;
    var m, l, j := c.maxRetries, w.link, w.job.k;
    if ok {
      NoteTally(m, l, Accepted(j), k);
    } else {
      NoteTally(m, l, Refused(j), k);
      CancelTally(m, Note(l, Refused(j)), j, k);
    }
  }

  lemma AbandonFollows(c: Config, w: World, k: Key)
    requires Legal(w, Abandon)
    ensures Follows(c, w, Abandon, k)
  {
    hide TallyOf, Update;
    NoteTally(c.maxRetries, Drop(w.link, w.job.k), Failed(w.job.k), k);
  }

  lemma StepFollows(c: Config, w: World, op: Op, k: Key)
    requires Legal(w, op) && Distinct(w.batch)
    ensures Follows(c, w, op, k)
  {
    hide Follows, Legal;
    match op
    case Begin(_, _) => EnterFollows(c, w, op, k);
    case Register(_, _) => EnterFollows(c, w, op, k);
    case End(_, _) => EndFollows(c, w, op, k);
    case Quit(_) => EndFollows(c, w, op, k);
    case FireNext => FireFollows(c, w, k);
    case Readd(now) => ReaddFollows(c, w, now, k);
    case ResendDone(ok) => ResendFollows(c, w, ok, k);
    case Abandon => AbandonFollows(c, w, k);
    case Acknowledge(_, _) => AckFollows(c, w, op, k);
    case Signal(_) => AckFollows(c, w, op, k);
    case _ => TakeFollows(c, w, op, k);
  }

  // ---------------------------------------------------------------------------------------------
  // What every run keeps
  // ---------------------------------------------------------------------------------------------

  /** The map is within its cap, and registrations are in balance with signals and cancels. */
  ghost predicate Even(w: World) {
    && |w.link.pending| <= MAX_PENDING && Distinct(w.batch)
    && Balance(w.link.log) == |w.link.pending| + |w.batch| + |w.acking|
  }

  ghost predicate Sound(c: Config, w: World) {
    Even(w) && forall k: Key :: Good(c, CellOf(c, w, k))
  }

  lemma AddEven(l: Link, now: int, k: Key)
    requires |l.pending| <= MAX_PENDING
    ensures |Add(l, now, k).pending| <= MAX_PENDING
    ensures Balance(Add(l, now, k).log) - |Add(l, now, k).pending| == Balance(l.log) - |l.pending|
  {
    hide Balance;
    NoteBalance(l, CapExceeded(|l.pending|));
    NoteBalance(l.(pending := l.pending[k := now]), Added(k));
  }

  lemma CancelEven(l: Link, k: Key)
    ensures |Cancel(l, k).pending| <= |l.pending|
    ensures Balance(Cancel(l, k).log) - |Cancel(l, k).pending| == Balance(l.log) - |l.pending|
  {
    hide Balance;
    NoteBalance(l.(pending := l.pending - {k}), Cancelled(k));
    assert (l.pending - {k}).Keys == l.pending.Keys - {k};
  }

  lemma SenderEven(c: Config, w: World, op: Op)
    requires Legal(w, op) && Even(w) && (op.Begin? || op.Register? || op.End? || op.Quit?)
    ensures Even(Step(c, w, op))
  {
    hide Balance, Distinct, Add, Cancel, CanAdd;
    var l := w.link;
    match op
    case Begin(k, packet) =>
      NoteBalance(l.(store := l.store[k := Entry(packet, c.maxRetries, false)]), Submit(k, packet));
    case Register(now, k) =>
      AddEven(l, now, k);
      NoteBalance(Add(l, now, k), Physical(k, w.senders[k].packet));
      NoteBalance(Add(l, now, k), Rejected(k));
    case End(k, ok) =>
      NoteBalance(l, Accepted(k));
      NoteBalance(l, Refused(k));
      CancelEven(Note(l, Refused(k)), k);
    case Quit(k) => NoteBalance(Drop(l, k), Failed(k));
  }

  lemma AckEven(c: Config, w: World, op: Op)
    requires Legal(w, op) && Sound(c, w) && (op.Acknowledge? || op.Signal? || op.Remark?)
    ensures Even(Step(c, w, op))
  {
    hide Balance, Distinct, Good, CellOf, AckTarget;
    var l := w.link;
    match op
    case Acknowledge(seqNum, id) =>
      TargetPending(l, seqNum, id);
      if AckTarget(l, seqNum, id).Some? {
        var k := AckTarget(l, seqNum, id).value;
        assert (l.pending - {k}).Keys == l.pending.Keys - {k};
        NotAcking(c, w, k);
      }
    case Signal(k) => NoteBalance(l, Success(k));
    case Remark(size) => NoteBalance(l, PendingExceeded(size));
  }

  lemma NotAcking(c: Config, w: World, k: Key)
    requires Sound(c, w) && k in w.link.pending
    ensures k !in w.acking
  {
    hide TallyOf, Even, Counted, Stored, Erased;
    assert Good(c, CellOf(c, w, k));
  }

  lemma {:induction false} EraseCounts(s: set<Key>, items: seq<Key>)
    requires Distinct(items) && forall k :: k in items ==> k in s
    ensures |s - ToSet(items)| + |items| == |s|
    decreases |items|
  {
    if items == [] {
      assert s - ToSet(items) == s;
    } else {
      var k, rest := items[0], items[1..];
      assert items == [k] + rest;
      EraseCounts(s - {k}, rest);
      assert s - {k} - ToSet(rest) == s - ToSet(items);
    }
  }

  lemma TakeEven(c: Config, w: World, now: int)
    requires Legal(w, TakeBatch(now)) && Even(w)
    ensures Even(Step(c, w, TakeBatch(now)))
  {
    hide Balance, Taken;
    var items := Taken(c, w.link, now);
    TakenPending(c, w.link, now);
    EraseCounts(w.link.pending.Keys, items);
    assert Erase(w.link, items).pending.Keys == w.link.pending.Keys - ToSet(items);
  }

  lemma ProcessEven(c: Config, w: World, op: Op)
    requires Legal(w, op) && Even(w) && (op.FireNext? || op.Readd? || op.ResendDone? || op.Abandon?)
    ensures Even(Step(c, w, op))
  {
    hide Balance, Add, Cancel, CanAdd;
    var l := w.link;
    match op
    case FireNext =>
      var k := w.batch[0];
      NoteBalance(l, Timeout(k));
      NoteBalance(Drop(Note(l, Timeout(k)), k), Failed(k));
    case Readd(now) =>
      var k := w.job.k;
      AddEven(l, now, k);
      NoteBalance(Add(l, now, k), Forgotten(k));
      NoteBalance(Add(l, now, k), Rejected(k));
      if w.job.Readding? {
        NoteBalance(Add(l, now, k), Physical(k, w.job.packet));
      }
    case ResendDone(ok) =>
      var k := w.job.k;
      NoteBalance(l, Accepted(k));
      NoteBalance(l, Refused(k));
      CancelEven(Note(l, Refused(k)), k);
    case Abandon => NoteBalance(Drop(l, w.job.k), Failed(w.job.k));
  }

  lemma StepSound(c: Config, w: World, op: Op)
    requires Sound(c, w) && Legal(w, op)
    ensures Sound(c, Step(c, w, op))
  {
    hide Step, Legal, CellOf, Good;
    match op {
      case Begin(_, _) => SenderEven(c, w, op);
      case Register(_, _) => SenderEven(c, w, op);
      case End(_, _) => SenderEven(c, w, op);
      case Quit(_) => SenderEven(c, w, op);
      case TakeBatch(now) => TakeEven(c, w, now);
      case Acknowledge(_, _) => AckEven(c, w, op);
      case Signal(_) => AckEven(c, w, op);
      case Remark(_) => AckEven(c, w, op);
      case _ => ProcessEven(c, w, op);
    }
    forall k: Key
      ensures Good(c, CellOf(c, Step(c, w, op), k))
    {
      StepGood(c, w, op, k);
    }
  }

  lemma StepGood(c: Config, w: World, op: Op, k: Key)
    requires Sound(c, w) && Legal(w, op)
    ensures Good(c, CellOf(c, Step(c, w, op), k))
  {
    hide Step, Legal, CellOf, Good, Can, RetryMessages.Next, EventFor;
    StepFollows(c, w, op, k);
    assert Good(c, CellOf(c, w, k));
    var e := EventFor(c, w, op, k);
    if e.Some? {
      NextGood(c, CellOf(c, w, k), k, e.value);
    }
  }

  lemma StartSound(c: Config)
    ensures Sound(c, START)
  {
  }

  /** In every interleaving, at every moment, every message and the books are in order. */
  lemma {:induction false} RunSound(c: Config, ops: seq<Op>, ws: seq<World>, i: nat)
    requires IsRun(c, ops, ws) && i <= |ops|
    ensures |ws| == |ops| + 1 && Sound(c, ws[i])
    decreases i
  {
    hide Sound, Step, Legal;
    StartSound(c);
    if i > 0 {
      RunSound(c, ops, ws, i - 1);
      StepSound(c, ws[i - 1], ops[i - 1]);
    }
  }
}
