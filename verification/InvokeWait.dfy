/** The early-status reconciliation of RemoteInvokeWaitInternal
    (delegate-mq/extras/rpc/RemoteDispatcher.h).

    Both lambdas take the state's lock for their whole critical section, so every interleaving of
    status callbacks with the send lambda is a sequence of calls of the two methods below. */
module InvokeWait {
  import opened Common

  datatype Status = SUCCESS | TIMEOUT
  datatype Report = Report(seqNum: uint16, status: Status)

  // ---------------------------------------------------------------------------------------------
  // What the wait should report
  // ---------------------------------------------------------------------------------------------

  /** The last status reported for `q`. */
  function Last(reports: seq<Report>, q: uint16): Option<Status> {
    if reports == [] then None
    else if reports[|reports| - 1].seqNum == q then Some(reports[|reports| - 1].status)
    else Last(reports[..|reports| - 1], q)
  }

  /** The first status reported for `q`. */
  function First(reports: seq<Report>, q: uint16): Option<Status> {
    if reports == [] then None
    else if reports[0].seqNum == q then Some(reports[0].status)
    else First(reports[1..], q)
  }

  /** The outcome for sequence number `q`, given the reports that came before and after `q` was
      recorded: the last early one if there is any, else the first later one. */
  function Outcome(before: seq<Report>, after: seq<Report>, q: uint16): Option<Status> {
    if Last(before, q).Some? then Last(before, q) else First(after, q)
  }

  lemma {:induction false} LastSomeIff(reports: seq<Report>, q: uint16)
    ensures Last(reports, q).Some? <==> exists k :: 0 <= k < |reports| && reports[k].seqNum == q
  {
    if reports != [] && reports[|reports| - 1].seqNum != q {
      var front := reports[..|reports| - 1];
      LastSomeIff(front, q);
      if k :| 0 <= k < |reports| && reports[k].seqNum == q {
        assert front[k].seqNum == q;
      }
      if Last(front, q).Some? {
        var k :| 0 <= k < |front| && front[k].seqNum == q;
        assert reports[k].seqNum == q;
      }
    }
  }

  lemma {:induction false} FirstSomeIff(reports: seq<Report>, q: uint16)
    ensures First(reports, q).Some? <==> exists k :: 0 <= k < |reports| && reports[k].seqNum == q
    decreases |reports|
  {
    if reports != [] && reports[0].seqNum != q {
      var rest := reports[1..];
      FirstSomeIff(rest, q);
      if k :| 0 <= k < |reports| && reports[k].seqNum == q {
        assert rest[k - 1].seqNum == q;
      }
      if First(rest, q).Some? {
        var k :| 0 <= k < |rest| && rest[k].seqNum == q;
        assert reports[k + 1].seqNum == q;
      }
    }
  }

  /** No report is lost and no other number's report counts: the wait is complete exactly when some
      report, early or late, names the dispatched sequence number. */
  lemma CompleteIffReported(before: seq<Report>, after: seq<Report>, q: uint16)
    ensures Outcome(before, after, q).Some? <==>
      exists k :: 0 <= k < |before + after| && (before + after)[k].seqNum == q
  {
    LastSomeIff(before, q);
    FirstSomeIff(after, q);
    var all := before + after;
    if j :| 0 <= j < |before| && before[j].seqNum == q {
      assert all[j].seqNum == q;
    }
    if j :| 0 <= j < |after| && after[j].seqNum == q {
      assert all[|before| + j].seqNum == q;
    }
  }

  lemma {:induction false} FirstAppend(reports: seq<Report>, r: Report, q: uint16)
    ensures First(reports + [r], q) ==
      if First(reports, q).Some? then First(reports, q)
      else if r.seqNum == q then Some(r.status) else None
    decreases |reports|
  {
    if reports == [] {
      assert (reports + [r])[1..] == [];
    } else {
      assert (reports + [r])[1..] == reports[1..] + [r];
      FirstAppend(reports[1..], r, q);
    }
  }

  /** A completed outcome never changes. */
  lemma OutcomeStable(before: seq<Report>, after: seq<Report>, r: Report, q: uint16)
    requires Outcome(before, after, q).Some?
    ensures Outcome(before, after + [r], q) == Outcome(before, after, q)
  {
    FirstAppend(after, r, q);
  }

  /** What was reported last, or first, was reported. */
  lemma {:induction false} LastReported(reports: seq<Report>, q: uint16)
    requires Last(reports, q).Some?
    ensures exists k :: 0 <= k < |reports| && reports[k].seqNum == q && reports[k].status == Last(reports, q).value
  {
    if reports[|reports| - 1].seqNum != q {
      var front := reports[..|reports| - 1];
      LastReported(front, q);
      var k :| 0 <= k < |front| && front[k].seqNum == q && front[k].status == Last(front, q).value;
      assert reports[k].seqNum == q;
    }
  }

  lemma {:induction false} FirstReported(reports: seq<Report>, q: uint16)
    requires First(reports, q).Some?
    ensures exists k :: 0 <= k < |reports| && reports[k].seqNum == q && reports[k].status == First(reports, q).value
    decreases |reports|
  {
    if reports[0].seqNum != q {
      var rest := reports[1..];
      FirstReported(rest, q);
      var k :| 0 <= k < |rest| && rest[k].seqNum == q && rest[k].status == First(rest, q).value;
      assert reports[k + 1].seqNum == q;
    }
  }

  /** The outcome when the number is recorded after the first `n` reports. */
  function OutcomeAt(reports: seq<Report>, n: nat, q: uint16): Option<Status>
    requires n <= |reports|
  {
    Outcome(reports[..n], reports[n..], q)
  }

  lemma OutcomeReported(reports: seq<Report>, n: nat, q: uint16)
    requires n <= |reports|
    ensures OutcomeAt(reports, n, q).Some? <==> exists k :: 0 <= k < |reports| && reports[k].seqNum == q
    ensures var o := OutcomeAt(reports, n, q);
      o.Some? ==> exists k :: 0 <= k < |reports| && reports[k].seqNum == q && reports[k].status == o.value
  {
    var before, after := reports[..n], reports[n..];
    assert before + after == reports;
    CompleteIffReported(before, after, q);
    if Last(before, q).Some? {
      LastReported(before, q);
      var k :| 0 <= k < n && before[k].seqNum == q && before[k].status == Last(before, q).value;
      assert reports[k] == before[k];
    } else if First(after, q).Some? {
      FirstReported(after, q);
      var k :| 0 <= k < |after| && after[k].seqNum == q && after[k].status == First(after, q).value;
      assert reports[n + k] == after[k];
    }
  }

  predicate Agreed(reports: seq<Report>, q: uint16) {
    forall i, j :: 0 <= i < |reports| && 0 <= j < |reports| && reports[i].seqNum == reports[j].seqNum == q ==>
      reports[i].status == reports[j].status
  }

  /** It makes no difference to the outcome how the reports interleave with the recording of the number, if and
      only if all reports for that number agree. */
  lemma OrderDoesNotMatterIff(reports: seq<Report>, q: uint16)
    ensures Agreed(reports, q)
      <==> forall m: nat, n: nat :: m <= |reports| && n <= |reports| ==>
             OutcomeAt(reports, m, q) == OutcomeAt(reports, n, q)
  {
    if Agreed(reports, q) {
      forall m: nat, n: nat | m <= |reports| && n <= |reports|
        ensures OutcomeAt(reports, m, q) == OutcomeAt(reports, n, q)
      {
        OutcomeReported(reports, m, q);
        OutcomeReported(reports, n, q);
      }
    } else {
      var i, j :| 0 <= i < |reports| && 0 <= j < |reports| && reports[i].seqNum == reports[j].seqNum == q
        && reports[i].status != reports[j].status;
      assert reports[..i + 1][i] == reports[i] && reports[..j + 1][j] == reports[j];
      assert OutcomeAt(reports, i + 1, q) == Some(reports[i].status);
      assert OutcomeAt(reports, j + 1, q) == Some(reports[j].status);
    }
  }

  // ---------------------------------------------------------------------------------------------
  // The shared state
  // ---------------------------------------------------------------------------------------------

  class InvokeWaitState {
    const remoteId: uint16
    var complete: bool
    var success: bool
    var seqSet: bool
    var expectedSeq: uint16
    var early: map<uint16, Status>
    var signals: nat
    ghost var before: seq<Report>
    ghost var after: seq<Report>

    /** In every reachable state the fields are determined by the reports seen so far, and the
        semaphore has been signalled exactly once if the wait is complete, else never. */
    ghost predicate Valid()
      reads this
    {
      if seqSet then
        && early == map[]
        && complete == Outcome(before, after, expectedSeq).Some?
        && success == (Outcome(before, after, expectedSeq) == Some(SUCCESS))
        && signals == if complete then 1 else 0
      else
        && !complete && !success && signals == 0 && after == []
        && forall q: uint16 :: (if q in early then Some(early[q]) else None) == Last(before, q)
    }

    constructor (remoteId: uint16)
      ensures Valid() && !seqSet && before == after == [] && this.remoteId == remoteId
    {
      this.remoteId := remoteId;
      complete, success, seqSet, expectedSeq := false, false, false, 0;
      early, signals := map[], 0;
      before, after := [], [];
    }

    /** The status callback. */
    method OnStatus(id: uint16, seqNum: uint16, status: Status)
      requires Valid()
      modifies this
      ensures Valid() && seqSet == old(seqSet) && expectedSeq == old(expectedSeq)
      ensures before == if id == remoteId && !seqSet then old(before) + [Report(seqNum, status)] else old(before)
      ensures after == if id == remoteId && seqSet then old(after) + [Report(seqNum, status)] else old(after)
    {
      if id != remoteId {
        return;
      }
      var notify := false;
      if !seqSet {
        early := early[seqNum := status];
      } else if !complete && seqNum == expectedSeq {
        complete := true;
        success := status == SUCCESS;
        notify := true;
      }
      ghost var r := Report(seqNum, status);
      if seqSet {
        FirstAppend(after, r, expectedSeq);
        after := after + [r];
      } else {
        before := before + [r];
        assert before[..|before| - 1] == old(before);
      }
      if notify {
        signals := signals + 1;
      }
    }

    /** The critical section of the send lambda, run once after the send has assigned `seqNum`. */
    method RecordSeq(seqNum: uint16)
      requires Valid() && !seqSet
      modifies this
      ensures Valid() && seqSet && expectedSeq == seqNum
      ensures before == old(before) && after == []
    {
      var notify := false;
      expectedSeq := seqNum;
      seqSet := true;
      if expectedSeq in early {
        complete := true;
        success := early[expectedSeq] == SUCCESS;
        notify := true;
      }
      early := map[];
      if notify {
        signals := signals + 1;
      }
    }

    /** What the blocked caller returns after its wait, whether it was signalled or timed out: true
        exactly when the outcome so far is a success. */
    method Result() returns (r: bool)
      requires Valid()
      ensures r <==> seqSet && Outcome(before, after, expectedSeq) == Some(SUCCESS)
    {
      r := success;
    }
  }
}
