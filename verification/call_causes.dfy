/** What each call means for the controller, told call by call: which replies and waits are grounds for cleanup,
    which give a report, and which Starts are acknowledged. */
module CallCauses {
  import opened Wrappers
  import opened Tracking
  import opened Networks
  import opened CallLogs
  import Registries

  // ---- Single calls ----

  /** The status call left its caller without a reply: lost on the way, or answered by an error. */
  predicate Unanswered(c: Call) {
    c.StatusCall? &&
    (c.fate.RequestLost? || c.fate.ReplyLost?
     || (c.fate.Delivered? && (c.found.None? || c.runID !in c.found.value.runs)))
  }

  /** The caller got this status, with or without a report: what the agent holds, or what the reply became. */
  predicate Gave(c: Call, status: Status, withReport: bool) {
    c.StatusCall? &&
    match c.fate
    case Delivered =>
      && c.found.Some? && c.runID in c.found.value.runs
      && c.found.value.runs[c.runID].status == status && c.found.value.runs[c.runID].report.Some? == withReport
    case Garbled(reply, _) => reply.status == status && reply.report.Some? == withReport
    case _ => false
  }

  /** A status nobody knows. */
  predicate GaveUnknown(c: Call) {
    c.StatusCall? &&
    match c.fate
    case Delivered =>
      c.found.Some? && c.runID in c.found.value.runs && c.found.value.runs[c.runID].status.OtherStatus?
    case Garbled(reply, _) => reply.status.OtherStatus?
    case _ => false
  }

  predicate GaveReport(c: Call) { Gave(c, Completed, true) || Gave(c, Failed, true) || Gave(c, Cancelled, true) }

  /** No reply, a terminal status without its report, an unknown status, or a failed run. */
  predicate MeansFailed(c: Call) {
    || Unanswered(c) || GaveUnknown(c) || Gave(c, Failed, true)
    || Gave(c, Completed, false) || Gave(c, Failed, false) || Gave(c, Cancelled, false)
  }

  predicate MeansCancelled(c: Call) { Gave(c, Cancelled, true) }

  /** Still going, or completed with its report. */
  predicate MeansNothing(c: Call) {
    || Gave(c, Pending, true) || Gave(c, Pending, false) || Gave(c, Running, true) || Gave(c, Running, false)
    || Gave(c, Completed, true)
  }

  /** Each status call means exactly one of the three. */
  lemma OneMeaning(c: Call)
    requires c.StatusCall?
    ensures MeansFailed(c) || MeansCancelled(c) || MeansNothing(c)
    ensures !(MeansFailed(c) && MeansCancelled(c)) && !(MeansNothing(c) && (MeansFailed(c) || MeansCancelled(c)))
  {
  }

  lemma MeaningIsGround(c: Call)
    requires c.StatusCall?
    ensures MeansFailed(c) ==> GroundsFor(StatusAnswered(c)) == [Failed]
    ensures MeansCancelled(c) ==> GroundsFor(StatusAnswered(c)) == [Cancelled]
    ensures MeansNothing(c) ==> GroundsFor(StatusAnswered(c)) == []
    ensures GaveReport(c) <==> Reports(StatusAnswered(c))
  {
  }

  // ---- Whole records ----

  /** Every status call was answered by a run still going or completed with its report, and no wait was done. */
  predicate Quiet(log: seq<Call>) {
    forall k :: 0 <= k < |log| ==> (log[k].StatusCall? ==> MeansNothing(log[k])) && !(log[k].Wait? && log[k].done)
  }

  /** A wait was done for this reason, while all was quiet. */
  predicate DoneAt(log: seq<Call>, k: nat, parentCancelled: bool) {
    k < |log| && log[k].Wait? && log[k].done && log[k].parentCancelled == parentCancelled && Quiet(log[..k])
  }

  ghost predicate FailedGiven(log: seq<Call>) {
    exists k: nat :: k < |log| && (MeansFailed(log[k]) || DoneAt(log, k, false))
  }

  ghost predicate CancelledGiven(log: seq<Call>) {
    exists k: nat :: k < |log| && (MeansCancelled(log[k]) || DoneAt(log, k, true))
  }

  lemma GivenNext(log: seq<Call>, c: Call)
    ensures FailedGiven(log + [c]) <==>
              FailedGiven(log) || MeansFailed(c) || (c.Wait? && c.done && !c.parentCancelled && Quiet(log))
    ensures CancelledGiven(log + [c]) <==>
              CancelledGiven(log) || MeansCancelled(c) || (c.Wait? && c.done && c.parentCancelled && Quiet(log))
    ensures Quiet(log + [c]) <==> Quiet(log) && (c.StatusCall? ==> MeansNothing(c)) && !(c.Wait? && c.done)
  {
    hide Quiet, MeansFailed, MeansCancelled;
    var more, n := log + [c], |log|;
    assert more[n] == c && more[..n] == log;
    forall k: nat | k < n ensures more[k] == log[k] && more[..k] == log[..k] {
    }
    assert forall k: nat, parent :: k < n ==> DoneAt(more, k, parent) == DoneAt(log, k, parent);
    assert forall parent ::
        DoneAt(more, n, parent) == (c.Wait? && c.done && c.parentCancelled == parent && Quiet(log));
    QuietNext(log, c);
  }

  lemma QuietNext(log: seq<Call>, c: Call)
    ensures Quiet(log + [c]) <==> Quiet(log) && (c.StatusCall? ==> MeansNothing(c)) && !(c.Wait? && c.done)
  {
    hide MeansNothing;
    var more, n := log + [c], |log|;
    assert more[n] == c;
    assert forall k :: 0 <= k < n ==> more[k] == log[k];
  }

  /** The grounds for cleanup, call by call: failed exactly if some status call means so or a wait was done by the
      controller's own deadline while all was quiet, cancelled likewise, and none exactly if all was quiet. */
  lemma {:induction false} GroundsExactly(log: seq<Call>)
    ensures Failed in Causes(log) <==> FailedGiven(log)
    ensures Cancelled in Causes(log) <==> CancelledGiven(log)
    ensures Causes(log) == [] <==> Quiet(log)
  {
    hide MeansFailed, MeansCancelled, MeansNothing, FailedGiven, CancelledGiven, Quiet, StatusAnswered, GroundsFor;
    if log == [] {
      NothingGiven();
    } else {
      var n := |log| - 1;
      GroundsExactly(log[..n]);
      assert log == log[..n] + [log[n]];
      GivenNext(log[..n], log[n]);
      if log[n].StatusCall? {
        OneMeaning(log[n]);
        MeaningIsGround(log[n]);
      } else {
        OtherCalls(log[n]);
      }
    }
  }

  lemma OtherCalls(c: Call)
    requires !c.StatusCall?
    ensures !MeansFailed(c) && !MeansCancelled(c)
  {
  }

  lemma NothingGiven()
    ensures !FailedGiven([]) && !CancelledGiven([]) && Quiet([])
  {
  }

  /** The verdict is none, failed or cancelled as the calls are. */
  lemma VerdictExactly(log: seq<Call>)
    ensures Verdict(Causes(log)) == None <==> Quiet(log)
    ensures Verdict(Causes(log)) == Some(Failed) <==> FailedGiven(log)
    ensures Verdict(Causes(log)) == Some(Cancelled) <==> CancelledGiven(log) && !FailedGiven(log)
  {
    hide FailedGiven, CancelledGiven, Quiet, Causes;
    GroundsExactly(log);
    CausesBad(log);
    var grounds := Causes(log);
    assert grounds != [] ==> grounds[0] in grounds;
  }

  /** The reports are exactly those that came with a completed, failed or cancelled status. */
  lemma {:induction false} CollectedExactly(log: seq<Call>)
    ensures forall a :: a in Collected(log) <==> exists c :: c in log && c.StatusCall? && c.agent == a && GaveReport(c)
  {
    hide GaveReport, StatusAnswered, Reports;
    if log != [] {
      var n := |log| - 1;
      CollectedExactly(log[..n]);
      assert log == log[..n] + [log[n]];
      if log[n].StatusCall? {
        MeaningIsGround(log[n]);
      }
      forall a ensures a in Collected(log) <==> exists c :: c in log && c.StatusCall? && c.agent == a && GaveReport(c) {
        if c :| c in log && c.StatusCall? && c.agent == a && GaveReport(c) {
          assert c in log[..n] || c == log[n];
        }
        if a in Collected(log[..n]) {
          var c :| c in log[..n] && c.StatusCall? && c.agent == a && GaveReport(c);
          assert c in log;
        } else if a in Collected(log) {
          assert log[n] in log;
        }
      }
    }
  }

  // ---- Starts ----

  /** The Start was acknowledged with its run and all of its jobs: by the agent that began it, or in a reply that
      says so. */
  predicate Acked(c: Call, capabilities: Registries.Capabilities) {
    c.StartCall? &&
    match c.fate
    case Delivered => Accepted(c, capabilities)
    case Garbled(_, acknowledgement) =>
      acknowledgement.runID == c.request.runID && acknowledgement.accepted == |c.request.jobs|
    case _ => false
  }

  lemma AcknowledgedExactly(log: seq<Call>, capabilities: Registries.Capabilities)
    ensures Acknowledged(log, capabilities) <==> forall c :: c in log && c.StartCall? ==> Acked(c, capabilities)
  {
    hide Registries.StartAllowed;
  }
}
