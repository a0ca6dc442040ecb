/** What a valid report is, number by number. */
module ReportValidity {
  import opened Wrappers
  import opened Sums
  import opened Scenario
  import opened Ledgers
  import opened Accounting
  import opened Evidence
  import opened Tracking
  import opened Aggregation
  import opened AggregationProperties

  // ---- Counters ----

  predicate NoneNegative(c: Counts) {
    && c.planned >= 0 && c.used >= 0 && c.duplicates >= 0 && c.unused >= 0 && c.started >= 0 && c.startFailures >= 0
    && c.runtimeFailures >= 0 && c.maintained >= 0 && c.retries >= 0 && c.retrySuccesses >= 0
    && c.retriesExhausted >= 0
  }

  /** No counter is negative; no more sessions were used than planned; each one used was started or failed to start,
      each one started was maintained or failed; and no more retries succeeded, or were the last, than there were. */
  lemma CountsExactly(c: Counts)
    ensures ValidCounts(c) <==>
              && NoneNegative(c) && c.planned - c.used >= 0 && c.used == c.started + c.startFailures
              && c.started == c.maintained + c.runtimeFailures
              && c.retries - c.retrySuccesses >= 0 && c.retries - c.retriesExhausted >= 0
  {
  }

  /** Every planned session was used, started and maintained, and nothing else happened. Retries play no part. */
  lemma SuccessfulExactly(c: Counts)
    ensures Successful(c) <==>
              && c.maintained == c.planned && c.started == c.planned && c.used == c.planned
              && c.duplicates == 0 && c.unused == 0 && c.startFailures == 0 && c.runtimeFailures == 0
    ensures forall retries, successes, exhausted ::
              Successful(c.(retries := retries, retrySuccesses := successes, retriesExhausted := exhausted))
              == Successful(c)
  {
  }

  /** A snapshot tells maintained and unused sessions from the others. */
  lemma DerivedExactly(c: Counts)
    ensures var d := Derived(c);
            && d.maintained + c.runtimeFailures == c.started && d.unused + c.used == c.planned
            && d.(maintained := c.maintained, unused := c.unused) == c
  {
  }

  // ---- Evidence ----

  predicate AllPositive(l: Latency) { forall x :: x in l.samples ==> x > 0.0 }

  /** No number is negative, no activity lies beyond the horizon, samples are positive and quantiles ascend. */
  lemma MeasurementsExactly(m: Measurements, horizon: nat)
    ensures ValidMeasurements(m, horizon) <==>
              && AllPositive(m.connect) && AllPositive(m.prepare) && AllPositive(m.editorReady)
              && m.connect.p50 <= m.connect.p95 && m.connect.p95 <= m.connect.p99
              && m.prepare.p50 <= m.prepare.p95 && m.prepare.p95 <= m.prepare.p99
              && m.editorReady.p50 <= m.editorReady.p95 && m.editorReady.p95 <= m.editorReady.p99
              && m.traffic.sentBytes >= 0 && m.traffic.receivedBytes >= 0 && m.traffic.activityEvents >= 0
              && m.traffic.activeSessions >= 0 && m.traffic.bidirectionalSessions >= 0
              && m.traffic.lastActivitySessions >= 0 && !(m.traffic.lastActivity > horizon)
  {
    forall l: Latency ensures AllPositive(l) <==> forall i :: 0 <= i < |l.samples| ==> l.samples[i] > 0.0 {
      assert forall i :: 0 <= i < |l.samples| ==> l.samples[i] in l.samples;
    }
  }

  /** Each maintained session of a dimension connected and was active to some end, direct ones in both directions. */
  lemma ProofExactly(d: Dimension, m: Measurements, c: Counts)
    ensures ProvesMaintained(d, m, c) <==>
              && c.maintained == |m.connect.samples| && c.maintained == m.traffic.activeSessions
              && c.maintained == m.traffic.lastActivitySessions && c.maintained <= m.traffic.activityEvents
              && (d.mode == Direct ==> c.maintained == m.traffic.bidirectionalSessions)
  {
  }

  // ---- What was planned ----

  function CountJobs(jobs: seq<Job>, p: Job -> bool): nat {
    if jobs == [] then 0 else CountJobs(jobs[..|jobs| - 1], p) + if p(jobs[|jobs| - 1]) then 1 else 0
  }

  /** One for every job, in total and under each key that some job has. */
  lemma {:induction false} PlannedExactly(jobs: seq<Job>, p: Protocol, o: Mode, d: Dimension)
    ensures var planned := Planned(jobs);
            && planned.total == |jobs|
            && Lookup(INTS, planned.byProtocol, p) == CountJobs(jobs, (job: Job) => job.protocol == p)
            && Lookup(INTS, planned.byMode, o) == CountJobs(jobs, (job: Job) => job.mode == o)
            && Lookup(INTS, planned.byDimension, d)
               == CountJobs(jobs, (job: Job) => job.protocol == d.protocol && job.mode == d.mode)
            && (p in planned.byProtocol <==> exists job :: job in jobs && job.protocol == p)
            && (o in planned.byMode <==> exists job :: job in jobs && job.mode == o)
            && (d in planned.byDimension <==>
                exists job :: job in jobs && job.protocol == d.protocol && job.mode == d.mode)
  {
    if jobs != [] {
      var n := |jobs| - 1;
      PlannedExactly(jobs[..n], p, o, d);
      PlannedNext(jobs, n);
      assert jobs[..n + 1] == jobs;
      hide Planned, CountJobs;
      assert forall job :: job in jobs <==> job in jobs[..n] || job == jobs[n];
    }
  }

  /** Jobs that can be tracked are bound, to different assets, in direct or browser mode. */
  lemma TrackableExactly(jobs: seq<Job>)
    ensures AllTrackable(jobs) <==>
              && (forall k :: 0 <= k < |jobs| ==>
                    |jobs[k].assetID| > 0 && |jobs[k].accountID| > 0 && jobs[k].mode in {Direct, Browser})
              && (forall j, k :: 0 <= j < k < |jobs| ==> jobs[j].assetID != jobs[k].assetID)
  {
  }

  // ---- Which reports ----

  /** Terminal aggregation takes reports that are over in any way, the final one completed reports only. */
  lemma AcceptedExactly(r: Report, jobs: seq<Job>, runID: string, build: string, horizon: nat, strict: bool)
    ensures AgentAccepted(TerminalScope(runID, build, horizon), r, jobs) <==>
              && r.version == 3 && r.build == build && r.runID == runID
              && (r.status == Completed || r.status == Failed || r.status == Cancelled)
              && ReportMatches(r, jobs, horizon, false)
    ensures AgentAccepted(CompletedScope(runID, build, horizon, strict), r, jobs) <==>
              && r.version == 3 && r.build == build && r.runID == runID && r.status == Completed
              && ReportMatches(r, jobs, horizon, strict)
  {
    hide ReportMatches;
  }

  /** Failures are counted by the phase they belong to and the category of their text. */
  lemma CategoryExactly(phase: string, failure: Option<Failure>)
    ensures var key := Category(phase, failure);
            && |key| > |phase| && key[..|phase|] == phase && key[|phase|] == '/'
            && key[|phase| + 1..] == match failure case None => "unknown" case Some(f) => f.category
  {
  }
}
