/** Runs whose report says completed: the evidence of every dimension proves each of its sessions
    maintained, so the strict aggregation accepts them as well. */
module CompletedRuns {
  import opened Wrappers
  import opened Sums
  import opened Scenario
  import opened Ledgers
  import opened Accounting
  import opened Evidence
  import opened Tracking
  import opened Aggregation
  import opened AggregationProperties
  import opened Accounts
  import opened Scheduling
  import opened SchedulingInvariant
  import opened SchedulingReports

  /** How the scheduler's error reads to RunConfigJobs; a deadline has already become no error. */
  datatype RunError = NoError | ContextCanceled | OtherError

  /** The end of RunConfigJobs: status from the error, then the terminal evidence decides. */
  method FinishRun(tracker: Tracker, error: RunError) returns (r: Report, failed: bool)
    ensures FactsMargins(r.evidence) == tracker.Observed() && r.counts == DerivedMargins(tracker.Counted())
    ensures Everywhere(r.evidence, IsFinal)
    ensures r.version == SCHEMA_VERSION && r.build == tracker.build && r.runID == tracker.runID
    ensures r.status in {Completed, Failed, Cancelled}
    ensures r.status == Completed <==> !failed
    ensures r.status == Completed <==> error.NoError? && Successful(r.counts.total)
    ensures r.status == Cancelled <==> error.ContextCanceled?
  {
    hide MapMargins, Everywhere;
    var status := if error.NoError? then Completed else if error.ContextCanceled? then Cancelled else Failed;
    r := tracker.Snapshot(status);
    FinalEverywhere(tracker.Measured());
    failed := !error.NoError?;
    if !failed && TerminalEvidenceError(r) {
      failed := true;
      r := r.(status := Failed);
    }
  }

  predicate TerminalEvidenceError(r: Report) {
    var c := r.counts.total;
    || r.status != Completed || c.planned != c.used || c.unused != 0 || c.duplicates != 0 || c.startFailures != 0
    || c.runtimeFailures != 0 || c.started != c.planned || c.maintained != c.started
  }

  /** Nothing failed, and every planned session was used. */
  predicate Unfailed(c: Counts) { c.startFailures == 0 && c.runtimeFailures == 0 && c.used == c.planned }

  /** If nothing failed, each started session has a connect sample and has shown activity. */
  predicate ShowsActivity(a: Account) {
    && ValidAccount(a)
    && (Unfailed(a.counts) ==>
          && |a.facts.connect| == a.counts.started && a.facts.traffic.activeSessions == a.counts.started
          && a.facts.traffic.lastActivitySessions == a.counts.started
          && a.facts.traffic.activityEvents >= a.counts.started)
  }

  /** If nothing failed, each started session moved bytes in both directions. */
  predicate ShowsBothWays(a: Account) {
    ValidAccount(a) && (Unfailed(a.counts) ==> a.facts.traffic.bidirectionalSessions == a.counts.started)
  }

  lemma FailuresAdd(a: Counts, b: Counts)
    requires ValidCounts(Derived(a)) && ValidCounts(Derived(b))
    ensures Unfailed(AddCounts(a, b)) <==> Unfailed(a) && Unfailed(b)
  {
  }

  lemma ShownActivityAdds()
    ensures ClosedUnderSum(ACCOUNTS, ShowsActivity) && ClosedUnderSum(ACCOUNTS, ShowsBothWays)
  {
    hide ValidAccount, Unfailed, AddCounts;
    NothingDoneValid();
    forall a, b | ValidAccount(a) && ValidAccount(b)
      ensures ValidAccount(AddAccounts(a, b)) && (Unfailed(AddCounts(a.counts, b.counts)) <==>
                Unfailed(a.counts) && Unfailed(b.counts))
      ensures AddCounts(a.counts, b.counts).started == a.counts.started + b.counts.started
    {
      ValidAccountAdd(a, b);
      CountsOfValid(a);
      CountsOfValid(b);
      FailuresAdd(a.counts, b.counts);
      StartedAdds(a.counts, b.counts);
    }
  }

  lemma StartedAdds(a: Counts, b: Counts)
    ensures AddCounts(a, b).started == a.started + b.started
  {
  }

  lemma CountsOfValid(a: Account)
    requires ValidAccount(a)
    ensures ValidCounts(Derived(a.counts))
  {
  }

  lemma MaintainedFacts(job: Job, o: Observation, closedAt: Option<nat>)
    requires !Invalid(job, o, closedAt)
    ensures var f := ObservedFacts(o);
            && |f.connect| == 1 && f.traffic.activeSessions == 1 && f.traffic.lastActivitySessions == 1
            && f.traffic.activityEvents >= 1 && (job.mode == Direct ==> f.traffic.bidirectionalSessions == 1)
  {
  }

  lemma EventualShows(job: Job, p: Phase)
    requires p.NotLaunched? || p.Over?
    requires p.Over? && p.exhausted ==> p.retries > 0
    ensures ShowsActivity(Eventual(job, p)) && (job.mode == Direct ==> ShowsBothWays(Eventual(job, p)))
  {
    hide ValidAccount, ObservedFacts, Invalid, NO_FACTS;
    EventualValid(job, p);
    if p.Over? && p.ending.Torn? && !Invalid(job, p.ending.o, Some(p.ending.closedAt)) {
      MaintainedFacts(job, p.ending.o, Some(p.ending.closedAt));
    }
  }

  lemma SettledShows(s: Setup, job: Job, w: Worker)
    requires WorkerInv(s, job, w) && Settled(w)
    ensures ShowsActivity(w.done) && (job.mode == Direct ==> ShowsBothWays(w.done))
  {
    hide NO_FACTS, AddAccounts, Owed, Eventual, ShowsActivity, ShowsBothWays;
    NothingPending(w.done);
    EventualShows(job, w.phase);
  }

  predicate AllShow(jobs: seq<Job>, accounts: seq<Account>)
    requires |jobs| == |accounts|
  {
    forall i :: 0 <= i < |jobs| ==>
        ShowsActivity(accounts[i]) && (jobs[i].mode == Direct ==> ShowsBothWays(accounts[i]))
  }

  lemma OverShows(s: Setup, steps: seq<Step>)
    requires RunOver(s, steps)
    ensures |AccountsOf(Run(s, steps).value.workers)| == |s.jobs| &&
              AllShow(s.jobs, AccountsOf(Run(s, steps).value.workers))
  {
    hide Run, Ledger, WorkerInv, ShowsActivity, ShowsBothWays, Settled;
    OverSettled(s, steps);
    var w := Run(s, steps).value;
    forall i | 0 <= i < |s.jobs|
      ensures ShowsActivity(w.workers[i].done) && (s.jobs[i].mode == Direct ==> ShowsBothWays(w.workers[i].done))
    {
      SettledShows(s, s.jobs[i], w.workers[i]);
    }
  }

  lemma DimensionShows(jobs: seq<Job>, accounts: seq<Account>, d: Dimension)
    requires |jobs| == |accounts| && AllShow(jobs, accounts)
    ensures var a := Lookup(ACCOUNTS, Ledger(ACCOUNTS, jobs, accounts).byDimension, d);
            ShowsActivity(a) && (d.mode == Direct ==> ShowsBothWays(a))
  {
    hide Ledger, ShowsActivity, ShowsBothWays, ClosedUnderSum;
    ShownActivityAdds();
    LedgerDimension(ACCOUNTS, jobs, accounts, d, ShowsActivity);
    if d.mode == Direct {
      LedgerDimension(ACCOUNTS, jobs, accounts, d, ShowsBothWays);
    }
  }

  lemma ShownIsProof(d: Dimension, m: Measurements, a: Account, planned: int)
    requires FactsOf(m) == a.facts && FullyMaintained(Derived(a.counts), planned)
    requires ShowsActivity(a) && (d.mode == Direct ==> ShowsBothWays(a))
    ensures ProvesMaintained(d, m, Derived(a.counts))
  {
    hide ValidAccount;
    assert |multiset(m.connect.samples)| == |m.connect.samples|;
  }

  /** A report without failures, of a run that is over, passes the strict validation too: what the
      terminal evidence check reads off the totals holds in every dimension. */
  lemma CompletedReportValidates(s: Setup, steps: seq<Step>, r: Report, horizon: nat)
    requires RunOver(s, steps) && PlausibleSteps(steps, horizon)
    requires Shows(r, Run(s, steps).value.books) && Successful(r.counts.total)
    ensures ReportMatches(r, s.jobs, horizon, true)
  {
    hide Run, Ledger, AllShow, AccountsOf, ShowsActivity, ShowsBothWays, Successful, FullyMaintained, Planned,
         Everywhere,
         ProvesMaintained, ValidMeasurements, PlausibleSteps, FactsOf, EvidenceAddsUp, Inv, MarginMatches;
    ReportOfRunValidates(s, steps, r, horizon);
    OverShows(s, steps);
    OverAccounts(s, steps, horizon);
    var books, planned := Run(s, steps).value.books, Planned(s.jobs);
    MarginsMaintained(r.counts.byDimension, planned.byDimension, r.counts.total);
    forall d | d in planned.byDimension
      ensures DimensionEvidenceMatches(d, r.evidence.byDimension[d], Lookup(COUNTS, r.counts.byDimension, d), horizon,
                true)
    {
      DimensionShows(s.jobs, AccountsOf(Run(s, steps).value.workers), d);
      assert d in books.byDimension;
      ShownIsProof(d, r.evidence.byDimension[d], books.byDimension[d], planned.byDimension[d]);
    }
  }

  // ---- A fleet of agents ----

  datatype AgentRun = AgentRun(setup: Setup, steps: seq<Step>)

  /** The agent's run is over and this is the report RunConfigJobs made of it. */
  ghost predicate Reported(run: AgentRun, r: Report, runID: string, build: string, horizon: nat) {
    && RunOver(run.setup, run.steps) && PlausibleSteps(run.steps, horizon)
    && Shows(r, Run(run.setup, run.steps).value.books)
    && r.version == SCHEMA_VERSION && r.build == build && r.runID == runID
    && r.status in {Completed, Failed, Cancelled} && (r.status == Completed ==> Successful(r.counts.total))
  }

  function ExpectedOf(runs: map<string, AgentRun>): map<string, seq<Job>> { map a | a in runs :: runs[a].setup.jobs }

  /** Whatever happened on each agent, the reports of runs over asset-disjoint jobs are aggregated; and if
      every agent completed, the strict and the connection-only aggregation accept them as well. */
  lemma FleetAccepted(runs: map<string, AgentRun>, reports: map<string, Report>, runID: string, build: string,
                      horizon: nat)
    requires reports.Keys == runs.Keys && DisjointAssets(ExpectedOf(runs))
    requires forall a :: a in runs ==> Reported(runs[a], reports[a], runID, build, horizon)
    ensures Collectable(TerminalScope(runID, build, horizon), ExpectedOf(runs), reports)
    ensures NoDuplicates(ExpectedOf(runs), reports)
    ensures (forall a :: a in runs ==> reports[a].status == Completed) ==>
              forall strict :: Collectable(CompletedScope(runID, build, horizon, strict), ExpectedOf(runs), reports)
  {
    hide ReportMatches, Shows, DisjointAssets, Run, RunOver, Inv, PlausibleSteps, Successful;
    var expected := ExpectedOf(runs);
    forall a | a in runs
      ensures ReportMatches(reports[a], expected[a], horizon, false) && reports[a].counts.total.duplicates == 0
      ensures reports[a].status == Completed ==> ReportMatches(reports[a], expected[a], horizon, true)
    {
      ReportedValidates(runs[a], reports[a], runID, build, horizon);
    }
    assert expected.Keys == runs.Keys;
    assert |reports| == |reports.Keys| == |expected.Keys| == |expected|;
  }

  lemma ReportedValidates(run: AgentRun, r: Report, runID: string, build: string, horizon: nat)
    requires Reported(run, r, runID, build, horizon)
    ensures ReportMatches(r, run.setup.jobs, horizon, false) && r.counts.total.duplicates == 0
    ensures r.status == Completed ==> ReportMatches(r, run.setup.jobs, horizon, true)
  {
    hide ReportMatches, Shows, Run, Inv, PlausibleSteps, Successful, RunOver;
    if r.status == Completed {
      CompletedReportValidates(run.setup, run.steps, r, horizon);
    }
    ReportDuplicates(run, r, runID, build, horizon);
  }

  lemma ReportDuplicates(run: AgentRun, r: Report, runID: string, build: string, horizon: nat)
    requires Reported(run, r, runID, build, horizon)
    ensures ReportMatches(r, run.setup.jobs, horizon, false) && r.counts.total.duplicates == 0
  {
    hide ReportMatches, Shows, Inv, PlausibleSteps, Successful;
    ReportOfRunValidates(run.setup, run.steps, r, horizon);
  }
}
