/** Scheduler, tracker, registry, partition and aggregation together. */
module EndToEnd {
  import opened Wrappers
  import opened Scenario
  import opened Partitioning
  import opened Tracking
  import opened Aggregation
  import opened AggregationProperties
  import opened Scheduling
  import opened SchedulingReports
  import opened CompletedRuns
  import opened Evidence
  import opened Configuration
  import opened AgentExecution
  import opened Reporting
  import opened ReportedRuns
  import opened Pipeline
  import opened Networks
  import opened Controllers
  import Registries
  import Marginals
  import Accounts

  /** One agent's run: the tracker follows the scheduler, and the report made of it at the end is a report
      of that run, ready for both aggregations. */
  method RunConfigJobs(run: AgentRun, failures: nat -> Option<Failure>, runID: string, build: string, error: RunError,
                       ghost horizon: nat)
    returns (r: Report, failed: bool)
    requires RunOver(run.setup, run.steps) && PlausibleSteps(run.steps, horizon) && build != ""
    ensures Reported(run, r, runID, build, horizon)
    ensures !failed <==> r.status == Completed
    ensures r.status == Completed <==> error.NoError? && Successful(r.counts.total)
  {
    hide PlausibleSteps, Run, Successful, Shows, TrackerShows;
    var t := Follow(run.setup, run.steps, failures, runID, build);
    r, failed := FinishRun(t, error);
    SnapshotShows(t, r, Run(run.setup, run.steps).value.books);
  }

  /** The executor of an agent, for a request its registry has accepted and a run of the requested jobs. The
      rebuilt scenario never refuses, so only a build without a version ends without a report of the run. */
  method ExecuteRequest(request: Registries.RunRequest, capabilities: Registries.Capabilities, build: string,
                        run: AgentRun, failures: nat -> Option<Failure>, error: RunError, ghost horizon: nat)
    returns (r: Option<Report>, failed: bool)
    requires Registries.ValidRunRequest(request, capabilities)
    requires run.setup.jobs == request.jobs && Run(run.setup, run.steps).Some?
    requires run.steps == [] || Run(run.setup, run.steps).value.main == Returned
    requires PlausibleSteps(run.steps, horizon)
    ensures r.Some? <==> build != ""
    ensures r.Some? ==> Reported(run, r.value, request.runID, build, horizon)
    ensures !failed <==> r.Some? && r.value.status == Completed
  {
    hide Registries.ValidRunRequest, Run, PlausibleSteps, Expandable, AllTrackable, ScenarioOf, Reported;
    AcceptedRequestRuns(request, capabilities);
    var scenario := RebuildScenario(request.jobs);
    var expanded := Expand(scenario);
    if expanded.Err? || build == "" {
      return None, true;
    }
    var report;
    report, failed := RunConfigJobs(run, failures, request.runID, build, error, horizon);
    r := Some(report);
  }

  /** Storing a run's report in the registry, under the status the registry gives it, leaves it a report of
      that run: only an executor without error ends Completed, and then its report says so already. */
  lemma StoredReport(s: Registries.State, id: string, run: AgentRun, r: Report, failed: bool, parentCancelled: bool,
                     build: string, horizon: nat)
    requires id in s.executing && id in s.runs
    requires Reported(run, r, id, build, horizon) && (!failed ==> r.status == Completed)
    ensures var t := Registries.CompleteNext(s, id, r, failed, parentCancelled);
            && id in t.runs && t.runs[id].report.Some?
            && Reported(run, t.runs[id].report.value, id, build, horizon)
  {
    hide PlausibleSteps, Run, Successful;
    var stored := Registries.CompleteNext(s, id, r, failed, parentCancelled).runs[id].report.value;
    SameShown(r, stored, Run(run.setup, run.steps).value.books);
  }

  lemma SameShown(r: Report, q: Report, books: Marginals.Margins<Accounts.Account>)
    requires Shows(r, books) && q == r.(runID := q.runID, status := q.status)
    ensures Shows(q, books)
  {
  }

  /** Whatever happened on the agents that were given slices of a partition, their reports aggregate. */
  lemma PartitionedRunsAggregate(jobs: seq<Job>, agents: seq<Agent>, runs: map<string, AgentRun>,
                                 reports: map<string, Report>,
                                 runID: string, build: string, horizon: nat)
    requires Partitioned(jobs, agents).Some? && RunnableJobs(jobs) && DistinctIDs(agents)
    requires reports.Keys == runs.Keys
    requires forall a :: a in runs ==>
               && a in ByAgent(agents, Partitioned(jobs, agents).value)
               && runs[a].setup.jobs == ByAgent(agents, Partitioned(jobs, agents).value)[a]
               && Reported(runs[a], reports[a], runID, build, horizon)
    ensures Collectable(TerminalScope(runID, build, horizon), ExpectedOf(runs), reports)
    ensures NoDuplicates(ExpectedOf(runs), reports)
    ensures (forall a :: a in runs ==> reports[a].status == Completed) ==>
              forall strict :: Collectable(CompletedScope(runID, build, horizon, strict), ExpectedOf(runs), reports)
  {
    hide Partitioned, Reported, Collectable, AssetsOf, RunnableJobs, DistinctAssets;
    AssignmentsDisjoint(jobs, agents);
    assert DisjointAssets(ExpectedOf(runs));
    FleetAccepted(runs, reports, runID, build, horizon);
  }

  // ---- The whole fleet ----

  /** A report is good for an agent if it is a report of that agent's run. */
  ghost function ReportOf(runs: map<string, AgentRun>, runID: string, build: string, horizon: nat)
    : (string, Report) -> bool
  {
    (a: string, r: Report) => a in runs && Reported(runs[a], r, runID, build, horizon)
  }

  /** An executor that ends with a report of its run, completed if it ends without error, is all the
      controller needs: StoredReport covers whatever status the registry gives. */
  lemma RunsAreFine(runs: map<string, AgentRun>, agent: string, e: Registries.Event, runID: string, build: string,
                    horizon: nat)
    requires agent in runs && e.Complete? && e.id == runID
    requires Reported(runs[agent], e.report, runID, build, horizon) && (!e.failed ==> e.report.status == Completed)
    ensures FineEvent(agent, e, ReportOf(runs, runID, build, horizon), runID)
  {
    hide RunOver, PlausibleSteps, Run, Successful, Shows;
    forall status, stored: Report | stored == e.report.(runID := runID, status := status)
                                    && (status in {Failed, Cancelled} || (status == Completed && !e.failed))
      ensures Reported(runs[agent], stored, runID, build, horizon)
    {
      var idle := Registries.Record(Running, None, status == Cancelled);
      var s := Registries.State(map[runID := idle], runID, {runID});
      var failed := status == Failed || e.failed;
      StoredReport(s, runID, runs[agent], e.report, failed, false, build, horizon);
    }
  }

  /** The runs of the agents that were started. */
  function StartedRuns(runs: map<string, AgentRun>, agents: set<string>): map<string, AgentRun> {
    map a | a in runs && a in agents :: runs[a]
  }

  lemma FleetReportsAggregate(jobs: seq<Job>, agents: seq<Agent>, runs: map<string, AgentRun>,
                              expected: map<string, seq<Job>>,
                              reports: map<string, Report>, runID: string, build: string, horizon: nat)
    requires Partitioned(jobs, agents).Some? && RunnableJobs(jobs) && DistinctIDs(agents)
    requires reports.Keys == expected.Keys
    requires forall a :: a in expected ==>
               && a in ByAgent(agents, Partitioned(jobs, agents).value)
               && expected[a] == ByAgent(agents, Partitioned(jobs, agents).value)[a]
               && a in runs && runs[a].setup.jobs == expected[a] && Reported(runs[a], reports[a], runID, build, horizon)
    ensures Collectable(TerminalScope(runID, build, horizon), expected, reports) && NoDuplicates(expected, reports)
    ensures (forall a :: a in expected ==> reports[a].status == Completed) ==>
              forall strict :: Collectable(CompletedScope(runID, build, horizon, strict), expected, reports)
  {
    hide Partitioned, Reported, Collectable, RunnableJobs, NoDuplicates, DistinctIDs, ByAgent;
    var mine := StartedRuns(runs, expected.Keys);
    assert mine.Keys == expected.Keys;
    assert ExpectedOf(mine) == expected;
    PartitionedRunsAggregate(jobs, agents, mine, reports, runID, build, horizon);
  }

  /** The controller over an honest network, its assignments from a partition, every executor ending with a
      report of its agent's run: whatever fails, is lost or is cancelled, the reports it collects aggregate. */
  method RunFleet(jobs: seq<Job>, controller: Controller, ghost runs: map<string, AgentRun>)
    returns (r: Option<Outcome>)
    requires controller.Starting(0)
    requires controller.network.honest && controller.network.fine
    requires Partitioned(jobs, controller.plan.agents).Some? && RunnableJobs(jobs) &&
               DistinctIDs(controller.plan.agents)
    requires controller.plan.assignments == ByAgent(controller.plan.agents,
               Partitioned(jobs, controller.plan.agents).value)
    requires controller.network.good
          == ReportOf(runs, controller.plan.runID, controller.plan.build, controller.plan.horizon)
    requires forall a :: HasJobs(controller.plan, a) ==>
               a in runs && runs[a].setup.jobs == controller.plan.assignments[a]
    modifies controller, controller.network
    ensures r != Some(NotAggregated)
  {
    hide Partitioned, Reported, Collectable, RunnableJobs, NoDuplicates, ByAgent, DistinctIDs, IsCollected;
    r := controller.RunController();
    if r == Some(NotAggregated) {
      var p := controller.plan;
      forall a | a in controller.expected
        ensures a in runs && Reported(runs[a], controller.reports[a], p.runID, p.build, p.horizon)
      {
        assert controller.network.good(a, controller.reports[a]);
      }
      FleetReportsAggregate(jobs, p.agents, runs, controller.expected, controller.reports, p.runID, p.build, p.horizon);
    }
  }
}
