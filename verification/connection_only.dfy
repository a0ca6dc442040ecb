/** The connection-only aggregation: what it accepts, and when that is a sound run after all. */
module ConnectionOnly {
  import opened Sums
  import opened Scenario
  import opened Marginals
  import opened Ledgers
  import opened Accounting
  import opened Evidence
  import opened Tracking
  import opened Aggregation
  import opened AggregationProperties
  import opened EvidenceKeys

  /** In every margin each planned session was used once, started and maintained. */
  ghost predicate CountSound(r: Report, jobs: seq<Job>) {
    var planned := Planned(jobs);
    && FullyMaintained(r.counts.total, |jobs|)
    && (forall p :: p in planned.byProtocol ==>
                      p in r.counts.byProtocol && FullyMaintained(r.counts.byProtocol[p], planned.byProtocol[p]))
    && (forall o :: o in planned.byMode ==>
                      o in r.counts.byMode && FullyMaintained(r.counts.byMode[o], planned.byMode[o]))
    && (forall d :: d in planned.byDimension ==>
                      d in r.counts.byDimension && FullyMaintained(r.counts.byDimension[d], planned.byDimension[d]))
  }

  lemma CountSoundExactly(r: Report, jobs: seq<Job>, horizon: nat)
    requires ReportMatches(r, jobs, horizon, false)
    ensures CountSound(r, jobs) <==> Successful(r.counts.total)
  {
    hide FullyMaintained, EvidenceMatches, MarginMatches, Successful;
    var planned, t := Planned(jobs), r.counts.total;
    PlannedTotal(jobs);
    hide Planned;
    if Successful(t) {
      MaintainedTotal(t, |jobs|);
      MarginsMaintained(r.counts.byProtocol, planned.byProtocol, t);
      MarginsMaintained(r.counts.byMode, planned.byMode, t);
      MarginsMaintained(r.counts.byDimension, planned.byDimension, t);
    }
    if CountSound(r, jobs) {
      SoundTotal(t, |jobs|);
    }
  }

  lemma SoundTotal(c: Counts, planned: int)
    requires FullyMaintained(c, planned)
    ensures Successful(c)
  {
  }

  /** A connection-only acceptance is a sound run, in the counters of every margin of every agent, exactly if
      every agent's totals are those of a successful run. */
  lemma ConnectionOnlyExactly(runID: string, build: string, horizon: nat, expected: map<string, seq<Job>>,
                              reports: map<string, Report>)
    requires Collectable(CompletedScope(runID, build, horizon, false), expected, reports)
    ensures (forall a :: a in expected ==> a in reports && CountSound(reports[a], expected[a]))
       <==> (forall a :: a in expected ==> a in reports && Successful(reports[a].counts.total))
  {
    hide Collectable, ReportMatches, CountSound, Successful;
    forall a | a in expected
      ensures a in reports && (CountSound(reports[a], expected[a]) <==> Successful(reports[a].counts.total))
    {
      CollectableAgent(CompletedScope(runID, build, horizon, false), expected, reports, a);
      CountSoundExactly(reports[a], expected[a], horizon);
    }
  }

  // ---- A run that failed and is accepted ----

  const FAILED := Counts(1, 1, 0, 0, 0, 1, 0, 0, 0, 0, 0)

  /** One SSH session that failed to start, reported as completed. */
  function FailedReport(runID: string, build: string): Report {
    var d := Dimension(SSH, Direct);
    Report(SCHEMA_VERSION, build, runID, Completed,
           Margins(FAILED, map[SSH := FAILED], map[Direct := FAILED], map[d := FAILED]),
           Margins(NOTHING, map[SSH := NOTHING], map[Direct := NOTHING], map[d := NOTHING]), map[], map[])
  }

  lemma SumOfOne<K>(k: K, c: Counts, keys: set<K>)
    requires keys == {k}
    ensures SumOver(COUNTS, map[k := c], keys) == c
  {
    hide AddCounts, SumOver;
    CountsCommutative();
    var source := map[k := c];
    SumPick(COUNTS, source, keys, k);
    assert keys - {k} == {};
    SumOverNothing(COUNTS, source);
    AddZero(COUNTS, c);
  }

  lemma OneMargin<K>(k: K)
    ensures MarginMatches(map[k := FAILED], map[k := 1], FAILED)
  {
    hide SumOver;
    var source := map[k := FAILED];
    SumOfOne(k, FAILED, source.Keys);
  }

  lemma NothingAddsUp(planned: Margins<int>)
    requires planned == Margins(1, map[SSH := 1], map[Direct := 1], map[Dimension(SSH, Direct) := 1])
    ensures EvidenceAddsUp(FactsMargins(FailedReport("", "").evidence), planned)
  {
    hide FactsOf, NO_FACTS, SumOver, MergeFacts;
    var d, f := Dimension(SSH, Direct), FactsMargins(FailedReport("", "").evidence);
    NothingIsValid(0);
    assert f.byDimension == map[d := NO_FACTS];
    SumOfOneNothing(d, f.byDimension.Keys);
    assert InProtocol(f.byDimension.Keys, SSH) == f.byDimension.Keys;
    assert InMode(f.byDimension.Keys, Direct) == f.byDimension.Keys;
  }

  lemma FailedMatches(job: Job, runID: string, build: string, horizon: nat)
    requires job.protocol == SSH && job.mode == Direct
    ensures ReportMatches(FailedReport(runID, build), [job], horizon, false)
  {
    hide Planned, CountsMatch, EvidenceMatches;
    PlannedOne(job);
    FailedCounts(Planned([job]));
    FailedEvidence(Planned([job]), runID, build, horizon);
  }

  lemma FailedCounts(planned: Margins<int>)
    requires planned == Margins(1, map[SSH := 1], map[Direct := 1], map[Dimension(SSH, Direct) := 1])
    ensures CountsMatch(FailedReport("", "").counts, planned)
  {
    hide MarginMatches;
    OneMargin(SSH);
    OneMargin(Direct);
    OneMargin(Dimension(SSH, Direct));
  }

  lemma FailedEvidence(planned: Margins<int>, runID: string, build: string, horizon: nat)
    requires planned == Margins(1, map[SSH := 1], map[Direct := 1], map[Dimension(SSH, Direct) := 1])
    ensures EvidenceMatches(FailedReport(runID, build), planned, horizon, false)
  {
    hide EvidenceAddsUp, ValidMeasurements, FactsMargins;
    NothingIsValid(horizon);
    NothingAddsUp(planned);
  }

  /** The connection-only aggregation accepts it; the strict one does not. */
  lemma FailedRunAccepted(job: Job, runID: string, build: string, horizon: nat)
    requires job.protocol == SSH && job.mode == Direct
    ensures var expected, reports := map["a" := [job]], map["a" := FailedReport(runID, build)];
            && Collectable(CompletedScope(runID, build, horizon, false), expected, reports)
            && NoDuplicates(expected, reports)
            && reports["a"].counts.total.startFailures > 0
            && !Collectable(CompletedScope(runID, build, horizon, true), expected, reports)
  {
    hide ReportMatches;
    FailedMatches(job, runID, build, horizon);
    FailedRefused(job, runID, build, horizon);
  }

  lemma FailedRefused(job: Job, runID: string, build: string, horizon: nat)
    ensures !ReportMatches(FailedReport(runID, build), [job], horizon, true)
  {
    hide CountsMatch, EvidenceMatches;
  }
}
