/** What acceptance means, and that the order in which maps are visited does not matter. */
module AggregationProperties {
  import opened Wrappers
  import opened Sums
  import opened Scenario
  import opened Marginals
  import opened Ledgers
  import opened Merging
  import opened Accounting
  import opened Evidence
  import opened Tracking
  import opened Aggregation

  function TerminalScope(runID: string, build: string, horizon: nat): Scope {
    Scope(runID, build, {Completed, Failed, Cancelled}, horizon, false)
  }

  function CompletedScope(runID: string, build: string, horizon: nat, requireActivity: bool): Scope {
    Scope(runID, build, {Completed}, horizon, requireActivity)
  }

  ghost predicate NoDuplicates(expected: map<string, seq<Job>>, reports: map<string, Report>) {
    forall a :: a in expected && a in reports ==> reports[a].counts.total.duplicates == 0
  }

  method AggregateTerminalForBuild(runID: string, build: string, expected: map<string, seq<Job>>,
                                   reports: map<string, Report>, status: Status, horizon: nat)
    returns (r: Result<Report>)
    ensures r.Ok? <==>
              status in {Failed, Cancelled} && Collectable(TerminalScope(runID, build, horizon), expected, reports)
    ensures r.Ok? ==> IsCollected(r.value, TerminalScope(runID, build, horizon), status, expected.Keys, reports)
  {
    if status != Failed && status != Cancelled {
      return Err;
    }
    hide Collectable, IsCollected;
    var assets;
    r, assets := Collect(TerminalScope(runID, build, horizon), status, expected, reports);
  }

  /** AggregateForBuild when `requireActivity`, AggregateConnectionOnlyForBuild otherwise. */
  method AggregateForBuild(runID: string, build: string, expected: map<string, seq<Job>>,
                           reports: map<string, Report>, horizon: nat, requireActivity: bool)
    returns (r: Result<Report>)
    ensures r.Ok? <==> Collectable(CompletedScope(runID, build, horizon, requireActivity), expected, reports)
                       && NoDuplicates(expected, reports)
    ensures r.Ok? ==>
              IsCollected(r.value, CompletedScope(runID, build, horizon, requireActivity), Completed, expected.Keys,
                  reports)
  {
    hide Collectable, IsCollected, NoDuplicates;
    var s := CompletedScope(runID, build, horizon, requireActivity);
    var assets;
    r, assets := Collect(s, Completed, expected, reports);
    if r.Err? {
      return;
    }
    CollectedTotals(r.value, s, Completed, expected, reports);
    if r.value.counts.total.planned != |assets| || r.value.counts.total.duplicates != 0 {
      return Err;
    }
  }

  lemma {:induction false} AssetsCounted(jobs: seq<Job>)
    requires DistinctAssets(jobs)
    ensures |AssetsOf(jobs)| == |jobs|
  {
    if jobs != [] {
      var n := |jobs| - 1;
      AssetsCounted(jobs[..n]);
      AssetsNext(jobs, n);
      assert jobs[..n + 1] == jobs;
    }
  }

  function Totals(reports: map<string, Report>): map<string, Counts> { map a | a in reports :: reports[a].counts.total }

  lemma {:induction false} TotalsAddUp(s: Scope, expected: map<string, seq<Job>>, reports: map<string, Report>,
                                       agents: set<string>)
    requires Collectable(s, expected, reports) && agents <= expected.Keys
    ensures var t := SumOver(COUNTS, Totals(reports), agents);
            && t.planned == |AllAssets(expected, agents)|
            && t.duplicates >= 0
            && (t.duplicates == 0 <==> forall a :: a in agents && a in reports ==>
                reports[a].counts.total.duplicates == 0)
  {
    hide Collectable, AllAssets, SumOver, Commutative, AgentAccepted;
    if agents == {} {
      AllAssetsNothing(expected);
      SumOverNothing(COUNTS, Totals(reports));
    } else {
      var a := AnyOf(agents);
      var rest := agents - {a};
      assert agents == rest + {a};
      TotalsAddUp(s, expected, reports, rest);
      CollectableAgent(s, expected, reports, a);
      AgentTotals(s, reports[a], expected[a]);
      AllAssetsNext(s, expected, reports, rest, a);
      CountsCommutative();
      SumNext(COUNTS, Totals(reports), rest, a);
    }
  }

  lemma AllAssetsNothing(expected: map<string, seq<Job>>)
    ensures AllAssets(expected, {}) == {}
  {
  }

  lemma CollectableAgent(s: Scope, expected: map<string, seq<Job>>, reports: map<string, Report>, a: string)
    requires Collectable(s, expected, reports) && a in expected
    ensures a in reports && AgentAccepted(s, reports[a], expected[a]) && DistinctAssets(expected[a])
  {
    hide AgentAccepted, DistinctAssets, AssetsOf;
  }

  lemma AllAssetsNext(s: Scope, expected: map<string, seq<Job>>, reports: map<string, Report>, done: set<string>,
                      a: string)
    requires Collectable(s, expected, reports) && done <= expected.Keys && a in expected && a !in done
    ensures |AllAssets(expected, done + {a})| == |AllAssets(expected, done)| + |expected[a]|
  {
    hide AgentAccepted, AssetsOf;
    AssetsCounted(expected[a]);
    assert AllAssets(expected, done + {a}) == AllAssets(expected, done) + AssetsOf(expected[a]);
    assert AllAssets(expected, done) !! AssetsOf(expected[a]);
  }

  lemma AgentTotals(s: Scope, r: Report, jobs: seq<Job>)
    requires AgentAccepted(s, r, jobs)
    ensures r.counts.total.planned == |jobs| && r.counts.total.duplicates >= 0
  {
    hide EvidenceMatches, MarginMatches, Planned;
    PlannedTotal(jobs);
  }

  /** The global check on planned sessions always holds; only duplicates can still be found. */
  lemma CollectedTotals(r: Report, s: Scope, status: Status, expected: map<string, seq<Job>>,
                        reports: map<string, Report>)
    requires Collectable(s, expected, reports) && IsCollected(r, s, status, expected.Keys, reports)
    ensures r.counts.total.planned == |AllAssets(expected, expected.Keys)|
    ensures r.counts.total.duplicates == 0 <==> NoDuplicates(expected, reports)
  {
    hide AgentAccepted, SumOver, Everywhere, AllAssets, DisjointAssets, FactsMargins;
    TotalOfSum(COUNTS, CountsParts(reports), expected.Keys);
    assert (map k | k in CountsParts(reports) :: CountsParts(reports)[k].total) == Totals(reports);
    TotalsAddUp(s, expected, reports, expected.Keys);
  }

  /** Two aggregates of the same reports are equal: nothing depends on the order of agents, protocols,
      modes or dimensions. */
  lemma CollectedUnique(x: Report, y: Report, s: Scope, status: Status, agents: set<string>,
                        reports: map<string, Report>)
    requires IsCollected(x, s, status, agents, reports) && IsCollected(y, s, status, agents, reports)
    ensures x == y
  {
    hide SumOver, Merged, MergedMaps, AgentParts, IsFinal, MapMargins;
    SameEvidence(x.evidence, y.evidence);
  }

  lemma SameEvidence(x: Margins<Measurements>, y: Margins<Measurements>)
    requires Everywhere(x, IsFinal) && Everywhere(y, IsFinal) && FactsMargins(x) == FactsMargins(y)
    ensures x == y
  {
    hide FactsOf, IsFinal;
    SameFinal(x.total, y.total);
    SameFinalMaps(x.byProtocol, y.byProtocol);
    SameFinalMaps(x.byMode, y.byMode);
    SameFinalMaps(x.byDimension, y.byDimension);
  }

  // ---- Samples in another order ----

  /** The same measurements but for the order of their samples. */
  predicate Reordered(m: Measurements, n: Measurements) {
    && FactsOf(m) == FactsOf(n)
    && m.connect.(samples := []) == n.connect.(samples := []) && m.prepare.(samples := []) == n.prepare.(samples := [])
    && m.editorReady.(samples := []) == n.editorReady.(samples := [])
  }

  predicate ReorderedMap<K>(x: map<K, Measurements>, y: map<K, Measurements>) {
    x.Keys == y.Keys && forall k :: k in x ==> Reordered(x[k], y[k])
  }

  /** The same report but for the order of samples anywhere in it. */
  predicate ReorderedReport(r: Report, q: Report) {
    && q == r.(evidence := q.evidence) && Reordered(r.evidence.total, q.evidence.total)
    && ReorderedMap(r.evidence.byProtocol, q.evidence.byProtocol) && ReorderedMap(r.evidence.byMode, q.evidence.byMode)
    && ReorderedMap(r.evidence.byDimension, q.evidence.byDimension)
  }

  predicate ReorderedReports(reports: map<string, Report>, others: map<string, Report>) {
    reports.Keys == others.Keys && forall a :: a in reports ==> ReorderedReport(reports[a], others[a])
  }

  lemma ReorderedLatency(l: Latency, k: Latency)
    requires multiset(l.samples) == multiset(k.samples) && l.(samples := []) == k.(samples := [])
    ensures |l.samples| == |k.samples| && (ValidLatency(l) <==> ValidLatency(k))
  {
    assert |multiset(l.samples)| == |multiset(k.samples)|;
    PositiveSamples(l.samples);
    PositiveSamples(k.samples);
  }

  lemma PositiveSamples(samples: seq<real>)
    ensures (forall i :: 0 <= i < |samples| ==> samples[i] > 0.0) <==> (forall x :: x in multiset(samples) ==> x > 0.0)
  {
    assert forall i :: 0 <= i < |samples| ==> samples[i] in multiset(samples);
  }

  lemma ReorderedDimension(d: Dimension, m: Measurements, n: Measurements, c: Counts, horizon: nat, maintained: bool)
    requires Reordered(m, n)
    ensures DimensionEvidenceMatches(d, m, c, horizon, maintained) <==>
              DimensionEvidenceMatches(d, n, c, horizon, maintained)
  {
    hide ValidLatency;
    ReorderedLatency(m.connect, n.connect);
    ReorderedLatency(m.prepare, n.prepare);
    ReorderedLatency(m.editorReady, n.editorReady);
  }

  lemma ReorderedFacts(r: Report, q: Report)
    requires ReorderedReport(r, q)
    ensures FactsMargins(r.evidence) == FactsMargins(q.evidence)
  {
    hide FactsOf;
    assert MapValues(r.evidence.byProtocol, FactsOf) == MapValues(q.evidence.byProtocol, FactsOf);
    assert MapValues(r.evidence.byMode, FactsOf) == MapValues(q.evidence.byMode, FactsOf);
    assert MapValues(r.evidence.byDimension, FactsOf) == MapValues(q.evidence.byDimension, FactsOf);
  }

  lemma ReorderedMatches(r: Report, q: Report, jobs: seq<Job>, horizon: nat, successful: bool)
    requires ReorderedReport(r, q) && ReportMatches(r, jobs, horizon, successful)
    ensures ReportMatches(q, jobs, horizon, successful)
  {
    hide FactsMargins, EvidenceAddsUp, CountsMatch, Planned, DimensionEvidenceMatches, Reordered;
    ReorderedFacts(r, q);
    forall d | d in Planned(jobs).byDimension
      ensures DimensionEvidenceMatches(d, q.evidence.byDimension[d], Lookup(COUNTS, q.counts.byDimension, d), horizon,
                successful)
    {
      ReorderedDimension(d, r.evidence.byDimension[d], q.evidence.byDimension[d],
          Lookup(COUNTS, r.counts.byDimension, d),
                         horizon, successful);
    }
  }

  lemma ReorderedAccepted(s: Scope, expected: map<string, seq<Job>>, reports: map<string, Report>,
                          others: map<string, Report>)
    requires ReorderedReports(reports, others) && Collectable(s, expected, reports)
    ensures Collectable(s, expected, others)
  {
    hide ReportMatches, ReorderedReport, DisjointAssets;
    forall a | a in expected ensures a in others && AgentAccepted(s, others[a], expected[a]) {
      CollectableAgent(s, expected, reports, a);
      ReorderedMatches(reports[a], others[a], expected[a], s.horizon, s.successful);
      ReorderedRest(reports[a], others[a]);
    }
    assert |reports| == |reports.Keys| == |others.Keys| == |others|;
  }

  lemma ReorderedParts(reports: map<string, Report>, others: map<string, Report>)
    requires ReorderedReports(reports, others)
    ensures CountsParts(reports) == CountsParts(others) && FactsParts(reports) == FactsParts(others)
    ensures ReasonParts(reports) == ReasonParts(others)
  {
    hide ReorderedReport, FactsMargins;
    forall a | a in reports
      ensures reports[a].counts == others[a].counts && reports[a].failureReasons == others[a].failureReasons
      ensures FactsMargins(reports[a].evidence) == FactsMargins(others[a].evidence)
    {
      ReorderedFacts(reports[a], others[a]);
      ReorderedRest(reports[a], others[a]);
    }
  }

  /** Reports whose samples come in another order are accepted as well, and their aggregate has the same
      counters, evidence and failure reasons. */
  lemma SampleOrderIrrelevant(x: Report, y: Report, s: Scope, status: Status, expected: map<string, seq<Job>>,
                              reports: map<string, Report>, others: map<string, Report>)
    requires ReorderedReports(reports, others) && Collectable(s, expected, reports)
    requires IsCollected(x, s, status, expected.Keys, reports) && IsCollected(y, s, status, expected.Keys, others)
    ensures Collectable(s, expected, others)
    ensures x.counts == y.counts && x.evidence == y.evidence && x.failureReasons == y.failureReasons
  {
    hide SumOver, Merged, MergedMaps, AgentParts, IsFinal, FactsMargins, ReorderedReports, Everywhere, Collectable,
         CountsParts, FactsParts, ReasonParts;
    ReorderedAccepted(s, expected, reports, others);
    ReorderedParts(reports, others);
    SameEvidence(x.evidence, y.evidence);
  }

  lemma ReorderedRest(r: Report, q: Report)
    requires ReorderedReport(r, q)
    ensures q == r.(evidence := q.evidence)
  {
  }

  lemma SameFinal(x: Measurements, y: Measurements)
    requires IsFinal(x) && IsFinal(y) && FactsOf(x) == FactsOf(y)
    ensures x == y
  {
    hide Finalized, FactsOf;
    EqualIffSameFacts(x, y);
  }

  lemma SameFinalMaps<K>(x: map<K, Measurements>, y: map<K, Measurements>)
    requires MapValues(x, FactsOf) == MapValues(y, FactsOf)
    requires (forall k :: k in x ==> IsFinal(x[k])) && (forall k :: k in y ==> IsFinal(y[k]))
    ensures x == y
  {
    hide IsFinal, FactsOf;
    assert x.Keys == MapValues(x, FactsOf).Keys == MapValues(y, FactsOf).Keys == y.Keys;
    forall k | k in x ensures x[k] == y[k] {
      assert MapValues(x, FactsOf)[k] == MapValues(y, FactsOf)[k];
      SameFinal(x[k], y[k]);
    }
  }

  /** The quantiles are the nearest-rank ones of the samples, which are in order. */
  predicate NearestRankQuantiles(l: Latency) {
    && Ordered(l.samples) && l.p50 <= l.p95 <= l.p99
    && (l.samples != [] ==>
        IsNearestRank(l.samples, 50, l.p50) && IsNearestRank(l.samples, 95, l.p95) &&
            IsNearestRank(l.samples, 99, l.p99))
  }

  predicate IsNearestRank(samples: seq<real>, percent: nat, q: real) {
    && q in samples
    && 100 * CountAtMost(samples, q) >= percent * |samples|
    && 100 * CountBelow(samples, q) < percent * |samples|
  }

  predicate NearestRankThroughout(m: Measurements) {
    NearestRankQuantiles(m.connect) && NearestRankQuantiles(m.prepare) && NearestRankQuantiles(m.editorReady)
  }

  lemma FinalQuantiles(l: Latency)
    requires FinalizedLatency(l) == l
    ensures NearestRankQuantiles(l)
  {
    hide Quantile, CountAtMost, CountBelow;
    SortedSorts(l.samples);
    QuantilesAscend(l.samples);
    if l.samples != [] {
      NearestRank(l.samples, 50);
      NearestRank(l.samples, 95);
      NearestRank(l.samples, 99);
    }
  }

  /** Every quantile of an aggregate, at every margin, is the nearest-rank one of the merged samples. */
  lemma CollectedQuantiles(r: Report, s: Scope, status: Status, agents: set<string>, reports: map<string, Report>)
    requires IsCollected(r, s, status, agents, reports)
    ensures Everywhere(r.evidence, NearestRankThroughout)
  {
    hide FinalizedLatency, NearestRankQuantiles, SumOver, MapMargins;
    forall m | IsFinal(m) ensures NearestRankThroughout(m) {
      FinalQuantiles(m.connect);
      FinalQuantiles(m.prepare);
      FinalQuantiles(m.editorReady);
    }
  }

  // ---- Soundness ----

  /** Entries that are non-negative are bounded by their sum. */
  lemma SumDominates<K>(counts: map<K, Counts>, k: K)
    requires k in counts && forall j :: j in counts ==> ValidCounts(counts[j])
    ensures var t, c := Sum(COUNTS, counts), counts[k];
            c.duplicates <= t.duplicates && c.unused <= t.unused && c.planned - c.used <= t.planned - t.used
            && c.startFailures <= t.startFailures && c.runtimeFailures <= t.runtimeFailures
  {
    CountsCommutative();
    SumPick(COUNTS, counts, counts.Keys, k);
    SumNonNegative(counts, counts.Keys - {k});
  }

  lemma {:induction false} SumNonNegative<K>(counts: map<K, Counts>, keys: set<K>)
    requires keys <= counts.Keys && forall j :: j in counts ==> ValidCounts(counts[j])
    ensures var t := SumOver(COUNTS, counts, keys);
            0 <= t.duplicates && 0 <= t.unused && t.used <= t.planned && 0 <= t.startFailures && 0 <= t.runtimeFailures
  {
    if keys != {} {
      SumNonNegative(counts, keys - {AnyOf(keys)});
    }
  }

  /** Every planned session of a dimension was used once, started and maintained. */
  predicate FullyMaintained(c: Counts, planned: int) {
    && c.planned == c.used == c.started == c.maintained == planned
    && c.duplicates == 0 && c.unused == 0 && c.startFailures == 0 && c.runtimeFailures == 0
  }

  lemma MarginsMaintained<K>(counts: map<K, Counts>, planned: map<K, int>, total: Counts)
    requires MarginMatches(counts, planned, total) && Successful(total)
    ensures forall k :: k in planned ==> k in counts && FullyMaintained(counts[k], planned[k])
  {
    hide SumOver;
    forall k | k in planned ensures k in counts && FullyMaintained(counts[k], planned[k]) {
      SumDominates(counts, k);
    }
  }

  /** In every protocol, mode and dimension each planned session was used, started and maintained without
      failure or duplicate, each has a connect sample and activity, and each direct one moved bytes both ways. */
  ghost predicate SoundRun(r: Report, jobs: seq<Job>) {
    var planned := Planned(jobs);
    && FullyMaintained(r.counts.total, |jobs|)
    && (forall p :: p in planned.byProtocol ==>
                      p in r.counts.byProtocol && FullyMaintained(r.counts.byProtocol[p], planned.byProtocol[p]))
    && (forall o :: o in planned.byMode ==>
                      o in r.counts.byMode && FullyMaintained(r.counts.byMode[o], planned.byMode[o]))
    && (forall d :: d in planned.byDimension ==>
                      d in r.counts.byDimension && FullyMaintained(r.counts.byDimension[d], planned.byDimension[d])
                      && d in r.evidence.byDimension
                      && ProvesMaintained(d, r.evidence.byDimension[d], r.counts.byDimension[d]))
  }

  /** Acceptance by AggregateForBuild means a sound run of every agent, with no asset shared. */
  lemma AcceptedRunIsSound(runID: string, build: string, horizon: nat, expected: map<string, seq<Job>>,
                           reports: map<string, Report>)
    requires Collectable(CompletedScope(runID, build, horizon, true), expected, reports)
    ensures DisjointAssets(expected)
    ensures forall a :: a in expected ==>
              a in reports && reports[a].status == Completed && SoundRun(reports[a], expected[a])
  {
    hide SoundRun, ReportMatches;
    var s := CompletedScope(runID, build, horizon, true);
    forall a | a in expected
      ensures a in reports && reports[a].status == Completed && SoundRun(reports[a], expected[a])
    {
      CollectableAgent(s, expected, reports, a);
      MatchingReportIsSound(reports[a], expected[a], horizon);
    }
  }

  lemma MatchingReportIsSound(r: Report, jobs: seq<Job>, horizon: nat)
    requires ReportMatches(r, jobs, horizon, true)
    ensures SoundRun(r, jobs)
  {
    hide FullyMaintained, EvidenceAddsUp, ValidMeasurements, ProvesMaintained, MarginMatches, Successful;
    var planned, t := Planned(jobs), r.counts.total;
    PlannedTotal(jobs);
    hide Planned;
    MaintainedTotal(t, |jobs|);
    MarginsMaintained(r.counts.byProtocol, planned.byProtocol, t);
    MarginsMaintained(r.counts.byMode, planned.byMode, t);
    MarginsMaintained(r.counts.byDimension, planned.byDimension, t);
    forall d | d in planned.byDimension
      ensures d in r.evidence.byDimension && ProvesMaintained(d, r.evidence.byDimension[d], r.counts.byDimension[d])
    {
      assert DimensionEvidenceMatches(d, r.evidence.byDimension[d], Lookup(COUNTS, r.counts.byDimension, d), horizon,
               true);
    }
  }

  lemma MaintainedTotal(c: Counts, planned: int)
    requires Successful(c) && ValidCounts(c) && c.planned == planned
    ensures FullyMaintained(c, planned)
  {
  }
}
