/** Validation and aggregation of the agents' reports. Go's map iteration is modelled by taking the
    remaining keys in any order. */
module Aggregation {
  import opened Wrappers
  import opened Sums
  import opened Scenario
  import opened Marginals
  import opened Ledgers
  import opened Merging
  import opened Accounting
  import opened Evidence
  import opened Tracking

  // ---- What validation accepts ----

  ghost predicate MarginMatches<K>(counts: map<K, Counts>, planned: map<K, int>, total: Counts) {
    && counts.Keys == planned.Keys
    && (forall k :: k in planned ==> counts[k].planned == planned[k] && ValidCounts(counts[k]))
    && Sum(COUNTS, counts) == total
  }

  ghost predicate CountsMatch(b: Margins<Counts>, planned: Margins<int>) {
    && b.total.planned == planned.total && ValidCounts(b.total)
    && MarginMatches(b.byProtocol, planned.byProtocol, b.total)
    && MarginMatches(b.byMode, planned.byMode, b.total)
    && MarginMatches(b.byDimension, planned.byDimension, b.total)
  }

  predicate Successful(c: Counts) {
    && c.used == c.planned && c.duplicates == 0 && c.unused == 0 && c.startFailures == 0
    && c.runtimeFailures == 0 && c.started == c.planned && c.maintained == c.started
  }

  predicate ProvesMaintained(d: Dimension, m: Measurements, c: Counts) {
    && |m.connect.samples| == c.maintained && m.traffic.activeSessions == c.maintained
    && m.traffic.lastActivitySessions == c.maintained && m.traffic.activityEvents >= c.maintained
    && (d.mode == Direct ==> m.traffic.bidirectionalSessions == c.maintained)
  }

  predicate DimensionEvidenceMatches(d: Dimension, m: Measurements, c: Counts, horizon: nat, maintained: bool) {
    ValidMeasurements(m, horizon) && (maintained ==> ProvesMaintained(d, m, c))
  }

  ghost predicate EvidenceAddsUp(e: Margins<Facts>, planned: Margins<int>) {
    && e.total == Sum(FACTS, e.byDimension)
    && (forall p :: p in planned.byProtocol ==>
                      Lookup(FACTS, e.byProtocol, p) ==
                          SumOver(FACTS, e.byDimension, InProtocol(e.byDimension.Keys, p)))
    && (forall o :: o in planned.byMode ==>
                      Lookup(FACTS, e.byMode, o) == SumOver(FACTS, e.byDimension, InMode(e.byDimension.Keys, o)))
  }

  ghost predicate EvidenceMatches(r: Report, planned: Margins<int>, horizon: nat, maintained: bool) {
    var e := r.evidence;
    && |e.byProtocol| == |planned.byProtocol| && |e.byMode| == |planned.byMode|
    && e.byDimension.Keys == planned.byDimension.Keys
    && (forall d :: d in planned.byDimension ==>
                      DimensionEvidenceMatches(d, e.byDimension[d], Lookup(COUNTS, r.counts.byDimension, d), horizon,
                          maintained))
    && EvidenceAddsUp(FactsMargins(e), planned)
  }

  ghost predicate ReportMatches(r: Report, jobs: seq<Job>, horizon: nat, successful: bool) {
    && CountsMatch(r.counts, Planned(jobs))
    && (successful ==> Successful(r.counts.total))
    && EvidenceMatches(r, Planned(jobs), horizon, successful)
  }

  function AssetsOf(jobs: seq<Job>): set<string> { set i | 0 <= i < |jobs| :: jobs[i].assetID }

  // ---- Validation, key by key in any order ----

  method CheckMargin<K>(counts: map<K, Counts>, planned: map<K, int>, total: Counts) returns (ok: bool)
    ensures ok <==> MarginMatches(counts, planned, total)
  {
    hide AddCounts, ValidCounts, SumOver, Commutative;
    var sum := ZERO;
    var remaining := planned.Keys;
    assert planned.Keys - remaining == {};
    SumOverNothing(COUNTS, counts);
    while remaining != {}
      invariant remaining <= planned.Keys
      invariant forall k :: k in planned.Keys - remaining ==>
                  k in counts && counts[k].planned == planned[k] && ValidCounts(counts[k])
      invariant sum == SumOver(COUNTS, counts, planned.Keys - remaining)
      decreases remaining
    {
      var k :| k in remaining;
      if k !in counts || counts[k].planned != planned[k] || !ValidCounts(counts[k]) {
        return false;
      }
      ghost var done := planned.Keys - remaining;
      CountsCommutative();
      SumNext(COUNTS, counts, done, k);
      sum := AddCounts(sum, counts[k]);
      remaining := remaining - {k};
      assert planned.Keys - remaining == done + {k};
    }
    if exists k :: k in counts && k !in planned {
      return false;
    }
    assert planned.Keys - remaining == counts.Keys;
    return sum == total;
  }

  lemma SumNext<K, V(!new)>(m: Monoid<V>, source: map<K, V>, done: set<K>, k: K)
    requires Commutative(m) && k !in done
    ensures SumOver(m, source, done + {k}) == m.plus(SumOver(m, source, done), Lookup(m, source, k))
  {
    SumPick(m, source, done + {k}, k);
    assert done + {k} - {k} == done;
    assert m.plus(Lookup(m, source, k), SumOver(m, source, done)) ==
             m.plus(SumOver(m, source, done), Lookup(m, source, k));
  }

  /** Reading an absent key gives empty measurements. */
  function Get<K>(source: map<K, Measurements>, k: K): Measurements {
    if k in source then source[k] else NOTHING
  }

  function MergeAt<K>(target: map<K, Measurements>, k: K, value: Measurements): map<K, Measurements> {
    target[k := MergeMeasurements(Get(target, k), value)]
  }

  /** `want` holds, per protocol, the facts of the dimensions seen so far. */
  ghost predicate WantedProtocols(want: map<Protocol, Measurements>, source: map<Dimension, Facts>,
                                  done: set<Dimension>) {
    forall p :: FactsOf(Get(want, p)) == SumOver(FACTS, source, InProtocol(done, p))
  }

  ghost predicate WantedModes(want: map<Mode, Measurements>, source: map<Dimension, Facts>, done: set<Dimension>) {
    forall o :: FactsOf(Get(want, o)) == SumOver(FACTS, source, InMode(done, o))
  }

  lemma WantMore(want: map<Protocol, Measurements>, modes: map<Mode, Measurements>, source: map<Dimension, Facts>,
                 done: set<Dimension>, d: Dimension, value: Measurements)
    requires WantedProtocols(want, source, done) && WantedModes(modes, source, done)
    requires d !in done && d in source && source[d] == FactsOf(value)
    ensures WantedProtocols(MergeAt(want, d.protocol, value), source, done + {d})
    ensures WantedModes(MergeAt(modes, d.mode, value), source, done + {d})
  {
    hide FactsOf, MergeFacts, MergeMeasurements, SumOver, Commutative;
    FactsCommutative();
    var after, modesAfter := MergeAt(want, d.protocol, value), MergeAt(modes, d.mode, value);
    forall p ensures FactsOf(Get(after, p)) == SumOver(FACTS, source, InProtocol(done + {d}, p)) {
      if p == d.protocol {
        assert InProtocol(done + {d}, p) == InProtocol(done, p) + {d};
        SumNext(FACTS, source, InProtocol(done, p), d);
        MergedFacts(Get(want, p), value);
      } else {
        assert InProtocol(done + {d}, p) == InProtocol(done, p);
      }
    }
    forall o ensures FactsOf(Get(modesAfter, o)) == SumOver(FACTS, source, InMode(done + {d}, o)) {
      if o == d.mode {
        assert InMode(done + {d}, o) == InMode(done, o) + {d};
        SumNext(FACTS, source, InMode(done, o), d);
        MergedFacts(Get(modes, o), value);
      } else {
        assert InMode(done + {d}, o) == InMode(done, o);
      }
    }
  }

  lemma WantNothing(source: map<Dimension, Facts>)
    ensures WantedProtocols(map[], source, {}) && WantedModes(map[], source, {})
    ensures SumOver(FACTS, source, {}) == FactsOf(NOTHING)
  {
    forall p ensures InProtocol({}, p) == {} {
    }
    forall o ensures InMode({}, o) == {} {
    }
    SumOverNothing(FACTS, source);
  }

  lemma SameSize<T>(a: set<T>, b: set<T>)
    requires a <= b && |a| == |b|
    ensures a == b
  {
    assert |b - a| == 0;
  }

  lemma ComparedFacts<K>(source: map<K, Measurements>, want: map<K, Measurements>, k: K)
    ensures EqualMeasurements(Get(source, k), Finalized(Get(want, k)))
       <==> Lookup(FACTS, MapValues(source, FactsOf), k) == FactsOf(Get(want, k))
  {
    hide FactsOf, Finalized, EqualMeasurements, MergeFacts;
    var left, right := Get(source, k), Get(want, k);
    FinalizedFacts(right);
    EqualIffSameFacts(left, Finalized(right));
    NoFacts(NOTHING);
    assert Lookup(FACTS, MapValues(source, FactsOf), k) == FactsOf(left);
  }

  method ValidateEvidence(r: Report, planned: Margins<int>, horizon: nat, maintained: bool) returns (ok: bool)
    ensures ok <==> EvidenceMatches(r, planned, horizon, maintained)
  {
    hide FactsOf, MergeFacts, MergeMeasurements, SumOver, Commutative, EqualMeasurements, Finalized,
         ValidMeasurements, ProvesMaintained, WantedProtocols, WantedModes, EvidenceAddsUp, Compared;
    var e := r.evidence;
    if |e.byProtocol| != |planned.byProtocol| || |e.byMode| != |planned.byMode| ||
        |e.byDimension| != |planned.byDimension| {
      return false;
    }
    var wantTotal, wantProtocols, wantModes := NOTHING, map[], map[];
    ghost var facts := FactsMargins(e).byDimension;
    var remaining := planned.byDimension.Keys;
    WantNothing(facts);
    assert planned.byDimension.Keys - remaining == {};
    while remaining != {}
      invariant remaining <= planned.byDimension.Keys
      invariant forall d :: d in planned.byDimension.Keys - remaining ==>
                  d in e.byDimension &&
                  DimensionEvidenceMatches(d, e.byDimension[d], Lookup(COUNTS, r.counts.byDimension, d), horizon,
                      maintained)
      invariant FactsOf(wantTotal) == SumOver(FACTS, facts, planned.byDimension.Keys - remaining)
      invariant WantedProtocols(wantProtocols, facts, planned.byDimension.Keys - remaining)
      invariant WantedModes(wantModes, facts, planned.byDimension.Keys - remaining)
      decreases remaining
    {
      var d :| d in remaining;
      if d !in e.byDimension || !ValidMeasurements(e.byDimension[d], horizon) {
        return false;
      }
      var value := e.byDimension[d];
      if maintained && !ProvesMaintained(d, value, Lookup(COUNTS, r.counts.byDimension, d)) {
        return false;
      }
      ghost var done := planned.byDimension.Keys - remaining;
      WantMore(wantProtocols, wantModes, facts, done, d, value);
      FactsCommutative();
      SumNext(FACTS, facts, done, d);
      MergedFacts(wantTotal, value);
      wantTotal := MergeMeasurements(wantTotal, value);
      wantProtocols := MergeAt(wantProtocols, d.protocol, value);
      wantModes := MergeAt(wantModes, d.mode, value);
      remaining := remaining - {d};
      assert planned.byDimension.Keys - remaining == done + {d};
    }
    assert planned.byDimension.Keys - remaining == planned.byDimension.Keys;
    SameSize(planned.byDimension.Keys, e.byDimension.Keys);
    assert facts.Keys == planned.byDimension.Keys;
    ComparedEvidence(e, planned, wantTotal, wantProtocols, wantModes);
    return Compared(e, planned, wantTotal, wantProtocols, wantModes);
  }

  predicate Compared(e: Margins<Measurements>, planned: Margins<int>, wantTotal: Measurements,
                     wantProtocols: map<Protocol, Measurements>, wantModes: map<Mode, Measurements>) {
    && EqualMeasurements(e.total, Finalized(wantTotal))
    && (forall p :: p in planned.byProtocol ==>
        EqualMeasurements(Get(e.byProtocol, p), Finalized(Get(wantProtocols, p))))
    && (forall o :: o in planned.byMode ==> EqualMeasurements(Get(e.byMode, o), Finalized(Get(wantModes, o))))
  }

  lemma ComparedEvidence(e: Margins<Measurements>, planned: Margins<int>, wantTotal: Measurements,
                         wantProtocols: map<Protocol, Measurements>, wantModes: map<Mode, Measurements>)
    requires FactsOf(wantTotal) == Sum(FACTS, FactsMargins(e).byDimension)
    requires WantedProtocols(wantProtocols, FactsMargins(e).byDimension, FactsMargins(e).byDimension.Keys)
    requires WantedModes(wantModes, FactsMargins(e).byDimension, FactsMargins(e).byDimension.Keys)
    ensures Compared(e, planned, wantTotal, wantProtocols, wantModes) <==> EvidenceAddsUp(FactsMargins(e), planned)
  {
    hide FactsOf, SumOver, EqualMeasurements, Finalized, MapValues, MergeFacts;
    var f := FactsMargins(e);
    FinalizedFacts(wantTotal);
    EqualIffSameFacts(e.total, Finalized(wantTotal));
    forall p
      ensures EqualMeasurements(Get(e.byProtocol, p), Finalized(Get(wantProtocols, p)))
         <==> Lookup(FACTS, f.byProtocol, p) == SumOver(FACTS, f.byDimension, InProtocol(f.byDimension.Keys, p))
    {
      ComparedFacts(e.byProtocol, wantProtocols, p);
    }
    forall o
      ensures EqualMeasurements(Get(e.byMode, o), Finalized(Get(wantModes, o)))
         <==> Lookup(FACTS, f.byMode, o) == SumOver(FACTS, f.byDimension, InMode(f.byDimension.Keys, o))
    {
      ComparedFacts(e.byMode, wantModes, o);
    }
  }

  lemma {:induction false} PlannedTotal(jobs: seq<Job>)
    ensures Planned(jobs).total == |jobs|
  {
    if jobs != [] {
      var n := |jobs| - 1;
      PlannedTotal(jobs[..n]);
      PlannedNext(jobs, n);
      assert jobs[..n + 1] == jobs;
    }
  }

  method ValidateReportDimensions(report: Report, jobs: seq<Job>, globalAssets: set<string>, horizon: nat,
                                  successful: bool)
    returns (ok: bool, assets: set<string>)
    ensures ok <==>
              DistinctAssets(jobs) && AssetsOf(jobs) !! globalAssets && ReportMatches(report, jobs, horizon, successful)
    ensures ok ==> assets == globalAssets + AssetsOf(jobs)
  {
    hide Post, MarginMatches, EvidenceMatches, ValidCounts, Successful;
    assets := globalAssets;
    var expected := Empty(INTS);
    var n := 0;
    while n < |jobs|
      invariant n <= |jobs|
      invariant DistinctAssets(jobs[..n]) && AssetsOf(jobs[..n]) !! globalAssets
      invariant assets == globalAssets + AssetsOf(jobs[..n])
      invariant expected == Planned(jobs[..n])
    {
      var job := jobs[n];
      AssetsNext(jobs, n);
      if job.assetID in assets {
        return false, assets;
      }
      assets := assets + {job.assetID};
      PlannedNext(jobs, n);
      expected := Post(INTS, expected, job, 1);
      n := n + 1;
    }
    assert jobs[..n] == jobs;
    PlannedTotal(jobs);
    if report.counts.total.planned != |jobs| || !ValidCounts(report.counts.total) {
      return false, assets;
    }
    if successful && !Successful(report.counts.total) {
      return false, assets;
    }
    ok := CheckMargin(report.counts.byProtocol, expected.byProtocol, report.counts.total);
    if !ok {
      return;
    }
    ok := CheckMargin(report.counts.byMode, expected.byMode, report.counts.total);
    if !ok {
      return;
    }
    ok := CheckMargin(report.counts.byDimension, expected.byDimension, report.counts.total);
    if !ok {
      return;
    }
    ok := ValidateEvidence(report, expected, horizon, successful);
  }

  /** A further job keeps the assets distinct exactly when its asset is new. */
  lemma AssetsNext(jobs: seq<Job>, n: nat)
    requires n < |jobs|
    ensures AssetsOf(jobs[..n + 1]) == AssetsOf(jobs[..n]) + {jobs[n].assetID}
    ensures DistinctAssets(jobs[..n]) ==>
              (DistinctAssets(jobs[..n + 1]) <==> jobs[n].assetID !in AssetsOf(jobs[..n]))
    ensures DistinctAssets(jobs) ==> jobs[n].assetID !in AssetsOf(jobs[..n])
    ensures jobs[n].assetID in AssetsOf(jobs)
  {
    assert forall i :: 0 <= i < n ==> jobs[..n + 1][i] == jobs[..n][i];
    assert jobs[..n + 1][n] == jobs[n];
  }

  // ---- Aggregation ----

  /** The expectation and the inputs that are the same for every agent. */
  datatype Scope = Scope(runID: string, build: string, statuses: set<Status>, horizon: nat, successful: bool)

  ghost predicate AgentAccepted(s: Scope, r: Report, jobs: seq<Job>) {
    && r.version == SCHEMA_VERSION && r.build == s.build && r.runID == s.runID && r.status in s.statuses
    && ReportMatches(r, jobs, s.horizon, s.successful)
  }

  ghost predicate DisjointAssets(expected: map<string, seq<Job>>) {
    && (forall a :: a in expected ==> DistinctAssets(expected[a]))
    && (forall a, b :: a in expected && b in expected && a != b ==> AssetsOf(expected[a]) !! AssetsOf(expected[b]))
  }

  ghost predicate Collectable(s: Scope, expected: map<string, seq<Job>>, reports: map<string, Report>) {
    && |reports| == |expected|
    && (forall a :: a in expected ==> a in reports && AgentAccepted(s, reports[a], expected[a]))
    && DisjointAssets(expected)
  }

  function CountsParts(reports: map<string, Report>): map<string, Margins<Counts>> {
    map a | a in reports :: reports[a].counts
  }

  function FactsParts(reports: map<string, Report>): map<string, Margins<Facts>> {
    map a | a in reports :: FactsMargins(reports[a].evidence)
  }

  function ReasonParts(reports: map<string, Report>): map<string, map<string, int>> {
    map a | a in reports :: reports[a].failureReasons
  }

  function AgentParts(agents: set<string>, reports: map<string, Report>): map<string, Report> {
    map a | a in agents && a in reports :: reports[a].(agents := map[])
  }

  predicate IsFinal(m: Measurements) { Finalized(m) == m }

  /** The aggregate of the reports of `agents`: sums of the agents' margins and of their failure reasons,
      with samples sorted and quantiles taken from the merged samples. */
  ghost predicate IsCollected(r: Report, s: Scope, status: Status, agents: set<string>, reports: map<string, Report>) {
    && r.version == SCHEMA_VERSION && r.build == s.build && r.runID == s.runID && r.status == status
    && r.counts == SumOver(Merged(COUNTS), CountsParts(reports), agents)
    && FactsMargins(r.evidence) == SumOver(Merged(FACTS), FactsParts(reports), agents)
    && Everywhere(r.evidence, IsFinal)
    && r.failureReasons == SumOver(MergedMaps(INTS), ReasonParts(reports), agents)
    && r.agents == AgentParts(agents, reports)
  }

  function MergeMeasurementMap<K>(target: map<K, Measurements>, source: map<K, Measurements>): map<K, Measurements> {
    map k | k in target.Keys + source.Keys ::
      if k in source then MergeMeasurements(Get(target, k), source[k]) else target[k]
  }

  function MergeEvidence(target: Margins<Measurements>, source: Margins<Measurements>): Margins<Measurements> {
    Margins(MergeMeasurements(target.total, source.total), MergeMeasurementMap(target.byProtocol, source.byProtocol),
            MergeMeasurementMap(target.byMode, source.byMode),
                MergeMeasurementMap(target.byDimension, source.byDimension))
  }

  lemma MergedMapFacts<K>(target: map<K, Measurements>, source: map<K, Measurements>)
    ensures MapValues(MergeMeasurementMap(target, source), FactsOf)
         == MergeMap(FACTS, MapValues(target, FactsOf), MapValues(source, FactsOf))
  {
    hide FactsOf, MergeFacts, MergeMeasurements;
    NoFacts(NOTHING);
    forall k | k in target.Keys + source.Keys
      ensures FactsOf(MergeMeasurementMap(target, source)[k])
           == MergeFacts(FactsOf(Get(target, k)), FactsOf(Get(source, k)))
    {
      MergedFacts(Get(target, k), Get(source, k));
      NoFacts(Get(target, k));
    }
    forall k
      ensures Lookup(FACTS, MapValues(target, FactsOf), k) == FactsOf(Get(target, k))
      ensures Lookup(FACTS, MapValues(source, FactsOf), k) == FactsOf(Get(source, k))
    {
    }
  }

  lemma MergedEvidenceFacts(target: Margins<Measurements>, source: Margins<Measurements>)
    ensures FactsMargins(MergeEvidence(target, source)) ==
              MergeMargins(FACTS, FactsMargins(target), FactsMargins(source))
  {
    hide FactsOf, MergeFacts, MergeMeasurements, MapValues, MergeMeasurementMap;
    MergedFacts(target.total, source.total);
    MergedMapFacts(target.byProtocol, source.byProtocol);
    MergedMapFacts(target.byMode, source.byMode);
    MergedMapFacts(target.byDimension, source.byDimension);
  }

  lemma FinalizedTwice(m: Measurements)
    ensures IsFinal(Finalized(m))
  {
    SortedSorts(m.connect.samples);
    SortedSorts(m.prepare.samples);
    SortedSorts(m.editorReady.samples);
    SortedBySamples(Sorted(m.connect.samples), m.connect.samples);
    SortedBySamples(Sorted(m.prepare.samples), m.prepare.samples);
    SortedBySamples(Sorted(m.editorReady.samples), m.editorReady.samples);
  }

  lemma FinalEverywhere(b: Margins<Measurements>)
    ensures Everywhere(MapMargins(b, Finalized), IsFinal)
  {
    hide Finalized, IsFinal;
    forall m ensures IsFinal(Finalized(m)) {
      FinalizedTwice(m);
    }
  }

  function AllAssets(expected: map<string, seq<Job>>, agents: set<string>): set<string> {
    set a, x | a in agents && a in expected && x in AssetsOf(expected[a]) :: x
  }

  /** The agents in `done` have passed, and `assets` are theirs. */
  ghost predicate Checked(s: Scope, expected: map<string, seq<Job>>, reports: map<string, Report>, done: set<string>,
                          assets: set<string>) {
    && done <= expected.Keys && assets == AllAssets(expected, done)
    && (forall a :: a in done ==>
        a in reports && AgentAccepted(s, reports[a], expected[a]) && DistinctAssets(expected[a]))
    && (forall a, b :: a in done && b in done && a != b ==> AssetsOf(expected[a]) !! AssetsOf(expected[b]))
  }

  lemma CheckedNext(s: Scope, expected: map<string, seq<Job>>, reports: map<string, Report>, done: set<string>,
                    assets: set<string>, agent: string)
    requires Checked(s, expected, reports, done, assets) && agent in expected && agent !in done
    ensures if agent in reports && AgentAccepted(s, reports[agent], expected[agent])
               && DistinctAssets(expected[agent]) && AssetsOf(expected[agent]) !! assets
            then Checked(s, expected, reports, done + {agent}, assets + AssetsOf(expected[agent]))
            else !Collectable(s, expected, reports)
  {
    hide AgentAccepted, DistinctAssets, AssetsOf;
    assert AllAssets(expected, done + {agent}) == assets + AssetsOf(expected[agent]);
    if x :| x in AssetsOf(expected[agent]) && x in assets {
      var other :| other in done && x in AssetsOf(expected[other]);
      assert !DisjointAssets(expected);
    }
  }

  lemma CheckedAll(s: Scope, expected: map<string, seq<Job>>, reports: map<string, Report>, assets: set<string>)
    requires Checked(s, expected, reports, expected.Keys, assets) && |reports| == |expected|
    ensures Collectable(s, expected, reports)
  {
    hide AgentAccepted, DistinctAssets, AssetsOf;
  }

  /** What has been merged for the agents in `done`. */
  ghost predicate Gathered(reports: map<string, Report>, done: set<string>, counts: Margins<Counts>,
                           evidence: Margins<Measurements>, reasons: map<string, int>, agents: map<string, Report>) {
    && counts == SumOver(Merged(COUNTS), CountsParts(reports), done)
    && FactsMargins(evidence) == SumOver(Merged(FACTS), FactsParts(reports), done)
    && reasons == SumOver(MergedMaps(INTS), ReasonParts(reports), done)
    && agents == AgentParts(done, reports)
  }

  lemma GatheredNothing(reports: map<string, Report>)
    ensures Gathered(reports, {}, Empty(COUNTS), Margins(NOTHING, map[], map[], map[]), map[], map[])
  {
    hide FactsOf, MergeFacts, MergeMargins, MergeMap, AddCounts;
    SumOverNothing(Merged(COUNTS), CountsParts(reports));
    SumOverNothing(Merged(FACTS), FactsParts(reports));
    SumOverNothing(MergedMaps(INTS), ReasonParts(reports));
    NoFacts(NOTHING);
    var nothing := FactsMargins(Margins(NOTHING, map[], map[], map[]));
    assert nothing == Empty(FACTS);
  }

  lemma GatheredNext(reports: map<string, Report>, done: set<string>, agent: string, counts: Margins<Counts>,
                     evidence: Margins<Measurements>, reasons: map<string, int>, agents: map<string, Report>)
    requires agent in reports && agent !in done
    requires Gathered(reports, done, counts, evidence, reasons, agents)
    ensures var r := reports[agent];
            Gathered(reports, done + {agent}, MergeMargins(COUNTS, counts, r.counts),
                MergeEvidence(evidence, r.evidence),
                     MergeMap(INTS, reasons, r.failureReasons), agents[agent := r.(agents := map[])])
  {
    hide FactsMargins, MergeMargins, MergeMap, SumOver, Commutative, MergeEvidence;
    CountsCommutative();
    FactsCommutative();
    IntsCommutative();
    MergedCommutative(COUNTS);
    MergedCommutative(FACTS);
    MergedMapsCommutative<string, int>(INTS);
    SumNext(Merged(COUNTS), CountsParts(reports), done, agent);
    SumNext(Merged(FACTS), FactsParts(reports), done, agent);
    SumNext(MergedMaps(INTS), ReasonParts(reports), done, agent);
    MergedEvidenceFacts(evidence, reports[agent].evidence);
  }

  /** The loop over the agents shared by both aggregations. */
  method Collect(s: Scope, status: Status, expected: map<string, seq<Job>>, reports: map<string, Report>)
    returns (r: Result<Report>, assets: set<string>)
    ensures r.Ok? <==> Collectable(s, expected, reports)
    ensures r.Ok? ==> IsCollected(r.value, s, status, expected.Keys, reports)
    ensures r.Ok? ==> assets == AllAssets(expected, expected.Keys)
  {
    hide Collectable, Checked, Gathered, ReportMatches, DistinctAssets, AssetsOf, MergeEvidence, MergeMargins, MergeMap,
         Everywhere, MapMargins;
    assets := {};
    if |reports| != |expected| {
      NotCollectable(s, expected, reports);
      return Err, assets;
    }
    var counts, evidence := Empty(COUNTS), Margins(NOTHING, map[], map[], map[]);
    var reasons: map<string, int>, agents: map<string, Report> := map[], map[];
    var remaining := expected.Keys;
    assert expected.Keys - remaining == {};
    GatheredNothing(reports);
    CheckedNothing(s, expected, reports);
    while remaining != {}
      invariant remaining <= expected.Keys
      invariant Checked(s, expected, reports, expected.Keys - remaining, assets)
      invariant Gathered(reports, expected.Keys - remaining, counts, evidence, reasons, agents)
      decreases remaining
    {
      var agent :| agent in remaining;
      ghost var done := expected.Keys - remaining;
      CheckedNext(s, expected, reports, done, assets, agent);
      if agent !in reports {
        return Err, assets;
      }
      var report := reports[agent];
      if report.version != SCHEMA_VERSION || report.build != s.build || report.runID != s.runID ||
          report.status !in s.statuses {
        return Err, assets;
      }
      var ok, more := ValidateReportDimensions(report, expected[agent], assets, s.horizon, s.successful);
      if !ok {
        return Err, assets;
      }
      GatheredNext(reports, done, agent, counts, evidence, reasons, agents);
      assets := more;
      counts := MergeMargins(COUNTS, counts, report.counts);
      evidence := MergeEvidence(evidence, report.evidence);
      reasons := MergeMap(INTS, reasons, report.failureReasons);
      agents := agents[agent := report.(agents := map[])];
      remaining := remaining - {agent};
      assert expected.Keys - remaining == done + {agent};
    }
    assert expected.Keys - remaining == expected.Keys;
    CheckedAll(s, expected, reports, assets);
    r := Ok(Report(SCHEMA_VERSION, s.build, s.runID, status, counts, MapMargins(evidence, Finalized), reasons, agents));
    GatheredAll(s, status, expected, reports, assets, counts, evidence, reasons, agents);
  }

  lemma NotCollectable(s: Scope, expected: map<string, seq<Job>>, reports: map<string, Report>)
    requires |reports| != |expected|
    ensures !Collectable(s, expected, reports)
  {
  }

  lemma CheckedNothing(s: Scope, expected: map<string, seq<Job>>, reports: map<string, Report>)
    ensures Checked(s, expected, reports, {}, {})
  {
  }

  lemma GatheredAll(s: Scope, status: Status, expected: map<string, seq<Job>>, reports: map<string, Report>,
                    assets: set<string>,
                    counts: Margins<Counts>, evidence: Margins<Measurements>, reasons: map<string, int>,
                        agents: map<string, Report>)
    requires Checked(s, expected, reports, expected.Keys, assets)
    requires Gathered(reports, expected.Keys, counts, evidence, reasons, agents)
    ensures assets == AllAssets(expected, expected.Keys)
    ensures var r := Report(SCHEMA_VERSION, s.build, s.runID, status, counts, MapMargins(evidence, Finalized), reasons,
              agents);
            IsCollected(r, s, status, expected.Keys, reports)
  {
    hide AgentAccepted, MapMargins, SumOver, Everywhere, Merged, MergedMaps;
    FinalizedMargins(evidence);
    FinalEverywhere(evidence);
  }
}
