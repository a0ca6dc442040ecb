/** The report of one agent's run and the tracker that accumulates it. */
module Tracking {
  import opened Wrappers
  import opened Sums
  import opened Scenario
  import opened Marginals
  import opened Ledgers
  import opened Accounting
  import opened Evidence

  const SCHEMA_VERSION := 3

  datatype Status = Pending | Running | Completed | Failed | Cancelled | OtherStatus(text: string)

  /** Totals, protocols, modes and dimensions are grouped as margins, once for counters and once for evidence. */
  datatype Report = Report(
    version: int, build: string, runID: string, status: Status,
    counts: Margins<Counts>, evidence: Margins<Measurements>,
    failureReasons: map<string, int>, agents: map<string, Report>)

  predicate Trackable(job: Job) {
    job.assetID != "" && job.accountID != "" && KnownMode(job.mode)
  }

  predicate AllTrackable(jobs: seq<Job>) {
    (forall i :: 0 <= i < |jobs| ==> Trackable(jobs[i])) && DistinctAssets(jobs)
  }

  // ---- What each tracker call books ----

  const PLAN := ZERO.(planned := 1)
  const USE := ZERO.(used := 1)
  const DUPLICATE := ZERO.(duplicates := 1)
  const START := ZERO.(started := 1)
  const START_FAILURE := ZERO.(startFailures := 1)
  const RUNTIME_FAILURE := ZERO.(runtimeFailures := 1)
  const MAINTAIN := ZERO.(maintained := 1)
  const RETRY := ZERO.(retries := 1)
  const RETRY_SUCCESS := ZERO.(retrySuccesses := 1)
  const RETRY_EXHAUSTED := ZERO.(retriesExhausted := 1)

  function FactsMargins(b: Margins<Measurements>): Margins<Facts> { MapMargins(b, FactsOf) }

  function DerivedMargins(b: Margins<Counts>): Margins<Counts> { MapMargins(b, Derived) }

  function Category(phase: string, failure: Option<Failure>): string {
    phase + "/" + if failure.Some? then failure.value.category else "unknown"
  }

  class Tracker {
    const runID: string
    const build: string
    var totals: Counts
    var protocols: map<Protocol, Counts>
    var modes: map<Mode, Counts>
    var dimensions: map<Dimension, Counts>
    var evidence: Measurements
    var protocolEvidence: map<Protocol, Measurements>
    var modeEvidence: map<Mode, Measurements>
    var dimensionEvidence: map<Dimension, Measurements>
    var failureReasons: map<string, int>
    var used: set<string>

    function Counted(): Margins<Counts>
      reads this
    {
      Margins(totals, protocols, modes, dimensions)
    }

    function Measured(): Margins<Measurements>
      reads this
    {
      Margins(evidence, protocolEvidence, modeEvidence, dimensionEvidence)
    }

    ghost function Observed(): Margins<Facts>
      reads this
    {
      FactsMargins(Measured())
    }

    /** Every call keeps totals, protocols, modes and dimensions sums of one another. */
    ghost predicate Valid()
      reads this
    {
      Balanced(COUNTS, Counted()) && Balanced(FACTS, Observed())
    }

    constructor (runID: string, build: string)
      ensures this.runID == runID && this.build == build
      ensures Counted() == Empty(COUNTS) && Observed() == Empty(FACTS)
      ensures failureReasons == map[] && used == {} && Valid()
    {
      this.runID, this.build := runID, build;
      totals, protocols, modes, dimensions := ZERO, map[], map[], map[];
      evidence, protocolEvidence, modeEvidence, dimensionEvidence := NOTHING, map[], map[], map[];
      failureReasons, used := map[], {};
      new;
      EmptyBalanced(COUNTS);
      EmptyBalanced(FACTS);
      assert FACTS.zero == FactsOf(NOTHING);
    }

    method Increment(job: Job, d: Counts)
      requires Valid()
      modifies this`totals, this`protocols, this`modes, this`dimensions
      ensures Valid() && Counted() == Post(COUNTS, old(Counted()), job, d)
    {
      hide Balanced, Commutative, AddCounts, MapMargins;
      ghost var before := Counted();
      totals := AddCounts(totals, d);
      protocols := Add(COUNTS, protocols, job.protocol, d);
      modes := Add(COUNTS, modes, job.mode, d);
      dimensions := Add(COUNTS, dimensions, DimensionOf(job), d);
      CountsCommutative();
      PostBalanced(COUNTS, before, job, d);
    }

    method Attempt(job: Job)
      requires Valid()
      modifies this`totals, this`protocols, this`modes, this`dimensions, this`used
      ensures Valid() && used == old(used) + {job.assetID}
      ensures Counted() == Post(COUNTS, old(Counted()), job, if job.assetID in old(used) then DUPLICATE else USE)
    {
      hide Balanced, Post, MapMargins;
      if job.assetID in used {
        Increment(job, DUPLICATE);
      } else {
        used := used + {job.assetID};
        Increment(job, USE);
      }
    }

    method Started(job: Job)
      requires Valid()
      modifies this`totals, this`protocols, this`modes, this`dimensions
      ensures Valid() && Counted() == Post(COUNTS, old(Counted()), job, START)
    {
      hide Balanced, Post, MapMargins;
      Increment(job, START);
    }

    method Maintained(job: Job)
      requires Valid()
      modifies this`totals, this`protocols, this`modes, this`dimensions
      ensures Valid() && Counted() == Post(COUNTS, old(Counted()), job, MAINTAIN)
    {
      hide Balanced, Post, MapMargins;
      Increment(job, MAINTAIN);
    }

    method StartFailed(job: Job, failure: Option<Failure>)
      requires Valid()
      modifies this`totals, this`protocols, this`modes, this`dimensions, this`failureReasons
      ensures Valid() && Counted() == Post(COUNTS, old(Counted()), job, START_FAILURE)
      ensures failureReasons == Add(INTS, old(failureReasons), Category("start", failure), 1)
    {
      hide Balanced, Post, MapMargins;
      Increment(job, START_FAILURE);
      failureReasons := Add(INTS, failureReasons, Category("start", failure), 1);
    }

    method RuntimeFailed(job: Job, failure: Option<Failure>)
      requires Valid()
      modifies this`totals, this`protocols, this`modes, this`dimensions, this`failureReasons
      ensures Valid() && Counted() == Post(COUNTS, old(Counted()), job, RUNTIME_FAILURE)
      ensures failureReasons == Add(INTS, old(failureReasons), Category("runtime", failure), 1)
    {
      hide Balanced, Post, MapMargins;
      Increment(job, RUNTIME_FAILURE);
      failureReasons := Add(INTS, failureReasons, Category("runtime", failure), 1);
    }

    method ConnectRetry(job: Job)
      requires Valid()
      modifies this`totals, this`protocols, this`modes, this`dimensions
      ensures Valid() && Counted() == Post(COUNTS, old(Counted()), job, RETRY)
    {
      hide Balanced, Post, MapMargins;
      Increment(job, RETRY);
    }

    method ConnectRetrySucceeded(job: Job)
      requires Valid()
      modifies this`totals, this`protocols, this`modes, this`dimensions
      ensures Valid() && Counted() == Post(COUNTS, old(Counted()), job, RETRY_SUCCESS)
    {
      hide Balanced, Post, MapMargins;
      Increment(job, RETRY_SUCCESS);
    }

    method ConnectRetryExhausted(job: Job)
      requires Valid()
      modifies this`totals, this`protocols, this`modes, this`dimensions
      ensures Valid() && Counted() == Post(COUNTS, old(Counted()), job, RETRY_EXHAUSTED)
    {
      hide Balanced, Post, MapMargins;
      Increment(job, RETRY_EXHAUSTED);
    }

    method Record(job: Job, o: Observation)
      requires Valid()
      modifies this`evidence, this`protocolEvidence, this`modeEvidence, this`dimensionEvidence
      ensures Valid() && Observed() == Post(FACTS, old(Observed()), job, ObservedFacts(o))
    {
      hide Balanced, Commutative, RecordAt, AddObservation, MapValues, Add;
      ghost var before := Observed();
      RecordedAt(protocolEvidence, job.protocol, o);
      RecordedAt(modeEvidence, job.mode, o);
      RecordedAt(dimensionEvidence, DimensionOf(job), o);
      AddedFacts(evidence, o);
      evidence := AddObservation(evidence, o);
      protocolEvidence := RecordAt(protocolEvidence, job.protocol, o);
      modeEvidence := RecordAt(modeEvidence, job.mode, o);
      dimensionEvidence := RecordAt(dimensionEvidence, DimensionOf(job), o);
      FactsCommutative();
      PostBalanced(FACTS, before, job, ObservedFacts(o));
      assert Observed() == Post(FACTS, before, job, ObservedFacts(o));
    }

    /** NewTracker plans one job: one more planned, and evidence entries exist under its keys. */
    method PlanJob(job: Job)
      requires Valid()
      modifies this`totals, this`protocols, this`modes, this`dimensions, this`protocolEvidence, this`modeEvidence,
                 this`dimensionEvidence
      ensures Valid() && Counted() == Post(COUNTS, old(Counted()), job, PLAN)
      ensures Observed() == Post(FACTS, old(Observed()), job, FACTS.zero)
    {
      hide Balanced, Commutative, MapValues, Add, FactsOf, MergeFacts;
      Increment(job, PLAN);
      ghost var before := Observed();
      PresentAt(protocolEvidence, job.protocol);
      PresentAt(modeEvidence, job.mode);
      PresentAt(dimensionEvidence, DimensionOf(job));
      if job.protocol !in protocolEvidence {
        protocolEvidence := protocolEvidence[job.protocol := NOTHING];
      }
      if job.mode !in modeEvidence {
        modeEvidence := modeEvidence[job.mode := NOTHING];
      }
      if DimensionOf(job) !in dimensionEvidence {
        dimensionEvidence := dimensionEvidence[DimensionOf(job) := NOTHING];
      }
      NoFacts(evidence);
      FactsCommutative();
      PostBalanced(FACTS, before, job, FACTS.zero);
      assert Observed() == Post(FACTS, before, job, FACTS.zero);
    }

    method Snapshot(status: Status) returns (r: Report)
      ensures r.version == SCHEMA_VERSION && r.build == build && r.runID == runID && r.status == status
      ensures r.counts == DerivedMargins(Counted())
      ensures r.evidence == MapMargins(Measured(), Finalized) && FactsMargins(r.evidence) == Observed()
      ensures r.failureReasons == failureReasons && r.agents == map[]
    {
      FinalizedMargins(Measured());
      r := Report(SCHEMA_VERSION, build, runID, status, DerivedMargins(Counted()), MapMargins(Measured(), Finalized),
                  failureReasons, map[]);
    }
  }

  function RecordAt<K>(source: map<K, Measurements>, k: K, o: Observation): map<K, Measurements> {
    source[k := AddObservation(if k in source then source[k] else NOTHING, o)]
  }

  lemma RecordedAt<K>(source: map<K, Measurements>, k: K, o: Observation)
    ensures MapValues(RecordAt(source, k, o), FactsOf) == Add(FACTS, MapValues(source, FactsOf), k, ObservedFacts(o))
  {
    hide FactsOf, AddObservation, ObservedFacts, MergeFacts;
    var x := if k in source then source[k] else NOTHING;
    AddedFacts(x, o);
    NoFacts(NOTHING);
    assert Lookup(FACTS, MapValues(source, FactsOf), k) == FactsOf(x);
  }

  lemma PresentAt<K>(source: map<K, Measurements>, k: K)
    ensures MapValues(if k in source then source else source[k := NOTHING], FactsOf)
         == Add(FACTS, MapValues(source, FactsOf), k, FACTS.zero)
  {
    hide FactsOf, MergeFacts;
    var x := if k in source then source[k] else NOTHING;
    NoFacts(x);
    assert Lookup(FACTS, MapValues(source, FactsOf), k) == FactsOf(x);
    assert FACTS.plus(FactsOf(x), FACTS.zero) == FactsOf(x);
  }

  lemma NoFacts(m: Measurements)
    ensures MergeFacts(FactsOf(m), FACTS.zero) == FactsOf(m) && FactsOf(NOTHING) == FACTS.zero
  {
  }

  lemma FinalizedMargins(b: Margins<Measurements>)
    ensures FactsMargins(MapMargins(b, Finalized)) == FactsMargins(b)
  {
    hide Finalized, FactsOf;
    FinalizedFacts(b.total);
    FinalizedValues(b.byProtocol);
    FinalizedValues(b.byMode);
    FinalizedValues(b.byDimension);
  }

  lemma FinalizedValues<K>(source: map<K, Measurements>)
    ensures MapValues(MapValues(source, Finalized), FactsOf) == MapValues(source, FactsOf)
  {
    hide Finalized, FactsOf;
    forall k | k in source ensures FactsOf(Finalized(source[k])) == FactsOf(source[k]) {
      FinalizedFacts(source[k]);
    }
  }

  /** NewTrackerWithBuildVersion: refuses unbound jobs, unknown modes and repeated assets. */
  method NewTracker(runID: string, build: string, jobs: seq<Job>) returns (r: Result<Tracker>)
    ensures r.Ok? <==> build != "" && AllTrackable(jobs)
    ensures r.Ok? ==>
              && fresh(r.value) && r.value.Valid()
              && r.value.runID == runID && r.value.build == build
              && r.value.Counted() == Ledger(COUNTS, jobs, Each(jobs, PLAN))
              && r.value.Observed() == Ledger(FACTS, jobs, Each(jobs, FACTS.zero))
              && r.value.used == {} && r.value.failureReasons == map[]
  {
    hide Balanced, Commutative, Post, MapMargins, AllTrackable, Ledger;
    NothingTracked();
    assert jobs[..0] == [];
    if build == "" {
      return Err;
    }
    var tracker := new Tracker(runID, build);
    var planned: set<string> := {};
    var n := 0;
    while n < |jobs|
      invariant n <= |jobs| && fresh(tracker) && tracker.Valid()
      invariant AllTrackable(jobs[..n]) && planned == set i | 0 <= i < n :: jobs[i].assetID
      invariant tracker.Counted() == Ledger(COUNTS, jobs[..n], Each(jobs[..n], PLAN))
      invariant tracker.Observed() == Ledger(FACTS, jobs[..n], Each(jobs[..n], FACTS.zero))
      invariant tracker.runID == runID && tracker.build == build && tracker.used == {} &&
                  tracker.failureReasons == map[]
    {
      var job := jobs[n];
      TrackableNext(jobs, n);
      if job.assetID == "" || job.accountID == "" || !KnownMode(job.mode) {
        return Err;
      }
      if job.assetID in planned {
        return Err;
      }
      planned := planned + {job.assetID};
      EachNext(COUNTS, jobs, n, PLAN);
      EachNext(FACTS, jobs, n, FACTS.zero);
      tracker.PlanJob(job);
      n := n + 1;
    }
    assert jobs[..n] == jobs;
    return Ok(tracker);
  }

  lemma NothingTracked()
    ensures AllTrackable([])
    ensures Ledger(COUNTS, [], Each([], PLAN)) == Empty(COUNTS) &&
              Ledger(FACTS, [], Each([], FACTS.zero)) == Empty(FACTS)
  {
  }

  lemma TrackableNext(jobs: seq<Job>, n: nat)
    requires n < |jobs|
    ensures AllTrackable(jobs[..n]) ==>
              (AllTrackable(jobs[..n + 1]) <==>
                 Trackable(jobs[n]) && forall k :: 0 <= k < n ==> jobs[k].assetID != jobs[n].assetID)
    ensures AllTrackable(jobs) ==> AllTrackable(jobs[..n + 1])
  {
    assert forall k :: 0 <= k < n ==> jobs[..n + 1][k] == jobs[..n][k] == jobs[k];
    assert jobs[..n + 1][n] == jobs[n];
  }

  lemma EachNext<V>(m: Monoid<V>, jobs: seq<Job>, n: nat, d: V)
    requires n < |jobs|
    ensures Ledger(m, jobs[..n + 1], Each(jobs[..n + 1], d)) ==
              Post(m, Ledger(m, jobs[..n], Each(jobs[..n], d)), jobs[n], d)
  {
    hide Post;
    assert jobs[..n + 1][..n] == jobs[..n];
    assert Each(jobs[..n + 1], d)[..n] == Each(jobs[..n], d);
  }
}
