/** Latency samples, quantiles and traffic evidence. Floating-point arithmetic is read as exact. */
module Evidence {
  import opened Wrappers
  import opened Sums

  // ---- Sorting and quantiles ----

  predicate Ordered(s: seq<real>) {
    forall i, j :: 0 <= i < j < |s| ==> s[i] <= s[j]
  }

  function Insert(x: real, s: seq<real>): seq<real> {
    if s == [] || x <= s[0] then [x] + s else [s[0]] + Insert(x, s[1..])
  }

  /** sort.Float64s, as a function of the samples. */
  function Sorted(s: seq<real>): seq<real> {
    if s == [] then [] else Insert(s[0], Sorted(s[1..]))
  }

  lemma {:induction false} InsertKeeps(x: real, s: seq<real>)
    ensures multiset(Insert(x, s)) == multiset(s) + multiset{x}
  {
    if s != [] && s[0] < x {
      InsertKeeps(x, s[1..]);
      assert s == [s[0]] + s[1..];
    }
  }

  lemma {:induction false} InsertOrdered(x: real, s: seq<real>)
    requires Ordered(s)
    ensures Ordered(Insert(x, s))
  {
    if s != [] && s[0] < x {
      var rest := Insert(x, s[1..]);
      InsertOrdered(x, s[1..]);
      InsertKeeps(x, s[1..]);
      hide Insert;
      forall j | 0 <= j < |rest| ensures s[0] <= rest[j] {
        assert rest[j] in multiset(rest);
        assert rest[j] == x || rest[j] in s[1..];
      }
      AtFront(s[0], rest);
    }
  }

  lemma AtFront(x: real, s: seq<real>)
    requires Ordered(s) && forall j :: 0 <= j < |s| ==> x <= s[j]
    ensures Ordered([x] + s)
  {
  }

  lemma {:induction false} SortedSorts(s: seq<real>)
    ensures Ordered(Sorted(s)) && multiset(Sorted(s)) == multiset(s) && |Sorted(s)| == |s|
  {
    if s != [] {
      SortedSorts(s[1..]);
      InsertOrdered(s[0], Sorted(s[1..]));
      InsertKeeps(s[0], Sorted(s[1..]));
      assert s == [s[0]] + s[1..];
      assert |multiset(Sorted(s))| == |multiset(s)|;
    }
  }

  lemma FirstApart(s: seq<real>)
    requires s != []
    ensures multiset(s) == multiset(s[1..]) + multiset{s[0]}
  {
    assert s == [s[0]] + s[1..];
  }

  lemma SameFirst(a: seq<real>, b: seq<real>)
    requires Ordered(a) && Ordered(b) && a != [] && b != [] && multiset(a) == multiset(b)
    ensures a[0] == b[0] && multiset(a[1..]) == multiset(b[1..])
  {
    assert a[0] in multiset(b) && b[0] in multiset(a);
    var i :| 0 <= i < |b| && b[i] == a[0];
    var j :| 0 <= j < |a| && a[j] == b[0];
    FirstApart(a);
    FirstApart(b);
    assert multiset(a[1..]) == multiset(a) - multiset{a[0]};
    assert multiset(b[1..]) == multiset(b) - multiset{b[0]};
  }

  /** Two ordered sequences with the same samples are the same sequence. */
  lemma {:induction false} OrderedUnique(a: seq<real>, b: seq<real>)
    requires Ordered(a) && Ordered(b) && multiset(a) == multiset(b)
    ensures a == b
  {
    assert |multiset(a)| == |multiset(b)|;
    if a != [] {
      SameFirst(a, b);
      OrderedUnique(a[1..], b[1..]);
      assert a == [a[0]] + a[1..] && b == [b[0]] + b[1..];
    }
  }

  lemma SortedBySamples(a: seq<real>, b: seq<real>)
    ensures Sorted(a) == Sorted(b) <==> multiset(a) == multiset(b)
  {
    SortedSorts(a);
    SortedSorts(b);
    if multiset(a) == multiset(b) {
      OrderedUnique(Sorted(a), Sorted(b));
    }
  }

  /** ceil(percent/100 * n) - 1, kept inside the samples. */
  function Rank(n: nat, percent: nat): int {
    var index := (percent * n + 99) / 100 - 1;
    if index < 0 then 0 else if index >= n then n - 1 else index
  }

  function Quantile(values: seq<real>, percent: nat): real {
    if values == [] then 0.0 else values[Rank(|values|, percent)]
  }

  function CountAtMost(s: seq<real>, v: real): nat {
    if s == [] then 0 else (if s[0] <= v then 1 else 0) + CountAtMost(s[1..], v)
  }

  function CountBelow(s: seq<real>, v: real): nat {
    if s == [] then 0 else (if s[0] < v then 1 else 0) + CountBelow(s[1..], v)
  }

  lemma {:induction false} CountsInOrder(s: seq<real>, k: nat)
    requires Ordered(s) && k < |s|
    ensures CountBelow(s, s[k]) <= k < CountAtMost(s, s[k])
  {
    if k > 0 {
      assert s[1..][k - 1] == s[k];
      CountsInOrder(s[1..], k - 1);
    } else {
      NothingBelow(s, s[0]);
    }
  }

  lemma {:induction false} NothingBelow(s: seq<real>, v: real)
    requires forall i :: 0 <= i < |s| ==> v <= s[i]
    ensures CountBelow(s, v) == 0
  {
    if s != [] {
      NothingBelow(s[1..], v);
    }
  }

  lemma {:induction false} CountsOfInsert(x: real, s: seq<real>, v: real)
    ensures CountBelow(Insert(x, s), v) == CountBelow(s, v) + if x < v then 1 else 0
    ensures CountAtMost(Insert(x, s), v) == CountAtMost(s, v) + if x <= v then 1 else 0
  {
    if s == [] || x <= s[0] {
      assert ([x] + s)[1..] == s;
    } else {
      CountsOfInsert(x, s[1..], v);
      assert Insert(x, s)[1..] == Insert(x, s[1..]);
    }
  }

  lemma {:induction false} CountsOfSorted(s: seq<real>, v: real)
    ensures CountBelow(Sorted(s), v) == CountBelow(s, v) && CountAtMost(Sorted(s), v) == CountAtMost(s, v)
  {
    if s != [] {
      CountsOfSorted(s[1..], v);
      CountsOfInsert(s[0], Sorted(s[1..]), v);
    }
  }

  /** The reported quantile is the nearest-rank one: the least sample that at least `percent` per cent
      of the samples do not exceed. */
  lemma NearestRank(samples: seq<real>, percent: nat)
    requires samples != [] && 1 <= percent <= 100
    ensures var q := Quantile(Sorted(samples), percent);
            && q in samples
            && 100 * CountAtMost(samples, q) >= percent * |samples|
            && 100 * CountBelow(samples, q) < percent * |samples|
  {
    hide Rank, Sorted, CountAtMost, CountBelow;
    var s := Sorted(samples);
    SortedSorts(samples);
    RankBounds(|s|, percent);
    var k := Rank(|s|, percent);
    CountsInOrder(s, k);
    CountsOfSorted(samples, s[k]);
    assert s[k] in multiset(s);
  }

  lemma RankBounds(n: nat, percent: nat)
    requires n > 0 && 1 <= percent <= 100
    ensures 0 <= Rank(n, percent) < n
    ensures 100 * Rank(n, percent) < percent * n <= 100 * (Rank(n, percent) + 1)
  {
    PercentOf(n, percent);
    Hundredths(percent * n, n);
  }

  lemma PercentOf(n: nat, percent: nat)
    requires n > 0 && 1 <= percent <= 100
    ensures 0 < percent * n <= 100 * n
  {
  }

  lemma Hundredths(x: int, n: nat)
    requires 0 < x <= 100 * n
    ensures var i := (x + 99) / 100 - 1; 0 <= i < n && 100 * i < x <= 100 * (i + 1)
  {
  }

  lemma RankMonotone(n: nat, low: nat, high: nat)
    requires n > 0 && low <= high
    ensures 0 <= Rank(n, low) <= Rank(n, high) < n
  {
    assert low * n <= high * n;
  }

  lemma QuantilesAscend(samples: seq<real>)
    ensures var s := Sorted(samples); Quantile(s, 50) <= Quantile(s, 95) <= Quantile(s, 99)
  {
    hide Sorted, Rank;
    SortedSorts(samples);
    if samples != [] {
      RankMonotone(|samples|, 50, 95);
      RankMonotone(|samples|, 95, 99);
    }
  }

  // ---- Measurements ----

  datatype Latency = Latency(p50: real, p95: real, p99: real, samples: seq<real>)
  datatype Traffic = Traffic(
    sentBytes: int, receivedBytes: int, activityEvents: int, activeSessions: int,
    bidirectionalSessions: int, lastActivitySessions: int, lastActivity: nat)
  datatype Measurements = Measurements(connect: Latency, prepare: Latency, editorReady: Latency, traffic: Traffic)

  const NO_LATENCY := Latency(0.0, 0.0, 0.0, [])
  const NO_TRAFFIC := Traffic(0, 0, 0, 0, 0, 0, 0)
  const NOTHING := Measurements(NO_LATENCY, NO_LATENCY, NO_LATENCY, NO_TRAFFIC)

  /** The classification of an error text by the substrings it contains. */
  datatype Failure = Failure(category: string, sshTimeout: bool, graphicalTimeout: bool, transport: bool)
  datatype CloseReason = SessionCompleted | SessionCancelled | SessionFailed
  /** Durations in nanoseconds; lastActivity 0 is the zero time. */
  datatype Observation = Observation(
    reason: CloseReason, connectLatency: int, prepareLatency: int, editorReadyLatency: int,
    sentBytes: int, receivedBytes: int, activityEvents: int, lastActivity: nat, failure: Option<Failure>)

  function AddSample(l: Latency, nanos: int): Latency {
    if nanos > 0 then l.(samples := l.samples + [nanos as real / 1000000.0]) else l
  }

  function AddObservation(target: Measurements, o: Observation): Measurements {
    var t := target.traffic;
    Measurements(
      AddSample(target.connect, o.connectLatency), AddSample(target.prepare, o.prepareLatency),
      AddSample(target.editorReady, o.editorReadyLatency),
      Traffic(t.sentBytes + o.sentBytes, t.receivedBytes + o.receivedBytes, t.activityEvents + o.activityEvents,
              t.activeSessions + (if o.activityEvents > 0 then 1 else 0),
              t.bidirectionalSessions + (if o.sentBytes > 0 && o.receivedBytes > 0 then 1 else 0),
              t.lastActivitySessions + (if o.lastActivity != 0 then 1 else 0),
              if o.lastActivity > t.lastActivity then o.lastActivity else t.lastActivity))
  }

  function MergeTraffic(a: Traffic, b: Traffic): Traffic {
    Traffic(a.sentBytes + b.sentBytes, a.receivedBytes + b.receivedBytes, a.activityEvents + b.activityEvents,
            a.activeSessions + b.activeSessions, a.bidirectionalSessions + b.bidirectionalSessions,
            a.lastActivitySessions + b.lastActivitySessions,
            if b.lastActivity > a.lastActivity then b.lastActivity else a.lastActivity)
  }

  function MergeMeasurements(target: Measurements, value: Measurements): Measurements {
    Measurements(
      target.connect.(samples := target.connect.samples + value.connect.samples),
      target.prepare.(samples := target.prepare.samples + value.prepare.samples),
      target.editorReady.(samples := target.editorReady.samples + value.editorReady.samples),
      MergeTraffic(target.traffic, value.traffic))
  }

  function FinalizedLatency(l: Latency): Latency {
    var s := Sorted(l.samples);
    Latency(Quantile(s, 50), Quantile(s, 95), Quantile(s, 99), s)
  }

  function Finalized(m: Measurements): Measurements {
    Measurements(FinalizedLatency(m.connect), FinalizedLatency(m.prepare), FinalizedLatency(m.editorReady), m.traffic)
  }

  /** Both sides are finalized again before they are compared field by field. */
  predicate EqualMeasurements(left: Measurements, right: Measurements) {
    Finalized(left) == Finalized(right)
  }

  predicate ValidLatency(l: Latency) {
    (forall i :: 0 <= i < |l.samples| ==> l.samples[i] > 0.0) && l.p50 <= l.p95 <= l.p99
  }

  /** `horizon` is the present plus five minutes. */
  predicate ValidMeasurements(m: Measurements, horizon: nat) {
    && 0 <= m.traffic.sentBytes && 0 <= m.traffic.receivedBytes && 0 <= m.traffic.activityEvents
    && 0 <= m.traffic.activeSessions && 0 <= m.traffic.bidirectionalSessions && 0 <= m.traffic.lastActivitySessions
    && m.traffic.lastActivity <= horizon
    && ValidLatency(m.connect) && ValidLatency(m.prepare) && ValidLatency(m.editorReady)
  }

  // ---- What measurements stand for ----

  /** Samples as multisets: the part of Measurements that does not depend on the order of recording. */
  datatype Facts = Facts(connect: multiset<real>, prepare: multiset<real>, editorReady: multiset<real>,
                         traffic: Traffic)

  const NO_FACTS := Facts(multiset{}, multiset{}, multiset{}, NO_TRAFFIC)
  const FACTS := Monoid(NO_FACTS, MergeFacts)

  function MergeFacts(a: Facts, b: Facts): Facts {
    Facts(a.connect + b.connect, a.prepare + b.prepare, a.editorReady + b.editorReady,
        MergeTraffic(a.traffic, b.traffic))
  }

  function FactsOf(m: Measurements): Facts {
    Facts(multiset(m.connect.samples), multiset(m.prepare.samples), multiset(m.editorReady.samples), m.traffic)
  }

  function ObservedFacts(o: Observation): Facts { FactsOf(AddObservation(NOTHING, o)) }

  lemma FactsCommutative()
    ensures Commutative(FACTS)
  {
  }

  lemma AddedFacts(target: Measurements, o: Observation)
    ensures FactsOf(AddObservation(target, o)) == MergeFacts(FactsOf(target), ObservedFacts(o))
  {
    AddedSample(target.connect, o.connectLatency);
    AddedSample(target.prepare, o.prepareLatency);
    AddedSample(target.editorReady, o.editorReadyLatency);
    hide AddSample;
  }

  lemma AddedSample(l: Latency, nanos: int)
    ensures multiset(AddSample(l, nanos).samples)
         == multiset(l.samples) + multiset(AddSample(NO_LATENCY, nanos).samples)
  {
  }

  lemma MergedFacts(target: Measurements, value: Measurements)
    ensures FactsOf(MergeMeasurements(target, value)) == MergeFacts(FactsOf(target), FactsOf(value))
  {
  }

  lemma FinalizedFacts(m: Measurements)
    ensures FactsOf(Finalized(m)) == FactsOf(m)
  {
    SortedSorts(m.connect.samples);
    SortedSorts(m.prepare.samples);
    SortedSorts(m.editorReady.samples);
  }

  /** Measurements compare equal exactly when they stand for the same facts: the quantiles a report
      claims, and the order of its samples, play no part. */
  lemma EqualIffSameFacts(left: Measurements, right: Measurements)
    ensures EqualMeasurements(left, right) <==> FactsOf(left) == FactsOf(right)
  {
    SortedBySamples(left.connect.samples, right.connect.samples);
    SortedBySamples(left.prepare.samples, right.prepare.samples);
    SortedBySamples(left.editorReady.samples, right.editorReady.samples);
  }
}
