/** Validation compares only how many protocols and modes the evidence names. When that is enough: exactly if
    every planned protocol and mode has an entry, which strict acceptance guarantees. */
module EvidenceKeys {
  import opened Sums
  import opened Scenario
  import opened Marginals
  import opened Ledgers
  import opened Merging
  import opened Accounting
  import opened Evidence
  import opened Tracking
  import opened Aggregation
  import opened AggregationProperties

  // ---- Sums regrouped ----

  lemma {:induction false} SumUnion<K, V(!new)>(m: Monoid<V>, source: map<K, V>, a: set<K>, b: set<K>)
    requires Commutative(m) && a !! b
    ensures SumOver(m, source, a + b) == m.plus(SumOver(m, source, a), SumOver(m, source, b))
    decreases |b|
  {
    hide SumOver, Commutative;
    SumOverNothing(m, source);
    if b == {} {
      assert a + b == a;
      AddZero(m, SumOver(m, source, a));
    } else {
      var k := AnyOf(b);
      var x, y := Lookup(m, source, k), SumOver(m, source, b - {k});
      SumUnion(m, source, a, b - {k});
      SumPick(m, source, b, k);
      SumPick(m, source, a + b, k);
      assert a + b - {k} == a + (b - {k});
      Rotate(m, x, SumOver(m, source, a), y);
    }
  }

  lemma AddZero<V(!new)>(m: Monoid<V>, v: V)
    requires Commutative(m)
    ensures m.plus(v, m.zero) == v && m.plus(m.zero, v) == v
  {
    assert m.plus(v, m.zero) == m.plus(m.zero, v);
  }

  lemma Rotate<V(!new)>(m: Monoid<V>, x: V, y: V, z: V)
    requires Commutative(m)
    ensures m.plus(x, m.plus(y, z)) == m.plus(y, m.plus(x, z))
  {
    assert m.plus(m.plus(x, y), z) == m.plus(m.plus(y, x), z);
  }

  function InProtocols(keys: set<Dimension>, ps: set<Protocol>): set<Dimension> {
    set d | d in keys && d.protocol in ps
  }

  function InModes(keys: set<Dimension>, os: set<Mode>): set<Dimension> { set d | d in keys && d.mode in os }

  lemma {:induction false} SumByProtocol<V(!new)>(m: Monoid<V>, b: Margins<V>, ps: set<Protocol>)
    requires Commutative(m) && ps <= b.byProtocol.Keys && BalancedProtocols(m, b)
    ensures SumOver(m, b.byProtocol, ps) == SumOver(m, b.byDimension, InProtocols(b.byDimension.Keys, ps))
    decreases |ps|
  {
    hide SumOver, Commutative;
    var keys := b.byDimension.Keys;
    SumOverNothing(m, b.byProtocol);
    SumOverNothing(m, b.byDimension);
    if ps == {} {
      assert InProtocols(keys, ps) == {};
    } else {
      var p := AnyOf(ps);
      SumByProtocol(m, b, ps - {p});
      SumPick(m, b.byProtocol, ps, p);
      SumUnion(m, b.byDimension, InProtocol(keys, p), InProtocols(keys, ps - {p}));
      assert InProtocol(keys, p) + InProtocols(keys, ps - {p}) == InProtocols(keys, ps);
    }
  }

  lemma {:induction false} SumByMode<V(!new)>(m: Monoid<V>, b: Margins<V>, os: set<Mode>)
    requires Commutative(m) && os <= b.byMode.Keys && BalancedModes(m, b)
    ensures SumOver(m, b.byMode, os) == SumOver(m, b.byDimension, InModes(b.byDimension.Keys, os))
    decreases |os|
  {
    hide SumOver, Commutative;
    var keys := b.byDimension.Keys;
    SumOverNothing(m, b.byMode);
    SumOverNothing(m, b.byDimension);
    if os == {} {
      assert InModes(keys, os) == {};
    } else {
      var o := AnyOf(os);
      SumByMode(m, b, os - {o});
      SumPick(m, b.byMode, os, o);
      SumUnion(m, b.byDimension, InMode(keys, o), InModes(keys, os - {o}));
      assert InMode(keys, o) + InModes(keys, os - {o}) == InModes(keys, os);
    }
  }

  /** Margins whose protocols and modes are sums of their dimensions have equal totals throughout. */
  lemma TotalsFollow<V(!new)>(m: Monoid<V>, b: Margins<V>)
    requires Commutative(m) && BalancedProtocols(m, b) && BalancedModes(m, b) && b.total == Sum(m, b.byDimension)
    ensures Balanced(m, b)
  {
    hide SumOver, Commutative;
    var keys := b.byDimension.Keys;
    SumByProtocol(m, b, b.byProtocol.Keys);
    SumByMode(m, b, b.byMode.Keys);
    assert InProtocols(keys, b.byProtocol.Keys) == keys;
    assert InModes(keys, b.byMode.Keys) == keys;
  }

  // ---- The keys of one agent's evidence ----

  /** Every planned protocol and mode has an entry in the evidence. */
  predicate NamesPlanned(e: Margins<Measurements>, planned: Margins<int>) {
    planned.byProtocol.Keys <= e.byProtocol.Keys && planned.byMode.Keys <= e.byMode.Keys
  }

  lemma PlannedKeys(jobs: seq<Job>)
    ensures var planned := Planned(jobs);
            && planned.byProtocol.Keys == (set d | d in planned.byDimension :: d.protocol)
            && planned.byMode.Keys == (set d | d in planned.byDimension :: d.mode)
  {
    hide SumOver, Ledger;
    IntsCommutative();
    LedgerBalanced(INTS, jobs, Each(jobs, 1));
  }

  /** For accepted evidence three things are one: every planned protocol and mode has an entry; the entries
      are exactly the planned ones; and the four margins of the evidence are sums of one another. */
  lemma KeysExactly(r: Report, jobs: seq<Job>, horizon: nat, maintained: bool)
    requires EvidenceMatches(r, Planned(jobs), horizon, maintained)
    ensures var e, planned := r.evidence, Planned(jobs);
            && (e.byProtocol.Keys == planned.byProtocol.Keys <==> planned.byProtocol.Keys <= e.byProtocol.Keys)
            && (e.byMode.Keys == planned.byMode.Keys <==> planned.byMode.Keys <= e.byMode.Keys)
            && (Balanced(FACTS, FactsMargins(e)) <==> NamesPlanned(e, planned))
  {
    hide SumOver, Planned, FactsOf, Commutative, DimensionEvidenceMatches, Balanced, EvidenceAddsUp;
    var e, planned := r.evidence, Planned(jobs);
    if planned.byProtocol.Keys <= e.byProtocol.Keys {
      SameSize(planned.byProtocol.Keys, e.byProtocol.Keys);
    }
    if planned.byMode.Keys <= e.byMode.Keys {
      SameSize(planned.byMode.Keys, e.byMode.Keys);
    }
    if NamesPlanned(e, planned) {
      NamedBalances(e, jobs);
    }
    if Balanced(FACTS, FactsMargins(e)) {
      BalancedNames(e, jobs);
    }
  }

  lemma MarginKeys(e: Margins<Measurements>)
    ensures var f := FactsMargins(e);
            f.byProtocol.Keys == e.byProtocol.Keys && f.byMode.Keys == e.byMode.Keys &&
                f.byDimension.Keys == e.byDimension.Keys
  {
  }

  lemma NamedBalances(e: Margins<Measurements>, jobs: seq<Job>)
    requires var planned := Planned(jobs);
             && e.byProtocol.Keys == planned.byProtocol.Keys && e.byMode.Keys == planned.byMode.Keys
             && e.byDimension.Keys == planned.byDimension.Keys && EvidenceAddsUp(FactsMargins(e), planned)
    ensures Balanced(FACTS, FactsMargins(e))
  {
    hide SumOver, Planned, FactsOf, Commutative, FactsMargins;
    PlannedKeys(jobs);
    MarginKeys(e);
    FactsCommutative();
    TotalsFollow(FACTS, FactsMargins(e));
  }

  lemma BalancedNames(e: Margins<Measurements>, jobs: seq<Job>)
    requires Balanced(FACTS, FactsMargins(e)) && e.byDimension.Keys == Planned(jobs).byDimension.Keys
    ensures NamesPlanned(e, Planned(jobs))
  {
    hide SumOver, Planned, FactsOf, FactsMargins;
    PlannedKeys(jobs);
    MarginKeys(e);
  }

  /** A planned protocol or mode with any evidence in its dimensions always has an entry. */
  lemma EvidenceIsNamed(r: Report, planned: Margins<int>, horizon: nat, maintained: bool)
    requires EvidenceMatches(r, planned, horizon, maintained)
    ensures var e, f := r.evidence, FactsMargins(r.evidence);
            && (forall p :: p in planned.byProtocol && p !in e.byProtocol ==>
                              SumOver(FACTS, f.byDimension, InProtocol(f.byDimension.Keys, p)) == NO_FACTS)
            && (forall o :: o in planned.byMode && o !in e.byMode ==>
                              SumOver(FACTS, f.byDimension, InMode(f.byDimension.Keys, o)) == NO_FACTS)
  {
    hide SumOver, FactsOf, DimensionEvidenceMatches, NO_FACTS;
  }

  // ---- What only counting the keys lets through ----

  /** Evidence of one planned SSH session of which nothing was recorded, filed under RDP with any content. */
  function Misfiled(junk: Measurements): Margins<Measurements> {
    Margins(NOTHING, map[RDP := junk], map[Direct := NOTHING], map[Dimension(SSH, Direct) := NOTHING])
  }

  lemma PlannedOne(job: Job)
    requires job.protocol == SSH && job.mode == Direct
    ensures Planned([job]) == Margins(1, map[SSH := 1], map[Direct := 1], map[Dimension(SSH, Direct) := 1])
  {
    assert [job][..0] == [] && Each([job], 1)[..0] == [];
    assert Ledger(INTS, [], []) == Empty(INTS);
  }

  lemma SumOfOneNothing<K>(k: K, keys: set<K>)
    requires keys == {k}
    ensures SumOver(FACTS, map[k := NO_FACTS], keys) == NO_FACTS
  {
    hide NO_FACTS, MergeFacts, SumOver;
    FactsCommutative();
    var source := map[k := NO_FACTS];
    SumPick(FACTS, source, keys, k);
    assert keys - {k} == {};
    SumOverNothing(FACTS, source);
    AddZero(FACTS, NO_FACTS);
  }

  lemma NothingIsValid(horizon: nat)
    ensures ValidMeasurements(NOTHING, horizon) && FactsOf(NOTHING) == NO_FACTS
  {
  }

  /** Misfiled evidence is accepted, whatever it says: negative counts, future times, samples never taken. */
  lemma MisfiledAccepted(job: Job, r: Report, junk: Measurements, horizon: nat)
    requires job.protocol == SSH && job.mode == Direct && r.evidence == Misfiled(junk)
    ensures EvidenceMatches(r, Planned([job]), horizon, false)
    ensures !Balanced(FACTS, FactsMargins(r.evidence)) && !NamesPlanned(r.evidence, Planned([job]))
  {
    hide FactsOf, NO_FACTS, SumOver, ValidMeasurements, Planned, MergeFacts, Balanced, EvidenceAddsUp, FactsMargins;
    PlannedOne(job);
    NothingIsValid(horizon);
    MisfiledAddsUp(junk, Planned([job]));
    KeysExactly(r, [job], horizon, false);
  }

  lemma MisfiledAddsUp(junk: Measurements, planned: Margins<int>)
    requires planned == Margins(1, map[SSH := 1], map[Direct := 1], map[Dimension(SSH, Direct) := 1])
    ensures EvidenceAddsUp(FactsMargins(Misfiled(junk)), planned)
  {
    hide FactsOf, NO_FACTS, SumOver, MergeFacts;
    var d, f := Dimension(SSH, Direct), FactsMargins(Misfiled(junk));
    NothingIsValid(0);
    assert f.byDimension == map[d := NO_FACTS];
    SumOfOneNothing(d, f.byDimension.Keys);
    assert InProtocol(f.byDimension.Keys, SSH) == f.byDimension.Keys;
    assert InMode(f.byDimension.Keys, Direct) == f.byDimension.Keys;
  }

  // ---- Strict acceptance ----

  lemma {:induction false} PlannedPositive(jobs: seq<Job>, d: Dimension)
    requires d in Planned(jobs).byDimension
    ensures Planned(jobs).byDimension[d] >= 1
  {
    var n := |jobs| - 1;
    PlannedNext(jobs, n);
    assert jobs[..n + 1] == jobs;
    if d in Planned(jobs[..n]).byDimension {
      PlannedPositive(jobs[..n], d);
    }
  }

  lemma {:induction false} ConnectsAdd<K>(source: map<K, Facts>, keys: set<K>, k: K)
    requires k in keys && k in source
    ensures |SumOver(FACTS, source, keys).connect| >= |source[k].connect|
  {
    hide NO_FACTS, SumOver;
    FactsCommutative();
    SumPick(FACTS, source, keys, k);
  }

  lemma MaintainedHasConnects(r: Report, jobs: seq<Job>, horizon: nat, d: Dimension)
    requires ReportMatches(r, jobs, horizon, true) && d in Planned(jobs).byDimension
    ensures d in r.evidence.byDimension && |FactsOf(r.evidence.byDimension[d]).connect| >= 1
  {
    hide ReportMatches, Planned;
    MatchingReportIsSound(r, jobs, horizon);
    PlannedPositive(jobs, d);
    assert |multiset(r.evidence.byDimension[d].connect.samples)| == |r.evidence.byDimension[d].connect.samples|;
  }

  /** A strictly accepted report names exactly the planned protocols and modes, and its evidence balances. */
  lemma StrictEvidenceBalances(r: Report, jobs: seq<Job>, horizon: nat)
    requires ReportMatches(r, jobs, horizon, true)
    ensures NamesPlanned(r.evidence, Planned(jobs)) && Balanced(FACTS, FactsMargins(r.evidence))
  {
    hide SumOver, Planned, FactsOf, CountsMatch, Successful, EvidenceMatches, NO_FACTS, Balanced;
    var e, planned, f := r.evidence, Planned(jobs), FactsMargins(r.evidence);
    EvidenceIsNamed(r, planned, horizon, true);
    PlannedKeys(jobs);
    forall d | d in planned.byDimension ensures d.protocol in e.byProtocol && d.mode in e.byMode {
      MaintainedHasConnects(r, jobs, horizon, d);
      assert f.byDimension[d] == FactsOf(e.byDimension[d]);
      ConnectsAdd(f.byDimension, InProtocol(f.byDimension.Keys, d.protocol), d);
      ConnectsAdd(f.byDimension, InMode(f.byDimension.Keys, d.mode), d);
      NoConnects();
    }
    KeysExactly(r, jobs, horizon, true);
  }

  lemma NoConnects()
    ensures |NO_FACTS.connect| == 0
  {
  }

  // ---- The aggregate ----

  lemma {:induction false} SumOfMerged<K(!new), V(!new)>(m: Monoid<V>, a: map<K, V>, b: map<K, V>, keys: set<K>)
    requires Commutative(m)
    ensures SumOver(m, MergeMap(m, a, b), keys) == m.plus(SumOver(m, a, keys), SumOver(m, b, keys))
    decreases |keys|
  {
    hide SumOver, Commutative, MergeMap;
    SumOverNothing(m, a);
    SumOverNothing(m, b);
    SumOverNothing(m, MergeMap(m, a, b));
    if keys == {} {
      AddZero(m, m.zero);
    } else {
      var k := AnyOf(keys);
      SumOfMerged(m, a, b, keys - {k});
      LookupMerged(m, a, b, k);
      SumPick(m, a, keys, k);
      SumPick(m, b, keys, k);
      SumPick(m, MergeMap(m, a, b), keys, k);
      FourWays(m, Lookup(m, a, k), Lookup(m, b, k), SumOver(m, a, keys - {k}), SumOver(m, b, keys - {k}));
    }
  }

  lemma FourWays<V(!new)>(m: Monoid<V>, w: V, x: V, y: V, z: V)
    requires Commutative(m)
    ensures m.plus(m.plus(w, x), m.plus(y, z)) == m.plus(m.plus(w, y), m.plus(x, z))
  {
    assert m.plus(m.plus(w, x), m.plus(y, z)) == m.plus(w, m.plus(x, m.plus(y, z)));
    Rotate(m, x, y, z);
    assert m.plus(m.plus(w, y), m.plus(x, z)) == m.plus(w, m.plus(y, m.plus(x, z)));
  }

  /** Keys beyond a map's own add nothing. */
  lemma {:induction false} SumWithin<K, V(!new)>(m: Monoid<V>, source: map<K, V>, keys: set<K>)
    requires Commutative(m)
    ensures SumOver(m, source, keys) == SumOver(m, source, keys * source.Keys)
    decreases |keys|
  {
    hide SumOver, Commutative;
    if k :| k in keys && k !in source {
      SumWithin(m, source, keys - {k});
      SumWithAbsent(m, source, keys - {k}, k);
      assert keys - {k} + {k} == keys;
      assert (keys - {k}) * source.Keys == keys * source.Keys;
    } else {
      assert keys * source.Keys == keys;
    }
  }

  lemma SumOfMergedPart<V(!new)>(m: Monoid<V>, a: map<Dimension, V>, b: map<Dimension, V>, keys: set<Dimension>)
    requires Commutative(m)
    ensures SumOver(m, MergeMap(m, a, b), keys) == m.plus(SumOver(m, a, keys * a.Keys), SumOver(m, b, keys * b.Keys))
  {
    hide SumOver, Commutative, MergeMap;
    SumOfMerged(m, a, b, keys);
    SumWithin(m, a, keys);
    SumWithin(m, b, keys);
  }

  lemma PartKeys(keys: set<Dimension>, part: set<Dimension>, p: Protocol, o: Mode)
    requires part <= keys
    ensures InProtocol(keys, p) * part == InProtocol(part, p) && InMode(keys, o) * part == InMode(part, o)
  {
  }

  lemma MergedProtocols<V(!new)>(m: Monoid<V>, a: Margins<V>, b: Margins<V>)
    requires Commutative(m) && BalancedProtocols(m, a) && BalancedProtocols(m, b)
    ensures BalancedProtocols(m, MergeMargins(m, a, b))
  {
    hide SumOver, Commutative, InProtocol;
    var c := MergeMargins(m, a, b);
    var keys := c.byDimension.Keys;
    forall p | p in c.byProtocol ensures c.byProtocol[p] == SumOver(m, c.byDimension, InProtocol(keys, p)) {
      LookupMerged(m, a.byProtocol, b.byProtocol, p);
      SumOfMergedPart(m, a.byDimension, b.byDimension, InProtocol(keys, p));
      PartKeys(keys, a.byDimension.Keys, p, OtherMode(""));
      PartKeys(keys, b.byDimension.Keys, p, OtherMode(""));
      ProtocolSum(m, a, p);
      ProtocolSum(m, b, p);
    }
  }

  lemma ProtocolSum<V(!new)>(m: Monoid<V>, b: Margins<V>, p: Protocol)
    requires BalancedProtocols(m, b)
    ensures Lookup(m, b.byProtocol, p) == SumOver(m, b.byDimension, InProtocol(b.byDimension.Keys, p))
  {
    hide SumOver;
    if p !in b.byProtocol {
      assert forall d :: d in b.byDimension ==> d.protocol in b.byProtocol;
      assert InProtocol(b.byDimension.Keys, p) == {};
      SumOverNothing(m, b.byDimension);
    }
  }

  lemma MergedModes<V(!new)>(m: Monoid<V>, a: Margins<V>, b: Margins<V>)
    requires Commutative(m) && BalancedModes(m, a) && BalancedModes(m, b)
    ensures BalancedModes(m, MergeMargins(m, a, b))
  {
    hide SumOver, Commutative, InMode;
    var c := MergeMargins(m, a, b);
    var keys := c.byDimension.Keys;
    forall o | o in c.byMode ensures c.byMode[o] == SumOver(m, c.byDimension, InMode(keys, o)) {
      LookupMerged(m, a.byMode, b.byMode, o);
      SumOfMergedPart(m, a.byDimension, b.byDimension, InMode(keys, o));
      PartKeys(keys, a.byDimension.Keys, SSH, o);
      PartKeys(keys, b.byDimension.Keys, SSH, o);
      ModeSum(m, a, o);
      ModeSum(m, b, o);
    }
  }

  lemma ModeSum<V(!new)>(m: Monoid<V>, b: Margins<V>, o: Mode)
    requires BalancedModes(m, b)
    ensures Lookup(m, b.byMode, o) == SumOver(m, b.byDimension, InMode(b.byDimension.Keys, o))
  {
    hide SumOver;
    if o !in b.byMode {
      assert forall d :: d in b.byDimension ==> d.mode in b.byMode;
      assert InMode(b.byDimension.Keys, o) == {};
      SumOverNothing(m, b.byDimension);
    }
  }

  /** Merging keeps margins sums of one another. */
  lemma MergeBalanced<V(!new)>(m: Monoid<V>, a: Margins<V>, b: Margins<V>)
    requires Commutative(m) && Balanced(m, a) && Balanced(m, b)
    ensures Balanced(m, MergeMargins(m, a, b))
  {
    hide SumOver, Commutative, BalancedProtocols, BalancedModes;
    MergedProtocols(m, a, b);
    MergedModes(m, a, b);
    var c := MergeMargins(m, a, b);
    SumOfMergedPart(m, a.byDimension, b.byDimension, c.byDimension.Keys);
    assert c.byDimension.Keys * a.byDimension.Keys == a.byDimension.Keys;
    assert c.byDimension.Keys * b.byDimension.Keys == b.byDimension.Keys;
    TotalsFollow(m, c);
  }

  lemma {:induction false} AllBalanced<V(!new)>(m: Monoid<V>, parts: map<string, Margins<V>>, agents: set<string>)
    requires Commutative(m) && agents <= parts.Keys && forall a :: a in agents ==> Balanced(m, parts[a])
    ensures Balanced(m, SumOver(Merged(m), parts, agents))
    decreases |agents|
  {
    hide Balanced, MergeMargins, Commutative;
    if agents == {} {
      EmptyBalanced(m);
    } else {
      var a := AnyOf(agents);
      AllBalanced(m, parts, agents - {a});
      MergeBalanced(m, parts[a], SumOver(Merged(m), parts, agents - {a}));
    }
  }

  /** The evidence of a strictly accepted aggregate, and of every agent in it, is balanced. */
  lemma StrictAggregateBalances(r: Report, runID: string, build: string, horizon: nat, expected: map<string, seq<Job>>,
                                reports: map<string, Report>)
    requires Collectable(CompletedScope(runID, build, horizon, true), expected, reports)
    requires IsCollected(r, CompletedScope(runID, build, horizon, true), Completed, expected.Keys, reports)
    ensures forall a :: a in expected ==> a in reports && Balanced(FACTS, FactsMargins(reports[a].evidence))
    ensures Balanced(FACTS, FactsMargins(r.evidence))
  {
    hide Balanced, ReportMatches, SumOver, Collectable, FactsMargins, Everywhere, Merged, MergedMaps, AgentParts;
    var s := CompletedScope(runID, build, horizon, true);
    forall a | a in expected ensures a in reports && Balanced(FACTS, FactsMargins(reports[a].evidence)) {
      CollectableAgent(s, expected, reports, a);
      StrictEvidenceBalances(reports[a], expected[a], horizon);
    }
    FactsCommutative();
    AllBalanced(FACTS, FactsParts(reports), expected.Keys);
  }
}
