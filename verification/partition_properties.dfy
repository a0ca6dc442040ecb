/** What Partition guarantees of its slices: every job placed once within every capacity, and no number, asset or
    account twice. */
module PartitionProperties {
  import opened Scenario
  import opened Partitioning

  // ---- Conservation ----

  lemma {:induction false} OfModeJobs(jobs: seq<Job>, mode: Mode)
    ensures forall j :: j in OfMode(jobs, mode) <==> j in jobs && j.mode == mode
    ensures |OfMode(jobs, mode)| == CountMode(jobs, mode)
  {
    if jobs != [] {
      OfModeJobs(jobs[..|jobs| - 1], mode);
    }
  }

  lemma SplitNext(direct: seq<Job>, browser: seq<Job>, jobs: seq<Job>, job: Job)
    requires multiset(direct) + multiset(browser) == multiset(jobs)
    ensures multiset(direct + [job]) + multiset(browser) == multiset(jobs + [job]) == multiset(direct) +
              multiset(browser + [job])
  {
  }

  lemma {:induction false} ModesSplit(jobs: seq<Job>)
    requires forall j :: j in jobs ==> KnownMode(j.mode)
    ensures multiset(OfMode(jobs, Direct)) + multiset(OfMode(jobs, Browser)) == multiset(jobs)
  {
    hide OfMode;
    if jobs == [] {
      assert OfMode(jobs, Direct) == [] && OfMode(jobs, Browser) == [] by {
        NoneOfMode(Direct);
        NoneOfMode(Browser);
      }
    } else {
      var n := |jobs| - 1;
      ModesSplit(jobs[..n]);
      var direct, browser := OfMode(jobs[..n], Direct), OfMode(jobs[..n], Browser);
      SplitNext(direct, browser, jobs[..n], jobs[n]);
      assert direct + [] == direct && browser + [] == browser;
      assert jobs == jobs[..n] + [jobs[n]];
      OfModeNext(jobs, Direct);
      OfModeNext(jobs, Browser);
    }
  }

  lemma NoneOfMode(mode: Mode)
    ensures OfMode([], mode) == []
  {
  }

  lemma OfModeNext(jobs: seq<Job>, mode: Mode)
    requires jobs != []
    ensures var n := |jobs| - 1; OfMode(jobs, mode) == OfMode(jobs[..n], mode) + if jobs[n].mode == mode then
              [jobs[n]] else []
  {
  }

  lemma {:induction false} FlatNothing(agents: seq<Agent>)
    ensures Flat(NoSlices(agents)) == []
  {
    if agents != [] {
      var n := |agents| - 1;
      FlatNothing(agents[..n]);
      assert NoSlices(agents)[..n] == NoSlices(agents[..n]);
    }
  }

  lemma NoSlicesDistribute(agents: seq<Agent>)
    requires forall a :: a in agents ==> ValidAgent(a)
    ensures Distributes(agents, NoSlices(agents), [])
  {
    FlatNothing(agents);
    forall i | 0 <= i < |agents| ensures SliceFits(agents[i], NoSlices(agents)[i]) {
      assert agents[i] in agents;
    }
  }

  lemma NormalizedValid(agents: seq<Agent>)
    requires ValidAgents(agents)
    ensures ValidAgents(Normalized(agents))
  {
    var n := Normalized(agents);
    forall a | a in n ensures ValidAgent(a) {
      var i :| 0 <= i < |n| && n[i] == a;
      assert agents[i] in agents;
    }
  }

  /** A partition puts every job into exactly one slice and respects every capacity and protocol. */
  lemma PartitionDistributes(jobs: seq<Job>, agents: seq<Agent>)
    requires Partitioned(jobs, agents).Some?
    ensures Distributes(Normalized(agents), Partitioned(jobs, agents).value, jobs)
  {
    hide Greedy, EnoughCapacity, Fits, ScarceFirst, OfMode, NoSlices, Flat;
    var n := Normalized(agents);
    var direct, browser := OfMode(jobs, Direct), OfMode(jobs, Browser);
    NormalizedValid(agents);
    NoSlicesDistribute(n);
    OfModeJobs(jobs, Direct);
    OfModeJobs(jobs, Browser);
    ScarceFirstSorts(n, direct);
    SameMembers(ScarceFirst(n, direct), direct);
    GreedyDistributes(n, NoSlices(n), [], ScarceFirst(n, direct), 0);
    assert [] + ScarceFirst(n, direct) == ScarceFirst(n, direct);
    GreedyDistributes(n, Greedy(n, NoSlices(n), ScarceFirst(n, direct), 0).value, ScarceFirst(n, direct), browser, 0);
    ModesSplit(jobs);
  }

  lemma SameMembers<T>(a: seq<T>, b: seq<T>)
    requires multiset(a) == multiset(b)
    ensures forall x :: x in a <==> x in b
  {
    forall x ensures x in a <==> x in b {
      assert x in a <==> x in multiset(a);
      assert x in b <==> x in multiset(b);
    }
  }

  // ---- Disjointness ----

  /** Jobs distinct by asset, by account and by number. */
  predicate DistinctJobs(jobs: seq<Job>) {
    && DistinctAssets(jobs) && DistinctAccounts(jobs)
    && (forall i, j :: 0 <= i < j < |jobs| ==> jobs[i].id != jobs[j].id)
  }

  lemma {:induction false} FlatNoRepeats(slices: seq<seq<Job>>, i: nat)
    requires i < |slices| && NoRepeats(Flat(slices))
    ensures NoRepeats(slices[i])
    ensures forall j, x, y :: i < j < |slices| && x in slices[i] && y in slices[j] ==> x != y
  {
    var n := |slices| - 1;
    var front, last := Flat(slices[..n]), slices[n];
    assert Flat(slices)[..|front|] == front && Flat(slices)[|front|..] == last;
    PartsNoRepeats(front, last);
    if i < n {
      FlatNoRepeats(slices[..n], i);
      FlatMember(slices[..n], i);
    }
  }

  lemma PartsNoRepeats<T>(a: seq<T>, b: seq<T>)
    requires NoRepeats(a + b)
    ensures NoRepeats(a) && NoRepeats(b) && forall x, y :: x in a && y in b ==> x != y
  {
    assert forall i :: 0 <= i < |a| ==> (a + b)[i] == a[i];
    assert forall i :: 0 <= i < |b| ==> (a + b)[|a| + i] == b[i];
  }

  lemma DifferentJobs(jobs: seq<Job>, x: Job, y: Job)
    requires DistinctJobs(jobs) && x in jobs && y in jobs && x != y
    ensures x.id != y.id && x.assetID != y.assetID && x.accountID != y.accountID
  {
    var i :| 0 <= i < |jobs| && jobs[i] == x;
    var j :| 0 <= j < |jobs| && jobs[j] == y;
  }

  /** No number, asset or account occurs twice, neither within a slice nor in two slices. */
  lemma SlicesDisjoint(agents: seq<Agent>, slices: seq<seq<Job>>, jobs: seq<Job>)
    requires Distributes(agents, slices, jobs) && DistinctJobs(jobs)
    ensures forall i :: 0 <= i < |slices| ==> DistinctJobs(slices[i])
    ensures forall i, j, x, y :: 0 <= i < j < |slices| && x in slices[i] && y in slices[j] ==>
              x.id != y.id && x.assetID != y.assetID && x.accountID != y.accountID
  {
    hide Fits, Flat, DistinctJobs;
    assert NoRepeats(jobs) by { DistinctNoRepeats(jobs); }
    NoRepeatsPermuted(jobs, Flat(slices));
    forall i | 0 <= i < |slices| ensures DistinctJobs(slices[i]) {
      FlatNoRepeats(slices, i);
      SliceMembers(slices, i, jobs);
      DistinctPart(slices[i], jobs);
    }
    forall i, j, x, y | 0 <= i < j < |slices| && x in slices[i] && y in slices[j]
      ensures x.id != y.id && x.assetID != y.assetID && x.accountID != y.accountID
    {
      FlatNoRepeats(slices, i);
      SliceMembers(slices, i, jobs);
      SliceMembers(slices, j, jobs);
      DifferentJobs(jobs, x, y);
    }
  }

  lemma DistinctNoRepeats(jobs: seq<Job>)
    requires DistinctJobs(jobs)
    ensures NoRepeats(jobs)
  {
  }

  lemma SliceMembers(slices: seq<seq<Job>>, i: nat, jobs: seq<Job>)
    requires i < |slices| && multiset(Flat(slices)) == multiset(jobs)
    ensures forall x :: x in slices[i] ==> x in jobs
  {
    FlatMember(slices, i);
    SameMembers(Flat(slices), jobs);
  }

  lemma DistinctPart(part: seq<Job>, jobs: seq<Job>)
    requires DistinctJobs(jobs) && NoRepeats(part) && forall x :: x in part ==> x in jobs
    ensures DistinctJobs(part)
  {
    forall i, j | 0 <= i < j < |part|
      ensures part[i].id != part[j].id && part[i].assetID != part[j].assetID && part[i].accountID != part[j].accountID
    {
      DifferentJobs(jobs, part[i], part[j]);
    }
  }
}
