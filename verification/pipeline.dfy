/** From scenario to agents: what expansion, binding and partition produce passes every later check. */
module Pipeline {
  import opened Scenario
  import opened Partitioning
  import opened PartitionProperties
  import opened Configuration
  import opened Manifests
  import opened Binding
  import opened Tracking
  import opened Aggregation
  import opened Registries

  /** Expanded jobs can be bound. */
  lemma ExpandedBindable(c: Config)
    requires Expandable(c)
    ensures BindableJobs(Expanded(c, |ORDER|))
  {
    ExpansionIsExact(c);
  }

  /** Bound jobs pass Partition's checks, and are distinct in every respect. */
  lemma BoundPartitionable(jobs: seq<Job>, assets: seq<ManifestAsset>, draws: Protocol -> Draws)
    requires BindableJobs(jobs) && (forall job :: job in jobs ==> KnownMode(job.mode))
    requires Sound(assets) && Enough(jobs, assets)
    ensures var bound := Bound(jobs, assets, draws);
            && BoundJobs(bound) && DistinctJobs(bound)
            && forall job :: job in bound ==> KnownProtocol(job.protocol) && job.id >= 1
  {
    hide Enough, Sound, BoundJobAt;
    var bound := Bound(jobs, assets, draws);
    BindingMatches(jobs, assets, draws);
    BindingInjective(jobs, assets, draws);
    forall job | job in bound ensures BoundJob(job) && KnownProtocol(job.protocol) && job.id >= 1 {
      var n :| 0 <= n < |bound| && bound[n] == job;
      assert jobs[n] in jobs;
    }
  }

  /** The capabilities an agent announced, from which the controller made this entry. */
  function CapabilitiesOf(a: Agent): Capabilities {
    Capabilities(a.capacity, a.directCapacity, a.browserCapacity, a.directProtocols)
  }

  predicate SSHInBrowser(job: Job) { job.protocol == SSH && job.mode == Browser }

  predicate RunnableJobs(jobs: seq<Job>) {
    DistinctJobs(jobs) && BoundJobs(jobs) && forall job :: job in jobs ==> KnownProtocol(job.protocol) && job.id >= 1
  }

  /** An agent accepts the jobs of a non-empty slice exactly when none of them is SSH in a browser. */
  lemma SliceAccepted(a: Agent, slice: seq<Job>)
    requires SliceFits(a, slice) && RunnableJobs(slice) && slice != []
    ensures ValidJobs(slice, CapabilitiesOf(a)) <==> forall job :: job in slice ==> !SSHInBrowser(job)
  {
    hide CountIf, DistinctJobs, DistinctAssets, DistinctAccounts;
    forall job | job in slice ensures ValidWireJob(job, CapabilitiesOf(a)) <==> !SSHInBrowser(job) {
    }
  }

  /** Every slice of a partition of runnable jobs is runnable. */
  lemma SlicesRunnable(agents: seq<Agent>, slices: seq<seq<Job>>, jobs: seq<Job>, i: nat)
    requires Distributes(agents, slices, jobs) && RunnableJobs(jobs) && i < |slices|
    ensures RunnableJobs(slices[i]) && AllTrackable(slices[i])
  {
    hide Flat, Fits, DistinctAccounts;
    SlicesDisjoint(agents, slices, jobs);
    SliceMembers(slices, i, jobs);
    var slice := slices[i];
    assert DistinctJobs(slice);
    forall k | 0 <= k < |slice| ensures Trackable(slice[k]) {
      assert slice[k] in slice;
    }
  }

  /** Over announced capacities, the agents accept all slices of a partition exactly when no job at all
      is SSH in a browser, which Expand allows but agents refuse. */
  lemma PartitionAccepted(jobs: seq<Job>, agents: seq<Agent>)
    requires Partitioned(jobs, agents).Some? && RunnableJobs(jobs)
    requires forall a :: a in agents ==> a.directCapacity > 0
    ensures var slices := Partitioned(jobs, agents).value;
            (forall i :: 0 <= i < |agents| && slices[i] != [] ==> ValidJobs(slices[i], CapabilitiesOf(agents[i])))
            <==> forall job :: job in jobs ==> !SSHInBrowser(job)
  {
    hide Partitioned, Flat, ValidJobs, SliceFits, RunnableJobs;
    var slices := Partitioned(jobs, agents).value;
    PartitionDistributes(jobs, agents);
    AnnouncedNormal(agents);
    forall i | 0 <= i < |agents| && slices[i] != []
      ensures ValidJobs(slices[i], CapabilitiesOf(agents[i])) <==> forall job :: job in slices[i] ==> !SSHInBrowser(job)
    {
      SlicesRunnable(agents, slices, jobs, i);
      SliceAccepted(agents[i], slices[i]);
    }
    SameMembers(Flat(slices), jobs);
    forall i | 0 <= i < |slices| ensures forall job :: job in slices[i] ==> job in jobs {
      SliceMembers(slices, i, jobs);
    }
    forall job | job in jobs ensures exists i :: 0 <= i < |slices| && job in slices[i] {
      InSomeSlice(slices, job);
    }
  }

  lemma AnnouncedNormal(agents: seq<Agent>)
    requires forall a :: a in agents ==> a.directCapacity > 0
    ensures Normalized(agents) == agents
  {
    forall i | 0 <= i < |agents| ensures Normalize(agents[i]) == agents[i] {
      assert agents[i] in agents;
    }
  }

  lemma {:induction false} InSomeSlice(slices: seq<seq<Job>>, job: Job)
    requires job in Flat(slices)
    ensures exists i :: 0 <= i < |slices| && job in slices[i]
  {
    var n := |slices| - 1;
    if job in slices[n] {
    } else {
      InSomeSlice(slices[..n], job);
      var i :| 0 <= i < n && job in slices[..n][i];
      assert job in slices[i];
    }
  }

  /** The assignments of a partition share no asset: what aggregation asks of them. */
  lemma AssignmentsDisjoint(jobs: seq<Job>, agents: seq<Agent>)
    requires Partitioned(jobs, agents).Some? && RunnableJobs(jobs)
    ensures DisjointAssets(ByAgent(agents, Partitioned(jobs, agents).value))
  {
    hide Partitioned, Flat, Fits, DistinctJobs, DistinctIDs;
    var slices := Partitioned(jobs, agents).value;
    PartitionDistributes(jobs, agents);
    SlicesDisjoint(Normalized(agents), slices, jobs);
    PartitionedValid(jobs, agents);
    ByAgentDisjoint(agents, slices);
  }

  lemma ByAgentDisjoint(agents: seq<Agent>, slices: seq<seq<Job>>)
    requires DistinctIDs(agents) && |slices| == |agents|
    requires forall i :: 0 <= i < |slices| ==> DistinctJobs(slices[i])
    requires forall i, j, x, y :: 0 <= i < j < |slices| && x in slices[i] && y in slices[j] ==> x.assetID != y.assetID
    ensures DisjointAssets(ByAgent(agents, slices))
  {
    hide AssetsOf, DistinctJobs, DistinctAssets, ByAgent;
    var assignments := ByAgent(agents, slices);
    forall a | a in assignments ensures DistinctAssets(assignments[a]) {
      var i := AgentIndex(agents, slices, a);
      DistinctIn(slices[i]);
    }
    forall a, b | a in assignments && b in assignments && a != b
      ensures AssetsOf(assignments[a]) !! AssetsOf(assignments[b])
    {
      var i := AgentIndex(agents, slices, a);
      var j := AgentIndex(agents, slices, b);
      AssetsApart(slices, i, j);
    }
  }

  lemma AgentIndex(agents: seq<Agent>, slices: seq<seq<Job>>, a: string) returns (i: nat)
    requires DistinctIDs(agents) && |slices| == |agents| && a in ByAgent(agents, slices)
    ensures i < |agents| && agents[i].id == a && ByAgent(agents, slices)[a] == slices[i]
  {
    i :| 0 <= i < |agents| && agents[i].id == a;
  }

  lemma DistinctIn(jobs: seq<Job>)
    requires DistinctJobs(jobs)
    ensures DistinctAssets(jobs)
  {
  }

  lemma PartitionedValid(jobs: seq<Job>, agents: seq<Agent>)
    requires Partitioned(jobs, agents).Some?
    ensures ValidAgents(agents)
  {
  }

  lemma AssetsApart(slices: seq<seq<Job>>, i: nat, j: nat)
    requires i < |slices| && j < |slices| && i != j
    requires forall i, j, x, y :: 0 <= i < j < |slices| && x in slices[i] && y in slices[j] ==> x.assetID != y.assetID
    ensures AssetsOf(slices[i]) !! AssetsOf(slices[j])
  {
  }

  /** The whole way: an accepted scenario, bound to a valid manifest with enough assets and partitioned
      over announced capacities, gives every agent jobs it accepts, provided no SSH browser session was
      asked for; and jobs it refuses somewhere if one was. */
  lemma ScenarioReachesAgents(c: Config, assets: seq<ManifestAsset>, draws: Protocol -> Draws, agents: seq<Agent>)
    requires Expandable(c) && Sound(assets) && Enough(Expanded(c, |ORDER|), assets)
    requires forall a :: a in agents ==> a.directCapacity > 0
    ensures var bound := Bound(Expanded(c, |ORDER|), assets, draws);
            Partitioned(bound, agents).Some? ==>
              var slices := Partitioned(bound, agents).value;
              && ((forall i :: 0 <= i < |agents| && slices[i] != [] ==> ValidJobs(slices[i], CapabilitiesOf(agents[i])))
                  <==> Requested(c, SSH, Browser) == 0)
              && DisjointAssets(ByAgent(agents, slices))
  {
    hide Expandable, Sound, Enough, Partitioned, ValidJobs, RunnableJobs;
    var jobs := Expanded(c, |ORDER|);
    var bound := Bound(jobs, assets, draws);
    ExpandedBindable(c);
    ExpansionIsExact(c);
    assert forall job :: job in jobs ==> KnownMode(job.mode);
    BoundPartitionable(jobs, assets, draws);
    assert RunnableJobs(bound) by { Runnable(bound); }
    SSHBrowserJobs(c, assets, draws);
    if Partitioned(bound, agents).Some? {
      PartitionAccepted(bound, agents);
      AssignmentsDisjoint(bound, agents);
    }
  }

  lemma Runnable(jobs: seq<Job>)
    requires DistinctJobs(jobs) && BoundJobs(jobs) && forall job :: job in jobs ==>
               KnownProtocol(job.protocol) && job.id >= 1
    ensures RunnableJobs(jobs)
  {
  }

  lemma SSHBrowserJobs(c: Config, assets: seq<ManifestAsset>, draws: Protocol -> Draws)
    requires Expandable(c)
    ensures (forall job :: job in Bound(Expanded(c, |ORDER|), assets, draws) ==> !SSHInBrowser(job))
       <==> Requested(c, SSH, Browser) == 0
  {
    hide Expandable, Expanded, CountIf, AssetFor, Requested;
    var jobs := Expanded(c, |ORDER|);
    var bound := Bound(jobs, assets, draws);
    ExpansionIsExact(c);
    assert CountIf(jobs, Of(SSH, Browser)) == Requested(c, SSH, Browser);
    forall n | 0 <= n < |jobs| ensures SSHInBrowser(bound[n]) == Of(SSH, Browser)(jobs[n]) {
    }
    if forall job :: job in bound ==> !SSHInBrowser(job) {
      forall j | j in jobs ensures !Of(SSH, Browser)(j) {
        var n :| 0 <= n < |jobs| && jobs[n] == j;
        assert bound[n] in bound;
      }
      CountNone(jobs, Of(SSH, Browser));
    } else {
      var job :| job in bound && SSHInBrowser(job);
      var n :| 0 <= n < |bound| && bound[n] == job;
      CountedAt(jobs, Of(SSH, Browser), n);
    }
  }
}
