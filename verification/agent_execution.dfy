/** What an agent makes of an accepted request before it runs it: a scenario rebuilt from the jobs, and a
    tracker. Neither refuses, so that an accepted request ends with a report of its run. */
module AgentExecution {
  import opened Sums
  import opened Scenario
  import opened Accounting
  import opened Partitioning
  import opened Configuration
  import opened Tracking
  import opened Registries

  // ---- The scenario of some jobs ----

  function Counted(modes: map<Protocol, ModeCounts>, job: Job): map<Protocol, ModeCounts> {
    var counts := if job.protocol in modes then modes[job.protocol] else ModeCounts(0, 0);
    modes[job.protocol := if job.mode == Browser then counts.(browser := counts.browser + 1)
                          else counts.(direct := counts.direct + 1)]
  }

  /** As many jobs as there are, per protocol and per mode of a protocol. */
  function ScenarioOf(jobs: seq<Job>): Config {
    if jobs == [] then Config(0, map[], map[])
    else
      var n := |jobs| - 1;
      var c := ScenarioOf(jobs[..n]);
      Config(|jobs|, Add(INTS, c.protocols, jobs[n].protocol, 1), Counted(c.executionModes, jobs[n]))
  }

  method RebuildScenario(jobs: seq<Job>) returns (c: Config)
    ensures c == ScenarioOf(jobs)
  {
    var protocols: map<Protocol, int>, modes: map<Protocol, ModeCounts> := map[], map[];
    for n := 0 to |jobs|
      invariant Config(n, protocols, modes) == ScenarioOf(jobs[..n])
    {
      var job := jobs[n];
      assert jobs[..n + 1][..n] == jobs[..n];
      protocols := Add(INTS, protocols, job.protocol, 1);
      modes := Counted(modes, job);
    }
    assert jobs[..|jobs|] == jobs;
    c := Config(|jobs|, protocols, modes);
  }

  /** Every protocol that occurs has a count and a split that adds up to it, and the counts add up. */
  ghost predicate Consistent(c: Config, n: nat) {
    && c.total == n && Sum(INTS, c.protocols) == n
    && c.protocols.Keys == c.executionModes.Keys
    && (forall p :: p in c.protocols ==>
        KnownProtocol(p) && c.protocols[p] >= 1 && Splits(c.executionModes[p], c.protocols[p]))
  }

  lemma OneMoreJob(c: Config, n: nat, job: Job)
    requires Consistent(c, n) && KnownProtocol(job.protocol)
    ensures Consistent(Config(n + 1, Add(INTS, c.protocols, job.protocol, 1), Counted(c.executionModes, job)), n + 1)
  {
    hide SumOver;
    IntsCommutative();
    SumOfAdd(INTS, c.protocols, job.protocol, 1);
  }

  lemma {:induction false} ScenarioConsistent(jobs: seq<Job>)
    requires forall job :: job in jobs ==> KnownProtocol(job.protocol)
    ensures Consistent(ScenarioOf(jobs), |jobs|)
  {
    if jobs == [] {
      NothingSummed<Protocol>(map[]);
    } else {
      var n := |jobs| - 1;
      ScenarioConsistent(jobs[..n]);
      assert jobs[n] in jobs;
      hide Consistent;
      OneMoreJob(ScenarioOf(jobs[..n]), n, jobs[n]);
    }
  }

  lemma {:induction false} ScenarioCounts(jobs: seq<Job>, p: Protocol)
    requires forall job :: job in jobs ==> job.mode == Direct || job.mode == Browser
    ensures var modes := ScenarioOf(jobs).executionModes;
            (if p in modes then modes[p] else ModeCounts(0, 0))
            == ModeCounts(CountIf(jobs, Of(p, Direct)), CountIf(jobs, Of(p, Browser)))
  {
    if jobs != [] {
      var n := |jobs| - 1;
      ScenarioCounts(jobs[..n], p);
      assert jobs[n] in jobs;
    }
  }

  lemma ConsistentExpandable(c: Config, n: nat)
    requires Consistent(c, n) && n > 0
    ensures Expandable(c)
  {
    hide SumOver;
    forall p | p in ORDER && Count(c, p) != 0 ensures Splits(ModesOf(c, p), Count(c, p)) {
      assert p in c.protocols;
    }
  }

  lemma RequestedIs(c: Config, n: nat, p: Protocol, m: Mode)
    requires Consistent(c, n) && KnownMode(m)
    ensures var counts := if p in c.executionModes then c.executionModes[p] else ModeCounts(0, 0);
            Requested(c, p, m) == if m == Direct then counts.direct else counts.browser
  {
    hide SumOver;
  }

  /** For every request an agent accepts, the scenario rebuilt from its jobs is one Expand accepts, and the
      tracker accepts the jobs: the executor gets as far as the run. */
  lemma AcceptedRequestRuns(r: RunRequest, c: Capabilities)
    requires ValidRunRequest(r, c)
    ensures Expandable(ScenarioOf(r.jobs)) && AllTrackable(r.jobs)
    ensures forall p, m :: KnownProtocol(p) && KnownMode(m) ==>
              Requested(ScenarioOf(r.jobs), p, m) == CountIf(r.jobs, Of(p, m))
  {
    hide CountIf, ScenarioOf, Expandable, Consistent;
    assert forall job :: job in r.jobs ==> ValidWireJob(job, c);
    ScenarioConsistent(r.jobs);
    ConsistentExpandable(ScenarioOf(r.jobs), |r.jobs|);
    forall p, m | KnownProtocol(p) && KnownMode(m)
      ensures Requested(ScenarioOf(r.jobs), p, m) == CountIf(r.jobs, Of(p, m))
    {
      ScenarioCounts(r.jobs, p);
      RequestedIs(ScenarioOf(r.jobs), |r.jobs|, p, m);
    }
    forall i | 0 <= i < |r.jobs| ensures Trackable(r.jobs[i]) {
      assert r.jobs[i] in r.jobs;
    }
  }
}
