/** Which agent gets which job, told without the search: a job goes to the agent with room that comes next after
    the one served last. */
module Placement {
  import opened Wrappers
  import opened Scenario
  import opened Partitioning
  import opened PartitionProperties
  import opened PartitionCompleteness

  // ---- Some of the jobs, in their order ----

  function Filter(jobs: seq<Job>, p: Job -> bool): seq<Job> {
    if jobs == [] then [] else (if p(jobs[0]) then [jobs[0]] else []) + Filter(jobs[1..], p)
  }

  function IsDirect(): Job -> bool { (job: Job) => job.mode == Direct }

  function IsBrowser(): Job -> bool { (job: Job) => job.mode == Browser }

  lemma {:induction false} FilterNext(jobs: seq<Job>, job: Job, p: Job -> bool)
    ensures Filter(jobs + [job], p) == Filter(jobs, p) + if p(job) then [job] else []
  {
    if jobs == [] {
      assert jobs + [job] == [job] && [job][1..] == [];
    } else {
      assert (jobs + [job])[1..] == jobs[1..] + [job];
      FilterNext(jobs[1..], job, p);
    }
  }

  lemma {:induction false} FilterOfMode(jobs: seq<Job>, mode: Mode, p: Job -> bool)
    requires forall job :: p(job) <==> job.mode == mode
    ensures OfMode(jobs, mode) == Filter(jobs, p) && CountMode(jobs, mode) == |Filter(jobs, p)|
  {
    if jobs != [] {
      var n := |jobs| - 1;
      FilterOfMode(jobs[..n], mode, p);
      FilterNext(jobs[..n], jobs[n], p);
      assert jobs == jobs[..n] + [jobs[n]];
    }
  }

  // ---- Room ----

  /** The agent can take one job more of this kind. */
  predicate CanTake(a: Agent, slice: seq<Job>, job: Job) {
    && |slice| < a.capacity
    && if job.mode == Browser then |Filter(slice, IsBrowser())| < a.browserCapacity
       else |Filter(slice, IsDirect())| < a.directCapacity && job.protocol in a.directProtocols
  }

  lemma RoomIsTaken(a: Agent, slice: seq<Job>, job: Job)
    ensures HasRoom(a, slice, job) <==> CanTake(a, slice, job)
  {
    hide CountIf, Filter;
    FilterOfMode(slice, Browser, IsBrowser());
    FilterOfMode(slice, Direct, IsDirect());
  }

  /** Agent `i` can take the job, and none of those from the cursor up to it, going around, can. */
  predicate NextInTurn(agents: seq<Agent>, slices: seq<seq<Job>>, cursor: nat, job: Job, i: nat)
    requires |slices| == |agents|
  {
    && i < |agents| && CanTake(agents[i], slices[i], job)
    && forall j :: 0 <= j < |agents| && (j - cursor + |agents|) % |agents| < (i - cursor + |agents|) % |agents| ==>
         !CanTake(agents[j], slices[j], job)
  }

  /** One after the other, each job goes to the agent next in turn, after which the turn is that agent's neighbour's. */
  ghost predicate Placed(agents: seq<Agent>, before: seq<seq<Job>>, jobs: seq<Job>, cursor: nat, after: seq<seq<Job>>)
    requires |before| == |agents|
    decreases |jobs|
  {
    if jobs == [] then after == before
    else
      exists i: nat ::
        NextInTurn(agents, before, cursor, jobs[0], i)
        && Placed(agents, before[i := before[i] + [jobs[0]]], jobs[1..], if i == |agents| - 1 then 0 else i + 1, after)
  }

  // ---- The search finds it ----

  /** Steps from the cursor on, and the distance they cover. */
  lemma DistanceOf(cursor: nat, n: nat, steps: nat)
    requires cursor < n && steps < n
    ensures (Around(cursor, steps, n) - cursor + n) % n == steps
    ensures Around(cursor, steps, n) == if cursor + steps < n then cursor + steps else cursor + steps - n
  {
    if cursor + steps < n {
      OnceRound(cursor + steps, n);
      OnceRound(steps, n);
    } else {
      OnceRound(cursor + steps - n, n);
      OnceRound(steps, n);
    }
  }

  lemma DistanceInRange(cursor: nat, n: nat, j: nat)
    requires cursor < n && j < n
    ensures (j - cursor + n) % n == if j >= cursor then j - cursor else j - cursor + n
  {
    if j >= cursor {
      OnceRound(j - cursor, n);
    } else {
      OnceRound(j - cursor + n, n);
    }
  }

  lemma {:induction false} ProbeNext(agents: seq<Agent>, slices: seq<seq<Job>>, cursor: nat, job: Job, checked: nat)
    requires |slices| == |agents| && cursor < |agents|
    requires forall j :: 0 <= j < |agents| && (j - cursor + |agents|) % |agents| < checked ==>
               !CanTake(agents[j], slices[j], job)
    ensures match Probe(agents, slices, cursor, job, checked)
            case Some(i) => NextInTurn(agents, slices, cursor, job, i)
            case None => forall j :: 0 <= j < |agents| ==> !CanTake(agents[j], slices[j], job)
    decreases |agents| - checked
  {
    hide CanTake, HasRoom, Around;
    var n := |agents|;
    if checked >= n {
      forall j | 0 <= j < n ensures !CanTake(agents[j], slices[j], job) {
        DistanceInRange(cursor, n, j);
      }
    } else {
      var i := Around(cursor, checked, n);
      DistanceOf(cursor, n, checked);
      RoomIsTaken(agents[i], slices[i], job);
      if !HasRoom(agents[i], slices[i], job) {
        forall j | 0 <= j < n && (j - cursor + n) % n < checked + 1 ensures !CanTake(agents[j], slices[j], job) {
          SameDistance(cursor, n, i, j);
        }
        ProbeNext(agents, slices, cursor, job, checked + 1);
      }
    }
  }

  lemma SameDistance(cursor: nat, n: nat, i: nat, j: nat)
    requires cursor < n && i < n && j < n
    ensures (j - cursor + n) % n == (i - cursor + n) % n ==> i == j
  {
    DistanceInRange(cursor, n, i);
    DistanceInRange(cursor, n, j);
  }

  /** At most one agent is next in turn. */
  lemma OneInTurn(agents: seq<Agent>, slices: seq<seq<Job>>, cursor: nat, job: Job, i: nat, j: nat)
    requires |slices| == |agents| && cursor < |agents|
    requires NextInTurn(agents, slices, cursor, job, i) && NextInTurn(agents, slices, cursor, job, j)
    ensures i == j
  {
    hide CanTake;
    SameDistance(cursor, |agents|, i, j);
  }

  lemma NextCursor(i: nat, n: nat)
    requires i < n
    ensures (i + 1) % n == if i == n - 1 then 0 else i + 1
  {
    if i < n - 1 {
      OnceRound(i + 1, n);
    } else {
      OnceRound(0, n);
    }
  }

  /** The assignment of one mode succeeds with exactly this placement, and fails exactly if there is none. */
  lemma {:induction false} GreedyPlaces(agents: seq<Agent>, before: seq<seq<Job>>, jobs: seq<Job>, cursor: nat,
                                        after: seq<seq<Job>>)
    requires |before| == |agents| && (agents == [] || cursor < |agents|)
    ensures Greedy(agents, before, jobs, cursor) == Some(after) <==> Placed(agents, before, jobs, cursor, after)
    decreases |jobs|
  {
    hide NextInTurn, Probe, CanTake;
    if jobs != [] {
      var job := jobs[0];
      var found := Probe(agents, before, cursor, job, 0);
      FoundIsNext(agents, before, cursor, job);
      if found.Some? {
        var i := found.value;
        NextCursor(i, |agents|);
        GreedyPlaces(agents, before[i := before[i] + [job]], jobs[1..], (i + 1) % |agents|, after);
      }
    }
  }

  lemma FoundIsNext(agents: seq<Agent>, slices: seq<seq<Job>>, cursor: nat, job: Job)
    requires |slices| == |agents| && (agents == [] || cursor < |agents|)
    ensures forall i: nat :: NextInTurn(agents, slices, cursor, job, i) <==>
                        Probe(agents, slices, cursor, job, 0) == Some(i)
  {
    hide CanTake, Probe;
    if agents == [] {
      assert slices == [];
      NoAgents(slices, cursor, job);
    } else {
      ProbeNext(agents, slices, cursor, job, 0);
      forall i: nat | NextInTurn(agents, slices, cursor, job, i)
        ensures Probe(agents, slices, cursor, job, 0) == Some(i)
      {
        if Probe(agents, slices, cursor, job, 0).Some? {
          OneInTurn(agents, slices, cursor, job, i, Probe(agents, slices, cursor, job, 0).value);
        }
      }
    }
  }

  lemma NoAgents(slices: seq<seq<Job>>, cursor: nat, job: Job)
    requires slices == []
    ensures Probe([], slices, cursor, job, 0) == None && forall i: nat :: !NextInTurn([], slices, cursor, job, i)
  {
  }

  // ---- The order of the direct jobs ----

  /** How many agents can run the protocol in direct mode. */
  function Helpers(agents: seq<Agent>, p: Protocol): nat {
    |set i | 0 <= i < |agents| && agents[i].directCapacity > 0 && p in agents[i].directProtocols|
  }

  lemma HelpersCounted(agents: seq<Agent>, p: Protocol)
    ensures SupportingAgentCount(agents, p) == Helpers(agents, p)
  {
    CountsSupporters(agents, p);
    assert Supporters(agents, p)
        == set i | 0 <= i < |agents| && agents[i].directCapacity > 0 && p in agents[i].directProtocols;
  }

  function HelpedBy(agents: seq<Agent>, n: nat): Job -> bool { (job: Job) => Helpers(agents, job.protocol) == n }

  /** Fewest helpers first, and jobs with equally many as they were given. */
  ghost predicate ScarcestFirst(agents: seq<Agent>, jobs: seq<Job>, sorted: seq<Job>) {
    && (forall i, j :: 0 <= i < j < |sorted| ==>
          Helpers(agents, sorted[i].protocol) <= Helpers(agents, sorted[j].protocol))
    && forall n: nat :: Filter(sorted, HelpedBy(agents, n)) == Filter(jobs, HelpedBy(agents, n))
  }

  lemma {:induction false} InsertFilters(agents: seq<Agent>, job: Job, jobs: seq<Job>, n: nat)
    ensures var p := HelpedBy(agents, n);
            Filter(InsertScarce(agents, job, jobs), p) == (if p(job) then [job] else []) + Filter(jobs, p)
  {
    hide Helpers, SupportingAgentCount;
    HelpersCounted(agents, job.protocol);
    var r := InsertScarce(agents, job, jobs);
    if jobs == [] || SupportingAgentCount(agents, job.protocol) <= SupportingAgentCount(agents, jobs[0].protocol) {
      assert r[1..] == jobs;
    } else {
      HelpersCounted(agents, jobs[0].protocol);
      InsertFilters(agents, job, jobs[1..], n);
      assert r[1..] == InsertScarce(agents, job, jobs[1..]);
    }
  }

  lemma {:induction false} SortFilters(agents: seq<Agent>, jobs: seq<Job>, n: nat)
    ensures Filter(ScarceFirst(agents, jobs), HelpedBy(agents, n)) == Filter(jobs, HelpedBy(agents, n))
  {
    hide Helpers, InsertScarce;
    if jobs != [] {
      SortFilters(agents, jobs[1..], n);
      InsertFilters(agents, jobs[0], ScarceFirst(agents, jobs[1..]), n);
    }
  }

  lemma SortIsScarcest(agents: seq<Agent>, jobs: seq<Job>)
    ensures ScarcestFirst(agents, jobs, ScarceFirst(agents, jobs))
  {
    hide Helpers, ScarceFirst, Filter;
    var r := ScarceFirst(agents, jobs);
    ScarceFirstSorts(agents, jobs);
    forall i, j | 0 <= i < j < |r| ensures Helpers(agents, r[i].protocol) <= Helpers(agents, r[j].protocol) {
      HelpersCounted(agents, r[i].protocol);
      HelpersCounted(agents, r[j].protocol);
    }
    forall n: nat ensures Filter(r, HelpedBy(agents, n)) == Filter(jobs, HelpedBy(agents, n)) {
      SortFilters(agents, jobs, n);
    }
  }

  lemma {:induction false} FilterMember(jobs: seq<Job>, p: Job -> bool)
    ensures Filter(jobs, p) == [] <==> forall job :: job in jobs ==> !p(job)
    ensures forall job :: job in Filter(jobs, p) ==> job in jobs && p(job)
  {
    if jobs != [] {
      FilterMember(jobs[1..], p);
      assert forall job :: job in jobs <==> job == jobs[0] || job in jobs[1..];
    }
  }

  /** Ascending jobs in which each group of equally scarce ones is the same are the same. */
  lemma {:induction false} OneOrder(agents: seq<Agent>, a: seq<Job>, b: seq<Job>)
    requires ScarcestFirst(agents, a, a) && ScarcestFirst(agents, b, b)
    requires forall n: nat :: Filter(a, HelpedBy(agents, n)) == Filter(b, HelpedBy(agents, n))
    ensures a == b
  {
    hide Helpers, Filter;
    if a == [] || b == [] {
      NeitherEmpty(agents, a, b);
      NeitherEmpty(agents, b, a);
    } else {
      var m, n := Helpers(agents, a[0].protocol), Helpers(agents, b[0].protocol);
      LeastFirst(agents, a, b);
      LeastFirst(agents, b, a);
      FilterHead(a, HelpedBy(agents, n));
      FilterHead(b, HelpedBy(agents, n));
      assert m == n && a[0] == b[0];
      forall k: nat ensures Filter(a[1..], HelpedBy(agents, k)) == Filter(b[1..], HelpedBy(agents, k)) {
        FilterHead(a, HelpedBy(agents, k));
        FilterHead(b, HelpedBy(agents, k));
      }
      OneOrder(agents, a[1..], b[1..]);
      assert a == [a[0]] + a[1..] && b == [b[0]] + b[1..];
    }
  }

  lemma FilterHead(jobs: seq<Job>, p: Job -> bool)
    requires jobs != []
    ensures Filter(jobs, p) == (if p(jobs[0]) then [jobs[0]] else []) + Filter(jobs[1..], p)
    ensures if p(jobs[0]) then Filter(jobs, p)[0] == jobs[0] && Filter(jobs, p)[1..] == Filter(jobs[1..], p)
            else Filter(jobs, p) == Filter(jobs[1..], p)
  {
  }

  lemma NeitherEmpty(agents: seq<Agent>, a: seq<Job>, b: seq<Job>)
    requires forall n: nat :: Filter(a, HelpedBy(agents, n)) == Filter(b, HelpedBy(agents, n))
    ensures a == [] ==> b == []
  {
    hide Helpers, Filter;
    if b != [] {
      var p := HelpedBy(agents, Helpers(agents, b[0].protocol));
      FilterMember(a, p);
      FilterHead(b, p);
    }
  }

  lemma LeastFirst(agents: seq<Agent>, a: seq<Job>, b: seq<Job>)
    requires a != [] && b != [] && ScarcestFirst(agents, b, b)
    requires forall n: nat :: Filter(a, HelpedBy(agents, n)) == Filter(b, HelpedBy(agents, n))
    ensures Helpers(agents, b[0].protocol) <= Helpers(agents, a[0].protocol)
  {
    hide Helpers, Filter;
    var p := HelpedBy(agents, Helpers(agents, a[0].protocol));
    FilterMember(a, p);
    FilterMember(b, p);
    assert a[0] in a && p(a[0]);
    var job :| job in b && p(job);
    var k :| 0 <= k < |b| && b[k] == job;
  }

  lemma ScarcestIsSort(agents: seq<Agent>, jobs: seq<Job>, sorted: seq<Job>)
    ensures ScarcestFirst(agents, jobs, sorted) <==> sorted == ScarceFirst(agents, jobs)
  {
    hide Helpers, ScarceFirst, Filter;
    SortIsScarcest(agents, jobs);
    if ScarcestFirst(agents, jobs, sorted) {
      OneOrder(agents, sorted, ScarceFirst(agents, jobs));
    }
  }

  // ---- The whole partition ----

  /** Agents have names of their own and no negative capacity; jobs are bound, to different assets and accounts, in
      direct or browser mode. */
  predicate ValidInputs(jobs: seq<Job>, agents: seq<Agent>) {
    && (forall i :: 0 <= i < |agents| ==>
          && agents[i].id != ""
          && agents[i].capacity >= 0 && agents[i].directCapacity >= 0 && agents[i].browserCapacity >= 0)
    && (forall i, j :: 0 <= i < j < |agents| ==> agents[i].id != agents[j].id)
    && (forall i :: 0 <= i < |jobs| ==>
          jobs[i].assetID != "" && jobs[i].accountID != "" && (jobs[i].mode == Direct || jobs[i].mode == Browser))
    && (forall i, j :: 0 <= i < j < |jobs| ==>
          jobs[i].assetID != jobs[j].assetID && jobs[i].accountID != jobs[j].accountID)
  }

  /** An agent that states no direct capacity may use its whole capacity for direct jobs. */
  predicate Effective(agents: seq<Agent>, effective: seq<Agent>) {
    && |effective| == |agents|
    && forall i :: 0 <= i < |agents| ==>
         effective[i] == if agents[i].directCapacity != 0 then agents[i]
                         else Agent(agents[i].id, agents[i].capacity, agents[i].capacity, agents[i].browserCapacity,
                                agents[i].directProtocols)
  }

  predicate AllEmpty(slices: seq<seq<Job>>) { forall i :: 0 <= i < |slices| ==> slices[i] == [] }

  /** Direct jobs, the scarcest first, and then browser jobs as given, each from the first agent on. */
  ghost predicate Assigned(agents: seq<Agent>, jobs: seq<Job>, slices: seq<seq<Job>>) {
    exists sorted, none, middle: seq<seq<Job>> ::
      && |none| == |middle| == |agents| && AllEmpty(none)
      && ScarcestFirst(agents, Filter(jobs, IsDirect()), sorted) && Placed(agents, none, sorted, 0, middle)
      && Placed(agents, middle, Filter(jobs, IsBrowser()), 0, slices)
  }

  lemma InputsValid(jobs: seq<Job>, agents: seq<Agent>)
    ensures ValidInputs(jobs, agents) <==> ValidAgents(agents) && BoundJobs(jobs)
  {
    assert forall i :: 0 <= i < |agents| ==> agents[i] in agents;
    assert forall i :: 0 <= i < |jobs| ==> jobs[i] in jobs;
  }

  lemma AssignedIsGreedy(agents: seq<Agent>, jobs: seq<Job>, slices: seq<seq<Job>>)
    ensures Assigned(agents, jobs, slices) <==>
              var direct := DirectSlices(agents, jobs);
              direct.Some? && Greedy(agents, direct.value, OfMode(jobs, Browser), 0) == Some(slices)
  {
    hide Greedy, Placed, ScarceFirst, ScarcestFirst, OfMode, Filter;
    FilterOfMode(jobs, Direct, IsDirect());
    FilterOfMode(jobs, Browser, IsBrowser());
    var sorted := ScarceFirst(agents, OfMode(jobs, Direct));
    ScarcestIsSort(agents, OfMode(jobs, Direct), sorted);
    var direct := DirectSlices(agents, jobs);
    EmptySlices(agents, NoSlices(agents));
    if direct.Some? {
      GreedyPlaces(agents, NoSlices(agents), sorted, 0, direct.value);
      GreedyPlaces(agents, direct.value, OfMode(jobs, Browser), 0, slices);
    }
    if Assigned(agents, jobs, slices) {
      var other, none, middle: seq<seq<Job>> :|
        && |none| == |middle| == |agents| && AllEmpty(none)
        && ScarcestFirst(agents, Filter(jobs, IsDirect()), other) && Placed(agents, none, other, 0, middle)
        && Placed(agents, middle, Filter(jobs, IsBrowser()), 0, slices);
      ScarcestIsSort(agents, OfMode(jobs, Direct), other);
      EmptySlices(agents, none);
      GreedyPlaces(agents, none, other, 0, middle);
    }
  }

  lemma EmptySlices(agents: seq<Agent>, none: seq<seq<Job>>)
    requires |none| == |agents|
    ensures AllEmpty(none) <==> none == NoSlices(agents)
  {
  }

  lemma EffectiveIs(agents: seq<Agent>, effective: seq<Agent>)
    ensures Effective(agents, effective) <==> effective == Normalized(agents)
  {
  }

  /** Partition finds exactly the assignment that gives each job, in this order, to the agent next in turn. */
  lemma PartitionExactly(jobs: seq<Job>, agents: seq<Agent>, effective: seq<Agent>, slices: seq<seq<Job>>)
    requires Effective(agents, effective)
    ensures Partitioned(jobs, agents) == Some(slices) <==>
              ValidInputs(jobs, agents) && Assigned(effective, jobs, slices)
  {
    hide Greedy, Assigned, ScarceFirst, OfMode, ValidAgents, BoundJobs, NoSlices, EnoughCapacity, ValidInputs;
    InputsValid(jobs, agents);
    EffectiveIs(agents, effective);
    AssignedIsGreedy(effective, jobs, slices);
    if ValidInputs(jobs, agents) && Assigned(effective, jobs, slices) {
      NormalizedValid(agents);
      DirectPlaced(effective, jobs);
      AssignedFeasible(effective, jobs, slices);
      FeasibleHasCapacity(effective, jobs);
    }
  }

  lemma AssignedFeasible(agents: seq<Agent>, jobs: seq<Job>, slices: seq<seq<Job>>)
    requires (forall a :: a in agents ==> ValidAgent(a)) && BoundJobs(jobs) && DirectSlices(agents, jobs).Some?
    requires Greedy(agents, DirectSlices(agents, jobs).value, OfMode(jobs, Browser), 0) == Some(slices)
    ensures Feasible(agents, jobs)
  {
    hide Greedy, DirectSlices, OfMode, Fits, Flat, DistinctAssets, DistinctAccounts, OneMode;
    DirectPlaced(agents, jobs);
    OfModeJobs(jobs, Browser);
    ModesSplit(jobs);
    GreedyDistributes(agents, DirectSlices(agents, jobs).value, OfMode(jobs, Direct), OfMode(jobs, Browser), 0);
    assert Distributes(agents, slices, jobs);
  }
}
