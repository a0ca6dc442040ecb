/** When Partition finds a partition: for direct jobs whose sets of possible agents are nested, whenever
    one exists; for browser jobs beside them, exactly when the room the direct jobs leave suffices. */
module PartitionCompleteness {
  import opened Wrappers
  import opened Scenario
  import opened Partitioning
  import opened PartitionProperties

  // ---- A certificate that no assignment exists ----

  function Upto(n: nat): (s: set<nat>)
    ensures forall i: nat :: i in s <==> i < n
  {
    if n == 0 then {} else Upto(n - 1) + {n - 1}
  }

  /** The agents that could run the job if they had room. */
  function Places(agents: seq<Agent>, job: Job): set<nat> {
    if job.mode == Browser then Upto(|agents|) else Supporters(agents, job.protocol)
  }

  predicate Nested(agents: seq<Agent>, jobs: seq<Job>) {
    forall j, k :: j in jobs && k in jobs ==>
      Places(agents, j) <= Places(agents, k) || Places(agents, k) <= Places(agents, j)
  }

  predicate OneMode(jobs: seq<Job>, mode: Mode) {
    KnownMode(mode) && forall j :: j in jobs ==> j.mode == mode
  }

  function Least(a: int, b: int): int { if a < b then a else b }

  function RoomFor(mode: Mode): Agent -> int {
    (a: Agent) => Least(a.capacity, if mode == Browser then a.browserCapacity else a.directCapacity)
  }

  function RoomIn(agents: seq<Agent>, places: set<nat>, room: Agent -> int): int {
    if agents == [] then 0
    else
      var n := |agents| - 1;
      RoomIn(agents[..n], places, room) + if n in places then room(agents[n]) else 0
  }

  /** Jobs that fit only into `places` are at most as many as there is room. */
  lemma {:induction false} ConfinedJobs(agents: seq<Agent>, slices: seq<seq<Job>>, p: Job -> bool,
                                        places: set<nat>, room: Agent -> int)
    requires |slices| == |agents|
    requires forall i :: 0 <= i < |agents| ==> CountIf(slices[i], p) <= if i in places then room(agents[i]) else 0
    ensures CountIf(Flat(slices), p) <= RoomIn(agents, places, room)
  {
    if agents != [] {
      var n := |agents| - 1;
      ConfinedJobs(agents[..n], slices[..n], p, places, room);
      CountConcat(Flat(slices[..n]), slices[n], p);
    }
  }

  /** Agents that are full hold as many jobs as they have room for. */
  lemma {:induction false} FullPlaces(agents: seq<Agent>, slices: seq<seq<Job>>, places: set<nat>, room: Agent -> int)
    requires |slices| == |agents|
    requires forall i :: 0 <= i < |agents| && i in places ==> |slices[i]| >= room(agents[i])
    ensures |Flat(slices)| >= RoomIn(agents, places, room)
  {
    if agents != [] {
      FullPlaces(agents[..|agents| - 1], slices[..|agents| - 1], places, room);
    }
  }

  /** Jobs of the mode that could run on agents of `places` only. */
  function Confined(agents: seq<Agent>, mode: Mode, places: set<nat>): Job -> bool {
    (j: Job) => j.mode == mode && Places(agents, j) <= places
  }

  /** More jobs are confined to some agents than those can take. */
  ghost predicate HallViolation(agents: seq<Agent>, jobs: seq<Job>, mode: Mode, places: set<nat>) {
    CountIf(jobs, Confined(agents, mode, places)) > RoomIn(agents, places, RoomFor(mode))
  }

  lemma {:induction false} CountImplied(jobs: seq<Job>, p: Job -> bool, q: Job -> bool)
    requires forall j :: p(j) ==> q(j)
    ensures CountIf(jobs, p) <= CountIf(jobs, q)
  {
    if jobs != [] {
      CountImplied(jobs[..|jobs| - 1], p, q);
    }
  }

  lemma SliceConfined(agents: seq<Agent>, slice: seq<Job>, i: nat, mode: Mode, places: set<nat>)
    requires i < |agents| && SliceFits(agents[i], slice) && KnownMode(mode) && ValidAgent(agents[i])
    ensures CountIf(slice, Confined(agents, mode, places)) <= if i in places then RoomFor(mode)(agents[i]) else 0
  {
    var p := Confined(agents, mode, places);
    CountImplied(slice, p, InModeOf(mode));
    if i !in places {
      forall j | j in slice ensures !p(j) {
        if j.mode == Browser {
          assert i in Places(agents, j);
        } else if j.mode == Direct {
          DirectCounted(slice, j);
          assert i in Places(agents, j);
        }
      }
      CountNone(slice, p);
    }
  }

  lemma DirectCounted(slice: seq<Job>, job: Job)
    requires job in slice && job.mode == Direct
    ensures CountMode(slice, Direct) >= 1
  {
    var k :| 0 <= k < |slice| && slice[k] == job;
    CountedAt(slice, InModeOf(Direct), k);
  }

  /** A violation rules out every assignment. */
  lemma HallRefutes(agents: seq<Agent>, jobs: seq<Job>, mode: Mode, places: set<nat>)
    requires KnownMode(mode) && (forall a :: a in agents ==> ValidAgent(a))
    requires HallViolation(agents, jobs, mode, places)
    ensures !Feasible(agents, jobs)
  {
    hide CountIf, SliceFits, RoomFor;
    if slices :| Distributes(agents, slices, jobs) {
      forall i | 0 <= i < |agents|
        ensures CountIf(slices[i], Confined(agents, mode, places)) <= if i in places then RoomFor(mode)(agents[i]) else
                  0
      {
        SliceConfined(agents, slices[i], i, mode, places);
      }
      ConfinedJobs(agents, slices, Confined(agents, mode, places), places, RoomFor(mode));
      CountPermuted(Flat(slices), jobs, Confined(agents, mode, places));
    }
  }

  // ---- Direct jobs ----

  lemma SubsetBySize<T>(a: set<T>, b: set<T>)
    requires a <= b || b <= a
    requires |a| <= |b|
    ensures a <= b
  {
    if b <= a {
      assert |a - b| == |a| - |b|;
    }
  }

  /** The jobs up to the one that finds no room are all confined to that job's places: the scarcest go first. */
  lemma EarlierConfined(agents: seq<Agent>, jobs: seq<Job>, k: nat)
    requires k < |jobs| && OneMode(jobs, Direct) && Nested(agents, jobs) && Ascending(agents, jobs)
    ensures CountIf(jobs[..k + 1], Confined(agents, Direct, Places(agents, jobs[k]))) == k + 1
  {
    hide SupportingAgentCount, CountIf;
    var p := Confined(agents, Direct, Places(agents, jobs[k]));
    forall j | j in jobs[..k + 1] ensures p(j) {
      var i :| 0 <= i <= k && jobs[i] == j;
      CountsSupporters(agents, j.protocol);
      CountsSupporters(agents, jobs[k].protocol);
      SubsetBySize(Places(agents, j), Places(agents, jobs[k]));
    }
    CountAll(jobs[..k + 1], p);
  }

  lemma NoRoomIsFull(a: Agent, slice: seq<Job>, job: Job)
    requires !HasRoom(a, slice, job) && OneMode(slice, Direct) && job.mode == Direct
    requires job.protocol in a.directProtocols
    ensures |slice| >= RoomFor(Direct)(a)
  {
    CountAll(slice, InModeOf(Direct));
  }

  /** A direct job that finds no room exhibits a violation. */
  lemma StuckViolates(agents: seq<Agent>, slices: seq<seq<Job>>, jobs: seq<Job>, k: nat)
    requires Stuck(agents, slices, jobs, k)
    requires OneMode(jobs, Direct) && Nested(agents, jobs) && Ascending(agents, jobs)
    ensures HallViolation(agents, jobs, Direct, Places(agents, jobs[k]))
  {
    hide CountIf, SliceFits, HasRoom, RoomFor, Ascending, Nested;
    var places := Places(agents, jobs[k]);
    SameMembers(Flat(slices), jobs[..k]);
    assert |multiset(Flat(slices))| == |multiset(jobs[..k])|;
    forall i | 0 <= i < |agents| && i in places ensures |slices[i]| >= RoomFor(Direct)(agents[i]) {
      FlatMember(slices, i);
      NoRoomIsFull(agents[i], slices[i], jobs[k]);
    }
    FullPlaces(agents, slices, places, RoomFor(Direct));
    EarlierConfined(agents, jobs, k);
    CountMonotone(jobs, k + 1, Confined(agents, Direct, places));
  }

  lemma StuckWithin(agents: seq<Agent>, slices: seq<seq<Job>>, jobs: seq<Job>, k: nat)
    requires Stuck(agents, slices, jobs, k)
    ensures k < |jobs|
  {
  }

  /** Where Partition puts the direct jobs. */
  function DirectSlices(agents: seq<Agent>, jobs: seq<Job>): (r: Option<seq<seq<Job>>>)
    ensures r.Some? ==> |r.value| == |agents|
  {
    Greedy(agents, NoSlices(agents), ScarceFirst(agents, OfMode(jobs, Direct)), 0)
  }

  lemma {:induction false} CountOfMode(jobs: seq<Job>, mode: Mode, p: Job -> bool)
    requires forall j :: p(j) ==> j.mode == mode
    ensures CountIf(OfMode(jobs, mode), p) == CountIf(jobs, p)
  {
    if jobs != [] {
      var n := |jobs| - 1;
      CountOfMode(jobs[..n], mode, p);
      CountAppend(OfMode(jobs[..n], mode), jobs[n], p);
      assert OfMode(jobs[..n], mode) + [] == OfMode(jobs[..n], mode);
    }
  }

  lemma DirectSorted(agents: seq<Agent>, jobs: seq<Job>)
    requires Nested(agents, OfMode(jobs, Direct))
    ensures var sorted := ScarceFirst(agents, OfMode(jobs, Direct));
            OneMode(sorted, Direct) && Nested(agents, sorted) && Ascending(agents, sorted)
            && multiset(sorted) == multiset(OfMode(jobs, Direct))
  {
    hide Places, OfMode, ScarceFirst, SupportingAgentCount;
    var direct := OfMode(jobs, Direct);
    OfModeJobs(jobs, Direct);
    ScarceFirstSorts(agents, direct);
    SameMembers(ScarceFirst(agents, direct), direct);
  }

  /** Direct jobs with nested places fail to be placed only if a violation among them rules out every assignment. */
  lemma DirectComplete(agents: seq<Agent>, jobs: seq<Job>)
    requires (forall a :: a in agents ==> ValidAgent(a)) && Nested(agents, OfMode(jobs, Direct))
    requires DirectSlices(agents, jobs) == None
    ensures exists places :: HallViolation(agents, jobs, Direct, places)
    ensures !Feasible(agents, jobs)
  {
    hide Greedy, Nested, Ascending, Stuck, Fits, CountIf, OfMode, ScarceFirst, RoomIn;
    var sorted := ScarceFirst(agents, OfMode(jobs, Direct));
    DirectSorted(agents, jobs);
    NoSlicesDistribute(agents);
    assert sorted[..0] == [] && sorted[0..] == sorted;
    GreedyStuck(agents, NoSlices(agents), sorted, 0, 0);
    var slices, k: nat :| Stuck(agents, slices, sorted, k);
    StuckWithin(agents, slices, sorted, k);
    StuckViolates(agents, slices, sorted, k);
    var places := Places(agents, sorted[k]);
    var p := Confined(agents, Direct, places);
    CountPermuted(sorted, OfMode(jobs, Direct), p);
    CountOfMode(jobs, Direct, p);
    assert HallViolation(agents, jobs, Direct, places);
    HallRefutes(agents, jobs, Direct, places);
  }

  // ---- Browser jobs ----

  /** What the agent could still take of browser jobs. */
  function OpenRoom(a: Agent, slice: seq<Job>): int {
    Least(a.capacity - |slice|, a.browserCapacity - CountMode(slice, Browser))
  }

  function BrowserRoom(agents: seq<Agent>, slices: seq<seq<Job>>): int
    requires |slices| == |agents|
  {
    if agents == [] then 0
    else
      var n := |agents| - 1;
      BrowserRoom(agents[..n], slices[..n]) + OpenRoom(agents[n], slices[n])
  }

  lemma OpenRoomTaken(a: Agent, slice: seq<Job>, job: Job)
    requires job.mode == Browser
    ensures HasRoom(a, slice, job) <==> OpenRoom(a, slice) > 0
    ensures OpenRoom(a, slice + [job]) == OpenRoom(a, slice) - 1
  {
    CountAppend(slice, job, InModeOf(Browser));
  }

  lemma OpenRoomNatural(a: Agent, slice: seq<Job>)
    requires SliceFits(a, slice)
    ensures OpenRoom(a, slice) >= 0
  {
  }

  lemma {:induction false} RoomTaken(agents: seq<Agent>, slices: seq<seq<Job>>, i: nat, job: Job)
    requires |slices| == |agents| && i < |agents| && job.mode == Browser
    ensures BrowserRoom(agents, slices[i := slices[i] + [job]]) == BrowserRoom(agents, slices) - 1
  {
    hide OpenRoom;
    var n := |agents| - 1;
    var after := slices[i := slices[i] + [job]];
    OpenRoomTaken(agents[i], slices[i], job);
    if i == n {
      assert after[..n] == slices[..n];
    } else {
      RoomTaken(agents[..n], slices[..n], i, job);
      assert after[..n] == slices[..n][i := slices[i] + [job]];
    }
  }

  lemma {:induction false} RoomLeft(agents: seq<Agent>, slices: seq<seq<Job>>)
    requires |slices| == |agents| && forall i :: 0 <= i < |agents| ==> OpenRoom(agents[i], slices[i]) >= 0
    ensures BrowserRoom(agents, slices) >= 0
    ensures forall i :: 0 <= i < |agents| ==> OpenRoom(agents[i], slices[i]) <= BrowserRoom(agents, slices)
    ensures (forall i :: 0 <= i < |agents| ==> OpenRoom(agents[i], slices[i]) == 0) ==> BrowserRoom(agents, slices) == 0
  {
    hide OpenRoom;
    if agents != [] {
      RoomLeft(agents[..|agents| - 1], slices[..|agents| - 1]);
    }
  }

  /** Browser jobs are placed exactly when the agents have room for all of them, whatever was placed before
      and wherever the cursor stands. */
  lemma {:induction false} BrowserExact(agents: seq<Agent>, slices: seq<seq<Job>>, jobs: seq<Job>, cursor: nat)
    requires Fits(agents, slices) && OneMode(jobs, Browser) && (agents == [] || cursor < |agents|)
    ensures Greedy(agents, slices, jobs, cursor).Some? <==> |jobs| <= BrowserRoom(agents, slices)
    decreases |jobs|
  {
    hide SliceFits, HasRoom, Probe, OpenRoom, BrowserRoom;
    forall i | 0 <= i < |agents| ensures OpenRoom(agents[i], slices[i]) >= 0 {
      OpenRoomNatural(agents[i], slices[i]);
    }
    RoomLeft(agents, slices);
    if jobs != [] {
      var job := jobs[0];
      match Probe(agents, slices, cursor, job, 0)
      case None =>
        NobodyHasRoom(agents, slices, cursor, job);
        forall i | 0 <= i < |agents| ensures OpenRoom(agents[i], slices[i]) == 0 {
          OpenRoomNatural(agents[i], slices[i]);
          OpenRoomTaken(agents[i], slices[i], job);
        }
      case Some(i) =>
        RoomFits(agents[i], slices[i], job);
        RoomTaken(agents, slices, i, job);
        BrowserExact(agents, slices[i := slices[i] + [job]], jobs[1..], (i + 1) % |agents|);
    }
  }

  // ---- Both modes ----

  /** The room for browser jobs that slices of direct jobs leave. */
  function RoomBeside(agents: seq<Agent>, slices: seq<seq<Job>>): int
    requires |slices| == |agents|
  {
    if agents == [] then 0
    else
      var n := |agents| - 1;
      RoomBeside(agents[..n], slices[..n]) + Least(agents[n].browserCapacity, agents[n].capacity - |slices[n]|)
  }

  lemma {:induction false} NoBrowserYet(agents: seq<Agent>, slices: seq<seq<Job>>)
    requires |slices| == |agents| && forall i :: 0 <= i < |slices| ==> OneMode(slices[i], Direct)
    ensures BrowserRoom(agents, slices) == RoomBeside(agents, slices)
  {
    if agents != [] {
      var n := |agents| - 1;
      NoBrowserYet(agents[..n], slices[..n]);
      CountNone(slices[n], InModeOf(Browser));
    }
  }

  lemma DirectPlaced(agents: seq<Agent>, jobs: seq<Job>)
    requires (forall a :: a in agents ==> ValidAgent(a)) && DirectSlices(agents, jobs).Some?
    ensures var slices := DirectSlices(agents, jobs).value;
            && Distributes(agents, slices, OfMode(jobs, Direct))
            && (forall i :: 0 <= i < |slices| ==> OneMode(slices[i], Direct))
            && BrowserRoom(agents, slices) == RoomBeside(agents, slices)
  {
    hide Greedy, Fits, ScarceFirst, OfMode, NoSlices, Flat, BrowserRoom, RoomBeside;
    var direct := OfMode(jobs, Direct);
    var sorted := ScarceFirst(agents, direct);
    NoSlicesDistribute(agents);
    OfModeJobs(jobs, Direct);
    ScarceFirstSorts(agents, direct);
    SameMembers(sorted, direct);
    GreedyDistributes(agents, NoSlices(agents), [], sorted, 0);
    assert [] + sorted == sorted;
    var slices := DirectSlices(agents, jobs).value;
    forall i | 0 <= i < |slices| ensures OneMode(slices[i], Direct) {
      SliceMembers(slices, i, sorted);
    }
    NoBrowserYet(agents, slices);
  }

  /** Partition finds a partition exactly when the capacities suffice in total, the direct jobs are placed,
      and the browser jobs are no more than the room these leave. */
  lemma PartitionedExactly(jobs: seq<Job>, agents: seq<Agent>)
    requires ValidAgents(agents) && BoundJobs(jobs)
    ensures var n := Normalized(agents);
            var direct := DirectSlices(n, jobs);
            Partitioned(jobs, agents).Some? <==>
              EnoughCapacity(n, jobs) && direct.Some? && |OfMode(jobs, Browser)| <= RoomBeside(n, direct.value)
  {
    hide Greedy, Fits, ScarceFirst, OfMode, NoSlices, Flat, BrowserRoom, RoomBeside, EnoughCapacity, BoundJobs;
    var n := Normalized(agents);
    NormalizedValid(agents);
    if DirectSlices(n, jobs).Some? {
      DirectPlaced(n, jobs);
      OfModeJobs(jobs, Browser);
      BrowserExact(n, DirectSlices(n, jobs).value, OfMode(jobs, Browser), 0);
    }
  }

  /** The modes do not compete for places: only one is asked for, or every agent keeps them apart, or every
      agent may fill up with browser jobs. */
  predicate ModesApart(agents: seq<Agent>, jobs: seq<Job>) {
    || OneMode(jobs, Direct) || OneMode(jobs, Browser)
    || (forall a :: a in agents ==> a.directCapacity + a.browserCapacity <= a.capacity)
    || (forall a :: a in agents ==> a.browserCapacity >= a.capacity)
  }

  lemma FeasibleBrowser(agents: seq<Agent>, jobs: seq<Job>)
    requires (forall a :: a in agents ==> ValidAgent(a)) && Feasible(agents, jobs)
    ensures CountMode(jobs, Browser) <= RoomIn(agents, Upto(|agents|), RoomFor(Browser))
  {
    hide CountIf, RoomIn;
    var places := Upto(|agents|);
    CountImplied(jobs, InModeOf(Browser), Confined(agents, Browser, places));
    if HallViolation(agents, jobs, Browser, places) {
      HallRefutes(agents, jobs, Browser, places);
    }
  }

  // ---- Too little capacity in total ----

  lemma {:induction false} LoadsAddUp(agents: seq<Agent>, slices: seq<seq<Job>>, f: Agent -> int, p: Job -> bool)
    requires |slices| == |agents| && forall i :: 0 <= i < |agents| ==> CountIf(slices[i], p) <= f(agents[i])
    ensures CountIf(Flat(slices), p) <= Total(agents, f)
  {
    if agents != [] {
      var n := |agents| - 1;
      LoadsAddUp(agents[..n], slices[..n], f, p);
      CountConcat(Flat(slices[..n]), slices[n], p);
    }
  }

  lemma FeasibleHasCapacity(agents: seq<Agent>, jobs: seq<Job>)
    requires Feasible(agents, jobs)
    ensures EnoughCapacity(agents, jobs)
  {
    hide CountIf, Flat, OfMode;
    var slices :| Distributes(agents, slices, jobs);
    var any := (j: Job) => true;
    CountAll(jobs, any);
    forall i | 0 <= i < |agents| ensures CountIf(slices[i], any) <= CapacityOf()(agents[i]) {
      CountAll(slices[i], any);
    }
    LoadsAddUp(agents, slices, CapacityOf(), any);
    LoadsAddUp(agents, slices, DirectCapacityOf(), InModeOf(Direct));
    LoadsAddUp(agents, slices, BrowserCapacityOf(), InModeOf(Browser));
    CountPermuted(Flat(slices), jobs, any);
    CountPermuted(Flat(slices), jobs, InModeOf(Direct));
    CountPermuted(Flat(slices), jobs, InModeOf(Browser));
    OfModeJobs(jobs, Direct);
    OfModeJobs(jobs, Browser);
  }

  // ---- Exactly when a partition is found ----

  lemma {:induction false} AllOfMode(jobs: seq<Job>, mode: Mode)
    requires OneMode(jobs, mode)
    ensures OfMode(jobs, mode) == jobs && forall other :: other != mode ==> OfMode(jobs, other) == []
  {
    if jobs != [] {
      AllOfMode(jobs[..|jobs| - 1], mode);
    }
  }

  lemma ModeSizes(jobs: seq<Job>)
    requires BoundJobs(jobs)
    ensures |OfMode(jobs, Direct)| + |OfMode(jobs, Browser)| == |jobs|
  {
    hide OfMode, DistinctAssets, DistinctAccounts;
    ModesSplit(jobs);
    assert |multiset(OfMode(jobs, Direct)) + multiset(OfMode(jobs, Browser))| == |multiset(jobs)|;
  }

  // ---- Competing modes, judged by the inputs alone ----

  /** The room for browser jobs that direct jobs can never take. */
  function GuaranteedRoom(agents: seq<Agent>): int {
    if agents == [] then 0
    else
      var n := |agents| - 1;
      var a := agents[n];
      GuaranteedRoom(agents[..n]) + Least(a.browserCapacity, a.capacity - Least(a.directCapacity, a.capacity))
  }

  /** However the direct jobs are placed, the browser jobs fit beside them: into what direct jobs never
      take, or into all the room for browser jobs less one place for every direct job. */
  predicate RoomAssured(agents: seq<Agent>, jobs: seq<Job>) {
    var direct, browser := |OfMode(jobs, Direct)|, |OfMode(jobs, Browser)|;
    browser <= GuaranteedRoom(agents) || browser + direct <= RoomIn(agents, Upto(|agents|), RoomFor(Browser))
  }

  lemma {:induction false} GuaranteeHolds(agents: seq<Agent>, slices: seq<seq<Job>>)
    requires |slices| == |agents| && Fits(agents, slices)
    requires forall i :: 0 <= i < |slices| ==> OneMode(slices[i], Direct)
    ensures RoomBeside(agents, slices) >= GuaranteedRoom(agents)
  {
    if agents != [] {
      var n := |agents| - 1;
      GuaranteeHolds(agents[..n], slices[..n]);
      CountAll(slices[n], InModeOf(Direct));
    }
  }

  lemma {:induction false} EachTakesOne(agents: seq<Agent>, slices: seq<seq<Job>>, n: nat)
    requires |slices| == |agents| <= n
    ensures RoomBeside(agents, slices) >= RoomIn(agents, Upto(n), RoomFor(Browser)) - |Flat(slices)|
  {
    if agents != [] {
      EachTakesOne(agents[..|agents| - 1], slices[..|agents| - 1], n);
    }
  }

  /** Modes that do not compete leave enough room in every feasible fleet, so this condition is the wider one. */
  lemma ApartIsAssured(agents: seq<Agent>, jobs: seq<Job>)
    requires (forall a :: a in agents ==>
               ValidAgent(a)) && BoundJobs(jobs) && Feasible(agents, jobs) && ModesApart(agents, jobs)
    ensures RoomAssured(agents, jobs)
  {
    hide Fits, OfMode, RoomIn, CountIf, Total, Flat, BoundJobs, OneMode, GuaranteedRoom;
    FeasibleHasCapacity(agents, jobs);
    ModeSizes(jobs);
    GuaranteedNatural(agents);
    if OneMode(jobs, Direct) {
      AllOfMode(jobs, Direct);
    } else if OneMode(jobs, Browser) {
      AllOfMode(jobs, Browser);
      FeasibleBrowser(agents, jobs);
      OfModeJobs(jobs, Browser);
    } else if forall a :: a in agents ==> a.directCapacity + a.browserCapacity <= a.capacity {
      GuaranteedAll(agents);
    } else {
      WholeBrowser(agents, |agents|);
    }
  }

  lemma {:induction false} GuaranteedNatural(agents: seq<Agent>)
    requires forall a :: a in agents ==> ValidAgent(a)
    ensures GuaranteedRoom(agents) >= 0
  {
    if agents != [] {
      assert agents[|agents| - 1] in agents;
      GuaranteedNatural(agents[..|agents| - 1]);
    }
  }

  lemma {:induction false} GuaranteedAll(agents: seq<Agent>)
    requires forall a :: a in agents ==> ValidAgent(a) && a.directCapacity + a.browserCapacity <= a.capacity
    ensures GuaranteedRoom(agents) == Total(agents, BrowserCapacityOf())
  {
    if agents != [] {
      assert agents[|agents| - 1] in agents;
      GuaranteedAll(agents[..|agents| - 1]);
    }
  }

  lemma {:induction false} WholeBrowser(agents: seq<Agent>, n: nat)
    requires |agents| <= n && forall a :: a in agents ==> a.browserCapacity >= a.capacity
    ensures RoomIn(agents, Upto(n), RoomFor(Browser)) == Total(agents, CapacityOf())
  {
    if agents != [] {
      assert agents[|agents| - 1] in agents;
      WholeBrowser(agents[..|agents| - 1], n);
    }
  }

  lemma AssuredSuffices(agents: seq<Agent>, jobs: seq<Job>, direct: seq<seq<Job>>)
    requires (forall a :: a in agents ==> ValidAgent(a)) && RoomAssured(agents, jobs)
    requires DirectSlices(agents, jobs) == Some(direct)
    ensures |direct| == |agents| && |OfMode(jobs, Browser)| <= RoomBeside(agents, direct)
  {
    hide Fits, OfMode, RoomIn, RoomBeside, BrowserRoom, Flat, DirectSlices, OneMode, GuaranteedRoom;
    DirectPlaced(agents, jobs);
    GuaranteeHolds(agents, direct);
    EachTakesOne(agents, direct, |agents|);
    assert |multiset(Flat(direct))| == |multiset(OfMode(jobs, Direct))|;
  }

  /** Where the inputs assure the room, Partition finds a partition exactly when there is one, also for
      modes that compete. */
  lemma PartitionCompleteAssured(jobs: seq<Job>, agents: seq<Agent>)
    requires ValidAgents(agents) && BoundJobs(jobs)
    requires Nested(Normalized(agents), OfMode(jobs, Direct)) && RoomAssured(Normalized(agents), jobs)
    ensures Partitioned(jobs, agents).Some? <==> Feasible(Normalized(agents), jobs)
  {
    hide Partitioned, EnoughCapacity, OfMode, Nested, BoundJobs, RoomAssured, DirectSlices, Distributes, RoomBeside;
    var n := Normalized(agents);
    PartitionedExactly(jobs, agents);
    NormalizedValid(agents);
    if Partitioned(jobs, agents).Some? {
      PartitionDistributes(jobs, agents);
    } else if Feasible(n, jobs) {
      FeasibleHasCapacity(n, jobs);
      if DirectSlices(n, jobs) == None {
        DirectComplete(n, jobs);
      } else {
        AssuredSuffices(n, jobs, DirectSlices(n, jobs).value);
      }
    }
  }

  /** For valid agents and bound jobs, direct ones with nested places, whose modes do not compete: Partition
      finds a partition exactly when there is one. */
  lemma PartitionComplete(jobs: seq<Job>, agents: seq<Agent>)
    requires ValidAgents(agents) && BoundJobs(jobs)
    requires Nested(Normalized(agents), OfMode(jobs, Direct)) && ModesApart(Normalized(agents), jobs)
    ensures Partitioned(jobs, agents).Some? <==> Feasible(Normalized(agents), jobs)
  {
    hide Partitioned, OfMode, Nested, BoundJobs, ModesApart, Distributes, RoomAssured;
    NormalizedValid(agents);
    if Partitioned(jobs, agents).Some? {
      PartitionDistributes(jobs, agents);
    } else if Feasible(Normalized(agents), jobs) {
      ApartIsAssured(Normalized(agents), jobs);
      PartitionCompleteAssured(jobs, agents);
    }
  }

  // ---- Where completeness ends ----

  lemma ProbeFirst(agents: seq<Agent>, slices: seq<seq<Job>>, cursor: nat, job: Job)
    requires |slices| == |agents| && cursor < |agents| && HasRoom(agents[cursor], slices[cursor], job)
    ensures Probe(agents, slices, cursor, job, 0) == Some(cursor)
  {
    hide HasRoom, Around;
    AroundNone(cursor, |agents|);
  }

  lemma AroundNone(cursor: nat, n: nat)
    requires cursor < n
    ensures Around(cursor, 0, n) == cursor
  {
  }

  lemma ProbeNone(agents: seq<Agent>, slices: seq<seq<Job>>, cursor: nat, job: Job)
    requires |slices| == |agents| && forall i :: 0 <= i < |agents| ==> !HasRoom(agents[i], slices[i], job)
    ensures Probe(agents, slices, cursor, job, 0) == None
  {
    hide HasRoom;
  }

  lemma GreedyOne(agents: seq<Agent>, slices: seq<seq<Job>>, job: Job, cursor: nat)
    requires |slices| == |agents|
    ensures Greedy(agents, slices, [job], cursor)
         == match Probe(agents, slices, cursor, job,
             0) case None => None case Some(i) => Some(slices[i := slices[i] + [job]])
  {
    hide Probe;
    assert [job][1..] == [];
  }

  lemma CountEmpty(mode: Mode)
    ensures CountMode([], mode) == 0
  {
  }

  lemma CountSingle(job: Job, mode: Mode)
    ensures CountMode([job], mode) == if job.mode == mode then 1 else 0
  {
    CountAppend([], job, InModeOf(mode));
    assert [] + [job] == [job];
  }

  lemma FlatTwo(a: seq<Job>, b: seq<Job>)
    ensures Flat([a, b]) == a + b
  {
    assert [a, b][..1] == [a];
    assert [a][..0] == [];
    assert Flat([a]) == [] + a;
  }

  /** Direct jobs are placed before browser jobs, whatever room they take from them: with one place each,
      the direct job takes the only agent that runs browsers. */
  lemma MixedModesIncomplete(direct: Job, browser: Job)
    requires direct.mode == Direct && direct.protocol == SSH && browser.mode == Browser && browser.protocol == RDP
    requires BoundJobs([direct, browser])
    ensures var agents := [Agent("a", 1, 1, 1, [SSH]), Agent("b", 1, 1, 0, [SSH])];
            && ValidAgents(agents) && Nested(Normalized(agents), [direct, browser])
            && !ModesApart(Normalized(agents), [direct, browser])
            && Feasible(Normalized(agents), [direct, browser])
            && Partitioned([direct, browser], agents) == None
  {
    hide CountIf, Greedy, Flat, OfMode, ScarceFirst, EnoughCapacity, NoSlices, BoundJobs, Distributes, Places;
    var jobs, agents := [direct, browser], [Agent("a", 1, 1, 1, [SSH]), Agent("b", 1, 1, 0, [SSH])];
    assert Normalized(agents) == agents;
    assert agents[0] in agents && agents[1] in agents && direct in jobs && browser in jobs;
    TwoPlaces(agents, direct, browser);
    Exchanged(agents, direct, browser);
    assert Distributes(agents, [[browser], [direct]], jobs);
    TwoModes(direct, browser);
    ScarceOne(agents, direct);
    NoSlicesTwo(agents);
    BrowserStuck(agents, direct, browser);
  }

  /** The browser job on the first agent and the direct job on the second would do. */
  lemma Exchanged(agents: seq<Agent>, direct: Job, browser: Job)
    requires agents == [Agent("a", 1, 1, 1, [SSH]), Agent("b", 1, 1, 0, [SSH])]
    requires direct.mode == Direct && direct.protocol == SSH && browser.mode == Browser
    ensures Distributes(agents, [[browser], [direct]], [direct, browser])
  {
    hide CountIf, Flat;
    CountSingle(direct, Direct);
    CountSingle(direct, Browser);
    CountSingle(browser, Direct);
    CountSingle(browser, Browser);
    FlatTwo([browser], [direct]);
  }

  lemma TwoPlaces(agents: seq<Agent>, direct: Job, browser: Job)
    requires agents == [Agent("a", 1, 1, 1, [SSH]), Agent("b", 1, 1, 0, [SSH])]
    requires direct.mode == Direct && direct.protocol == SSH && browser.mode == Browser
    ensures Places(agents, direct) == Places(agents, browser)
  {
    forall i: nat ensures i in Places(agents, direct) <==> i in Places(agents, browser) {
      assert i in Upto(|agents|) <==> i == 0 || i == 1;
    }
  }

  lemma BrowserStuck(agents: seq<Agent>, direct: Job, browser: Job)
    requires agents == [Agent("a", 1, 1, 1, [SSH]), Agent("b", 1, 1, 0, [SSH])]
    requires direct.mode == Direct && direct.protocol == SSH && browser.mode == Browser
    ensures Greedy(agents, [[], []], [direct], 0) == Some([[direct], []])
    ensures Greedy(agents, [[direct], []], [browser], 0) == None
  {
    hide CountIf, Greedy, Probe;
    CountEmpty(Direct);
    CountEmpty(Browser);
    var none: seq<seq<Job>> := [[], []];
    GreedyOne(agents, none, direct, 0);
    ProbeFirst(agents, none, 0, direct);
    PlaceFirst(direct);
    GreedyOne(agents, [[direct], []], browser, 0);
    ProbeNone(agents, [[direct], []], 0, browser);
  }

  lemma PlaceFirst(job: Job)
    ensures var none: seq<seq<Job>> := [[], []]; none[0 := none[0] + [job]] == [[job], []]
  {
    var none: seq<seq<Job>> := [[], []];
    assert none[0] + [job] == [job];
  }

  lemma NoSlicesTwo(agents: seq<Agent>)
    requires |agents| == 2
    ensures NoSlices(agents) == [[], []]
  {
  }

  lemma TwoModes(direct: Job, browser: Job)
    requires direct.mode == Direct && browser.mode == Browser
    ensures OfMode([direct, browser], Direct) == [direct] && OfMode([direct, browser], Browser) == [browser]
  {
    hide OfMode;
    assert [direct, browser][..1] == [direct] && [direct][..0] == [];
    forall mode ensures OfMode([direct, browser], mode) == (if direct.mode == mode then [direct] else []) +
        (if browser.mode == mode then [browser] else []) {
      NoneOfMode(mode);
      OfModeNext([direct], mode);
      OfModeNext([direct, browser], mode);
    }
  }

  lemma ScarceOne(agents: seq<Agent>, job: Job)
    ensures ScarceFirst(agents, [job]) == [job]
  {
    hide SupportingAgentCount;
    assert [job][1..] == [];
  }

  const OVERLAPPING := [Agent("a", 1, 1, 0, [SSH, RDP]), Agent("b", 1, 1, 0, [RDP]), Agent("c", 1, 1, 0, [SSH])]

  /** Nesting is needed: where two protocols share one agent of the two that each has, as many agents support
      the one as the other, and the job that comes first takes the shared agent. */
  lemma NestingNeeded(ssh: Job, rdp: Job, last: Job)
    requires ssh.mode == rdp.mode == last.mode == Direct
    requires ssh.protocol == SSH && rdp.protocol == last.protocol == RDP && BoundJobs([ssh, rdp, last])
    ensures ValidAgents(OVERLAPPING) && Normalized(OVERLAPPING) == OVERLAPPING
    ensures !Nested(OVERLAPPING, [ssh, rdp, last]) && Feasible(OVERLAPPING, [ssh, rdp, last])
    ensures Partitioned([ssh, rdp, last], OVERLAPPING) == None
  {
    hide CountIf, Greedy, Flat, OfMode, ScarceFirst, EnoughCapacity, NoSlices, BoundJobs, Distributes, Nested;
    var jobs := [ssh, rdp, last];
    assert Normalized(OVERLAPPING) == OVERLAPPING;
    assert ValidAgents(OVERLAPPING);
    SharedUnnested(ssh, rdp, last);
    SharedFeasible(ssh, rdp, last);
    assert Distributes(OVERLAPPING, [[rdp], [last], [ssh]], jobs);
    AllOfMode(jobs, Direct);
    SharedOrder(ssh, rdp, last);
    SharedTaken(ssh, rdp, last);
    PartitionedExactly(jobs, OVERLAPPING);
  }

  lemma SharedUnnested(ssh: Job, rdp: Job, last: Job)
    requires ssh.mode == rdp.mode == Direct && ssh.protocol == SSH && rdp.protocol == RDP
    ensures !Nested(OVERLAPPING, [ssh, rdp, last])
  {
    var jobs := [ssh, rdp, last];
    assert ssh in jobs && rdp in jobs;
    assert 2 in Places(OVERLAPPING, ssh) && 2 !in Places(OVERLAPPING, rdp);
    assert 1 in Places(OVERLAPPING, rdp) && 1 !in Places(OVERLAPPING, ssh);
  }

  /** The first job on the agent that only it can use leaves room for the others. */
  lemma SharedFeasible(ssh: Job, rdp: Job, last: Job)
    requires ssh.mode == rdp.mode == last.mode == Direct
    requires ssh.protocol == SSH && rdp.protocol == last.protocol == RDP
    ensures Distributes(OVERLAPPING, [[rdp], [last], [ssh]], [ssh, rdp, last])
  {
    hide CountIf, Flat, SliceFits;
    var slices := [[rdp], [last], [ssh]];
    OneFits(OVERLAPPING[0], rdp);
    OneFits(OVERLAPPING[1], last);
    OneFits(OVERLAPPING[2], ssh);
    assert slices[..2] == [[rdp], [last]];
    FlatTwo([rdp], [last]);
    FlatNext(slices);
    assert Flat(slices) == [rdp, last] + [ssh];
  }

  lemma OneFits(a: Agent, job: Job)
    requires job.mode == Direct && job.protocol in a.directProtocols
    requires a.capacity == a.directCapacity == 1 && a.browserCapacity == 0
    ensures SliceFits(a, [job])
  {
    hide CountIf;
    CountSingle(job, Direct);
    CountSingle(job, Browser);
  }

  lemma FlatNext(slices: seq<seq<Job>>)
    requires slices != []
    ensures Flat(slices) == Flat(slices[..|slices| - 1]) + slices[|slices| - 1]
  {
  }

  /** Both protocols have two agents, so the jobs stay in their order. */
  lemma SharedOrder(ssh: Job, rdp: Job, last: Job)
    requires ssh.protocol == SSH && rdp.protocol == last.protocol == RDP
    ensures ScarceFirst(OVERLAPPING, [ssh, rdp, last]) == [ssh, rdp, last]
  {
    hide SupportingAgentCount;
    TwoSupporters();
    var jobs := [ssh, rdp, last];
    assert jobs[1..] == [rdp, last] && [rdp, last][1..] == [last];
    ScarceOne(OVERLAPPING, last);
  }

  lemma TwoSupporters()
    ensures SupportingAgentCount(OVERLAPPING, SSH) == SupportingAgentCount(OVERLAPPING, RDP) == 2
  {
    hide SupportingAgentCount;
    CountsSupporters(OVERLAPPING, SSH);
    CountsSupporters(OVERLAPPING, RDP);
    assert Supporters(OVERLAPPING, SSH) == {0, 2};
    assert Supporters(OVERLAPPING, RDP) == {0, 1};
  }

  lemma GreedyFirst(agents: seq<Agent>, slices: seq<seq<Job>>, job: Job, rest: seq<Job>, cursor: nat)
    requires |slices| == |agents| && cursor < |agents| && HasRoom(agents[cursor], slices[cursor], job)
    ensures Greedy(agents, slices, [job] + rest, cursor)
         == Greedy(agents, slices[cursor := slices[cursor] + [job]], rest, (cursor + 1) % |agents|)
  {
    hide HasRoom, Probe;
    ProbeFirst(agents, slices, cursor, job);
    assert ([job] + rest)[1..] == rest;
  }

  lemma SharedTaken(ssh: Job, rdp: Job, last: Job)
    requires ssh.mode == rdp.mode == last.mode == Direct
    requires ssh.protocol == SSH && rdp.protocol == last.protocol == RDP
    ensures Greedy(OVERLAPPING, NoSlices(OVERLAPPING), [ssh, rdp, last], 0) == None
  {
    hide CountIf, Greedy, Probe;
    CountEmpty(Direct);
    CountSingle(ssh, Direct);
    CountSingle(rdp, Direct);
    var none: seq<seq<Job>> := [[], [], []];
    assert NoSlices(OVERLAPPING) == none && [] + [ssh] == [ssh] && [] + [rdp] == [rdp];
    assert [ssh] + [rdp, last] == [ssh, rdp, last] && [rdp] + [last] == [rdp, last];
    GreedyFirst(OVERLAPPING, none, ssh, [rdp, last], 0);
    assert none[0 := [ssh]] == [[ssh], [], []];
    GreedyFirst(OVERLAPPING, [[ssh], [], []], rdp, [last], 1);
    assert [[ssh], [], []][1 := [rdp]] == [[ssh], [rdp], []];
    GreedyOne(OVERLAPPING, [[ssh], [rdp], []], last, 2);
    ProbeNone(OVERLAPPING, [[ssh], [rdp], []], 2, last);
  }
}
