/** Partition: agents receive disjoint slices of the bound jobs, scarcest direct protocol first. */
module Partitioning {
  import opened Wrappers
  import opened Scenario

  datatype Agent = Agent(id: string, capacity: int, directCapacity: int, browserCapacity: int,
                         directProtocols: seq<Protocol>)

  // ---- Counting jobs ----

  function CountIf(jobs: seq<Job>, p: Job -> bool): (n: nat)
    ensures n <= |jobs|
  {
    if jobs == [] then 0 else CountIf(jobs[..|jobs| - 1], p) + if p(jobs[|jobs| - 1]) then 1 else 0
  }

  function InModeOf(mode: Mode): Job -> bool { (j: Job) => j.mode == mode }

  function CountMode(jobs: seq<Job>, mode: Mode): (n: nat)
    ensures n <= |jobs|
  {
    CountIf(jobs, InModeOf(mode))
  }

  lemma CountAppend(jobs: seq<Job>, job: Job, p: Job -> bool)
    ensures CountIf(jobs + [job], p) == CountIf(jobs, p) + if p(job) then 1 else 0
  {
    assert (jobs + [job])[..|jobs|] == jobs;
  }

  lemma {:induction false} CountConcat(a: seq<Job>, b: seq<Job>, p: Job -> bool)
    ensures CountIf(a + b, p) == CountIf(a, p) + CountIf(b, p)
  {
    if b == [] {
      assert a + b == a;
    } else {
      var n := |b| - 1;
      assert (a + b)[..|a + b| - 1] == a + b[..n];
      CountConcat(a, b[..n], p);
    }
  }

  lemma {:induction false} CountAll(jobs: seq<Job>, p: Job -> bool)
    requires forall j :: j in jobs ==> p(j)
    ensures CountIf(jobs, p) == |jobs|
  {
    if jobs != [] {
      CountAll(jobs[..|jobs| - 1], p);
    }
  }

  lemma {:induction false} CountNone(jobs: seq<Job>, p: Job -> bool)
    requires forall j :: j in jobs ==> !p(j)
    ensures CountIf(jobs, p) == 0
  {
    if jobs != [] {
      CountNone(jobs[..|jobs| - 1], p);
    }
  }

  lemma CountMonotone(jobs: seq<Job>, n: nat, p: Job -> bool)
    requires n <= |jobs|
    ensures CountIf(jobs[..n], p) <= CountIf(jobs, p)
  {
    hide CountIf;
    CountConcat(jobs[..n], jobs[n..], p);
    assert jobs[..n] + jobs[n..] == jobs;
  }

  lemma Cancel<T>(a: multiset<T>, b: multiset<T>, x: T)
    requires a + multiset{x} == b + multiset{x}
    ensures a == b
  {
    assert (a + multiset{x}) - multiset{x} == a;
    assert (b + multiset{x}) - multiset{x} == b;
  }

  lemma {:induction false} CountedAt(jobs: seq<Job>, p: Job -> bool, n: nat)
    requires n < |jobs| && p(jobs[n])
    ensures CountIf(jobs, p) >= 1
  {
    if n < |jobs| - 1 {
      CountedAt(jobs[..|jobs| - 1], p, n);
    }
  }

  /** How many jobs satisfy a condition does not depend on their order. */
  lemma {:induction false} CountPermuted(a: seq<Job>, b: seq<Job>, p: Job -> bool)
    requires multiset(a) == multiset(b)
    ensures CountIf(a, p) == CountIf(b, p)
  {
    if a == [] {
      assert |multiset(b)| == 0;
    } else {
      var n := |a| - 1;
      assert a[n] in multiset(b);
      var k :| 0 <= k < |b| && b[k] == a[n];
      var rest := b[..k] + b[k + 1..];
      Without(b, k, p);
      assert a == a[..n] + [a[n]];
      Cancel(multiset(a[..n]), multiset(rest), a[n]);
      CountPermuted(a[..n], rest, p);
    }
  }

  lemma Without(b: seq<Job>, k: nat, p: Job -> bool)
    requires k < |b|
    ensures var rest := b[..k] + b[k + 1..];
            && multiset(b) == multiset(rest) + multiset{b[k]}
            && CountIf(b, p) == CountIf(rest, p) + if p(b[k]) then 1 else 0
  {
    assert b == b[..k] + [b[k]] + b[k + 1..];
    hide CountIf;
    CountConcat(b[..k], b[k + 1..], p);
    CountConcat(b[..k] + [b[k]], b[k + 1..], p);
    CountAppend(b[..k], b[k], p);
  }

  // ---- Sequences without repetition ----

  predicate NoRepeats<T(==)>(s: seq<T>) {
    forall i, j :: 0 <= i < j < |s| ==> s[i] != s[j]
  }

  lemma {:induction false} OnceEach<T>(s: seq<T>, x: T)
    requires NoRepeats(s)
    ensures multiset(s)[x] <= 1
  {
    if s != [] {
      var n := |s| - 1;
      OnceEach(s[..n], x);
      assert s == s[..n] + [s[n]];
      if s[n] == x {
        assert x !in s[..n];
      }
    }
  }

  lemma NoRepeatsPermuted<T>(a: seq<T>, b: seq<T>)
    requires NoRepeats(a) && multiset(a) == multiset(b)
    ensures NoRepeats(b)
  {
    forall i, j | 0 <= i < j < |b| ensures b[i] != b[j] {
      if b[i] == b[j] {
        Twice(b, i, j);
        OnceEach(a, b[i]);
      }
    }
  }

  lemma Twice<T>(b: seq<T>, i: nat, j: nat)
    requires i < j < |b| && b[i] == b[j]
    ensures multiset(b)[b[i]] >= 2
  {
    assert b == b[..i] + [b[i]] + b[i + 1..j] + [b[j]] + b[j + 1..];
  }

  // ---- Slices ----

  function Flat(slices: seq<seq<Job>>): seq<Job> {
    if slices == [] then [] else Flat(slices[..|slices| - 1]) + slices[|slices| - 1]
  }

  lemma {:induction false} FlatAppend(slices: seq<seq<Job>>, i: nat, job: Job)
    requires i < |slices|
    ensures multiset(Flat(slices[i := slices[i] + [job]])) == multiset(Flat(slices)) + multiset{job}
  {
    var n, after := |slices| - 1, slices[i := slices[i] + [job]];
    if i == n {
      assert after[..n] == slices[..n];
    } else {
      FlatAppend(slices[..n], i, job);
      assert after[..n] == slices[..n][i := slices[i] + [job]];
    }
  }

  lemma {:induction false} FlatMember(slices: seq<seq<Job>>, i: nat)
    requires i < |slices|
    ensures forall j :: j in slices[i] ==> j in Flat(slices)
  {
    if i < |slices| - 1 {
      FlatMember(slices[..|slices| - 1], i);
    }
  }

  predicate SliceFits(a: Agent, slice: seq<Job>) {
    && |slice| <= a.capacity && CountMode(slice, Direct) <= a.directCapacity
    && CountMode(slice, Browser) <= a.browserCapacity
    && (forall j :: j in slice && j.mode != Browser ==> j.protocol in a.directProtocols)
  }

  /** One slice per agent, within every capacity, direct jobs only where their protocol is supported. */
  predicate Fits(agents: seq<Agent>, slices: seq<seq<Job>>) {
    |slices| == |agents| && forall i :: 0 <= i < |agents| ==> SliceFits(agents[i], slices[i])
  }

  /** The slices hold exactly the jobs. */
  predicate Distributes(agents: seq<Agent>, slices: seq<seq<Job>>, jobs: seq<Job>) {
    Fits(agents, slices) && multiset(Flat(slices)) == multiset(jobs)
  }

  ghost predicate Feasible(agents: seq<Agent>, jobs: seq<Job>) {
    exists slices :: Distributes(agents, slices, jobs)
  }

  // ---- The greedy assignment ----

  predicate HasRoom(a: Agent, slice: seq<Job>, job: Job) {
    && |slice| < a.capacity
    && (if job.mode == Browser then CountMode(slice, Browser) < a.browserCapacity
        else CountMode(slice, Direct) < a.directCapacity && job.protocol in a.directProtocols)
  }

  function Around(cursor: nat, steps: nat, n: nat): (i: nat)
    requires n > 0
    ensures i < n
  {
    (cursor + steps) % n
  }

  /** The first agent with room, looking from the cursor on and around. */
  function Probe(agents: seq<Agent>, slices: seq<seq<Job>>, cursor: nat, job: Job, checked: nat): (r: Option<nat>)
    requires |slices| == |agents|
    ensures r.Some? ==> r.value < |agents| && HasRoom(agents[r.value], slices[r.value], job)
    decreases |agents| - checked
  {
    if checked >= |agents| then None
    else
      var i := Around(cursor, checked, |agents|);
      if HasRoom(agents[i], slices[i], job) then Some(i) else Probe(agents, slices, cursor, job, checked + 1)
  }

  function Greedy(agents: seq<Agent>, slices: seq<seq<Job>>, jobs: seq<Job>, cursor: nat): (r: Option<seq<seq<Job>>>)
    requires |slices| == |agents|
    ensures r.Some? ==> |r.value| == |agents|
    decreases |jobs|
  {
    if jobs == [] then Some(slices)
    else
      match Probe(agents, slices, cursor, jobs[0], 0)
      case None => None
      case Some(i) => Greedy(agents, slices[i := slices[i] + [jobs[0]]], jobs[1..], (i + 1) % |agents|)
  }

  lemma {:induction false} ProbeRejects(agents: seq<Agent>, slices: seq<seq<Job>>, cursor: nat, job: Job, checked: nat,
                                        k: nat)
    requires |slices| == |agents| && checked <= k < |agents| && Probe(agents, slices, cursor, job, checked) == None
    ensures !HasRoom(agents[Around(cursor, k, |agents|)], slices[Around(cursor, k, |agents|)], job)
    decreases |agents| - checked
  {
    hide HasRoom, Around;
    if checked < k {
      ProbeRejects(agents, slices, cursor, job, checked + 1, k);
    }
  }

  /** When the probe finds no agent, none has room. */
  lemma NobodyHasRoom(agents: seq<Agent>, slices: seq<seq<Job>>, cursor: nat, job: Job)
    requires |slices| == |agents| && (agents == [] || cursor < |agents|)
    requires Probe(agents, slices, cursor, job, 0) == None
    ensures forall i :: 0 <= i < |agents| ==> !HasRoom(agents[i], slices[i], job)
  {
    hide HasRoom, Probe, Around;
    forall i | 0 <= i < |agents| ensures !HasRoom(agents[i], slices[i], job) {
      var k := StepsTo(cursor, |agents|, i);
      ProbeRejects(agents, slices, cursor, job, 0, k);
    }
  }

  lemma StepsTo(cursor: nat, n: nat, i: nat) returns (k: nat)
    requires cursor < n && i < n
    ensures k < n && Around(cursor, k, n) == i
  {
    k := if i >= cursor then i - cursor else i - cursor + n;
    OnceRound(i, n);
  }

  lemma OnceRound(i: nat, n: nat)
    requires i < n
    ensures i % n == i && (i + n) % n == i
  {
    var q := (i + n) / n;
    assert i + n == q * n + (i + n) % n;
    if q >= 2 {
      Multiples(2, q, n);
    } else if q <= 0 {
      Multiples(q, 0, n);
    }
  }

  lemma Multiples(a: int, b: int, n: nat)
    requires a <= b
    ensures a * n <= b * n
  {
  }

  lemma RoomFits(a: Agent, slice: seq<Job>, job: Job)
    requires SliceFits(a, slice) && HasRoom(a, slice, job) && KnownMode(job.mode)
    ensures SliceFits(a, slice + [job])
  {
    CountAppend(slice, job, InModeOf(Direct));
    CountAppend(slice, job, InModeOf(Browser));
  }

  /** Assignment keeps within every capacity and places each job exactly once. */
  lemma {:induction false} GreedyDistributes(agents: seq<Agent>, slices: seq<seq<Job>>, placed: seq<Job>,
                                             jobs: seq<Job>, cursor: nat)
    requires Distributes(agents, slices, placed) && Greedy(agents, slices, jobs, cursor).Some?
    requires forall j :: j in jobs ==> KnownMode(j.mode)
    ensures Distributes(agents, Greedy(agents, slices, jobs, cursor).value, placed + jobs)
    decreases |jobs|
  {
    hide SliceFits, HasRoom, Flat, Probe;
    if jobs == [] {
      assert placed + jobs == placed;
    } else {
      var i := Probe(agents, slices, cursor, jobs[0], 0).value;
      RoomFits(agents[i], slices[i], jobs[0]);
      FlatAppend(slices, i, jobs[0]);
      GreedyDistributes(agents, slices[i := slices[i] + [jobs[0]]], placed + [jobs[0]], jobs[1..], (i + 1) % |agents|);
      assert placed + [jobs[0]] + jobs[1..] == placed + jobs;
    }
  }

  /** Where assignment gets stuck: after `k` jobs, with no room for the next. */
  ghost predicate Stuck(agents: seq<Agent>, slices: seq<seq<Job>>, jobs: seq<Job>, k: nat) {
    && k < |jobs| && Distributes(agents, slices, jobs[..k])
    && (forall i :: 0 <= i < |agents| ==> !HasRoom(agents[i], slices[i], jobs[k]))
  }

  lemma {:induction false} GreedyStuck(agents: seq<Agent>, slices: seq<seq<Job>>, jobs: seq<Job>, k: nat, cursor: nat)
    requires k <= |jobs| && (agents == [] || cursor < |agents|)
    requires Distributes(agents, slices, jobs[..k]) && Greedy(agents, slices, jobs[k..], cursor) == None
    requires forall j :: j in jobs ==> KnownMode(j.mode)
    ensures exists stuck, n :: Stuck(agents, stuck, jobs, n)
    decreases |jobs| - k
  {
    hide SliceFits, HasRoom, Flat, Probe;
    var job := jobs[k];
    match Probe(agents, slices, cursor, job, 0)
    case None =>
      NobodyHasRoom(agents, slices, cursor, job);
      assert Stuck(agents, slices, jobs, k);
    case Some(i) =>
      RoomFits(agents[i], slices[i], job);
      FlatAppend(slices, i, job);
      assert jobs[..k + 1] == jobs[..k] + [job];
      assert jobs[k..][1..] == jobs[k + 1..];
      GreedyStuck(agents, slices[i := slices[i] + [job]], jobs, k + 1, (i + 1) % |agents|);
  }

  // ---- The order of the jobs: scarcest protocol first, otherwise as given ----

  function SupportsDirectProtocol(a: Agent, p: Protocol): bool { p in a.directProtocols }

  predicate Supports(a: Agent, p: Protocol) { a.directCapacity > 0 && p in a.directProtocols }

  function SupportingAgentCount(agents: seq<Agent>, p: Protocol): nat {
    if agents == [] then 0
    else SupportingAgentCount(agents[..|agents| - 1], p) + if Supports(agents[|agents| - 1], p) then 1 else 0
  }

  function Supporters(agents: seq<Agent>, p: Protocol): set<nat> {
    set i | 0 <= i < |agents| && Supports(agents[i], p)
  }

  lemma LastSupporter(agents: seq<Agent>, p: Protocol)
    requires agents != []
    ensures var n := |agents| - 1;
            Supporters(agents, p) == Supporters(agents[..n], p) + if Supports(agents[n], p) then {n} else {}
  {
  }

  lemma {:induction false} CountsSupporters(agents: seq<Agent>, p: Protocol)
    ensures SupportingAgentCount(agents, p) == |Supporters(agents, p)|
  {
    if agents != [] {
      var n := |agents| - 1;
      CountsSupporters(agents[..n], p);
      LastSupporter(agents, p);
    }
  }

  function InsertScarce(agents: seq<Agent>, job: Job, jobs: seq<Job>): seq<Job> {
    if jobs == [] || SupportingAgentCount(agents, job.protocol) <= SupportingAgentCount(agents, jobs[0].protocol) then
        [job] + jobs
    else [jobs[0]] + InsertScarce(agents, job, jobs[1..])
  }

  /** sort.SliceStable by the number of supporting agents. */
  function ScarceFirst(agents: seq<Agent>, jobs: seq<Job>): seq<Job> {
    if jobs == [] then [] else InsertScarce(agents, jobs[0], ScarceFirst(agents, jobs[1..]))
  }

  predicate Ascending(agents: seq<Agent>, jobs: seq<Job>) {
    forall i, j :: 0 <= i < j < |jobs| ==>
      SupportingAgentCount(agents, jobs[i].protocol) <= SupportingAgentCount(agents, jobs[j].protocol)
  }

  lemma {:induction false} InsertScarceKeeps(agents: seq<Agent>, job: Job, jobs: seq<Job>)
    ensures multiset(InsertScarce(agents, job, jobs)) == multiset(jobs) + multiset{job}
  {
    hide SupportingAgentCount;
    if jobs != [] && SupportingAgentCount(agents, job.protocol) > SupportingAgentCount(agents, jobs[0].protocol) {
      InsertScarceKeeps(agents, job, jobs[1..]);
      assert jobs == [jobs[0]] + jobs[1..];
    }
  }

  lemma {:induction false} InsertAscends(agents: seq<Agent>, job: Job, jobs: seq<Job>)
    requires Ascending(agents, jobs)
    ensures Ascending(agents, InsertScarce(agents, job, jobs))
  {
    hide SupportingAgentCount;
    if jobs != [] && SupportingAgentCount(agents, job.protocol) > SupportingAgentCount(agents, jobs[0].protocol) {
      var rest := InsertScarce(agents, job, jobs[1..]);
      InsertAscends(agents, job, jobs[1..]);
      InsertScarceKeeps(agents, job, jobs[1..]);
      hide InsertScarce;
      forall j | 0 <= j < |rest|
        ensures SupportingAgentCount(agents, jobs[0].protocol) <= SupportingAgentCount(agents, rest[j].protocol)
      {
        assert rest[j] in multiset(rest);
        assert rest[j] == job || rest[j] in jobs[1..];
      }
      AscendsFromFront(agents, jobs[0], rest);
    }
  }

  lemma AscendsFromFront(agents: seq<Agent>, job: Job, jobs: seq<Job>)
    requires Ascending(agents, jobs)
    requires forall j :: 0 <= j < |jobs| ==>
               SupportingAgentCount(agents, job.protocol) <= SupportingAgentCount(agents, jobs[j].protocol)
    ensures Ascending(agents, [job] + jobs)
  {
    hide SupportingAgentCount;
  }

  lemma {:induction false} ScarceFirstSorts(agents: seq<Agent>, jobs: seq<Job>)
    ensures var r := ScarceFirst(agents, jobs);
            Ascending(agents, r) && multiset(r) == multiset(jobs) && |r| == |jobs|
  {
    hide SupportingAgentCount, InsertScarce;
    if jobs != [] {
      ScarceFirstSorts(agents, jobs[1..]);
      InsertAscends(agents, jobs[0], ScarceFirst(agents, jobs[1..]));
      InsertScarceKeeps(agents, jobs[0], ScarceFirst(agents, jobs[1..]));
      assert jobs == [jobs[0]] + jobs[1..];
      SameSize(ScarceFirst(agents, jobs), jobs);
    }
  }

  lemma SameSize<T>(a: seq<T>, b: seq<T>)
    requires multiset(a) == multiset(b)
    ensures |a| == |b|
  {
    assert |multiset(a)| == |multiset(b)|;
  }

  function Sifted(jobs: seq<Job>, p: Protocol): seq<Job> {
    if jobs == [] then [] else (if jobs[0].protocol == p then [jobs[0]] else []) + Sifted(jobs[1..], p)
  }

  lemma {:induction false} InsertStable(agents: seq<Agent>, job: Job, jobs: seq<Job>, p: Protocol)
    ensures Sifted(InsertScarce(agents, job, jobs), p) == (if job.protocol == p then [job] else []) + Sifted(jobs, p)
  {
    hide SupportingAgentCount;
    var r := InsertScarce(agents, job, jobs);
    if jobs == [] || SupportingAgentCount(agents, job.protocol) <= SupportingAgentCount(agents, jobs[0].protocol) {
      assert r[1..] == jobs;
    } else {
      InsertStable(agents, job, jobs[1..], p);
      assert r[1..] == InsertScarce(agents, job, jobs[1..]);
      assert job.protocol != jobs[0].protocol;
    }
  }

  /** Jobs of one protocol keep their order. */
  lemma {:induction false} ScarceFirstStable(agents: seq<Agent>, jobs: seq<Job>, p: Protocol)
    ensures Sifted(ScarceFirst(agents, jobs), p) == Sifted(jobs, p)
  {
    if jobs != [] {
      ScarceFirstStable(agents, jobs[1..], p);
      InsertStable(agents, jobs[0], ScarceFirst(agents, jobs[1..]), p);
    }
  }

  // ---- The whole partition ----

  function Normalize(a: Agent): Agent {
    if a.directCapacity == 0 then a.(directCapacity := a.capacity) else a
  }

  /** An agent that states no direct capacity may use all of its capacity for direct jobs. */
  function Normalized(agents: seq<Agent>): (r: seq<Agent>)
    ensures |r| == |agents|
  {
    seq(|agents|, i requires 0 <= i < |agents| => Normalize(agents[i]))
  }

  function Total(agents: seq<Agent>, f: Agent -> int): int {
    if agents == [] then 0 else Total(agents[..|agents| - 1], f) + f(agents[|agents| - 1])
  }

  function CapacityOf(): Agent -> int { (a: Agent) => a.capacity }
  function DirectCapacityOf(): Agent -> int { (a: Agent) => a.directCapacity }
  function BrowserCapacityOf(): Agent -> int { (a: Agent) => a.browserCapacity }

  predicate DistinctIDs(agents: seq<Agent>) {
    forall i, j :: 0 <= i < j < |agents| ==> agents[i].id != agents[j].id
  }

  predicate ValidAgent(a: Agent) {
    a.id != "" && 0 <= a.capacity && 0 <= a.directCapacity && 0 <= a.browserCapacity
  }

  predicate ValidAgents(agents: seq<Agent>) {
    DistinctIDs(agents) && forall a :: a in agents ==> ValidAgent(a)
  }

  predicate BoundJob(job: Job) { job.assetID != "" && job.accountID != "" && KnownMode(job.mode) }

  predicate BoundJobs(jobs: seq<Job>) {
    DistinctAssets(jobs) && DistinctAccounts(jobs) && forall j :: j in jobs ==> BoundJob(j)
  }

  function OfMode(jobs: seq<Job>, mode: Mode): seq<Job> {
    if jobs == [] then []
    else OfMode(jobs[..|jobs| - 1], mode) + if jobs[|jobs| - 1].mode == mode then [jobs[|jobs| - 1]] else []
  }

  function NoSlices(agents: seq<Agent>): (r: seq<seq<Job>>)
    ensures |r| == |agents|
  {
    seq(|agents|, i => [])
  }

  predicate EnoughCapacity(agents: seq<Agent>, jobs: seq<Job>) {
    && |jobs| <= Total(agents, CapacityOf())
    && |OfMode(jobs, Direct)| <= Total(agents, DirectCapacityOf())
    && |OfMode(jobs, Browser)| <= Total(agents, BrowserCapacityOf())
  }

  /** Partition as a function of its inputs. */
  function Partitioned(jobs: seq<Job>, agents: seq<Agent>): (r: Option<seq<seq<Job>>>)
    ensures r.Some? ==> |r.value| == |agents|
  {
    var n := Normalized(agents);
    if !ValidAgents(agents) || !BoundJobs(jobs) || !EnoughCapacity(n, jobs) then None
    else
      match Greedy(n, NoSlices(n), ScarceFirst(n, OfMode(jobs, Direct)), 0)
      case None => None
      case Some(slices) => Greedy(n, slices, OfMode(jobs, Browser), 0)
  }

  function ByAgent(agents: seq<Agent>, slices: seq<seq<Job>>): map<string, seq<Job>>
    requires |slices| == |agents| && DistinctIDs(agents)
  {
    map i | 0 <= i < |agents| :: agents[i].id := slices[i]
  }

  function SliceOf(result: map<string, seq<Job>>, id: string): seq<Job> { if id in result then result[id] else [] }

  /** The result so far and the counters of used places describe the slices. */
  predicate Tallied(agents: seq<Agent>, slices: seq<seq<Job>>, result: map<string, seq<Job>>,
                    totalUsed: seq<int>, directUsed: seq<int>, browserUsed: seq<int>) {
    && |slices| == |totalUsed| == |directUsed| == |browserUsed| == |agents|
    && (forall i :: 0 <= i < |agents| ==>
          && totalUsed[i] == |slices[i]| && directUsed[i] == CountMode(slices[i], Direct)
          && browserUsed[i] == CountMode(slices[i], Browser) && SliceOf(result, agents[i].id) == slices[i])
    && (forall id :: id in result ==> exists i :: 0 <= i < |agents| && agents[i].id == id)
  }

  lemma TalliedNext(agents: seq<Agent>, slices: seq<seq<Job>>, result: map<string, seq<Job>>,
                    totalUsed: seq<int>, directUsed: seq<int>, browserUsed: seq<int>, i: nat, job: Job)
    requires Tallied(agents, slices, result, totalUsed, directUsed, browserUsed) && DistinctIDs(agents) && i < |agents|
    requires KnownMode(job.mode)
    ensures Tallied(agents, slices[i := slices[i] + [job]],
              result[agents[i].id := SliceOf(result, agents[i].id) + [job]],
                    totalUsed[i := totalUsed[i] + 1],
                    if job.mode == Browser then directUsed else directUsed[i := directUsed[i] + 1],
                    if job.mode == Browser then browserUsed[i := browserUsed[i] + 1] else browserUsed)
  {
    hide CountIf;
    CountAppend(slices[i], job, InModeOf(Direct));
    CountAppend(slices[i], job, InModeOf(Browser));
  }

  /** The inner loop of `assign`: look around from the cursor for an agent with room, and place the job there. */
  method Place(agents: seq<Agent>, job: Job, browser: bool, cursor: nat, result: map<string, seq<Job>>,
               totalUsed: seq<int>, directUsed: seq<int>, browserUsed: seq<int>, ghost slices: seq<seq<Job>>)
    returns (index: Option<nat>, placed: map<string, seq<Job>>, total: seq<int>, direct: seq<int>, browsers: seq<int>)
    requires DistinctIDs(agents) && Tallied(agents, slices, result, totalUsed, directUsed, browserUsed)
    requires |slices| == |agents| && (job.mode == if browser then Browser else Direct)
    ensures index == Probe(agents, slices, cursor, job, 0)
    ensures index.Some? ==>
              Tallied(agents, slices[index.value := slices[index.value] + [job]], placed, total, direct, browsers)
  {
    hide Tallied, HasRoom, Around;
    placed, total, direct, browsers := result, totalUsed, directUsed, browserUsed;
    var checked := 0;
    while checked < |agents|
      invariant checked <= |agents| && Probe(agents, slices, cursor, job, checked) ==
                  Probe(agents, slices, cursor, job, 0)
    {
      var i := Around(cursor, checked, |agents|);
      var agent := agents[i];
      TalliedRoom(agents, slices, placed, total, direct, browsers, i, job);
      if total[i] >= agent.capacity
         || (browser && browsers[i] >= agent.browserCapacity)
         || (!browser && direct[i] >= agent.directCapacity)
         || (!browser && !SupportsDirectProtocol(agent, job.protocol)) {
        checked := checked + 1;
        continue;
      }
      TalliedNext(agents, slices, placed, total, direct, browsers, i, job);
      placed := placed[agent.id := SliceOf(placed, agent.id) + [job]];
      total := total[i := total[i] + 1];
      if browser {
        browsers := browsers[i := browsers[i] + 1];
      } else {
        direct := direct[i := direct[i] + 1];
      }
      return Some(i), placed, total, direct, browsers;
    }
    index := None;
  }

  /** The closure that assigns the jobs of one mode. */
  method Assign(agents: seq<Agent>, source: seq<Job>, browser: bool, result: map<string, seq<Job>>,
                totalUsed: seq<int>, directUsed: seq<int>, browserUsed: seq<int>, ghost slices: seq<seq<Job>>)
    returns (ok: bool, placed: map<string, seq<Job>>, total: seq<int>, direct: seq<int>, browsers: seq<int>)
    requires DistinctIDs(agents) && Tallied(agents, slices, result, totalUsed, directUsed, browserUsed)
    requires forall j :: j in source ==> j.mode == if browser then Browser else Direct
    ensures ok <==> Greedy(agents, slices, source, 0).Some?
    ensures ok ==> Tallied(agents, Greedy(agents, slices, source, 0).value, placed, total, direct, browsers)
  {
    hide Tallied, Greedy, Probe;
    placed, total, direct, browsers := result, totalUsed, directUsed, browserUsed;
    var cursor: nat := 0;
    ghost var now := slices;
    var n := 0;
    assert source[0..] == source;
    assert |slices| == |agents| by { TalliedLength(agents, slices, result, totalUsed, directUsed, browserUsed); }
    while n < |source|
      invariant n <= |source| && |now| == |agents|
      invariant Tallied(agents, now, placed, total, direct, browsers)
      invariant Greedy(agents, now, source[n..], cursor) == Greedy(agents, slices, source, 0)
    {
      var job := source[n];
      assert job in source;
      GreedyNext(agents, now, source, n, cursor);
      var index;
      index, placed, total, direct, browsers := Place(agents, job, browser, cursor, placed, total, direct, browsers,
          now);
      if index.None? {
        return false, placed, total, direct, browsers;
      }
      now := now[index.value := now[index.value] + [job]];
      cursor := (index.value + 1) % |agents|;
      n := n + 1;
    }
    GreedyDone(agents, now, cursor);
    assert source[n..] == [];
    ok := true;
  }

  lemma TalliedLength(agents: seq<Agent>, slices: seq<seq<Job>>, result: map<string, seq<Job>>,
                      totalUsed: seq<int>, directUsed: seq<int>, browserUsed: seq<int>)
    requires Tallied(agents, slices, result, totalUsed, directUsed, browserUsed)
    ensures |slices| == |agents|
  {
  }

  lemma GreedyDone(agents: seq<Agent>, slices: seq<seq<Job>>, cursor: nat)
    requires |slices| == |agents|
    ensures Greedy(agents, slices, [], cursor) == Some(slices)
  {
  }

  lemma GreedyNext(agents: seq<Agent>, slices: seq<seq<Job>>, jobs: seq<Job>, n: nat, cursor: nat)
    requires |slices| == |agents| && n < |jobs|
    ensures Greedy(agents, slices, jobs[n..], cursor)
         == match Probe(agents, slices, cursor, jobs[n], 0)
            case None => None
            case Some(i) => Greedy(agents, slices[i := slices[i] + [jobs[n]]], jobs[n + 1..], (i + 1) % |agents|)
  {
    assert jobs[n..][1..] == jobs[n + 1..];
  }

  lemma TalliedRoom(agents: seq<Agent>, slices: seq<seq<Job>>, result: map<string, seq<Job>>,
                    totalUsed: seq<int>, directUsed: seq<int>, browserUsed: seq<int>, i: nat, job: Job)
    requires Tallied(agents, slices, result, totalUsed, directUsed, browserUsed) && i < |agents|
    ensures |slices| == |totalUsed| == |directUsed| == |browserUsed| == |agents|
    ensures HasRoom(agents[i], slices[i], job) <==>
              && totalUsed[i] < agents[i].capacity
              && (if job.mode == Browser then browserUsed[i] < agents[i].browserCapacity
                  else directUsed[i] < agents[i].directCapacity && SupportsDirectProtocol(agents[i], job.protocol))
  {
    hide CountIf;
  }

  // Steps of the loops below.

  lemma TotalNothing()
    ensures forall f :: Total([], f) == 0
    ensures ValidAgents([]) && Normalized([]) == []
  {
  }

  lemma ValidNext(agents: seq<Agent>, i: nat)
    requires i < |agents| && ValidAgents(agents[..i])
    ensures ValidAgents(agents[..i + 1]) <==> ValidAgent(agents[i]) && forall k :: 0 <= k < i ==>
              agents[k].id != agents[i].id
    ensures ValidAgents(agents) ==> ValidAgents(agents[..i + 1])
  {
    assert agents[..i + 1] == agents[..i] + [agents[i]];
    assert agents[i] in agents[..i + 1];
    assert forall k :: 0 <= k < i ==> agents[..i + 1][k] == agents[k];
  }

  lemma TotalNext(agents: seq<Agent>, i: nat)
    requires i < |agents|
    ensures forall f :: Total(Normalized(agents[..i + 1]), f) == Total(Normalized(agents[..i]), f) +
              f(Normalize(agents[i]))
    ensures Normalized(agents[..i]) + [Normalize(agents[i])] == Normalized(agents[..i + 1])
    ensures (Normalized(agents[..i]) + agents[i..])[i := Normalize(agents[i])] == Normalized(agents[..i + 1]) +
              agents[i + 1..]
  {
    var after := Normalized(agents[..i + 1]);
    assert after[..i] == Normalized(agents[..i]) && after[i] == Normalize(agents[i]);
  }

  lemma NoneYet()
    ensures forall m :: OfMode([], m) == []
    ensures BoundJobs([])
  {
  }

  lemma BoundNext(jobs: seq<Job>, n: nat)
    requires n < |jobs| && BoundJobs(jobs[..n])
    ensures BoundJobs(jobs[..n + 1]) <==>
              BoundJob(jobs[n]) && forall k :: 0 <= k < n ==>
                  jobs[k].assetID != jobs[n].assetID && jobs[k].accountID != jobs[n].accountID
    ensures BoundJobs(jobs) ==> BoundJobs(jobs[..n + 1])
  {
    assert jobs[..n + 1] == jobs[..n] + [jobs[n]];
    assert jobs[n] in jobs[..n + 1];
    assert forall k :: 0 <= k < n ==> jobs[..n + 1][k] == jobs[k];
    assert forall j :: j in jobs[..n + 1] ==> j in jobs;
  }

  lemma OfModeStep(jobs: seq<Job>, n: nat, mode: Mode)
    requires n < |jobs|
    ensures OfMode(jobs[..n + 1], mode) == if jobs[n].mode == mode then OfMode(jobs[..n], mode) + [jobs[n]] else
              OfMode(jobs[..n], mode)
  {
    assert jobs[..n + 1][..n] == jobs[..n];
  }

  lemma SortedMembers(agents: seq<Agent>, jobs: seq<Job>)
    ensures forall j :: j in ScarceFirst(agents, jobs) ==> j in jobs
  {
    ScarceFirstSorts(agents, jobs);
    forall j | j in ScarceFirst(agents, jobs) ensures j in jobs {
      assert j in multiset(ScarceFirst(agents, jobs));
    }
  }

  lemma NothingTallied(agents: seq<Agent>)
    ensures var zeros := seq(|agents|, k => 0); Tallied(agents, NoSlices(agents), map[], zeros, zeros, zeros)
  {
  }

  lemma AllTallied(agents: seq<Agent>, slices: seq<seq<Job>>, slicesByID: map<string, seq<Job>>,
                   result: map<string, seq<Job>>,
                   totalUsed: seq<int>, directUsed: seq<int>, browserUsed: seq<int>)
    requires DistinctIDs(agents) && Tallied(Normalized(agents), slices, slicesByID, totalUsed, directUsed, browserUsed)
    requires forall k :: 0 <= k < |agents| ==>
               agents[k].id in result && SliceOf(result, agents[k].id) == SliceOf(slicesByID, agents[k].id)
    requires forall id :: id in result ==> id in slicesByID || exists k :: 0 <= k < |agents| && agents[k].id == id
    ensures |slices| == |agents| && result == ByAgent(agents, slices)
  {
    hide CountIf, DistinctIDs, ByAgent;
    var n := Normalized(agents);
    SameIDs(agents);
    forall id | id in result ensures exists k :: 0 <= k < |agents| && agents[k].id == id {
      if id in slicesByID {
        var k :| 0 <= k < |n| && n[k].id == id;
        assert agents[k].id == id;
      }
    }
    forall k | 0 <= k < |agents| ensures result[agents[k].id] == slices[k] {
      assert SliceOf(slicesByID, n[k].id) == slices[k];
    }
    ByAgentIs(agents, slices, result);
  }

  lemma ByAgentIs(agents: seq<Agent>, slices: seq<seq<Job>>, result: map<string, seq<Job>>)
    requires DistinctIDs(agents) && |slices| == |agents|
    requires forall id :: id in result ==> exists k :: 0 <= k < |agents| && agents[k].id == id
    requires forall k :: 0 <= k < |agents| ==> agents[k].id in result && result[agents[k].id] == slices[k]
    ensures result == ByAgent(agents, slices)
  {
  }

  /** Partition's first loop. */
  method NormalizeAgents(agents: seq<Agent>) returns (ok: bool, normalized: seq<Agent>, total: int, direct: int,
                         browser: int)
    ensures ok <==> ValidAgents(agents)
    ensures ok ==> normalized == Normalized(agents)
    ensures ok ==> total == Total(normalized, CapacityOf()) && direct == Total(normalized, DirectCapacityOf())
                   && browser == Total(normalized, BrowserCapacityOf())
  {
    hide Total, ValidAgents, Normalized;
    total, direct, browser := 0, 0, 0;
    var seen: set<string> := {};
    normalized := agents;
    var i := 0;
    TotalNothing();
    assert agents[..0] == [];
    while i < |agents|
      invariant i <= |agents| == |normalized|
      invariant ValidAgents(agents[..i]) && seen == set k | 0 <= k < i :: agents[k].id
      invariant normalized == Normalized(agents[..i]) + agents[i..]
      invariant total == Total(Normalized(agents[..i]), CapacityOf())
      invariant direct == Total(Normalized(agents[..i]), DirectCapacityOf())
      invariant browser == Total(Normalized(agents[..i]), BrowserCapacityOf())
    {
      var agent := agents[i];
      ValidNext(agents, i);
      TotalNext(agents, i);
      if agent.id == "" || agent.id in seen || agent.capacity < 0 || agent.directCapacity < 0 ||
          agent.browserCapacity < 0 {
        return false, normalized, total, direct, browser;
      }
      seen := seen + {agent.id};
      if agent.directCapacity == 0 {
        agent := agent.(directCapacity := agent.capacity);
      }
      normalized := normalized[i := agent];
      total, direct, browser := total + agent.capacity, direct + agent.directCapacity, browser + agent.browserCapacity;
      i := i + 1;
    }
    assert agents[..i] == agents && normalized == Normalized(agents);
    ok := true;
  }

  /** Partition's second loop. */
  method SplitJobs(jobs: seq<Job>) returns (ok: bool, directJobs: seq<Job>, browserJobs: seq<Job>)
    ensures ok <==> BoundJobs(jobs)
    ensures ok ==> directJobs == OfMode(jobs, Direct) && browserJobs == OfMode(jobs, Browser)
    ensures forall j :: j in directJobs ==> j.mode == Direct
    ensures forall j :: j in browserJobs ==> j.mode == Browser
  {
    hide OfMode, BoundJobs;
    directJobs, browserJobs := [], [];
    var assets, accounts: set<string> := {}, {};
    var n := 0;
    NoneYet();
    assert jobs[..0] == [];
    while n < |jobs|
      invariant n <= |jobs| && BoundJobs(jobs[..n])
      invariant directJobs == OfMode(jobs[..n], Direct) && browserJobs == OfMode(jobs[..n], Browser)
      invariant assets == set k | 0 <= k < n :: jobs[k].assetID
      invariant accounts == set k | 0 <= k < n :: jobs[k].accountID
      invariant forall j :: j in directJobs ==> j.mode == Direct
      invariant forall j :: j in browserJobs ==> j.mode == Browser
    {
      var job := jobs[n];
      BoundNext(jobs, n);
      OfModeStep(jobs, n, Direct);
      OfModeStep(jobs, n, Browser);
      if job.assetID == "" || job.accountID == "" || job.assetID in assets || job.accountID in accounts {
        return false, directJobs, browserJobs;
      }
      assets, accounts := assets + {job.assetID}, accounts + {job.accountID};
      match job.mode {
        case Direct => directJobs := directJobs + [job];
        case Browser => browserJobs := browserJobs + [job];
        case _ => return false, directJobs, browserJobs;
      }
      n := n + 1;
    }
    assert jobs[..n] == jobs;
    ok := true;
  }

  method Partition(jobs: seq<Job>, agents: seq<Agent>) returns (r: Result<map<string, seq<Job>>>)
    ensures r.Ok? <==> Partitioned(jobs, agents).Some?
    ensures r.Ok? ==> ValidAgents(agents) && r.value == ByAgent(agents, Partitioned(jobs, agents).value)
  {
    hide Greedy, Tallied, OfMode, Total, ScarceFirst, BoundJobs, Normalized, ByAgent;
    var ok, normalized, totalCapacity, directCapacity, browserCapacity := NormalizeAgents(agents);
    if !ok || totalCapacity < |jobs| {
      return Err;
    }
    var directJobs, browserJobs;
    ok, directJobs, browserJobs := SplitJobs(jobs);
    if !ok || directCapacity < |directJobs| || browserCapacity < |browserJobs| {
      return Err;
    }
    SortedMembers(normalized, directJobs);
    directJobs := ScarceFirst(normalized, directJobs);
    var zeros := seq(|normalized|, k => 0);
    NothingTallied(normalized);
    SameIDs(agents);
    var result, totalUsed, directUsed, browserUsed;
    ok, result, totalUsed, directUsed, browserUsed :=
      Assign(normalized, directJobs, false, map[], zeros, zeros, zeros, NoSlices(normalized));
    if !ok {
      return Err;
    }
    ghost var slices := Greedy(normalized, NoSlices(normalized), directJobs, 0).value;
    ok, result, totalUsed, directUsed, browserUsed :=
      Assign(normalized, browserJobs, true, result, totalUsed, directUsed, browserUsed, slices);
    if !ok {
      return Err;
    }
    slices := Greedy(normalized, slices, browserJobs, 0).value;
    var all := FillEmpty(normalized, result);
    SameIDs(agents);
    AllTallied(agents, slices, result, all, totalUsed, directUsed, browserUsed);
    return Ok(all);
  }

  lemma SameIDs(agents: seq<Agent>)
    ensures forall k :: 0 <= k < |agents| ==> Normalized(agents)[k].id == agents[k].id
    ensures DistinctIDs(agents) ==> DistinctIDs(Normalized(agents))
  {
  }

  /** An agent without jobs still gets its entry. */
  method FillEmpty(agents: seq<Agent>, held: map<string, seq<Job>>) returns (result: map<string, seq<Job>>)
    ensures forall k :: 0 <= k < |agents| ==>
              agents[k].id in result && SliceOf(result, agents[k].id) == SliceOf(held, agents[k].id)
    ensures forall id :: id in result ==> id in held || exists k :: 0 <= k < |agents| && agents[k].id == id
  {
    result := held;
    var i := 0;
    while i < |agents|
      invariant i <= |agents|
      invariant forall k :: 0 <= k < i ==> agents[k].id in result
      invariant forall k :: 0 <= k < |agents| ==> SliceOf(result, agents[k].id) == SliceOf(held, agents[k].id)
      invariant forall id :: id in result ==> id in held || exists k :: 0 <= k < |agents| && agents[k].id == id
    {
      if agents[i].id !in result {
        result := result[agents[i].id := []];
      }
      i := i + 1;
    }
  }
}
