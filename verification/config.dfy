/** Expansion of a scenario into numbered jobs. */
module Configuration {
  import opened Wrappers
  import opened Sums
  import opened Scenario
  import opened Accounting
  import opened Partitioning

  datatype ModeCounts = ModeCounts(direct: int, browser: int)
  datatype Config = Config(total: int, protocols: map<Protocol, int>, executionModes: map<Protocol, ModeCounts>)

  const ORDER := [SSH, RDP, VNC, Web, MySQL]

  function Count(c: Config, p: Protocol): int { Lookup(INTS, c.protocols, p) }

  /** The explicit split of a protocol, or everything in its usual mode. */
  function ModesOf(c: Config, p: Protocol): ModeCounts {
    if p in c.executionModes then c.executionModes[p]
    else if p == SSH || p == MySQL then ModeCounts(Count(c, p), 0)
    else ModeCounts(0, Count(c, p))
  }

  predicate Splits(m: ModeCounts, count: int) { m.direct >= 0 && m.browser >= 0 && m.direct + m.browser == count }

  /** What Expand accepts: non-negative counts of known protocols adding up to the total, and mode splits
      adding up to the counts of the protocols in use. */
  ghost predicate Expandable(c: Config) {
    && c.total > 0 && Sum(INTS, c.protocols) == c.total
    && (forall p :: p in c.protocols ==> KnownProtocol(p) && c.protocols[p] >= 0)
    && (forall p :: p in ORDER && Count(c, p) != 0 ==> Splits(ModesOf(c, p), Count(c, p)))
  }

  /** `n` unbound jobs, numbered on from those already there. */
  function Numbered(jobs: seq<Job>, p: Protocol, m: Mode, n: nat): seq<Job> {
    if n == 0 then jobs
    else
      var front := Numbered(jobs, p, m, n - 1);
      front + [Job(|front| + 1, p, m, "", "")]
  }

  function Expanded(c: Config, n: nat): seq<Job>
    requires n <= |ORDER|
  {
    if n == 0 then []
    else
      var jobs, p := Expanded(c, n - 1), ORDER[n - 1];
      if Count(c, p) == 0 || !Splits(ModesOf(c, p), Count(c, p)) then jobs
      else Numbered(Numbered(jobs, p, Browser, ModesOf(c, p).browser), p, Direct, ModesOf(c, p).direct)
  }

  method Expand(c: Config) returns (r: Result<seq<Job>>)
    ensures r.Ok? <==> Expandable(c)
    ensures r.Ok? ==> r.value == Expanded(c, |ORDER|)
  {
    hide SumOver, Numbered, Commutative;
    if c.total <= 0 {
      return Err;
    }
    var sum := 0;
    var remaining := c.protocols.Keys;
    assert c.protocols.Keys - remaining == {};
    NothingSummed(c.protocols);
    IntsCommutative();
    while remaining != {}
      invariant remaining <= c.protocols.Keys
      invariant forall p :: p in c.protocols.Keys - remaining ==> KnownProtocol(p) && c.protocols[p] >= 0
      invariant sum == SumOver(INTS, c.protocols, c.protocols.Keys - remaining)
      decreases remaining
    {
      var p :| p in remaining;
      if c.protocols[p] < 0 {
        return Err;
      }
      var known := p in ORDER;
      if !known {
        return Err;
      }
      ghost var done := c.protocols.Keys - remaining;
      SumPick(INTS, c.protocols, done + {p}, p);
      assert done + {p} - {p} == done;
      sum := sum + c.protocols[p];
      remaining := remaining - {p};
      assert c.protocols.Keys - remaining == done + {p};
    }
    assert c.protocols.Keys - remaining == c.protocols.Keys;
    if sum != c.total {
      return Err;
    }
    var jobs := [];
    var n := 0;
    while n < |ORDER|
      invariant n <= |ORDER| && jobs == Expanded(c, n)
      invariant forall k :: 0 <= k < n && Count(c, ORDER[k]) != 0 ==> Splits(ModesOf(c, ORDER[k]), Count(c, ORDER[k]))
    {
      var p := ORDER[n];
      var count := Count(c, p);
      n := n + 1;
      if count == 0 {
        continue;
      }
      var modes := ModesOf(c, p);
      if p in c.executionModes && (modes.direct < 0 || modes.browser < 0 || modes.direct + modes.browser != count) {
        assert !Splits(modes, count);
        return Err;
      }
      assert count >= 0;
      jobs := Append(jobs, p, Browser, modes.browser);
      jobs := Append(jobs, p, Direct, modes.direct);
    }
    return Ok(jobs);
  }

  method Append(jobs: seq<Job>, p: Protocol, m: Mode, count: nat) returns (r: seq<Job>)
    ensures r == Numbered(jobs, p, m, count)
  {
    r := jobs;
    for i := 0 to count
      invariant r == Numbered(jobs, p, m, i)
    {
      r := r + [Job(|r| + 1, p, m, "", "")];
    }
  }

  lemma NothingSummed<K>(source: map<K, int>)
    ensures SumOver(INTS, source, {}) == 0
  {
  }

  // ---- What an expansion is ----

  predicate Unbound(job: Job) { job.assetID == "" && job.accountID == "" }

  /** Jobs number k + 1, are unbound and of known protocol and mode. */
  predicate WellNumbered(jobs: seq<Job>) {
    forall k :: 0 <= k < |jobs| ==>
      jobs[k].id == k + 1 && Unbound(jobs[k]) && KnownProtocol(jobs[k].protocol) && KnownMode(jobs[k].mode)
  }

  function Of(p: Protocol, m: Mode): Job -> bool { (j: Job) => j.protocol == p && j.mode == m }

  function Requested(c: Config, p: Protocol, m: Mode): int {
    if Count(c, p) == 0 then 0 else if m == Direct then ModesOf(c, p).direct else if m == Browser then
        ModesOf(c, p).browser else 0
  }

  lemma {:induction false} NumberedJobs(jobs: seq<Job>, p: Protocol, m: Mode, n: nat, q: Protocol, o: Mode)
    requires WellNumbered(jobs) && KnownProtocol(p) && KnownMode(m)
    ensures var r := Numbered(jobs, p, m, n);
            WellNumbered(r) && |r| == |jobs| + n && CountIf(r, Of(q, o)) == CountIf(jobs, Of(q, o)) + if p == q &&
                m == o then n else 0
  {
    hide Numbered, CountIf, WellNumbered, Of;
    NumberedStep(jobs, p, m, n);
    if n > 0 {
      NumberedJobs(jobs, p, m, n - 1, q, o);
      var front := Numbered(jobs, p, m, n - 1);
      var job := Job(|front| + 1, p, m, "", "");
      CountAppend(front, job, Of(q, o));
      OfIs(q, o, job);
      NumberedNext(front, job);
    }
  }

  lemma NumberedStep(jobs: seq<Job>, p: Protocol, m: Mode, n: nat)
    ensures n == 0 ==> Numbered(jobs, p, m, n) == jobs
    ensures n > 0 ==> var front := Numbered(jobs, p, m, n - 1);
                      Numbered(jobs, p, m, n) == front + [Job(|front| + 1, p, m, "", "")]
  {
  }

  lemma OfIs(q: Protocol, o: Mode, job: Job)
    ensures Of(q, o)(job) == (job.protocol == q && job.mode == o)
  {
  }

  lemma NumberedNext(jobs: seq<Job>, job: Job)
    requires WellNumbered(jobs) && job.id == |jobs| + 1 && Unbound(job) && KnownProtocol(job.protocol) &&
               KnownMode(job.mode)
    ensures WellNumbered(jobs + [job])
  {
  }

  lemma {:induction false} ExpandedJobs(c: Config, n: nat, q: Protocol, o: Mode)
    requires Expandable(c) && n <= |ORDER|
    ensures WellNumbered(Expanded(c, n))
    ensures CountIf(Expanded(c, n), Of(q, o)) == if q in ORDER[..n] then Requested(c, q, o) else 0
    ensures |Expanded(c, n)| == SumFirst(c, n)
  {
    hide SumOver, CountIf, WellNumbered, Numbered;
    if n == 0 {
      NothingExpanded(c, q, o);
    } else {
      ExpandedJobs(c, n - 1, q, o);
      assert ORDER[..n] == ORDER[..n - 1] + [ORDER[n - 1]];
      DistinctOrder(n - 1);
      var jobs, p := Expanded(c, n - 1), ORDER[n - 1];
      if Count(c, p) != 0 {
        NumberedJobs(jobs, p, Browser, ModesOf(c, p).browser, q, o);
        NumberedJobs(Numbered(jobs, p, Browser, ModesOf(c, p).browser), p, Direct, ModesOf(c, p).direct, q, o);
      }
    }
  }

  lemma NothingExpanded(c: Config, q: Protocol, o: Mode)
    ensures Expanded(c, 0) == [] && WellNumbered([]) && CountIf([], Of(q, o)) == 0
  {
  }

  lemma DistinctOrder(n: nat)
    requires n < |ORDER|
    ensures ORDER[n] !in ORDER[..n] && KnownProtocol(ORDER[n])
  {
  }

  function SumFirst(c: Config, n: nat): int
    requires n <= |ORDER|
  {
    if n == 0 then 0 else SumFirst(c, n - 1) + Count(c, ORDER[n - 1])
  }

  /** Counts of known protocols add up to the sum over the five protocols in order. */
  lemma SumOfKnown(c: Config)
    requires forall p :: p in c.protocols ==> KnownProtocol(p)
    ensures Sum(INTS, c.protocols) == SumFirst(c, |ORDER|)
  {
    hide SumOver;
    IntsCommutative();
    SumOfFirst(c, |ORDER|);
    var all := Firsts(|ORDER|);
    AllKnown();
    AbsentAddNothing(c.protocols, c.protocols.Keys, all - c.protocols.Keys);
    assert c.protocols.Keys + (all - c.protocols.Keys) == all;
  }

  function Firsts(n: nat): set<Protocol>
    requires n <= |ORDER|
  {
    set p | p in ORDER[..n]
  }

  lemma {:induction false} SumOfFirst(c: Config, n: nat)
    requires n <= |ORDER|
    ensures SumOver(INTS, c.protocols, Firsts(n)) == SumFirst(c, n)
  {
    hide SumOver, Commutative, Firsts;
    if n == 0 {
      NoFirsts();
      NothingSummed(c.protocols);
    } else {
      SumOfFirst(c, n - 1);
      NextFirst(n - 1);
      IntsCommutative();
      SumPick(INTS, c.protocols, Firsts(n), ORDER[n - 1]);
    }
  }

  lemma NoFirsts()
    ensures Firsts(0) == {}
  {
  }

  lemma NextFirst(n: nat)
    requires n < |ORDER|
    ensures ORDER[n] in Firsts(n + 1) && Firsts(n + 1) - {ORDER[n]} == Firsts(n)
  {
    DistinctOrder(n);
    assert ORDER[..n + 1] == ORDER[..n] + [ORDER[n]];
  }

  lemma AllKnown()
    ensures forall p :: KnownProtocol(p) ==> p in Firsts(|ORDER|)
  {
    assert ORDER[..|ORDER|] == ORDER;
    assert ORDER[0] == SSH && ORDER[1] == RDP && ORDER[2] == VNC && ORDER[3] == Web && ORDER[4] == MySQL;
  }

  lemma {:induction false} AbsentAddNothing<K>(source: map<K, int>, keys: set<K>, absent: set<K>)
    requires absent !! source.Keys
    ensures SumOver(INTS, source, keys + absent) == SumOver(INTS, source, keys)
    decreases |absent|
  {
    if absent == {} {
      assert keys + absent == keys;
    } else {
      var k := AnyOf(absent);
      IntsCommutative();
      AbsentAddNothing(source, keys, absent - {k});
      SumWithAbsent(INTS, source, keys + (absent - {k}), k);
      assert keys + (absent - {k}) + {k} == keys + absent;
    }
  }

  /** An accepted scenario expands into exactly `total` jobs numbered from 1, as many of each protocol and
      mode as it asks for. */
  lemma ExpansionIsExact(c: Config)
    requires Expandable(c)
    ensures var jobs := Expanded(c, |ORDER|);
            && |jobs| == c.total && WellNumbered(jobs)
            && forall p, m :: CountIf(jobs, Of(p, m)) == if KnownProtocol(p) then Requested(c, p, m) else 0
  {
    hide SumOver, CountIf, WellNumbered, Expanded;
    SumOfKnown(c);
    forall p, m ensures CountIf(Expanded(c, |ORDER|), Of(p, m)) == if KnownProtocol(p) then Requested(c, p, m) else 0 {
      ExpandedJobs(c, |ORDER|, p, m);
      assert ORDER[..|ORDER|] == ORDER;
      assert p in ORDER <==> KnownProtocol(p);
    }
    ExpandedJobs(c, |ORDER|, SSH, Direct);
  }
}
