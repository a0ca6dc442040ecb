/** Binding each job to an asset of its protocol: pools, sorted and shuffled, consumed in order. */
module Binding {
  import opened Wrappers
  import opened Scenario
  import opened Partitioning
  import opened Manifests

  // ---- Pools ----

  function ProtocolOf(text: string): Protocol {
    if text == "ssh" then SSH else if text == "rdp" then RDP else if text == "vnc" then VNC
    else if text == "web" then Web else if text == "mysql" then MySQL else OtherProtocol(text)
  }

  function Pool(assets: seq<ManifestAsset>, p: Protocol): seq<ManifestAsset> {
    if assets == [] then []
    else Pool(assets[..|assets| - 1], p) + if ProtocolOf(assets[|assets| - 1].protocol) == p then
        [assets[|assets| - 1]] else []
  }

  predicate LessText(a: string, b: string) {
    if b == [] then false
    else if a == [] then true
    else if a[0] != b[0] then a[0] < b[0]
    else LessText(a[1..], b[1..])
  }

  predicate Less(a: ManifestAsset, b: ManifestAsset) {
    if a.name == b.name then LessText(a.assetID, b.assetID) else LessText(a.name, b.name)
  }

  function InsertAsset(x: ManifestAsset, s: seq<ManifestAsset>): seq<ManifestAsset> {
    if s == [] || !Less(s[0], x) then [x] + s else [s[0]] + InsertAsset(x, s[1..])
  }

  /** sort.Slice: the names differ, so every correct sort gives this order (see SortedIsUnique). */
  function SortedPool(s: seq<ManifestAsset>): seq<ManifestAsset> {
    if s == [] then [] else InsertAsset(s[0], SortedPool(s[1..]))
  }

  /** The random source of one pool, as an arbitrary bounded sequence. */
  type Draws = f: nat -> nat | forall n :: f(n) <= n witness (n: nat) => 0

  function Swap<T>(s: seq<T>, i: nat, j: nat): (r: seq<T>)
    requires i < |s| && j < |s|
    ensures |r| == |s|
  {
    s[i := s[j]][j := s[i]]
  }

  /** The shuffle, from position `i` down: each position is exchanged with a drawn one at or below it. */
  function Shuffled<T>(s: seq<T>, i: nat, draws: Draws): (r: seq<T>)
    requires i < |s| || i == 0
    ensures |r| == |s|
    decreases i
  {
    if i == 0 then s else Shuffled(Swap(s, i, draws(i)), i - 1, draws)
  }

  method Shuffle(pool: array<ManifestAsset>, draws: Draws)
    modifies pool
    ensures pool[..] == Shuffled(old(pool[..]), if pool.Length == 0 then 0 else pool.Length - 1, draws)
  {
    if pool.Length == 0 {
      return;
    }
    var i := pool.Length - 1;
    while i > 0
      invariant 0 <= i < pool.Length
      invariant Shuffled(pool[..], i, draws) == Shuffled(old(pool[..]), pool.Length - 1, draws)
    {
      var j := draws(i);
      ghost var before := pool[..];
      pool[i], pool[j] := pool[j], pool[i];
      assert pool[..] == Swap(before, i, j);
      i := i - 1;
    }
  }

  /** One pool sorted, then shuffled. */
  function Mixed(pool: seq<ManifestAsset>, draws: Draws): seq<ManifestAsset> {
    var s := SortedPool(pool);
    Shuffled(s, if s == [] then 0 else |s| - 1, draws)
  }

  function FinalPool(assets: seq<ManifestAsset>, p: Protocol, draws: Draws): seq<ManifestAsset> {
    Mixed(Pool(assets, p), draws)
  }

  // ---- Jobs ----

  function OfProtocol(p: Protocol): Job -> bool { (j: Job) => j.protocol == p }

  predicate BindableJob(job: Job) {
    job.id >= 1 && job.assetID == "" && job.accountID == "" && KnownProtocol(job.protocol)
  }

  predicate DistinctNumbers(jobs: seq<Job>) { forall i, j :: 0 <= i < j < |jobs| ==> jobs[i].id != jobs[j].id }

  predicate BindableJobs(jobs: seq<Job>) {
    DistinctNumbers(jobs) && forall job :: job in jobs ==> BindableJob(job)
  }

  /** Enough assets of every protocol. */
  ghost predicate Enough(jobs: seq<Job>, assets: seq<ManifestAsset>) {
    forall p :: CountIf(jobs, OfProtocol(p)) <= |Pool(assets, p)|
  }

  ghost predicate Bindable(jobs: seq<Job>, version: int, assets: seq<ManifestAsset>) {
    ValidManifest(version, assets) && BindableJobs(jobs) && Enough(jobs, NormalAll(assets))
  }

  /** The k-th job of a protocol gets the k-th asset of its final pool. */
  function AssetFor(jobs: seq<Job>, n: nat, assets: seq<ManifestAsset>, draws: Protocol -> Draws): ManifestAsset
    requires n < |jobs|
  {
    var pool, k := FinalPool(assets, jobs[n].protocol, draws(jobs[n].protocol)),
          CountIf(jobs[..n], OfProtocol(jobs[n].protocol));
    if k < |pool| then pool[k] else ManifestAsset("", "", "", "", "")
  }

  function BoundJobAt(jobs: seq<Job>, n: nat, assets: seq<ManifestAsset>, draws: Protocol -> Draws): Job
    requires n < |jobs|
  {
    var a := AssetFor(jobs, n, assets, draws);
    jobs[n].(assetID := a.assetID, accountID := a.accountID)
  }

  function Bound(jobs: seq<Job>, assets: seq<ManifestAsset>, draws: Protocol -> Draws): (r: seq<Job>)
    ensures |r| == |jobs|
  {
    seq(|jobs|, n requires 0 <= n < |jobs| => BoundJobAt(jobs, n, assets, draws))
  }

  // ---- Bind, step by step ----

  function PoolIn(pools: map<Protocol, seq<ManifestAsset>>, p: Protocol): seq<ManifestAsset> {
    if p in pools then pools[p] else []
  }

  function CountAt(counts: map<Protocol, nat>, p: Protocol): nat { if p in counts then counts[p] else 0 }

  method FillPools(assets: seq<ManifestAsset>) returns (pools: map<Protocol, seq<ManifestAsset>>)
    ensures forall p :: PoolIn(pools, p) == Pool(assets, p)
    ensures forall p :: p in pools ==> pools[p] != []
  {
    pools := map[];
    var n := 0;
    while n < |assets|
      invariant n <= |assets|
      invariant forall p :: PoolIn(pools, p) == Pool(assets[..n], p)
      invariant forall p :: p in pools ==> pools[p] != []
    {
      var q := ProtocolOf(assets[n].protocol);
      assert assets[..n + 1][..n] == assets[..n];
      pools := pools[q := PoolIn(pools, q) + [assets[n]]];
      n := n + 1;
    }
    assert assets[..n] == assets;
  }

  /** The checks on the jobs; counts the requested jobs of each protocol. */
  method CountRequests(jobs: seq<Job>) returns (ok: bool, requested: map<Protocol, nat>)
    ensures ok <==> BindableJobs(jobs)
    ensures ok ==> forall p :: CountAt(requested, p) == CountIf(jobs, OfProtocol(p))
  {
    hide CountIf;
    requested := map[];
    var seen: set<int> := {};
    var n := 0;
    NonePositioned(jobs);
    while n < |jobs|
      invariant n <= |jobs| && seen == set k | 0 <= k < n :: jobs[k].id
      invariant forall i, j :: 0 <= i < j < n ==> jobs[i].id != jobs[j].id
      invariant forall k :: 0 <= k < n ==> BindableJob(jobs[k])
      invariant forall p :: CountAt(requested, p) == CountIf(jobs[..n], OfProtocol(p))
    {
      var job := jobs[n];
      assert job in jobs;
      if job.id < 1 || job.id in seen || job.assetID != "" || job.accountID != "" || !KnownProtocol(job.protocol) {
        return false, requested;
      }
      seen := seen + {job.id};
      PositionsNext(jobs, n);
      requested := requested[job.protocol := CountAt(requested, job.protocol) + 1];
      n := n + 1;
    }
    assert jobs[..n] == jobs;
    ok := true;
  }

  method CheckPools(requested: map<Protocol, nat>, pools: map<Protocol, seq<ManifestAsset>>) returns (ok: bool)
    ensures ok <==> forall p :: p in requested ==> requested[p] <= |PoolIn(pools, p)|
  {
    var remaining := requested.Keys;
    while remaining != {}
      invariant remaining <= requested.Keys
      invariant forall p :: p in requested.Keys - remaining ==> requested[p] <= |PoolIn(pools, p)|
      decreases remaining
    {
      var p :| p in remaining;
      if |PoolIn(pools, p)| < requested[p] {
        return false;
      }
      remaining := remaining - {p};
    }
    return true;
  }

  method MixPool(given: seq<ManifestAsset>, draws: Draws) returns (mixed: seq<ManifestAsset>)
    ensures mixed == Mixed(given, draws)
  {
    hide Shuffled, SortedPool;
    var sorted := SortedPool(given);
    var pool := new ManifestAsset[|sorted|](k requires 0 <= k < |sorted| => sorted[k]);
    assert pool[..] == sorted;
    Shuffle(pool, draws);
    mixed := pool[..];
  }

  /** Sort and shuffle every pool, in any order of the protocols. */
  method ShufflePools(given: map<Protocol, seq<ManifestAsset>>, draws: Protocol -> Draws)
    returns (pools: map<Protocol, seq<ManifestAsset>>)
    ensures pools.Keys == given.Keys
    ensures forall p :: p in given ==> pools[p] == Mixed(given[p], draws(p))
  {
    hide Mixed;
    pools := given;
    var remaining := given.Keys;
    while remaining != {}
      invariant remaining <= given.Keys == pools.Keys
      invariant forall p :: p in remaining ==> pools[p] == given[p]
      invariant forall p :: p in given.Keys - remaining ==>
                  pools[p] == Mixed(given[p], draws(p))
      decreases remaining
    {
      var p :| p in remaining;
      var mixed := MixPool(given[p], draws(p));
      pools := pools[p := mixed];
      remaining := remaining - {p};
    }
  }

  /** Jobs take the assets of their protocol's pool in turn. */
  method TakeAssets(jobs: seq<Job>, pools: map<Protocol, seq<ManifestAsset>>, ghost assets: seq<ManifestAsset>,
                    ghost draws: Protocol -> Draws)
    returns (bound: seq<Job>)
    requires forall p :: PoolIn(pools, p) == FinalPool(assets, p, draws(p))
    requires Enough(jobs, assets)
    ensures bound == Bound(jobs, assets, draws)
  {
    hide FinalPool, CountIf, Enough, Bound, BoundJobAt, OfProtocol;
    bound := jobs;
    var positions: map<Protocol, nat> := map[];
    var n := 0;
    NonePositioned(jobs);
    while n < |jobs|
      invariant n <= |jobs| == |bound|
      invariant forall k :: 0 <= k < n ==> bound[k] == BoundJobAt(jobs, k, assets, draws)
      invariant forall k :: n <= k < |jobs| ==> bound[k] == jobs[k]
      invariant forall p :: CountAt(positions, p) == CountIf(jobs[..n], OfProtocol(p))
    {
      var p := bound[n].protocol;
      TurnComes(jobs, n, assets, draws);
      AtTurn(jobs, n, assets, draws);
      assert p in pools;
      var asset := pools[p][CountAt(positions, p)];
      bound := bound[n := bound[n].(assetID := asset.assetID, accountID := asset.accountID)];
      positions := positions[p := CountAt(positions, p) + 1];
      PositionsNext(jobs, n);
      n := n + 1;
    }
    BoundPointwise(jobs, bound, assets, draws);
  }

  lemma AtTurn(jobs: seq<Job>, n: nat, assets: seq<ManifestAsset>, draws: Protocol -> Draws)
    requires n < |jobs|
    requires CountIf(jobs[..n], OfProtocol(jobs[n].protocol)) <
               |FinalPool(assets, jobs[n].protocol, draws(jobs[n].protocol))|
    ensures var a := FinalPool(assets, jobs[n].protocol, draws(jobs[n].protocol))[
                       CountIf(jobs[..n], OfProtocol(jobs[n].protocol))];
            BoundJobAt(jobs, n, assets, draws) == jobs[n].(assetID := a.assetID, accountID := a.accountID)
  {
    hide FinalPool, CountIf, OfProtocol;
  }

  lemma BoundPointwise(jobs: seq<Job>, bound: seq<Job>, assets: seq<ManifestAsset>, draws: Protocol -> Draws)
    requires |bound| == |jobs|
    requires forall k :: 0 <= k < |jobs| ==> bound[k] == BoundJobAt(jobs, k, assets, draws)
    ensures bound == Bound(jobs, assets, draws)
  {
    hide BoundJobAt;
  }

  lemma NonePositioned(jobs: seq<Job>)
    ensures forall p :: CountIf(jobs[..0], OfProtocol(p)) == 0
  {
  }

  lemma PositionsNext(jobs: seq<Job>, n: nat)
    requires n < |jobs|
    ensures forall p :: CountIf(jobs[..n + 1], OfProtocol(p)) == CountIf(jobs[..n], OfProtocol(p)) +
              if jobs[n].protocol == p then 1 else 0
  {
    assert jobs[..n + 1] == jobs[..n] + [jobs[n]];
    forall p ensures CountIf(jobs[..n + 1], OfProtocol(p)) == CountIf(jobs[..n], OfProtocol(p)) + if jobs[n].protocol ==
        p then 1 else 0 {
      CountAppend(jobs[..n], jobs[n], OfProtocol(p));
    }
  }

  method Bind(jobs: seq<Job>, version: int, assets: seq<ManifestAsset>, draws: Protocol -> Draws)
    returns (r: Result<seq<Job>>)
    ensures r.Ok? <==> Bindable(jobs, version, assets)
    ensures r.Ok? ==> r.value == Bound(jobs, NormalAll(assets), draws)
  {
    hide FinalPool, CountIf, Pool, Bound, BindableJobs, Sound;
    var manifest := new ManifestAsset[|assets|](k requires 0 <= k < |assets| => assets[k]);
    assert manifest[..] == assets;
    var valid := ValidateManifest(version, manifest);
    if !valid {
      return Err;
    }
    ghost var normal := NormalAll(assets);
    var pools := FillPools(manifest[..]);
    var ok, requested := CountRequests(jobs);
    if !ok {
      return Err;
    }
    ok := CheckPools(requested, pools);
    EnoughChecked(jobs, normal, requested, pools);
    if !ok {
      return Err;
    }
    ghost var filled := pools;
    pools := ShufflePools(pools, draws);
    FinalPools(normal, draws, filled, pools);
    var bound := TakeAssets(jobs, pools, normal, draws);
    return Ok(bound);
  }

  lemma EnoughChecked(jobs: seq<Job>, assets: seq<ManifestAsset>, requested: map<Protocol, nat>,
                      pools: map<Protocol, seq<ManifestAsset>>)
    requires forall p :: CountAt(requested, p) == CountIf(jobs, OfProtocol(p))
    requires forall p :: PoolIn(pools, p) == Pool(assets, p)
    ensures Enough(jobs, assets) <==> forall p :: p in requested ==> requested[p] <= |PoolIn(pools, p)|
  {
    hide CountIf, Pool;
    forall p | p in requested
      ensures requested[p] == CountIf(jobs, OfProtocol(p)) && PoolIn(pools, p) == Pool(assets, p)
    {
      assert CountAt(requested, p) == requested[p];
    }
    forall p | p !in requested ensures CountIf(jobs, OfProtocol(p)) == 0 {
      assert CountAt(requested, p) == 0;
    }
  }

  lemma FinalPools(assets: seq<ManifestAsset>, draws: Protocol -> Draws, given: map<Protocol, seq<ManifestAsset>>,
                   pools: map<Protocol, seq<ManifestAsset>>)
    requires (forall p :: PoolIn(given, p) == Pool(assets, p)) && pools.Keys == given.Keys
    requires forall p :: p in given ==> pools[p] == Mixed(given[p], draws(p))
    ensures forall p :: PoolIn(pools, p) == FinalPool(assets, p, draws(p))
  {
    hide Pool, Mixed;
    forall p ensures PoolIn(pools, p) == FinalPool(assets, p, draws(p)) {
      SortedPoolKeeps(Pool(assets, p));
      assert PoolIn(given, p) == Pool(assets, p);
      if p !in given {
        EmptyPool(draws(p));
      }
    }
  }

  lemma EmptyPool(draws: Draws)
    ensures Mixed([], draws) == []
  {
  }

  // ---- Sorting and shuffling rearrange ----

  lemma {:induction false} InsertAssetKeeps(x: ManifestAsset, s: seq<ManifestAsset>)
    ensures multiset(InsertAsset(x, s)) == multiset(s) + multiset{x}
  {
    if s != [] && Less(s[0], x) {
      InsertAssetKeeps(x, s[1..]);
      assert s == [s[0]] + s[1..];
    }
  }

  lemma {:induction false} SortedPoolKeeps(s: seq<ManifestAsset>)
    ensures multiset(SortedPool(s)) == multiset(s) && |SortedPool(s)| == |s|
  {
    if s != [] {
      SortedPoolKeeps(s[1..]);
      InsertAssetKeeps(s[0], SortedPool(s[1..]));
      assert s == [s[0]] + s[1..];
    }
    assert |multiset(SortedPool(s))| == |multiset(s)|;
  }

  lemma SwapKeeps<T>(s: seq<T>, i: nat, j: nat)
    requires i < |s| && j < |s|
    ensures multiset(Swap(s, i, j)) == multiset(s)
  {
  }

  lemma {:induction false} ShuffledKeeps<T>(s: seq<T>, i: nat, draws: Draws)
    requires i < |s| || i == 0
    ensures multiset(Shuffled(s, i, draws)) == multiset(s)
    decreases i
  {
    if i > 0 {
      SwapKeeps(s, i, draws(i));
      ShuffledKeeps(Swap(s, i, draws(i)), i - 1, draws);
    }
  }

  /** Whatever is drawn, the final pool is a rearrangement of the protocol's assets. */
  lemma FinalPoolKeeps(assets: seq<ManifestAsset>, p: Protocol, draws: Draws)
    ensures multiset(FinalPool(assets, p, draws)) == multiset(Pool(assets, p))
    ensures |FinalPool(assets, p, draws)| == |Pool(assets, p)|
  {
    hide SortedPool, Pool;
    var s := SortedPool(Pool(assets, p));
    SortedPoolKeeps(Pool(assets, p));
    ShuffledKeeps(s, if s == [] then 0 else |s| - 1, draws);
  }

  // ---- The order of names ----

  lemma {:induction false} LessTotal(a: string, b: string)
    ensures a == b || LessText(a, b) || LessText(b, a)
    ensures !(LessText(a, b) && LessText(b, a)) && !LessText(a, a)
  {
    if a != [] && b != [] {
      assert a == [a[0]] + a[1..] && b == [b[0]] + b[1..];
      LessTotal(a[1..], b[1..]);
    }
    if a != [] {
      LessIrreflexive(a);
    }
  }

  lemma {:induction false} LessIrreflexive(a: string)
    ensures !LessText(a, a)
  {
    if a != [] {
      LessIrreflexive(a[1..]);
    }
  }

  lemma {:induction false} LessTransitive(a: string, b: string, c: string)
    requires LessText(a, b) && LessText(b, c)
    ensures LessText(a, c)
  {
    if a != [] && a[0] == b[0] && b[0] == c[0] {
      LessTransitive(a[1..], b[1..], c[1..]);
    }
  }

  predicate ByName(s: seq<ManifestAsset>) {
    forall i, j :: 0 <= i < j < |s| ==> LessText(s[i].name, s[j].name)
  }

  predicate DistinctNames(s: seq<ManifestAsset>) {
    forall i, j :: 0 <= i < j < |s| ==> s[i].name != s[j].name
  }

  lemma {:induction false} InsertByName(x: ManifestAsset, s: seq<ManifestAsset>)
    requires ByName(s) && forall a :: a in s ==> a.name != x.name
    ensures ByName(InsertAsset(x, s))
  {
    hide LessText;
    var r := InsertAsset(x, s);
    if s != [] {
      LessTotal(s[0].name, x.name);
      assert s[0] in s;
      if Less(s[0], x) {
        InsertByName(x, s[1..]);
        var rest := InsertAsset(x, s[1..]);
        InsertAssetKeeps(x, s[1..]);
        forall j | 0 <= j < |rest| ensures LessText(s[0].name, rest[j].name) {
          assert rest[j] in multiset(rest);
          assert rest[j] == x || rest[j] in s[1..];
        }
      } else {
        forall j | 0 <= j < |s| ensures LessText(x.name, s[j].name) {
          if j > 0 {
            LessTransitive(x.name, s[0].name, s[j].name);
          }
        }
      }
    }
  }

  lemma {:induction false} SortedByName(s: seq<ManifestAsset>)
    requires DistinctNames(s)
    ensures ByName(SortedPool(s))
  {
    hide LessText;
    if s != [] {
      SortedByName(s[1..]);
      SortedPoolKeeps(s[1..]);
      var rest := SortedPool(s[1..]);
      forall a | a in rest ensures a.name != s[0].name {
        assert a in multiset(rest);
        assert a in s[1..];
      }
      InsertByName(s[0], rest);
    }
  }

  /** Two pools sorted by distinct names that hold the same assets are the same pool. */
  lemma {:induction false} SortedIsUnique(a: seq<ManifestAsset>, b: seq<ManifestAsset>)
    requires ByName(a) && ByName(b) && multiset(a) == multiset(b)
    ensures a == b
  {
    hide LessText;
    assert |multiset(a)| == |multiset(b)|;
    if a != [] {
      assert a[0] in multiset(b) && b[0] in multiset(a);
      if a[0] != b[0] {
        var i :| 0 <= i < |b| && b[i] == a[0];
        var j :| 0 <= j < |a| && a[j] == b[0];
        LessTotal(a[0].name, b[0].name);
      } else {
        FirstApart(a);
        FirstApart(b);
        Cancel(multiset(a[1..]), multiset(b[1..]), a[0]);
        SortedIsUnique(a[1..], b[1..]);
      }
    }
  }

  lemma FirstApart<T>(s: seq<T>)
    requires s != []
    ensures multiset(s) == multiset(s[1..]) + multiset{s[0]}
  {
    assert s == [s[0]] + s[1..];
  }

  // ---- Uniqueness through pools ----

  lemma {:induction false} PoolMembers(assets: seq<ManifestAsset>, p: Protocol)
    ensures forall a :: a in Pool(assets, p) <==> a in assets && ProtocolOf(a.protocol) == p
    ensures NoRepeats(assets) ==> NoRepeats(Pool(assets, p))
  {
    if assets != [] {
      var n := |assets| - 1;
      PoolMembers(assets[..n], p);
      assert assets == assets[..n] + [assets[n]];
    }
  }

  /** Assets with one ID, one account or one name are one asset. */
  lemma UniqueAssets(assets: seq<ManifestAsset>, a: ManifestAsset, b: ManifestAsset)
    requires Unique(assets) && a in assets && b in assets
    requires a.assetID == b.assetID || a.accountID == b.accountID || a.name == b.name
    ensures a == b
  {
    var i :| 0 <= i < |assets| && assets[i] == a;
    var j :| 0 <= j < |assets| && assets[j] == b;
  }

  lemma FinalPoolMembers(assets: seq<ManifestAsset>, p: Protocol, draws: Draws)
    requires Unique(assets)
    ensures var pool := FinalPool(assets, p, draws);
            NoRepeats(pool) && forall k :: 0 <= k < |pool| ==> pool[k] in assets && ProtocolOf(pool[k].protocol) == p
  {
    hide FinalPool, Pool;
    var pool := FinalPool(assets, p, draws);
    FinalPoolKeeps(assets, p, draws);
    PoolMembers(assets, p);
    NoRepeatsPermuted(Pool(assets, p), pool);
    forall k | 0 <= k < |pool| ensures pool[k] in assets && ProtocolOf(pool[k].protocol) == p {
      assert pool[k] in multiset(pool);
    }
  }

  // ---- What a binding is ----

  /** The job whose turn it is finds an asset. */
  lemma TurnComes(jobs: seq<Job>, n: nat, assets: seq<ManifestAsset>, draws: Protocol -> Draws)
    requires n < |jobs| && Enough(jobs, assets)
    ensures CountIf(jobs[..n], OfProtocol(jobs[n].protocol)) < |FinalPool(assets, jobs[n].protocol,
              draws(jobs[n].protocol))|
  {
    hide FinalPool, Pool;
    var p := jobs[n].protocol;
    FinalPoolKeeps(assets, p, draws(p));
    CountMonotone(jobs, n + 1, OfProtocol(p));
    assert jobs[..n + 1] == jobs[..n] + [jobs[n]];
    CountAppend(jobs[..n], jobs[n], OfProtocol(p));
  }

  /** Each job keeps its number, protocol and mode and is given an asset of its protocol. */
  lemma BindingMatches(jobs: seq<Job>, assets: seq<ManifestAsset>, draws: Protocol -> Draws)
    requires Sound(assets) && Enough(jobs, assets)
    ensures var r := Bound(jobs, assets, draws);
            forall n :: 0 <= n < |jobs| ==>
              && r[n].id == jobs[n].id && r[n].protocol == jobs[n].protocol && r[n].mode == jobs[n].mode
              && exists a :: a in assets && ProtocolOf(a.protocol) == jobs[n].protocol
                             && a.assetID == r[n].assetID && a.accountID == r[n].accountID
                             && a.assetID != "" && a.accountID != ""
  {
    hide FinalPool, Enough, CountIf;
    var r := Bound(jobs, assets, draws);
    forall n | 0 <= n < |jobs|
      ensures r[n].id == jobs[n].id && r[n].protocol == jobs[n].protocol && r[n].mode == jobs[n].mode
      ensures exists a :: a in assets && ProtocolOf(a.protocol) == jobs[n].protocol
                          && a.assetID == r[n].assetID && a.accountID == r[n].accountID
                          && a.assetID != "" && a.accountID != ""
    {
      var p := jobs[n].protocol;
      TurnComes(jobs, n, assets, draws);
      FinalPoolMembers(assets, p, draws(p));
      var a := AssetFor(jobs, n, assets, draws);
      assert a in assets && WellFormed(a);
    }
  }

  /** Jobs of one protocol take different turns. */
  lemma TurnsDiffer(jobs: seq<Job>, i: nat, j: nat)
    requires i < j < |jobs| && jobs[i].protocol == jobs[j].protocol
    ensures CountIf(jobs[..i], OfProtocol(jobs[i].protocol)) < CountIf(jobs[..j], OfProtocol(jobs[j].protocol))
  {
    var p := OfProtocol(jobs[i].protocol);
    CountMonotone(jobs[..j], i + 1, p);
    assert jobs[..j][..i + 1] == jobs[..i] + [jobs[i]];
    CountAppend(jobs[..i], jobs[i], p);
  }

  /** The asset of job `n` is the one at its turn in the final pool of its protocol. */
  lemma AssetAtTurn(jobs: seq<Job>, n: nat, assets: seq<ManifestAsset>, draws: Protocol -> Draws)
    requires n < |jobs| && Unique(assets) && Enough(jobs, assets)
    ensures var p := jobs[n].protocol;
            var pool, k := FinalPool(assets, p, draws(p)), CountIf(jobs[..n], OfProtocol(p));
            var a := AssetFor(jobs, n, assets, draws);
            k < |pool| && a == pool[k] && NoRepeats(pool) && a in assets && ProtocolOf(a.protocol) == p
  {
    hide FinalPool, Enough, CountIf, Unique, NoRepeats;
    TurnComes(jobs, n, assets, draws);
    FinalPoolMembers(assets, jobs[n].protocol, draws(jobs[n].protocol));
  }

  lemma AssetsDiffer(jobs: seq<Job>, i: nat, j: nat, assets: seq<ManifestAsset>, draws: Protocol -> Draws)
    requires i < j < |jobs| && Sound(assets) && Enough(jobs, assets)
    ensures var a, b := AssetFor(jobs, i, assets, draws), AssetFor(jobs, j, assets, draws);
            a.assetID != b.assetID && a.accountID != b.accountID
  {
    hide FinalPool, Enough, CountIf, Unique, AssetFor;
    AssetAtTurn(jobs, i, assets, draws);
    AssetAtTurn(jobs, j, assets, draws);
    var a, b := AssetFor(jobs, i, assets, draws), AssetFor(jobs, j, assets, draws);
    if jobs[i].protocol == jobs[j].protocol {
      TurnsDiffer(jobs, i, j);
    }
    assert a != b;
    if a.assetID == b.assetID || a.accountID == b.accountID {
      UniqueAssets(assets, a, b);
    }
  }

  /** No asset and no account is bound twice. */
  lemma BindingInjective(jobs: seq<Job>, assets: seq<ManifestAsset>, draws: Protocol -> Draws)
    requires Sound(assets) && Enough(jobs, assets)
    ensures DistinctAssets(Bound(jobs, assets, draws)) && DistinctAccounts(Bound(jobs, assets, draws))
  {
    hide AssetFor, Enough, Sound;
    var r := Bound(jobs, assets, draws);
    forall i, j | 0 <= i < j < |jobs| ensures r[i].assetID != r[j].assetID && r[i].accountID != r[j].accountID {
      AssetsDiffer(jobs, i, j, assets, draws);
    }
  }

  lemma {:induction false} PoolsPermuted(a: seq<ManifestAsset>, b: seq<ManifestAsset>, p: Protocol)
    requires multiset(a) == multiset(b)
    ensures multiset(Pool(a, p)) == multiset(Pool(b, p))
  {
    if a == [] {
      assert |multiset(b)| == 0;
    } else {
      var n := |a| - 1;
      assert a[n] in multiset(b);
      var k :| 0 <= k < |b| && b[k] == a[n];
      var rest := b[..k] + b[k + 1..];
      PoolWithout(b, k, p);
      assert a == a[..n] + [a[n]];
      Cancel(multiset(a[..n]), multiset(rest), a[n]);
      PoolsPermuted(a[..n], rest, p);
      hide Pool;
      PoolNext(a, p);
    }
  }

  lemma PoolNext(a: seq<ManifestAsset>, p: Protocol)
    requires a != []
    ensures var n := |a| - 1;
            multiset(Pool(a, p)) == multiset(Pool(a[..n], p)) + if ProtocolOf(a[n].protocol) == p then
                multiset{a[n]} else multiset{}
  {
  }

  lemma {:induction false} PoolConcat(a: seq<ManifestAsset>, b: seq<ManifestAsset>, p: Protocol)
    ensures Pool(a + b, p) == Pool(a, p) + Pool(b, p)
  {
    if b == [] {
      assert a + b == a;
    } else {
      assert (a + b)[..|a + b| - 1] == a + b[..|b| - 1];
      PoolConcat(a, b[..|b| - 1], p);
    }
  }

  lemma PoolOne(a: ManifestAsset, p: Protocol)
    ensures Pool([a], p) == if ProtocolOf(a.protocol) == p then [a] else []
  {
    assert [a][..0] == [];
  }

  lemma PoolWithout(b: seq<ManifestAsset>, k: nat, p: Protocol)
    requires k < |b|
    ensures var rest := b[..k] + b[k + 1..];
            && multiset(b) == multiset(rest) + multiset{b[k]}
            && multiset(Pool(b, p)) == multiset(Pool(rest, p)) + if ProtocolOf(b[k].protocol) == p then
                multiset{b[k]} else multiset{}
  {
    hide Pool;
    assert b == b[..k] + [b[k]] + b[k + 1..];
    PoolConcat(b[..k], b[k + 1..], p);
    PoolConcat(b[..k] + [b[k]], b[k + 1..], p);
    PoolConcat(b[..k], [b[k]], p);
    PoolOne(b[k], p);
  }

  lemma PoolNames(assets: seq<ManifestAsset>, p: Protocol)
    requires Unique(assets)
    ensures DistinctNames(Pool(assets, p))
  {
    hide Pool;
    PoolMembers(assets, p);
    var pool := Pool(assets, p);
    forall i, j | 0 <= i < j < |pool| ensures pool[i].name != pool[j].name {
      assert pool[i] in pool && pool[j] in pool;
      if pool[i].name == pool[j].name {
        UniqueAssets(assets, pool[i], pool[j]);
      }
    }
  }

  /** The order in which the manifest lists its assets plays no part. */
  lemma BindingIgnoresOrder(jobs: seq<Job>, a: seq<ManifestAsset>, b: seq<ManifestAsset>, draws: Protocol -> Draws)
    requires Sound(a) && Sound(b) && multiset(a) == multiset(b)
    ensures Bound(jobs, a, draws) == Bound(jobs, b, draws)
  {
    hide FinalPool, CountIf;
    forall p ensures FinalPool(a, p, draws(p)) == FinalPool(b, p, draws(p)) {
      PoolIgnoresOrder(a, b, p, draws(p));
    }
    forall n | 0 <= n < |jobs| ensures BoundJobAt(jobs, n, a, draws) == BoundJobAt(jobs, n, b, draws) {
    }
  }

  lemma PoolIgnoresOrder(a: seq<ManifestAsset>, b: seq<ManifestAsset>, p: Protocol, draws: Draws)
    requires Sound(a) && Sound(b) && multiset(a) == multiset(b)
    ensures FinalPool(a, p, draws) == FinalPool(b, p, draws)
  {
    hide Pool, SortedPool, Shuffled;
    PoolsPermuted(a, b, p);
    PoolNames(a, p);
    PoolNames(b, p);
    SortedByName(Pool(a, p));
    SortedByName(Pool(b, p));
    SortedPoolKeeps(Pool(a, p));
    SortedPoolKeeps(Pool(b, p));
    SortedIsUnique(SortedPool(Pool(a, p)), SortedPool(Pool(b, p)));
  }
}
