/** Which asset each job is bound to, told from the order of names and from the draws. */
module BindingExactly {
  import opened Scenario
  import opened Partitioning
  import opened Manifests
  import opened Binding

  // ---- The order of the pool ----

  /** The texts agree up to some position, where the first ends or has the lesser character. */
  predicate Before(a: string, b: string) {
    exists k :: 0 <= k < |b| && k <= |a| && a[..k] == b[..k] && (k < |a| ==> a[k] < b[k])
  }

  lemma {:induction false} BeforeExactly(a: string, b: string)
    ensures LessText(a, b) <==> Before(a, b)
  {
    if a == [] || b == [] {
      assert b != [] ==> a[..0] == b[..0];
    } else {
      assert a == [a[0]] + a[1..] && b == [b[0]] + b[1..];
      BeforeExactly(a[1..], b[1..]);
      if a[0] != b[0] {
        assert a[..0] == b[..0];
      }
      if a[0] == b[0] && Before(a[1..], b[1..]) {
        var k :| 0 <= k < |b[1..]| && k <= |a[1..]| && a[1..][..k] == b[1..][..k]
                 && (k < |a[1..]| ==> a[1..][k] < b[1..][k]);
        assert a[..k + 1] == [a[0]] + a[1..][..k] && b[..k + 1] == [b[0]] + b[1..][..k];
      }
      if Before(a, b) {
        var k :| 0 <= k < |b| && k <= |a| && a[..k] == b[..k] && (k < |a| ==> a[k] < b[k]);
        if k > 0 {
          assert a[..k][0] == b[..k][0];
          assert a[1..][..k - 1] == a[..k][1..] && b[1..][..k - 1] == b[..k][1..];
        }
      }
    }
  }

  /** The assets of the protocol by rising names. */
  predicate InNameOrder(assets: seq<ManifestAsset>, p: Protocol, sorted: seq<ManifestAsset>) {
    && (forall a :: a in sorted ==> a in assets && a.protocol == TextOf(p))
    && (forall a :: a in assets && a.protocol == TextOf(p) ==> a in sorted)
    && (forall i, j :: 0 <= i < j < |sorted| ==> Before(sorted[i].name, sorted[j].name))
  }

  function TextOf(p: Protocol): string {
    match p
    case SSH => "ssh"
    case RDP => "rdp"
    case VNC => "vnc"
    case Web => "web"
    case MySQL => "mysql"
    case OtherProtocol(name) => name
  }

  lemma TextsAre(a: ManifestAsset, p: Protocol)
    requires KnownProtocol(p)
    ensures ProtocolOf(a.protocol) == p <==> a.protocol == TextOf(p)
  {
  }

  lemma {:induction false} SameByName(a: seq<ManifestAsset>, b: seq<ManifestAsset>)
    requires ByName(a) && ByName(b) && forall x :: x in a <==> x in b
    ensures a == b
  {
    hide LessText;
    SomeIn(a);
    SomeIn(b);
    if a != [] && b != [] {
      LeastName(a, b);
      LeastName(b, a);
      LessTotal(a[0].name, b[0].name);
      assert a[0] == b[0] by {
        FirstsAgree(a, b);
      }
      RestAgrees(a, b);
      SameByName(a[1..], b[1..]);
      assert a == [a[0]] + a[1..] && b == [b[0]] + b[1..];
    }
  }

  lemma SomeIn<T>(s: seq<T>)
    ensures s == [] || exists x :: x in s
  {
    assert s == [] || s[0] in s;
  }

  lemma LeastName(a: seq<ManifestAsset>, b: seq<ManifestAsset>)
    requires a != [] && b != [] && ByName(a) && forall x :: x in a <==> x in b
    ensures a[0] == b[0] || LessText(a[0].name, b[0].name)
  {
    hide LessText;
    assert b[0] in b;
    var k :| 0 <= k < |a| && a[k] == b[0];
  }

  lemma FirstsAgree(a: seq<ManifestAsset>, b: seq<ManifestAsset>)
    requires a != [] && b != [] && ByName(a) && ByName(b) && forall x :: x in a <==> x in b
    ensures a[0] == b[0]
  {
    hide LessText;
    LeastName(a, b);
    LeastName(b, a);
    LessTotal(a[0].name, b[0].name);
  }

  lemma RestAgrees(a: seq<ManifestAsset>, b: seq<ManifestAsset>)
    requires a != [] && b != [] && ByName(a) && ByName(b) && a[0] == b[0] && forall x :: x in a <==> x in b
    ensures forall x :: x in a[1..] <==> x in b[1..]
  {
    hide LessText;
    NotAgain(a);
    NotAgain(b);
    assert forall x :: x in a <==> x == a[0] || x in a[1..];
    assert forall x :: x in b <==> x == b[0] || x in b[1..];
  }

  lemma NotAgain(a: seq<ManifestAsset>)
    requires a != [] && ByName(a)
    ensures a[0] !in a[1..]
  {
    hide LessText;
    LessTotal(a[0].name, a[0].name);
    forall k | 0 <= k < |a| - 1 ensures a[1..][k] != a[0] {
      assert LessText(a[0].name, a[k + 1].name);
    }
  }

  lemma PoolIsSorted(assets: seq<ManifestAsset>, p: Protocol, sorted: seq<ManifestAsset>)
    requires Sound(assets) && KnownProtocol(p) && InNameOrder(assets, p, sorted)
    ensures SortedPool(Pool(assets, p)) == sorted
  {
    hide LessText, Before, SortedPool, Pool, TextOf, ProtocolOf;
    var pool := Pool(assets, p);
    PoolMembers(assets, p);
    PoolNames(assets, p);
    SortedByName(pool);
    SortedPoolKeeps(pool);
    forall i, j | 0 <= i < j < |sorted| ensures LessText(sorted[i].name, sorted[j].name) {
      BeforeExactly(sorted[i].name, sorted[j].name);
    }
    forall a ensures a in SortedPool(pool) <==> a in sorted {
      TextsAre(a, p);
      assert a in SortedPool(pool) <==> a in multiset(SortedPool(pool));
      assert a in pool <==> a in multiset(pool);
    }
    SameByName(SortedPool(pool), sorted);
  }

  // ---- The draws ----

  /** The last place goes to the asset drawn among all, whose place the last one takes; and so on for the rest. */
  predicate DrawnFrom(s: seq<ManifestAsset>, draws: Draws, r: seq<ManifestAsset>)
    decreases |s|
  {
    |r| == |s| &&
    if |s| <= 1 then r == s
    else
      var n := |s| - 1;
      r[n] == s[draws(n)] && DrawnFrom(s[draws(n) := s[n]][..n], draws, r[..n])
  }

  lemma SwapBelow(s: seq<ManifestAsset>, i: nat, j: nat)
    requires j <= i < |s|
    ensures var t := Swap(s, i, j);
            && Swap(s[..i + 1], i, j) == t[..i + 1] && t[i..] == [s[j]] + s[i + 1..]
            && t[..i] == s[j := s[i]][..i] && t[..i + 1][..i] == t[..i] && t[..i + 1][i..] == [s[j]]
  {
  }

  lemma {:induction false} ShuffledAbove(s: seq<ManifestAsset>, i: nat, draws: Draws)
    requires i < |s|
    ensures Shuffled(s, i, draws) == Shuffled(s[..i + 1], i, draws) + s[i + 1..]
    decreases i
  {
    hide Swap, Shuffled;
    ShuffledNext(s, i, draws);
    ShuffledNext(s[..i + 1], i, draws);
    if i == 0 {
      assert s == s[..1] + s[1..];
    } else {
      var j := draws(i);
      var t := Swap(s, i, j);
      SwapBelow(s, i, j);
      ShuffledAbove(t, i - 1, draws);
      ShuffledAbove(t[..i + 1], i - 1, draws);
      var front, rest := Shuffled(t[..i], i - 1, draws), s[i + 1..];
      assert front + ([s[j]] + rest) == (front + [s[j]]) + rest;
    }
  }

  lemma {:induction false} ShuffledIsDrawn(s: seq<ManifestAsset>, draws: Draws)
    ensures DrawnFrom(s, draws, Shuffled(s, if s == [] then 0 else |s| - 1, draws))
    decreases |s|
  {
    hide Swap, Shuffled;
    ShuffledStep(s, draws);
    if |s| > 1 {
      var n := |s| - 1;
      var t := Swap(s, n, draws(n));
      SwapBelow(s, n, draws(n));
      ShuffledAbove(t, n - 1, draws);
      ShuffledIsDrawn(t[..n], draws);
    }
  }

  lemma ShuffledNext(s: seq<ManifestAsset>, i: nat, draws: Draws)
    requires i < |s|
    ensures Shuffled(s, i, draws) == if i == 0 then s else Shuffled(Swap(s, i, draws(i)), i - 1, draws)
  {
  }

  lemma ShuffledStep(s: seq<ManifestAsset>, draws: Draws)
    ensures |s| <= 1 ==> Shuffled(s, 0, draws) == s
    ensures |s| > 1 ==>
              var n := |s| - 1; Shuffled(s, n, draws) == Shuffled(Swap(s, n, draws(n)), n - 1, draws)
  {
  }

  lemma {:induction false} DrawnOnce(s: seq<ManifestAsset>, draws: Draws, a: seq<ManifestAsset>, b: seq<ManifestAsset>)
    requires DrawnFrom(s, draws, a) && DrawnFrom(s, draws, b)
    ensures a == b
    decreases |s|
  {
    if |s| > 1 {
      var n := |s| - 1;
      DrawnOnce(s[draws(n) := s[n]][..n], draws, a[..n], b[..n]);
      assert a == a[..n] + [a[n]] && b == b[..n] + [b[n]];
    }
  }

  // ---- The jobs ----

  function EarlierOf(jobs: seq<Job>, n: nat): nat
    requires n < |jobs|
  {
    |set k: nat | k < n && jobs[k].protocol == jobs[n].protocol|
  }

  function Earlier(jobs: seq<Job>, n: nat, p: Protocol): set<nat>
    requires n <= |jobs|
  {
    set k: nat | k < n && jobs[k].protocol == p
  }

  lemma {:induction false} EarlierCounted(jobs: seq<Job>, n: nat, p: Protocol)
    requires n <= |jobs|
    ensures CountIf(jobs[..n], OfProtocol(p)) == |Earlier(jobs, n, p)|
  {
    hide Earlier;
    EarlierNext(jobs, n, p);
    if n > 0 {
      EarlierCounted(jobs, n - 1, p);
      assert jobs[..n] == jobs[..n - 1] + [jobs[n - 1]];
      CountAppend(jobs[..n - 1], jobs[n - 1], OfProtocol(p));
    }
  }

  lemma EarlierNext(jobs: seq<Job>, n: nat, p: Protocol)
    requires n <= |jobs|
    ensures n == 0 ==> Earlier(jobs, n, p) == {}
    ensures n > 0 ==> |Earlier(jobs, n, p)| == |Earlier(jobs, n - 1, p)| + if jobs[n - 1].protocol == p then 1 else 0
  {
    if n > 0 {
      var last: nat := n - 1;
      var front := Earlier(jobs, n - 1, p);
      assert Earlier(jobs, n, p) == if jobs[last].protocol == p then front + {last} else front;
    }
  }

  /** Each job of a protocol is bound to the next asset of that protocol's pool: its assets by rising names, and then
      drawn from the last place down. */
  lemma BoundExactly(jobs: seq<Job>, assets: seq<ManifestAsset>, draws: Protocol -> Draws, n: nat,
                     sorted: seq<ManifestAsset>, pool: seq<ManifestAsset>)
    requires Sound(assets) && BindableJobs(jobs) && Enough(jobs, assets) && n < |jobs|
    requires InNameOrder(assets, jobs[n].protocol, sorted) && DrawnFrom(sorted, draws(jobs[n].protocol), pool)
    ensures EarlierOf(jobs, n) < |pool|
    ensures var a := pool[EarlierOf(jobs, n)];
            Bound(jobs, assets, draws)[n]
            == Job(jobs[n].id, jobs[n].protocol, jobs[n].mode, a.assetID, a.accountID)
  {
    hide CountIf, SortedPool, Pool, DrawnFrom, InNameOrder, Sound, Shuffled, Enough;
    var p := jobs[n].protocol;
    assert jobs[n] in jobs;
    PoolIsSorted(assets, p, sorted);
    ShuffledIsDrawn(sorted, draws(p));
    assert DrawnFrom(sorted, draws(p), FinalPool(assets, p, draws(p)));
    DrawnOnce(sorted, draws(p), pool, FinalPool(assets, p, draws(p)));
    EarlierCounted(jobs, n, p);
    TurnComes(jobs, n, assets, draws);
    assert EarlierOf(jobs, n) == |Earlier(jobs, n, p)|;
  }

  /** A binding is found exactly if the manifest is valid, the jobs are numbered differently, unbound and of known
      protocols, and there are enough assets of each. */
  lemma BindableExactly(jobs: seq<Job>, version: int, assets: seq<ManifestAsset>)
    ensures Bindable(jobs, version, assets) <==>
              && ValidManifest(version, assets)
              && (forall k :: 0 <= k < |jobs| ==>
                    jobs[k].id > 0 && jobs[k].assetID == "" && jobs[k].accountID == "" &&
                        !jobs[k].protocol.OtherProtocol?)
              && (forall j, k :: 0 <= j < k < |jobs| ==> jobs[j].id != jobs[k].id)
              && (forall p :: |Earlier(jobs, |jobs|, p)| <= |Pool(NormalAll(assets), p)|)
  {
    hide CountIf, Earlier, Pool, ValidManifest;
    assert jobs[..|jobs|] == jobs;
    forall p ensures CountIf(jobs, OfProtocol(p)) == |Earlier(jobs, |jobs|, p)| {
      EarlierCounted(jobs, |jobs|, p);
    }
    assert forall k :: 0 <= k < |jobs| ==> jobs[k] in jobs;
  }
}
