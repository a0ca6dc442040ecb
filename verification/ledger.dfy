/** The margins booked for a list of jobs when each job has contributed a known amount. */
module Ledgers {
  import opened Sums
  import opened Scenario
  import opened Marginals
  import opened Accounting

  function Ledger<V>(m: Monoid<V>, jobs: seq<Job>, amounts: seq<V>): Margins<V>
    requires |jobs| == |amounts|
  {
    if jobs == [] then Empty(m)
    else
      var n := |jobs| - 1;
      Post(m, Ledger(m, jobs[..n], amounts[..n]), jobs[n], amounts[n])
  }

  /** The same amount for every job. */
  function Each<V>(jobs: seq<Job>, v: V): seq<V> { seq(|jobs|, i => v) }

  /** The number of jobs in total and under each key. */
  function Planned(jobs: seq<Job>): Margins<int> { Ledger(INTS, jobs, Each(jobs, 1)) }

  lemma PlannedNext(jobs: seq<Job>, n: nat)
    requires n < |jobs|
    ensures Planned(jobs[..n + 1]) == Post(INTS, Planned(jobs[..n]), jobs[n], 1)
  {
    assert jobs[..n + 1][..n] == jobs[..n];
    assert Each(jobs[..n + 1], 1)[..n] == Each(jobs[..n], 1);
  }

  lemma PlusSwap<V(!new)>(m: Monoid<V>, x: V, d: V, e: V)
    requires Commutative(m)
    ensures m.plus(m.plus(x, d), e) == m.plus(m.plus(x, e), d) == m.plus(x, m.plus(d, e))
  {
    assert m.plus(x, m.plus(d, e)) == m.plus(x, m.plus(e, d));
  }

  lemma AddSwap<K, V(!new)>(m: Monoid<V>, s: map<K, V>, k: K, d: V, l: K, e: V)
    requires Commutative(m)
    ensures Add(m, Add(m, s, k, d), l, e) == Add(m, Add(m, s, l, e), k, d)
    ensures k == l ==> Add(m, Add(m, s, k, d), l, e) == Add(m, s, k, m.plus(d, e))
  {
    hide Commutative;
    PlusSwap(m, Lookup(m, s, k), d, e);
  }

  /** Bookings commute, and two bookings for one job are one booking of their sum. */
  lemma PostSwap<V(!new)>(m: Monoid<V>, b: Margins<V>, j: Job, d: V, k: Job, e: V)
    requires Commutative(m)
    ensures Post(m, Post(m, b, j, d), k, e) == Post(m, Post(m, b, k, e), j, d)
    ensures j == k ==> Post(m, Post(m, b, j, d), k, e) == Post(m, b, j, m.plus(d, e))
  {
    hide Add, Commutative;
    PlusSwap(m, b.total, d, e);
    AddSwap(m, b.byProtocol, j.protocol, d, k.protocol, e);
    AddSwap(m, b.byMode, j.mode, d, k.mode, e);
    AddSwap(m, b.byDimension, DimensionOf(j), d, DimensionOf(k), e);
  }

  /** Booking `d` for job `i` is the same as job `i` having contributed `d` more. */
  lemma {:induction false} LedgerPost<V(!new)>(m: Monoid<V>, jobs: seq<Job>, amounts: seq<V>, i: nat, d: V)
    requires Commutative(m) && i < |jobs| == |amounts|
    ensures Post(m, Ledger(m, jobs, amounts), jobs[i], d) == Ledger(m, jobs, amounts[i := m.plus(amounts[i], d)])
  {
    hide Post;
    var n := |jobs| - 1;
    var front := Ledger(m, jobs[..n], amounts[..n]);
    var after := amounts[i := m.plus(amounts[i], d)];
    PostSwap(m, front, jobs[n], amounts[n], jobs[i], d);
    if i == n {
      assert after[..n] == amounts[..n];
    } else {
      LedgerPost(m, jobs[..n], amounts[..n], i, d);
      assert after[..n] == amounts[..n][i := m.plus(amounts[i], d)];
    }
  }

  lemma {:induction false} LedgerBalanced<V(!new)>(m: Monoid<V>, jobs: seq<Job>, amounts: seq<V>)
    requires Commutative(m) && |jobs| == |amounts|
    ensures Balanced(m, Ledger(m, jobs, amounts))
  {
    hide Balanced, Post;
    if jobs == [] {
      EmptyBalanced(m);
    } else {
      var n := |jobs| - 1;
      LedgerBalanced(m, jobs[..n], amounts[..n]);
      PostBalanced(m, Ledger(m, jobs[..n], amounts[..n]), jobs[n], amounts[n]);
    }
  }

  predicate Everywhere<V>(b: Margins<V>, p: V -> bool) {
    && p(b.total)
    && (forall k :: k in b.byProtocol ==> p(b.byProtocol[k]))
    && (forall k :: k in b.byMode ==> p(b.byMode[k]))
    && (forall k :: k in b.byDimension ==> p(b.byDimension[k]))
  }

  ghost predicate ClosedUnderSum<V(!new)>(m: Monoid<V>, p: V -> bool) {
    p(m.zero) && forall a, b :: p(a) && p(b) ==> p(m.plus(a, b))
  }

  lemma {:induction false} LedgerEverywhere<V(!new)>(m: Monoid<V>, jobs: seq<Job>, amounts: seq<V>, p: V -> bool)
    requires |jobs| == |amounts| && ClosedUnderSum(m, p)
    requires forall i :: 0 <= i < |amounts| ==> p(amounts[i])
    ensures Everywhere(Ledger(m, jobs, amounts), p)
  {
    if jobs != [] {
      var n := |jobs| - 1;
      LedgerEverywhere(m, jobs[..n], amounts[..n], p);
    }
  }

  /** What one dimension is booked depends on the jobs of that dimension only. */
  lemma {:induction false} LedgerDimension<V(!new)>(m: Monoid<V>, jobs: seq<Job>, amounts: seq<V>, d: Dimension,
                                             p: V -> bool)
    requires |jobs| == |amounts| && ClosedUnderSum(m, p)
    requires forall i :: 0 <= i < |jobs| && DimensionOf(jobs[i]) == d ==> p(amounts[i])
    ensures p(Lookup(m, Ledger(m, jobs, amounts).byDimension, d))
  {
    if jobs != [] {
      var n := |jobs| - 1;
      LedgerDimension(m, jobs[..n], amounts[..n], d, p);
    }
  }

  function MapSeq<V, W>(source: seq<V>, f: V -> W): (r: seq<W>)
    ensures |r| == |source|
  {
    seq(|source|, i requires 0 <= i < |source| => f(source[i]))
  }

  function MapValues<K, V, W>(source: map<K, V>, f: V -> W): map<K, W> {
    map k | k in source :: f(source[k])
  }

  function MapMargins<V, W>(b: Margins<V>, f: V -> W): Margins<W> {
    Margins(f(b.total), MapValues(b.byProtocol, f), MapValues(b.byMode, f), MapValues(b.byDimension, f))
  }

  ghost predicate Homomorphism<V(!new), W>(m: Monoid<V>, n: Monoid<W>, f: V -> W) {
    f(m.zero) == n.zero && forall a, b :: f(m.plus(a, b)) == n.plus(f(a), f(b))
  }

  lemma MapAdd<K, V(!new), W>(m: Monoid<V>, n: Monoid<W>, f: V -> W, s: map<K, V>, k: K, d: V)
    requires Homomorphism(m, n, f)
    ensures MapValues(Add(m, s, k, d), f) == Add(n, MapValues(s, f), k, f(d))
  {
  }

  lemma {:induction false} LedgerMap<V(!new), W>(m: Monoid<V>, n: Monoid<W>, f: V -> W, jobs: seq<Job>, amounts: seq<V>)
    requires |jobs| == |amounts| && Homomorphism(m, n, f)
    ensures MapMargins(Ledger(m, jobs, amounts), f) == Ledger(n, jobs, MapSeq(amounts, f))
  {
    hide MapValues, Add;
    var images := MapSeq(amounts, f);
    if jobs == [] {
      MapNothing<Protocol, V, W>(f);
      MapNothing<Mode, V, W>(f);
      MapNothing<Dimension, V, W>(f);
    } else {
      var l := |jobs| - 1;
      var front, job, d := Ledger(m, jobs[..l], amounts[..l]), jobs[l], amounts[l];
      LedgerMap(m, n, f, jobs[..l], amounts[..l]);
      assert images[..l] == MapSeq(amounts[..l], f);
      MapAdd(m, n, f, front.byProtocol, job.protocol, d);
      MapAdd(m, n, f, front.byMode, job.mode, d);
      MapAdd(m, n, f, front.byDimension, DimensionOf(job), d);
    }
  }

  lemma MapNothing<K, V, W>(f: V -> W)
    ensures MapValues<K, V, W>(map[], f) == map[]
  {
  }
}
