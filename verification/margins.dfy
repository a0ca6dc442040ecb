/** One quantity kept four times over: in total, per protocol, per mode and per dimension. */
module Marginals {
  import opened Sums
  import opened Scenario

  datatype Margins<V> = Margins(
    total: V, byProtocol: map<Protocol, V>, byMode: map<Mode, V>, byDimension: map<Dimension, V>)

  /** Every tracker call books the same amount in the total and under the job's three keys. */
  function Post<V>(m: Monoid<V>, b: Margins<V>, job: Job, d: V): Margins<V> {
    Margins(m.plus(b.total, d), Add(m, b.byProtocol, job.protocol, d), Add(m, b.byMode, job.mode, d),
            Add(m, b.byDimension, DimensionOf(job), d))
  }

  function Empty<V>(m: Monoid<V>): Margins<V> {
    Margins(m.zero, map[], map[], map[])
  }

  function InProtocol(keys: set<Dimension>, p: Protocol): set<Dimension> {
    set d | d in keys && d.protocol == p
  }

  function InMode(keys: set<Dimension>, mode: Mode): set<Dimension> {
    set d | d in keys && d.mode == mode
  }

  ghost predicate BalancedTotals<V>(m: Monoid<V>, b: Margins<V>) {
    b.total == Sum(m, b.byProtocol) == Sum(m, b.byMode) == Sum(m, b.byDimension)
  }

  ghost predicate BalancedProtocols<V>(m: Monoid<V>, b: Margins<V>) {
    && b.byProtocol.Keys == (set d | d in b.byDimension :: d.protocol)
    && forall p :: p in b.byProtocol ==>
                     b.byProtocol[p] == SumOver(m, b.byDimension, InProtocol(b.byDimension.Keys, p))
  }

  ghost predicate BalancedModes<V>(m: Monoid<V>, b: Margins<V>) {
    && b.byMode.Keys == (set d | d in b.byDimension :: d.mode)
    && forall o :: o in b.byMode ==>
                     b.byMode[o] == SumOver(m, b.byDimension, InMode(b.byDimension.Keys, o))
  }

  /** Totals, protocols, modes and dimensions are sums of one another. */
  ghost predicate Balanced<V>(m: Monoid<V>, b: Margins<V>) {
    BalancedTotals(m, b) && BalancedProtocols(m, b) && BalancedModes(m, b)
  }

  lemma EmptyBalanced<V>(m: Monoid<V>)
    ensures Balanced(m, Empty(m))
  {
  }

  /** A sum over some of the dimensions moves by `d` exactly when the job's dimension is among them. */
  lemma PostSum<V(!new)>(m: Monoid<V>, source: map<Dimension, V>, before: set<Dimension>, after: set<Dimension>,
                  k: Dimension, d: V)
    requires Commutative(m)
    requires after == before || (k !in source && after == before + {k})
    ensures SumOver(m, Add(m, source, k, d), after)
         == if k in after then m.plus(SumOver(m, source, before), d) else SumOver(m, source, before)
  {
    SumAdd(m, source, after, k, d);
    if after != before {
      SumWithAbsent(m, source, before, k);
    }
  }

  /** Booking an amount under the three keys of a job keeps the margins sums of one another. */
  lemma PostBalanced<V(!new)>(m: Monoid<V>, b: Margins<V>, job: Job, d: V)
    requires Commutative(m) && Balanced(m, b)
    ensures Balanced(m, Post(m, b, job, d))
  {
    hide SumOver;
    SumOfAdd(m, b.byProtocol, job.protocol, d);
    SumOfAdd(m, b.byMode, job.mode, d);
    SumOfAdd(m, b.byDimension, DimensionOf(job), d);
    PostBalancedProtocols(m, b, job, d);
    PostBalancedModes(m, b, job, d);
  }

  /** A protocol (or mode) without dimensions yet sums to zero. */
  lemma SumOverNothing<K, V>(m: Monoid<V>, source: map<K, V>)
    ensures SumOver(m, source, {}) == m.zero
  {
  }

  lemma PostBalancedProtocols<V(!new)>(m: Monoid<V>, b: Margins<V>, job: Job, d: V)
    requires Commutative(m) && BalancedProtocols(m, b)
    ensures BalancedProtocols(m, Post(m, b, job, d))
  {
    hide SumOver;
    var after := Post(m, b, job, d);
    var k, keys := DimensionOf(job), b.byDimension.Keys;
    assert after.byDimension.Keys == keys + {k};
    assert k.protocol == job.protocol;
    forall p | p in after.byProtocol
      ensures after.byProtocol[p] == SumOver(m, after.byDimension, InProtocol(after.byDimension.Keys, p))
    {
      var old_, new_ := InProtocol(keys, p), InProtocol(keys + {k}, p);
      if p == job.protocol && k !in keys {
        assert new_ == old_ + {k};
      } else {
        assert new_ == old_;
      }
      PostSum(m, b.byDimension, old_, new_, k, d);
      if p !in b.byProtocol {
        assert forall e :: e in keys ==> e.protocol in b.byProtocol;
        assert old_ == {};
        SumOverNothing(m, b.byDimension);
      }
    }
  }

  lemma PostBalancedModes<V(!new)>(m: Monoid<V>, b: Margins<V>, job: Job, d: V)
    requires Commutative(m) && BalancedModes(m, b)
    ensures BalancedModes(m, Post(m, b, job, d))
  {
    hide SumOver;
    var after := Post(m, b, job, d);
    var k, keys := DimensionOf(job), b.byDimension.Keys;
    assert after.byDimension.Keys == keys + {k};
    assert k.mode == job.mode;
    forall o | o in after.byMode
      ensures after.byMode[o] == SumOver(m, after.byDimension, InMode(after.byDimension.Keys, o))
    {
      var old_, new_ := InMode(keys, o), InMode(keys + {k}, o);
      if o == job.mode && k !in keys {
        assert new_ == old_ + {k};
      } else {
        assert new_ == old_;
      }
      PostSum(m, b.byDimension, old_, new_, k, d);
      if o !in b.byMode {
        assert forall e :: e in keys ==> e.mode in b.byMode;
        assert old_ == {};
        SumOverNothing(m, b.byDimension);
      }
    }
  }
}
