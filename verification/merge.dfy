/** Margins of several agents merged key by key; merging is itself a commutative sum. */
module Merging {
  import opened Sums
  import opened Marginals

  /** For every key of `source`: read the target's entry (zero if absent), add, write back. */
  function MergeMap<K, V>(m: Monoid<V>, target: map<K, V>, source: map<K, V>): map<K, V> {
    map k | k in target.Keys + source.Keys :: m.plus(Lookup(m, target, k), Lookup(m, source, k))
  }

  function MergeMargins<V>(m: Monoid<V>, target: Margins<V>, source: Margins<V>): Margins<V> {
    Margins(m.plus(target.total, source.total), MergeMap(m, target.byProtocol, source.byProtocol),
            MergeMap(m, target.byMode, source.byMode), MergeMap(m, target.byDimension, source.byDimension))
  }

  function Merged<V>(m: Monoid<V>): Monoid<Margins<V>> {
    Monoid(Empty(m), (a, b) => MergeMargins(m, a, b))
  }

  function MergedMaps<K, V>(m: Monoid<V>): Monoid<map<K, V>> {
    Monoid(map[], (a, b) => MergeMap(m, a, b))
  }

  lemma LookupMerged<K(!new), V(!new)>(m: Monoid<V>, a: map<K, V>, b: map<K, V>, k: K)
    requires Commutative(m)
    ensures Lookup(m, MergeMap(m, a, b), k) == m.plus(Lookup(m, a, k), Lookup(m, b, k))
  {
  }

  lemma MapsCommute<K(!new), V(!new)>(m: Monoid<V>, a: map<K, V>, b: map<K, V>)
    requires Commutative(m)
    ensures MergeMap(m, a, b) == MergeMap(m, b, a)
    ensures MergeMap(m, map[], a) == a
  {
  }

  lemma MapsAssociate<K(!new), V(!new)>(m: Monoid<V>, a: map<K, V>, b: map<K, V>, c: map<K, V>)
    requires Commutative(m)
    ensures MergeMap(m, MergeMap(m, a, b), c) == MergeMap(m, a, MergeMap(m, b, c))
  {
    var left, right := MergeMap(m, MergeMap(m, a, b), c), MergeMap(m, a, MergeMap(m, b, c));
    assert left.Keys == right.Keys;
    forall k | k in left ensures left[k] == right[k] {
      LookupMerged(m, a, b, k);
      LookupMerged(m, b, c, k);
    }
  }

  lemma MergedMapsCommutative<K(!new), V(!new)>(m: Monoid<V>)
    requires Commutative(m)
    ensures Commutative(MergedMaps<K, V>(m))
  {
    hide MergeMap;
    var n := MergedMaps<K, V>(m);
    forall a, b ensures n.plus(a, b) == n.plus(b, a) {
      MapsCommute(m, a, b);
    }
    forall a, b, c ensures n.plus(n.plus(a, b), c) == n.plus(a, n.plus(b, c)) {
      MapsAssociate(m, a, b, c);
    }
    forall a ensures n.plus(n.zero, a) == a {
      MapsCommute(m, a, a);
    }
  }

  lemma MergedCommutative<V(!new)>(m: Monoid<V>)
    requires Commutative(m)
    ensures Commutative(Merged(m))
  {
    hide MergeMap;
    var n := Merged(m);
    forall a, b ensures n.plus(a, b) == n.plus(b, a) {
      MapsCommute(m, a.byProtocol, b.byProtocol);
      MapsCommute(m, a.byMode, b.byMode);
      MapsCommute(m, a.byDimension, b.byDimension);
    }
    forall a, b, c ensures n.plus(n.plus(a, b), c) == n.plus(a, n.plus(b, c)) {
      MapsAssociate(m, a.byProtocol, b.byProtocol, c.byProtocol);
      MapsAssociate(m, a.byMode, b.byMode, c.byMode);
      MapsAssociate(m, a.byDimension, b.byDimension, c.byDimension);
    }
    forall a ensures n.plus(n.zero, a) == a {
      MapsCommute(m, a.byProtocol, a.byProtocol);
      MapsCommute(m, a.byMode, a.byMode);
      MapsCommute(m, a.byDimension, a.byDimension);
    }
  }

  /** Taking totals turns a sum of margins into a sum of totals. */
  lemma {:induction false} TotalOfSum<K(!new), V(!new)>(m: Monoid<V>, parts: map<K, Margins<V>>, keys: set<K>)
    requires keys <= parts.Keys
    ensures SumOver(Merged(m), parts, keys).total == SumOver(m, map k | k in parts :: parts[k].total, keys)
  {
    if keys != {} {
      TotalOfSum(m, parts, keys - {AnyOf(keys)});
    }
  }
}
