/** Sums over finite maps, independent of the order in which the keys are visited. */
module Sums {
  datatype Monoid<!V> = Monoid(zero: V, plus: (V, V) -> V)

  ghost predicate Commutative<V(!new)>(m: Monoid<V>) {
    && (forall a, b :: m.plus(a, b) == m.plus(b, a))
    && (forall a, b, c :: m.plus(m.plus(a, b), c) == m.plus(a, m.plus(b, c)))
    && (forall a :: m.plus(m.zero, a) == a)
  }

  /** Reading an absent key of a Go map gives the zero value. */
  function Lookup<K, V>(m: Monoid<V>, source: map<K, V>, k: K): V {
    if k in source then source[k] else m.zero
  }

  function Add<K, V>(m: Monoid<V>, target: map<K, V>, k: K, d: V): map<K, V> {
    target[k := m.plus(Lookup(m, target, k), d)]
  }

  ghost function AnyOf<K>(keys: set<K>): (k: K)
    requires keys != {}
    ensures k in keys
  {
    var k :| k in keys;
    k
  }

  /** The sum of the entries of `source` at `keys`; absent keys read as zero. */
  ghost function SumOver<K, V>(m: Monoid<V>, source: map<K, V>, keys: set<K>): V {
    if keys == {} then m.zero
    else
      var k := AnyOf(keys);
      m.plus(Lookup(m, source, k), SumOver(m, source, keys - {k}))
  }

  ghost function Sum<K, V>(m: Monoid<V>, source: map<K, V>): V {
    SumOver(m, source, source.Keys)
  }

  lemma {:induction false} SumPick<K, V(!new)>(m: Monoid<V>, source: map<K, V>, keys: set<K>, k: K)
    requires Commutative(m) && k in keys
    ensures SumOver(m, source, keys) == m.plus(Lookup(m, source, k), SumOver(m, source, keys - {k}))
    decreases |keys|
  {
    var j := AnyOf(keys);
    if j != k {
      var x, y := Lookup(m, source, j), Lookup(m, source, k);
      var rest := SumOver(m, source, keys - {j} - {k});
      SumPick(m, source, keys - {j}, k);
      SumPick(m, source, keys - {k}, j);
      assert keys - {j} - {k} == keys - {k} - {j};
      assert m.plus(m.plus(x, y), rest) == m.plus(m.plus(y, x), rest);
      assert m.plus(x, m.plus(y, rest)) == m.plus(m.plus(x, y), rest);
      assert m.plus(y, m.plus(x, rest)) == m.plus(m.plus(y, x), rest);
    }
  }

  lemma {:induction false} SumFrame<K, V>(m: Monoid<V>, a: map<K, V>, b: map<K, V>, keys: set<K>)
    requires forall k :: k in keys ==> Lookup(m, a, k) == Lookup(m, b, k)
    ensures SumOver(m, a, keys) == SumOver(m, b, keys)
  {
    if keys != {} {
      SumFrame(m, a, b, keys - {AnyOf(keys)});
    }
  }

  /** Adding `d` at one key adds `d` to every sum over keys that include it. */
  lemma SumAdd<K, V(!new)>(m: Monoid<V>, source: map<K, V>, keys: set<K>, k: K, d: V)
    requires Commutative(m)
    ensures SumOver(m, Add(m, source, k, d), keys)
         == if k in keys then m.plus(SumOver(m, source, keys), d) else SumOver(m, source, keys)
  {
    var after := Add(m, source, k, d);
    SumFrame(m, source, after, keys - {k});
    if k in keys {
      SumPick(m, source, keys, k);
      SumPick(m, after, keys, k);
      var x, rest := Lookup(m, source, k), SumOver(m, source, keys - {k});
      assert m.plus(m.plus(x, d), rest) == m.plus(x, m.plus(d, rest));
      assert m.plus(m.plus(x, rest), d) == m.plus(x, m.plus(rest, d));
    } else {
      assert keys - {k} == keys;
    }
  }

  /** A key that is absent contributes nothing. */
  lemma SumWithAbsent<K, V(!new)>(m: Monoid<V>, source: map<K, V>, keys: set<K>, k: K)
    requires Commutative(m) && k !in source
    ensures SumOver(m, source, keys + {k}) == SumOver(m, source, keys)
  {
    if k !in keys {
      SumPick(m, source, keys + {k}, k);
      assert keys + {k} - {k} == keys;
    } else {
      assert keys + {k} == keys;
    }
  }

  lemma SumOfAdd<K, V(!new)>(m: Monoid<V>, source: map<K, V>, k: K, d: V)
    requires Commutative(m)
    ensures Sum(m, Add(m, source, k, d)) == m.plus(Sum(m, source), d)
  {
    var after := Add(m, source, k, d);
    assert after.Keys == source.Keys + {k};
    SumAdd(m, source, after.Keys, k, d);
    if k !in source {
      SumWithAbsent(m, source, source.Keys, k);
    } else {
      assert after.Keys == source.Keys;
    }
  }
}
