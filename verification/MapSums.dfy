/** Sums of the values of a finite map, and how one update changes them. */
module MapSums {
  ghost function SumOver<K>(m: map<K, nat>, keys: set<K>): nat
    requires keys <= m.Keys
  {
    if keys == {} then 0
    else
      var k :| k in keys;
      m[k] + SumOver(m, keys - {k})
  }

  ghost function Sum<K>(m: map<K, nat>): nat { SumOver(m, m.Keys) }

  lemma SomeMember<K>(keys: set<K>) returns (k: K)
    requires keys != {}
    ensures k in keys
  {
    k :| k in keys;
  }

  /** Any key may be taken out first. */
  lemma {:induction false} SumWithout<K>(m: map<K, nat>, keys: set<K>, k: K)
    requires keys <= m.Keys && k in keys
    ensures SumOver(m, keys) == m[k] + SumOver(m, keys - {k})
    decreases |keys|
  {
    var first :| first in keys && SumOver(m, keys) == m[first] + SumOver(m, keys - {first});
    if first != k {
      SumWithout(m, keys - {first}, k);
      SumWithout(m, keys - {k}, first);
      assert keys - {first} - {k} == keys - {k} - {first};
    }
  }

  lemma {:induction false} SumAgrees<K>(m: map<K, nat>, m': map<K, nat>, keys: set<K>)
    requires keys <= m.Keys && keys <= m'.Keys && forall k <- keys :: m[k] == m'[k]
    ensures SumOver(m, keys) == SumOver(m', keys)
    decreases |keys|
  {
    if keys != {} {
      var k :| k in keys;
      SumWithout(m, keys, k);
      SumWithout(m', keys, k);
      SumAgrees(m, m', keys - {k});
    }
  }

  /** Setting one value changes the sum by the difference at that key. */
  lemma SumUpdate<K>(m: map<K, nat>, k: K, v: nat)
    ensures Sum(m[k := v]) + (if k in m then m[k] else 0) == Sum(m) + v
  {
    var m' := m[k := v];
    SumWithout(m', m'.Keys, k);
    SumAgrees(m, m', m.Keys - {k});
    assert m'.Keys - {k} == m.Keys - {k};
    if k in m { SumWithout(m, m.Keys, k); } else { assert m.Keys - {k} == m.Keys; }
  }
}
