/** Sums over the values of a map. */
module Sums {

  ghost function SumOver<K(!new)>(keys: set<K>, m: map<K, int>): int
    requires keys <= m.Keys
  {
    if keys == {} then 0
    else
      var k :| k in keys;
      m[k] + SumOver(keys - {k}, m)
  }

  ghost function Sum<K(!new)>(m: map<K, int>): int { SumOver(m.Keys, m) }

  /** Any key can be split off. */
  lemma {:induction false} Split<K(!new)>(keys: set<K>, m: map<K, int>, k: K)
    requires k in keys && keys <= m.Keys
    ensures SumOver(keys, m) == m[k] + SumOver(keys - {k}, m)
    decreases |keys|
  {
    var first :| first in keys && SumOver(keys, m) == m[first] + SumOver(keys - {first}, m);
    if first != k {
      Split(keys - {first}, m, k);
      Split(keys - {k}, m, first);
      assert keys - {first} - {k} == keys - {k} - {first};
    }
  }

  /** A sum depends on nothing but the values summed. */
  lemma {:induction false} SumSame<K(!new)>(keys: set<K>, m: map<K, int>, m': map<K, int>)
    requires keys <= m.Keys && keys <= m'.Keys
    requires forall k :: k in keys ==> m[k] == m'[k]
    ensures SumOver(keys, m) == SumOver(keys, m')
    decreases |keys|
  {
    if keys != {} {
      var k :| k in keys;
      Split(keys, m, k);
      Split(keys, m', k);
      SumSame(keys - {k}, m, m');
    }
  }

  lemma SumSplit<K(!new)>(m: map<K, int>, k: K)
    requires k in m
    ensures Sum(m) == m[k] + Sum(m - {k})
  {
    Split(m.Keys, m, k);
    assert (m - {k}).Keys == m.Keys - {k};
    SumSame(m.Keys - {k}, m, m - {k});
  }

  lemma SumUpdate<K(!new)>(m: map<K, int>, k: K, v: int)
    ensures Sum(m[k := v]) == Sum(m) - (if k in m then m[k] else 0) + v
  {
    var m' := m[k := v];
    Split(m'.Keys, m', k);
    SumSame(m.Keys - {k}, m, m');
    assert m'.Keys - {k} == m.Keys - {k};
    if k in m {
      Split(m.Keys, m, k);
    } else {
      assert m.Keys - {k} == m.Keys;
    }
  }

  lemma {:induction false} SumZeroOver<K(!new)>(keys: set<K>, m: map<K, int>)
    requires keys <= m.Keys && forall k :: k in keys ==> m[k] == 0
    ensures SumOver(keys, m) == 0
    decreases |keys|
  {
    if keys != {} {
      var k :| k in keys;
      Split(keys, m, k);
      SumZeroOver(keys - {k}, m);
    }
  }

  lemma {:induction false} SumNotNegative<K(!new)>(keys: set<K>, m: map<K, int>)
    requires keys <= m.Keys && forall k :: k in keys ==> m[k] >= 0
    ensures SumOver(keys, m) >= 0
    decreases |keys|
  {
    if keys != {} {
      var k :| k in keys;
      Split(keys, m, k);
      SumNotNegative(keys - {k}, m);
    }
  }

  lemma SumZero<K(!new)>(m: map<K, int>)
    requires forall k :: k in m ==> m[k] == 0
    ensures Sum(m) == 0
  {
    SumZeroOver(m.Keys, m);
  }
}
