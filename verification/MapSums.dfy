/** Weighted sums over the values of a map. */
module MapSums {

  ghost function AnyKey<K(!new), V(!new)>(m: map<K, V>): (k: K)
    requires |m| > 0
    ensures k in m
  {
    var k :| k in m;
    k
  }

  ghost function MapSum<K(!new), V(!new)>(m: map<K, V>, weight: V -> nat): (n: nat)
  {
    if |m| == 0 then 0 else weight(m[AnyKey(m)]) + MapSum(m - {AnyKey(m)}, weight)
  }

  /** The sum does not depend on the order in which entries are taken out. */
  lemma {:induction false} MapSumRemove<K(!new), V(!new)>(m: map<K, V>, weight: V -> nat, k: K)
    requires k in m
    ensures MapSum(m, weight) == weight(m[k]) + MapSum(m - {k}, weight)
    decreases |m|
  {
    var c := AnyKey(m);
    if c != k {
      var both := m - {c, k};
      assert m - {c} - {k} == both && m - {k} - {c} == both;
      MapSumRemove(m - {c}, weight, k);
      MapSumRemove(m - {k}, weight, c);
    }
  }

  lemma MapSumUpdate<K(!new), V(!new)>(m: map<K, V>, weight: V -> nat, k: K, v: V)
    ensures k in m ==> MapSum(m[k := v], weight) == MapSum(m, weight) - weight(m[k]) + weight(v)
    ensures k in m ==> MapSum(m, weight) >= weight(m[k])
    ensures k !in m ==> MapSum(m[k := v], weight) == MapSum(m, weight) + weight(v)
  {
    hide MapSum;
    MapSumRemove(m[k := v], weight, k);
    assert m[k := v] - {k} == m - {k};
    if k in m {
      MapSumRemove(m, weight, k);
    } else {
      assert m - {k} == m;
    }
  }

  function Restrict<K(!new), V(!new)>(m: map<K, V>, keys: set<K>): (r: map<K, V>)
    ensures r.Keys == m.Keys * keys
    ensures forall k | k in r :: r[k] == m[k]
  {
    map k | k in m && k in keys :: m[k]
  }

  lemma RestrictWithout<K(!new), V(!new)>(m: map<K, V>, keys: set<K>, k: K)
    requires k in m
    ensures k in keys ==> Restrict(m, keys) - {k} == Restrict(m - {k}, keys) && m - {k} - keys == m - keys
    ensures k !in keys ==> Restrict(m - {k}, keys) == Restrict(m, keys) && m - {k} - keys == m - keys - {k}
  {
  }

  lemma {:induction false} MapSumSplit<K(!new), V(!new)>(m: map<K, V>, weight: V -> nat, keys: set<K>)
    ensures MapSum(m, weight) == MapSum(m - keys, weight) + MapSum(Restrict(m, keys), weight)
    decreases |m|
  {
    if |m| == 0 {
      assert m - keys == m && Restrict(m, keys) == m;
    } else {
      hide MapSum, Restrict;
      var k := AnyKey(m);
      MapSumSplit(m - {k}, weight, keys);
      MapSumRemove(m, weight, k);
      RestrictWithout(m, keys, k);
      if k in keys {
        MapSumRemove(Restrict(m, keys), weight, k);
      } else {
        MapSumRemove(m - keys, weight, k);
      }
    }
  }
}
