/** Ranging over a map: the values come out as a list, each key once, in no particular order. */
module Listings {

  /** `list` enumerates the values of `m`, one per key. */
  ghost predicate Lists<K(!new), V>(list: seq<V>, m: map<K, V>) {
    exists order: seq<K> :: Enumerates(list, m, order)
  }

  ghost predicate Enumerates<K, V>(list: seq<V>, m: map<K, V>, order: seq<K>) {
    && |order| == |list|
    && (forall n | 0 <= n < |list| :: order[n] in m && list[n] == m[order[n]])
    && (forall i, n | 0 <= i < n < |order| :: order[i] != order[n])
    && (forall k | k in m :: k in order)
  }

  /** A listing holds exactly the values of the map. */
  lemma ListsValues<K(!new), V(!new)>(list: seq<V>, m: map<K, V>)
    requires Lists(list, m)
    ensures forall v :: v in list <==> v in m.Values
  {
    var order :| Enumerates(list, m, order);
    forall v | v in m.Values ensures v in list {
      var k :| k in m && m[k] == v;
      var n :| 0 <= n < |order| && order[n] == k;
      assert list[n] == v;
    }
    forall v | v in list ensures v in m.Values {
      var n :| 0 <= n < |list| && list[n] == v;
      assert order[n] in m;
    }
  }

  method Collect<K(==, !new), V>(m: map<K, V>) returns (out: seq<V>)
    ensures Lists(out, m)
  {
    out := [];
    var todo := m.Keys;
    ghost var order := [];
    while todo != {}
      invariant todo <= m.Keys
      invariant |order| == |out|
      invariant forall n | 0 <= n < |out| :: order[n] in m && order[n] !in todo && out[n] == m[order[n]]
      invariant forall i, n | 0 <= i < n < |order| :: order[i] != order[n]
      invariant forall k | k in m.Keys - todo :: k in order
      decreases |todo|
    {
      var k :| k in todo;
      out := out + [m[k]];
      order := order + [k];
      todo := todo - {k};
    }
    assert Enumerates(out, m, order);
  }
}
