/**
 * Copies of a hash map's contents in its iteration order (`List.copyOf(map.values())`). The
 * order is unspecified, so it is returned as a ghost enumeration of the keys.
 */
module MapViews {

  /** `order` lists every element of `keys` exactly once. */
  predicate Enumerates<K>(order: seq<K>, keys: set<K>) {
    (forall i, j | 0 <= i < j < |order| :: order[i] != order[j])
    && (forall k | k in order :: k in keys)
    && (forall k | k in keys :: k in order)
  }

  /** An enumeration is as long as the set it enumerates. */
  lemma {:induction false} EnumerationLength<K>(order: seq<K>, keys: set<K>)
    requires Enumerates(order, keys)
    ensures |order| == |keys|
    decreases |order|
  {
    if order != [] {
      var last := order[|order| - 1];
      var prefix := order[..|order| - 1];
      assert last in order;
      assert forall k | k in prefix :: k in order && k != last by {
        forall k | k in prefix ensures k in order && k != last {
          var i :| 0 <= i < |prefix| && prefix[i] == k;
          assert order[i] == k;
        }
      }
      forall k | k in keys - {last} ensures k in prefix {
        assert k in order;
        var i :| 0 <= i < |order| && order[i] == k;
        assert i != |order| - 1;
        assert prefix[i] == k;
      }
      assert Enumerates(prefix, keys - {last});
      EnumerationLength(prefix, keys - {last});
    }
  }

  /** `List.copyOf(map.values())`: one value per key, in the enumeration `order`. */
  method Values<K, V>(m: map<K, V>) returns (vs: seq<V>, ghost order: seq<K>)
    ensures Enumerates(order, m.Keys)
    ensures |vs| == |order| == |m|
    ensures forall i | 0 <= i < |vs| :: order[i] in m && vs[i] == m[order[i]]
    ensures |vs| == |m| && forall v :: v in vs <==> exists k | k in m :: m[k] == v
  {
    vs := [];
    order := [];
    var rest := m.Keys;
    while rest != {}
      invariant rest <= m.Keys
      invariant forall i, j | 0 <= i < j < |order| :: order[i] != order[j]
      invariant forall k | k in order :: k in m && k !in rest
      invariant forall k | k in m :: k in order || k in rest
      invariant |vs| == |order|
      invariant forall i | 0 <= i < |vs| :: order[i] in m && vs[i] == m[order[i]]
      decreases |rest|
    {
      var k :| k in rest;
      assert k !in order;
      vs := vs + [m[k]];
      order := order + [k];
      rest := rest - {k};
    }
    EnumerationLength(order, m.Keys);
    forall v ensures v in vs <==> exists k | k in m :: m[k] == v {
      ValuesAreTheMapValues(m, vs, order, v);
    }
  }

  /** Every value of the map is in the copy, and nothing else is. */
  lemma ValuesAreTheMapValues<K, V>(m: map<K, V>, vs: seq<V>, order: seq<K>, v: V)
    requires Enumerates(order, m.Keys)
    requires |vs| == |order| && forall i | 0 <= i < |vs| :: order[i] in m && vs[i] == m[order[i]]
    ensures v in vs <==> exists k | k in m :: m[k] == v
  {
    if v in vs {
      var i :| 0 <= i < |vs| && vs[i] == v;
      assert m[order[i]] == v;
    }
    if exists k | k in m :: m[k] == v {
      var k :| k in m && m[k] == v;
      assert k in order;
      var i :| 0 <= i < |order| && order[i] == k;
      assert vs[i] == v;
    }
  }
}
