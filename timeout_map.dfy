/**
 * `TimeOutHashMap`: a hash map whose entries carry the time they were put. An entry counts as
 * timed out once `now - time >= cacheDuration`; timed-out entries are never removed, only hidden
 * by `get`, `containsKey`, `containsValue`, `values` and `entrySet`. The clock is the `now`
 * argument of the operations that read it; `None` stands for a Java null value.
 */
module TimeOutMaps {
  import opened Wrappers

  /** A stored value with the time it was put. */
  datatype Stamped<V> = Stamped(time: int, value: Option<V>)

  /** `hasTimedOut`. */
  predicate TimedOut(cacheDuration: int, now: int, time: int) {
    now - time >= cacheDuration
  }

  /** The entry for `k` is there and has not timed out. */
  predicate Live<K, V>(m: map<K, Stamped<V>>, cacheDuration: int, now: int, k: K) {
    k in m && !TimedOut(cacheDuration, now, m[k].time)
  }

  /** `get`: the value of a live entry, otherwise null. */
  function Lookup<K, V>(m: map<K, Stamped<V>>, cacheDuration: int, now: int, k: K): Option<V> {
    if Live(m, cacheDuration, now, k) then m[k].value else None
  }

  /** The value `put` and `remove` hand back: the stored one, timed out or not. */
  function Previous<K, V>(m: map<K, Stamped<V>>, k: K): Option<V> {
    if k in m then m[k].value else None
  }

  /** `put` on the backing map. */
  function PutAt<K, V>(m: map<K, Stamped<V>>, now: int, k: K, v: Option<V>): map<K, Stamped<V>> {
    m[k := Stamped(now, v)]
  }

  /** `putAll`: the entries put one after the other, in iteration order. */
  function PutAllAt<K, V>(m: map<K, Stamped<V>>, now: int, entries: seq<(K, Option<V>)>): map<K, Stamped<V>>
    decreases |entries|
  {
    if entries == [] then m
    else
      var last := entries[|entries| - 1];
      PutAt(PutAllAt(m, now, entries[..|entries| - 1]), now, last.0, last.1)
  }

  /** `containsValue`: some live entry holds `v` (`Objects.equals`, so null matches null). */
  predicate HasLiveValue<K, V(==)>(m: map<K, Stamped<V>>, cacheDuration: int, now: int, v: Option<V>) {
    exists k | k in m :: !TimedOut(cacheDuration, now, m[k].time) && m[k].value == v
  }

  /** `entrySet`: the pairs of the live entries. */
  function LiveEntries<K(==), V(==)>(m: map<K, Stamped<V>>, cacheDuration: int, now: int): set<(K, Option<V>)> {
    set k | k in m && !TimedOut(cacheDuration, now, m[k].time) :: (k, m[k].value)
  }

  class TimeOutHashMap<K(==), V(==)> {
    const cacheDuration: int
    var backing: map<K, Stamped<V>>

    constructor (cacheDuration: int)
      ensures this.cacheDuration == cacheDuration && backing == map[]
    {
      this.cacheDuration := cacheDuration;
      backing := map[];
    }

    /** `size`: every entry, timed out or not. */
    method Size() returns (n: nat)
      ensures n == |backing|
    {
      n := |backing|;
    }

    method IsEmpty() returns (b: bool)
      ensures b <==> |backing| == 0
    {
      b := |backing| == 0;
    }

    method Get(key: K, now: int) returns (r: Option<V>)
      ensures r == Lookup(backing, cacheDuration, now, key)
    {
      if key !in backing || TimedOut(cacheDuration, now, backing[key].time) {
        return None;
      }
      r := backing[key].value;
    }

    /** `containsKey` is `get != null`. */
    method ContainsKey(key: K, now: int) returns (b: bool)
      ensures b <==> Lookup(backing, cacheDuration, now, key).Some?
    {
      var r := Get(key, now);
      b := r.Some?;
    }

    method ContainsValue(value: Option<V>, now: int) returns (b: bool)
      ensures b <==> HasLiveValue(backing, cacheDuration, now, value)
    {
      var rest := backing.Keys;
      while rest != {}
        invariant rest <= backing.Keys
        invariant forall k | k in backing.Keys - rest :: TimedOut(cacheDuration, now, backing[k].time) || backing[k].value != value
        decreases |rest|
      {
        var k :| k in rest;
        if !TimedOut(cacheDuration, now, backing[k].time) && backing[k].value == value {
          return true;
        }
        rest := rest - {k};
      }
      return false;
    }

    method Put(key: K, value: Option<V>, now: int) returns (previous: Option<V>)
      modifies this
      ensures backing == PutAt(old(backing), now, key, value)
      ensures previous == Previous(old(backing), key)
    {
      previous := Previous(backing, key);
      backing := backing[key := Stamped(now, value)];
    }

    method Remove(key: K) returns (previous: Option<V>)
      modifies this
      ensures backing == old(backing) - {key}
      ensures previous == Previous(old(backing), key)
    {
      previous := Previous(backing, key);
      backing := backing - {key};
    }

    method PutAll(entries: seq<(K, Option<V>)>, now: int)
      modifies this
      ensures backing == PutAllAt(old(backing), now, entries)
    {
      var i := 0;
      while i < |entries|
        invariant 0 <= i <= |entries|
        invariant backing == PutAllAt(old(backing), now, entries[..i])
      {
        assert entries[..i + 1][..i] == entries[..i];
        var _ := Put(entries[i].0, entries[i].1, now);
        i := i + 1;
      }
      assert entries[..i] == entries;
    }

    method Clear()
      modifies this
      ensures backing == map[]
    {
      backing := map[];
    }

    /** `keySet`: the keys of every entry, timed out or not. */
    method KeySet() returns (ks: set<K>)
      ensures ks == backing.Keys
    {
      ks := backing.Keys;
    }

    /**
     * `values`: the values of the live entries, each once, in the backing map's iteration order,
     * which `order` records.
     */
    method Values(now: int) returns (vs: seq<Option<V>>, ghost order: seq<K>)
      ensures |order| == |vs| && (forall i, j | 0 <= i < j < |order| :: order[i] != order[j])
      ensures forall k :: k in order <==> Live(backing, cacheDuration, now, k)
      ensures forall i | 0 <= i < |vs| :: order[i] in backing && vs[i] == backing[order[i]].value
      ensures forall v :: v in vs <==> HasLiveValue(backing, cacheDuration, now, v)
    {
      vs, order := [], [];
      var rest := backing.Keys;
      while rest != {}
        invariant rest <= backing.Keys
        invariant |order| == |vs| && (forall i, j | 0 <= i < j < |order| :: order[i] != order[j])
        invariant forall k :: k in order <==> k in backing.Keys - rest && Live(backing, cacheDuration, now, k)
        invariant forall i | 0 <= i < |vs| :: order[i] in backing && vs[i] == backing[order[i]].value
        decreases |rest|
      {
        var k :| k in rest;
        assert k !in order;
        if !TimedOut(cacheDuration, now, backing[k].time) {
          vs, order := vs + [backing[k].value], order + [k];
        }
        rest := rest - {k};
      }
      forall v ensures v in vs <==> HasLiveValue(backing, cacheDuration, now, v) {
        if v in vs {
          var i :| 0 <= i < |vs| && vs[i] == v;
          assert order[i] in order;
        }
        if HasLiveValue(backing, cacheDuration, now, v) {
          var k :| k in backing && !TimedOut(cacheDuration, now, backing[k].time) && backing[k].value == v;
          assert k in order;
          var i :| 0 <= i < |order| && order[i] == k;
          assert vs[i] == v;
        }
      }
    }

    method EntrySet(now: int) returns (es: set<(K, Option<V>)>)
      ensures es == LiveEntries(backing, cacheDuration, now)
    {
      es := {};
      var rest := backing.Keys;
      while rest != {}
        invariant rest <= backing.Keys
        invariant es == set k | k in backing.Keys - rest && !TimedOut(cacheDuration, now, backing[k].time) :: (k, backing[k].value)
        decreases |rest|
      {
        var k :| k in rest;
        if !TimedOut(cacheDuration, now, backing[k].time) {
          es := es + {(k, backing[k].value)};
        }
        rest := rest - {k};
      }
    }
  }

  /** Right after `put`, `get` gives the value back exactly when the duration is positive. */
  lemma GetAfterPut<K, V>(m: map<K, Stamped<V>>, d: int, now: int, k: K, v: Option<V>)
    ensures Lookup(PutAt(m, now, k, v), d, now, k) == (if d > 0 then v else None)
  {
  }

  /** `put` changes only the entry of its own key, and the entry stays readable until `time + d`. */
  lemma PutChangesOnlyItsKey<K, V>(m: map<K, Stamped<V>>, d: int, now: int, later: int, k: K, v: Option<V>, other: K)
    ensures other != k ==> Lookup(PutAt(m, now, k, v), d, later, other) == Lookup(m, d, later, other)
    ensures Lookup(PutAt(m, now, k, v), d, later, k) == (if later - now < d then v else None)
    ensures |PutAt(m, now, k, v)| == if k in m then |m| else |m| + 1
  {
  }

  /** `put` and `remove` return the stored value even when it has timed out, though `get` hides it. */
  lemma PreviousIgnoresTimeout<K, V>(m: map<K, Stamped<V>>, d: int, now: int, k: K)
    requires k in m && TimedOut(d, now, m[k].time)
    ensures Previous(m, k) == m[k].value
    ensures Lookup(m, d, now, k) == None
    ensures k in m.Keys && |m| > 0
  {
  }

  /** After `remove` the key reads as absent and the other entries are as before. */
  lemma RemoveForgets<K, V>(m: map<K, Stamped<V>>, d: int, now: int, k: K, other: K)
    ensures Lookup(m - {k}, d, now, k) == None
    ensures other != k ==> Lookup(m - {k}, d, now, other) == Lookup(m, d, now, other)
  {
  }

  /** A key mapped to null reports absent, like a missing one. */
  lemma NullValueIsNotContained<K, V>(m: map<K, Stamped<V>>, d: int, now: int, k: K)
    requires k in m && m[k].value.None?
    ensures Lookup(m, d, now, k).None?
  {
  }

  /** With a duration of zero or less everything put up to now is timed out. */
  lemma NonPositiveDurationHidesAll<K, V>(m: map<K, Stamped<V>>, d: int, now: int, k: K, v: Option<V>)
    requires d <= 0 && forall x | x in m :: m[x].time <= now
    ensures Lookup(m, d, now, k) == None
    ensures !HasLiveValue(m, d, now, v)
    ensures LiveEntries(m, d, now) == {}
  {
  }

  /** `entrySet`, `containsValue` and `get` agree on what is live. */
  lemma LiveViewsAgree<K, V>(m: map<K, Stamped<V>>, d: int, now: int, k: K, v: Option<V>)
    ensures (k, v) in LiveEntries(m, d, now) <==> Live(m, d, now, k) && m[k].value == v
    ensures (k, v) in LiveEntries(m, d, now) ==> Lookup(m, d, now, k) == v && HasLiveValue(m, d, now, v)
    ensures HasLiveValue(m, d, now, v) <==> exists x | x in m :: (x, v) in LiveEntries(m, d, now)
  {
    if HasLiveValue(m, d, now, v) {
      var x :| x in m && !TimedOut(d, now, m[x].time) && m[x].value == v;
      assert (x, v) in LiveEntries(m, d, now);
    }
  }

  /** `putAll` of two batches is the second after the first. */
  lemma {:induction false} PutAllConcat<K, V>(m: map<K, Stamped<V>>, now: int, a: seq<(K, Option<V>)>, b: seq<(K, Option<V>)>)
    ensures PutAllAt(m, now, a + b) == PutAllAt(PutAllAt(m, now, a), now, b)
    decreases |b|
  {
    if b == [] {
      assert a + b == a;
    } else {
      assert (a + b)[..|a + b| - 1] == a + b[..|b| - 1];
      PutAllConcat(m, now, a, b[..|b| - 1]);
    }
  }

  /** After `putAll`, each key reads as the last value given for it; other keys are untouched. */
  lemma {:induction false} PutAllLastWins<K, V>(m: map<K, Stamped<V>>, d: int, now: int, entries: seq<(K, Option<V>)>, k: K)
    requires d > 0
    ensures (forall i | 0 <= i < |entries| :: entries[i].0 != k) ==>
      Lookup(PutAllAt(m, now, entries), d, now, k) == Lookup(m, d, now, k)
    ensures forall i | 0 <= i < |entries| && entries[i].0 == k ::
      (forall j | i < j < |entries| :: entries[j].0 != k) ==> Lookup(PutAllAt(m, now, entries), d, now, k) == entries[i].1
    decreases |entries|
  {
    if entries != [] {
      var n := |entries|;
      var init := entries[..n - 1];
      var last := entries[n - 1];
      var before := PutAllAt(m, now, init);
      assert PutAllAt(m, now, entries) == PutAt(before, now, last.0, last.1);
      forall i | 0 <= i < |init| ensures init[i] == entries[i] {}
      if last.0 == k {
        assert Lookup(PutAllAt(m, now, entries), d, now, k) == last.1;
      } else {
        assert Lookup(PutAllAt(m, now, entries), d, now, k) == Lookup(before, d, now, k);
        PutAllLastWins(m, d, now, init, k);
      }
    }
  }
}
