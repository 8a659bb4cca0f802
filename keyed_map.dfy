/**
 * `Key` and `KeyedMap`: a map from typed keys to values. A key is a name, a value type and a
 * placeholder function; two keys are the same key when name and value type agree, whatever
 * their placeholder functions. A keyed map is itself a placeholder: `replace` passes a string
 * through the placeholder of every entry's key, in the backing map's iteration order.
 */
module KeyedMaps {
  import opened Wrappers
  import opened MapViews

  /** A `Class<T>`, by name. */
  type TypeName = string

  /** A `Key<T>`. */
  datatype Key<!V> = Key(key: string, valueType: TypeName, placeholder: (string, V) -> string)

  /** What `equals` and `hashCode` look at. */
  datatype KeyId = KeyId(key: string, valueType: TypeName)

  function Id<V>(k: Key<V>): KeyId {
    KeyId(k.key, k.valueType)
  }

  /** `Key.equals`. */
  predicate KeyEquals<V>(a: Key<V>, b: Key<V>) {
    a.key == b.key && a.valueType == b.valueType
  }

  /** `Key.hashCode`, given `Objects.hash` on the name and the value type. */
  function KeyHash<V>(k: Key<V>, hash: (string, TypeName) -> int): int {
    hash(k.key, k.valueType)
  }

  /** `Key.replace`. */
  function Replace<V>(k: Key<V>, s: string, value: V): string {
    k.placeholder(s, value)
  }

  /** The placeholder leaves every string as it is. */
  ghost predicate IsIdentity<V(!new)>(k: Key<V>) {
    forall s, value :: k.placeholder(s, value) == s
  }

  /** The two-argument constructor: an identity placeholder; the getters return the arguments. */
  function SimpleKey<V(!new)>(key: string, valueType: TypeName): (k: Key<V>)
    ensures k.key == key && k.valueType == valueType
    ensures IsIdentity(k)
    ensures forall s, value :: Replace(k, s, value) == s
  {
    Key(key, valueType, (s: string, value: V) => s)
  }

  /** `equals` is the equality of `Id`, so it is an equivalence that ignores the placeholder, and `hashCode` agrees with it. */
  lemma KeyEqualsIsIdEquality<V>(a: Key<V>, b: Key<V>, hash: (string, TypeName) -> int)
    ensures KeyEquals(a, b) <==> Id(a) == Id(b)
    ensures KeyEquals(a, b) ==> KeyHash(a, hash) == KeyHash(b, hash)
    ensures KeyEquals(a, a) && (KeyEquals(a, b) ==> KeyEquals(b, a))
    ensures forall p: (string, V) -> string :: KeyEquals(a, Key(a.key, a.valueType, p))
  {
  }

  /** The backing map: each stored key with its value, by identity. */
  type Entries<!V> = map<KeyId, (Key<V>, V)>

  /** `HashMap.put`: an equal key already present stays the stored key, only its value changes. */
  function PutEntry<V>(m: Entries<V>, k: Key<V>, value: V): Entries<V> {
    m[Id(k) := (if Id(k) in m then m[Id(k)].0 else k, value)]
  }

  /** `get`: the stored value, or null when the key was never put. */
  function Lookup<V>(m: Entries<V>, k: Key<V>): Option<V> {
    if Id(k) in m then Some(m[Id(k)].1) else None
  }

  /** The string after passing through the placeholders of the entries in `order`. */
  function ReplaceAlong<V>(m: Entries<V>, s: string, order: seq<KeyId>): string
    requires forall id | id in order :: id in m
    decreases |order|
  {
    if order == [] then s
    else
      var id := order[|order| - 1];
      Replace(m[id].0, ReplaceAlong(m, s, order[..|order| - 1]), m[id].1)
  }

  class KeyedMap<!V> {
    /** Whether the backing map rejects `put` (the `Map.of()` behind `EMPTY`). */
    const immutable: bool
    var entries: Entries<V>

    /** `new KeyedMap()`: an empty `HashMap`. */
    constructor ()
      ensures entries == map[] && !immutable
    {
      entries := map[];
      immutable := false;
    }

    /** The value behind `empty()`: empty and unmodifiable. */
    constructor Empty()
      ensures entries == map[] && immutable
    {
      entries := map[];
      immutable := true;
    }

    /** `put`; on the unmodifiable map it throws, which is `accepted == false`. */
    method Put(k: Key<V>, value: V) returns (accepted: bool)
      modifies this
      ensures accepted == !immutable
      ensures accepted ==> entries == PutEntry(old(entries), k, value)
      ensures !accepted ==> entries == old(entries)
    {
      if immutable {
        return false;
      }
      entries := PutEntry(entries, k, value);
      return true;
    }

    method Get(k: Key<V>) returns (r: Option<V>)
      ensures r == Lookup(entries, k)
    {
      if Id(k) !in entries {
        return None;
      }
      return Some(entries[Id(k)].1);
    }

    /** `replace`: the string through every entry's placeholder, in the (unspecified) iteration order `order`. */
    method ReplaceAll(s: string) returns (r: string, ghost order: seq<KeyId>)
      ensures Enumerates(order, entries.Keys)
      ensures r == ReplaceAlong(entries, s, order)
      ensures entries == map[] ==> r == s
    {
      r := s;
      order := [];
      var rest := entries.Keys;
      while rest != {}
        invariant rest <= entries.Keys
        invariant forall id | id in order :: id in entries && id !in rest
        invariant forall id | id in entries :: id in order || id in rest
        invariant forall i, j | 0 <= i < j < |order| :: order[i] != order[j]
        invariant r == ReplaceAlong(entries, s, order)
        decreases |rest|
      {
        var id :| id in rest;
        assert id !in order;
        ReplaceAlongSnoc(entries, s, order, id);
        r := Replace(entries[id].0, r, entries[id].1);
        order := order + [id];
        rest := rest - {id};
      }
    }
  }

  /** One more entry in the iteration: its placeholder is applied last. */
  lemma ReplaceAlongSnoc<V>(m: Entries<V>, s: string, order: seq<KeyId>, id: KeyId)
    requires id in m && forall k | k in order :: k in m
    ensures forall k | k in order + [id] :: k in m
    ensures ReplaceAlong(m, s, order + [id]) == Replace(m[id].0, ReplaceAlong(m, s, order), m[id].1)
  {
    assert (order + [id])[..|order|] == order;
  }

  /** After `put(k, v)`, `get(k)` is `v`, and `get` of any other key is what it was. */
  lemma GetAfterPut<V>(m: Entries<V>, k: Key<V>, value: V, other: Key<V>)
    ensures Lookup(PutEntry(m, k, value), k) == Some(value)
    ensures !KeyEquals(other, k) ==> Lookup(PutEntry(m, k, value), other) == Lookup(m, other)
    ensures KeyEquals(other, k) ==> Lookup(PutEntry(m, k, value), other) == Some(value)
  {
  }

  /** `put` touches only its own entry; re-putting an equal key keeps the first key's placeholder. */
  lemma PutChangesOnlyItsKey<V>(m: Entries<V>, k: Key<V>, value: V)
    ensures PutEntry(m, k, value).Keys == m.Keys + {Id(k)}
    ensures forall id | id in m && id != Id(k) :: PutEntry(m, k, value)[id] == m[id]
    ensures Id(k) in m ==> PutEntry(m, k, value)[Id(k)].0 == m[Id(k)].0
  {
  }

  /** A sequence of `put` calls, in order. */
  function PutEach<V>(m: Entries<V>, puts: seq<(Key<V>, V)>): Entries<V>
    decreases |puts|
  {
    if puts == [] then m else PutEach(PutEntry(m, puts[0].0, puts[0].1), puts[1..])
  }

  /**
   * `get` of a key is untouched by any history of `put`s of keys not equal to it; in
   * particular, a key never put into a new map reads as null.
   */
  lemma {:induction false} GetNeverPut<V>(m: Entries<V>, puts: seq<(Key<V>, V)>, k: Key<V>)
    requires forall i | 0 <= i < |puts| :: !KeyEquals(puts[i].0, k)
    ensures Lookup(PutEach(m, puts), k) == Lookup(m, k)
    ensures m == map[] ==> Lookup(PutEach(m, puts), k) == None
    decreases |puts|
  {
    if puts != [] {
      GetAfterPut(m, puts[0].0, puts[0].1, k);
      GetNeverPut(PutEntry(m, puts[0].0, puts[0].1), puts[1..], k);
    }
  }

  /** With no entries, `replace` is the identity. */
  lemma ReplaceEmpty<V>(m: Entries<V>, s: string, order: seq<KeyId>)
    requires m == map[] && forall id | id in order :: id in m
    ensures ReplaceAlong(m, s, order) == s
  {
  }

  /** When every key has the identity placeholder, `replace` is the identity in every iteration order. */
  lemma {:induction false} ReplaceIdentityKeys<V(!new)>(m: Entries<V>, s: string, order: seq<KeyId>)
    requires forall id | id in order :: id in m
    requires forall id | id in m :: IsIdentity(m[id].0)
    ensures ReplaceAlong(m, s, order) == s
    decreases |order|
  {
    if order != [] {
      var prefix := order[..|order| - 1];
      assert forall id | id in prefix :: id in order;
      ReplaceIdentityKeys(m, s, prefix);
      var id := order[|order| - 1];
      assert id in order;
      var stored := m[id];
      assert IsIdentity(stored.0);
      assert stored.0.placeholder(s, stored.1) == s;
    }
  }

  /** Keys made by the two-argument constructor leave `replace` the identity. */
  lemma SimpleKeysReplaceNothing<V(!new)>(name: string, valueType: TypeName, value: V, s: string)
    ensures var m := PutEntry(map[], SimpleKey<V>(name, valueType), value);
      forall order: seq<KeyId> | (forall id | id in order :: id in m) :: ReplaceAlong(m, s, order) == s
  {
    var m := PutEntry(map[], SimpleKey<V>(name, valueType), value);
    forall order: seq<KeyId> | (forall id | id in order :: id in m)
      ensures ReplaceAlong(m, s, order) == s
    {
      ReplaceIdentityKeys(m, s, order);
    }
  }
}
