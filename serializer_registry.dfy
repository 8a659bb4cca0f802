/**
 * `ConfigTypeSerializerRegistry`: serializers by the class they serialize. The registry is a
 * static map in the source; here it is one object.
 */
module SerializerRegistries {
  import opened Wrappers
  import opened MapViews

  /** A `Class<?>`, by name. */
  type ClassName = string

  class SerializerRegistry<S> {
    var registry: map<ClassName, S>
    /** `ConfigTypeSerializer.clazz()`. */
    const clazz: S -> ClassName

    constructor (clazz: S -> ClassName)
      ensures registry == map[] && this.clazz == clazz
    {
      registry := map[];
      this.clazz := clazz;
    }

    /** `register`: stored under its own class, replacing a serializer registered for it before. */
    method Register(serializer: S)
      modifies this
      ensures registry == old(registry)[clazz(serializer) := serializer]
    {
      registry := registry[clazz(serializer) := serializer];
    }

    /** `get`: the serializer registered for `id`, or null. */
    method Get(id: ClassName) returns (r: Option<S>)
      ensures r.Some? <==> id in registry
      ensures r.Some? ==> r.value == registry[id]
    {
      r := if id in registry then Some(registry[id]) else None;
    }

    /** `getAll`: a copy of the registered serializers, one per class. */
    method GetAll() returns (all: seq<S>, ghost order: seq<ClassName>)
      ensures Enumerates(order, registry.Keys) && |order| == |all| == |registry|
      ensures forall i | 0 <= i < |all| :: order[i] in registry && all[i] == registry[order[i]]
      ensures |all| == |registry| && forall s :: s in all <==> exists c | c in registry :: registry[c] == s
    {
      all, order := Values(registry);
    }
  }

  /**
   * After a register, a get of its class gives it and a get of any other class is unchanged; a
   * copy taken before stays as it was, being a value.
   */
  lemma RegisterThenGet<S>(registry: map<ClassName, S>, clazz: S -> ClassName, serializer: S, other: ClassName)
    ensures var after := registry[clazz(serializer) := serializer];
      clazz(serializer) in after && after[clazz(serializer)] == serializer &&
      (other != clazz(serializer) ==> (other in after <==> other in registry) && (other in registry ==> after[other] == registry[other]))
  {
  }

  /** Registering twice for the same class keeps only the second. */
  lemma ReRegisterReplaces<S>(registry: map<ClassName, S>, clazz: S -> ClassName, first: S, second: S)
    requires clazz(first) == clazz(second)
    ensures registry[clazz(first) := first][clazz(second) := second] == registry[clazz(second) := second]
    ensures |registry[clazz(first) := first][clazz(second) := second]| == |registry[clazz(first) := first]|
  {
  }
}
