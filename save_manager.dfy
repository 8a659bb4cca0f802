/**
 * `AbstractSaveManager`: the registered attribute data by attribute class, the shared
 * attributes (one inner map per attribute class), and the error handler. Both shared-attribute
 * operations go through `computeIfAbsent`, so even a lookup leaves an (empty) inner map behind.
 */
module SaveManagers {
  import opened Wrappers

  /** A `Class<? extends Attribute<?>>`, by name. */
  type ClassName = string

  /** A `PlayerManager.AttributeData`: its `attributeClass()` and the rest of the record. */
  datatype AttributeData<D> = AttributeData(attributeClass: ClassName, data: D)

  /** The error handler: the built-in logging one, or one supplied to the constructor. */
  datatype ErrorHandler<H> = LogError | Supplied(handler: H)

  /** The `NullPointerException` of `Preconditions.checkNotNull`. */
  datatype NullAttribute = NullAttribute(message: string)

  const NULL_ATTRIBUTE_MESSAGE: string := "Cannot register null attribute"

  /** `computeIfAbsent(cls, _ -> new HashMap())`. */
  function WithInner<K, A>(shared: map<ClassName, map<K, A>>, cls: ClassName): (r: map<ClassName, map<K, A>>)
    ensures cls in r && r.Keys == shared.Keys + {cls}
    ensures forall c | c in shared :: r[c] == shared[c]
    ensures cls !in shared ==> r[cls] == map[]
  {
    if cls in shared then shared else shared[cls := map[]]
  }

  /** `getSharedAttribute`: the inner map's entry for `key`, or null. */
  function SharedLookup<K, A>(shared: map<ClassName, map<K, A>>, cls: ClassName, key: K): Option<A> {
    var inner := WithInner(shared, cls)[cls];
    if key in inner then Some(inner[key]) else None
  }

  /** `addSharedAttribute`: the entry put into the inner map of its class. */
  function SharedAdd<K, A>(shared: map<ClassName, map<K, A>>, cls: ClassName, key: K, attribute: A): map<ClassName, map<K, A>> {
    var with := WithInner(shared, cls);
    with[cls := with[cls][key := attribute]]
  }

  class SaveManager<D, K(==), A, H> {
    var registered: map<ClassName, AttributeData<D>>
    var shared: map<ClassName, map<K, A>>
    var errorHandler: ErrorHandler<H>
    /** `attribute.getClass()`. */
    const classOf: A -> ClassName

    /** A null handler keeps the logging default; any other replaces it. */
    constructor (errorHandler: Option<H>, classOf: A -> ClassName)
      ensures registered == map[] && shared == map[] && this.classOf == classOf
      ensures errorHandler.None? ==> this.errorHandler == LogError
      ensures errorHandler.Some? ==> this.errorHandler == Supplied(errorHandler.value)
    {
      registered := map[];
      shared := map[];
      this.classOf := classOf;
      this.errorHandler := if errorHandler.Some? then Supplied(errorHandler.value) else LogError;
    }

    method GetErrorHandler() returns (r: ErrorHandler<H>)
      ensures r == errorHandler
    {
      r := errorHandler;
    }

    /** `registerAttribute`: a null attribute is rejected; otherwise it replaces any earlier entry for its class. */
    method RegisterAttribute(attribute: Option<AttributeData<D>>) returns (r: Result<(), NullAttribute>)
      modifies this`registered
      ensures attribute.None? <==> r == Failure(NullAttribute(NULL_ATTRIBUTE_MESSAGE))
      ensures attribute.None? ==> registered == old(registered)
      ensures attribute.Some? ==> registered == old(registered)[attribute.value.attributeClass := attribute.value]
    {
      if attribute.None? {
        return Failure(NullAttribute(NULL_ATTRIBUTE_MESSAGE));
      }
      registered := registered[attribute.value.attributeClass := attribute.value];
      return Success(());
    }

    /** `getSharedAttribute`: the lookup, which also creates the inner map of `cls` when missing. */
    method GetSharedAttribute(cls: ClassName, key: K) returns (r: Option<A>)
      modifies this`shared
      ensures shared == WithInner(old(shared), cls)
      ensures r == SharedLookup(old(shared), cls, key)
    {
      shared := WithInner(shared, cls);
      var inner := shared[cls];
      r := if key in inner then Some(inner[key]) else None;
    }

    /** `addSharedAttribute`: stored under the attribute's own class. */
    method AddSharedAttribute(key: K, attribute: A)
      modifies this`shared
      ensures shared == SharedAdd(old(shared), classOf(attribute), key, attribute)
    {
      var cls := classOf(attribute);
      shared := WithInner(shared, cls);
      shared := shared[cls := shared[cls][key := attribute]];
    }
  }

  /** After adding `a` under `key`, looking up `key` in the class of `a` gives `a`; other keys are as before. */
  lemma GetAfterAdd<K, A>(shared: map<ClassName, map<K, A>>, cls: ClassName, key: K, attribute: A, other: K)
    ensures SharedLookup(SharedAdd(shared, cls, key, attribute), cls, key) == Some(attribute)
    ensures other != key ==> SharedLookup(SharedAdd(shared, cls, key, attribute), cls, other) == SharedLookup(shared, cls, other)
  {
  }

  /** Adding under one class leaves every other class's inner map as it was. */
  lemma AddLeavesOtherClasses<K, A>(shared: map<ClassName, map<K, A>>, cls: ClassName, key: K, attribute: A)
    ensures SharedAdd(shared, cls, key, attribute).Keys == shared.Keys + {cls}
    ensures forall c | c in shared && c != cls :: SharedAdd(shared, cls, key, attribute)[c] == shared[c]
  {
  }

  /** Re-adding under the same key replaces the entry: the last add wins. */
  lemma ReAddReplaces<K, A>(shared: map<ClassName, map<K, A>>, cls: ClassName, key: K, first: A, second: A)
    ensures SharedAdd(SharedAdd(shared, cls, key, first), cls, key, second) == SharedAdd(shared, cls, key, second)
  {
    var with := WithInner(shared, cls);
    var once := SharedAdd(shared, cls, key, first);
    assert WithInner(once, cls) == once;
    assert with[cls][key := first][key := second] == with[cls][key := second];
  }

  /** A lookup of a missing entry is null and leaves an empty inner map for a class that had none. */
  lemma MissingLookupLeavesEmptyInner<K, A>(shared: map<ClassName, map<K, A>>, cls: ClassName, key: K)
    requires cls !in shared
    ensures SharedLookup(shared, cls, key).None?
    ensures WithInner(shared, cls) == shared[cls := map[]]
  {
  }
}
