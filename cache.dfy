/**
 * Cache: the property wrapper bound to one key and one lifetime. Reading
 * returns the stored value only while its entry is alive; writing a value
 * stores it with the current date; writing nil does nothing. The wrapper's
 * generic `Value` is the Swift type `valueType`, and it refers to an
 * explicit container instead of the shared one.
 */
module PropertyWrapper {

  import opened Wrappers
  import opened Lifetimes
  import opened Cacheable
  import opened Entry
  import opened Codec
  import opened Container

  class Cache {

    const key: CacheKey
    const lifetime: Lifetime
    const valueType: Type
    const container: CacheContainer

    /** `init(key:lifetime:)`: binds the wrapper and writes nothing. */
    constructor(key: CacheKey, lifetime: Lifetime, valueType: Type, container: CacheContainer)
      ensures this.key == key && this.valueType == valueType && this.container == container
      ensures this.lifetime == lifetime
    {
      this.key := key;
      this.lifetime := lifetime;
      this.valueType := valueType;
      this.container := container;
    }

    /**
     * `init(wrappedValue:key:lifetime:)`: binds the wrapper and, for a
     * non-nil value, stores it with the date `now`.
     */
    constructor WithValue(wrappedValue: Option<Value>, key: CacheKey, lifetime: Lifetime, valueType: Type,
                          container: CacheContainer, now: Date)
      requires wrappedValue.Some? ==> HasType(wrappedValue.value, valueType)
      modifies container
      ensures this.key == key && this.valueType == valueType && this.container == container
      ensures this.lifetime == lifetime
      ensures wrappedValue.None? ==> container.storage == old(container.storage)
      ensures wrappedValue.Some? ==> container.storage == Put(old(container.storage), key, CacheData(wrappedValue.value, now))
      ensures wrappedValue.Some? && Representable(wrappedValue.value) ==>
                forall date | now <= date <= lifetime.makeExpiredDate(now) :: Get(date) == wrappedValue
    {
      this.key := key;
      this.lifetime := lifetime;
      this.valueType := valueType;
      this.container := container;
      new;
      if wrappedValue.Some? {
        container.SetValue(wrappedValue.value, key, now);
        LookupAfterPut(old(container.storage), key, CacheData(wrappedValue.value, now), valueType);
      }
    }

    /**
     * The `wrappedValue` getter at the date `now`: nothing for a missing key
     * or an entry that does not decode as `valueType`; the stored value when
     * its entry is alive; nothing when it is not.
     */
    function Get(now: Date): (r: Option<Value>)
      reads container
      ensures key !in container.storage ==> r == None
      ensures r.Some? ==> HasType(r.value, valueType)
      ensures var entry := Lookup(container.storage, key, valueType);
              && (entry.None? ==> r == None)
              && (entry.Some? && entry.value.IsAlive(lifetime, now) ==> r == Some(entry.value.value))
              && (entry.Some? && !entry.value.IsAlive(lifetime, now) ==> r == None)
    {
      match container.ValueForKey(key, valueType)
      case None => None
      case Some(data) => if data.IsAlive(lifetime, now) then Some(data.value) else None
    }

    /**
     * The `wrappedValue` setter at the date `now`: nil leaves the container
     * alone; a value is stored under the key with the date `now`, so it is
     * read back for as long as the lifetime keeps it alive.
     */
    method Set(newValue: Option<Value>, now: Date)
      requires newValue.Some? ==> HasType(newValue.value, valueType)
      modifies container
      ensures newValue.None? ==> container.storage == old(container.storage)
      ensures newValue.Some? ==> container.storage == Put(old(container.storage), key, CacheData(newValue.value, now))
      ensures newValue.Some? && Representable(newValue.value) ==>
                forall date | now <= date <= lifetime.makeExpiredDate(now) :: Get(date) == newValue
    {
      if newValue.Some? {
        container.SetValue(newValue.value, key, now);
        LookupAfterPut(old(container.storage), key, CacheData(newValue.value, now), valueType);
      }
    }
  }

  /**
   * With `until(0)`, a value written at date 10 is stored and reads back
   * under its type, yet the range its aliveness check builds is inverted
   * (10...0), so `isAlive` as written traps; the corrected check says the
   * entry is not alive.
   */
  lemma ExpiredUntilTrapsAsWritten()
    ensures var lifetime, entry := Lifetime.Until(0), CacheData(Str("value"), 10);
            && Lookup(Put(map[], "key", entry), "key", StringType) == Some(entry)
            && !lifetime.Admits(entry.cacheDate)
            && forall now :: !entry.IsAlive(lifetime, now)
  {
  }
}
