/**
 * CacheContainer: the store that maps each cache key to the encoded entry
 * last written under it. The process-wide `shared` instance is modelled as
 * an explicit object, and the clock as an explicit date argument.
 */
module Container {

  import opened Wrappers
  import opened Lifetimes
  import opened Cacheable
  import opened Entry
  import opened Codec

  type CacheKey = string

  /**
   * The storage after `storage[key] = try? encode(entry)`: the key maps to
   * the new encoding, or is removed when encoding fails (assigning nil to a
   * dictionary subscript deletes the key). No other key changes.
   */
  function Put(storage: map<CacheKey, Data>, key: CacheKey, entry: CacheData): (r: map<CacheKey, Data>)
    ensures key in r <==> Representable(entry.value)
    ensures key in r ==> Some(r[key]) == EncodeEntry(entry)
    ensures r - {key} == storage - {key}
  {
    match EncodeEntry(entry)
    case Some(data) => storage[key := data]
    case None => storage - {key}
  }

  /**
   * `value(forKey:)` for the Swift type `t`: nothing for a missing key or
   * for data that does not decode as `t`, otherwise the decoded entry.
   */
  function Lookup(storage: map<CacheKey, Data>, key: CacheKey, t: Type): (r: Option<CacheData>)
    ensures key !in storage ==> r == None
    ensures r.Some? ==> key in storage && HasType(r.value.value, t) && EncodeEntry(r.value) == Some(storage[key])
  {
    if key !in storage then None else DecodeEntry(storage[key], t)
  }

  /**
   * Reading a key right after writing it gives back the written entry when
   * it was encodable and is requested at a type its value has, and nothing
   * otherwise.
   */
  lemma LookupAfterPut(storage: map<CacheKey, Data>, key: CacheKey, entry: CacheData, t: Type)
    ensures Lookup(Put(storage, key, entry), key, t)
            == if Representable(entry.value) && HasType(entry.value, t) then Some(entry) else None
  {
    if Representable(entry.value) {
      DecodeEncodedEntry(entry, t);
    }
  }

  /** Writing one key leaves what every other key reads unchanged. */
  lemma LookupOtherAfterPut(storage: map<CacheKey, Data>, key: CacheKey, other: CacheKey, entry: CacheData, t: Type)
    requires other != key
    ensures Lookup(Put(storage, key, entry), other, t) == Lookup(storage, other, t)
  {
  }

  /** A second write to a key wipes out every trace of the first. */
  lemma PutOverwrites(storage: map<CacheKey, Data>, key: CacheKey, first: CacheData, second: CacheData)
    ensures Put(Put(storage, key, first), key, second) == Put(storage, key, second)
  {
  }

  /** An encodable write under a fresh key adds exactly one entry. */
  lemma PutFreshKeyGrows(storage: map<CacheKey, Data>, key: CacheKey, entry: CacheData)
    requires key !in storage && Representable(entry.value)
    ensures |Put(storage, key, entry)| == |storage| + 1
  {
  }

  class CacheContainer {

    var storage: map<CacheKey, Data>

    constructor()
      ensures storage == map[]
    {
      storage := map[];
    }

    /** `setValue(_:forKey:cacheDate:)`. */
    method SetValue(value: Value, key: CacheKey, cacheDate: Date)
      modifies this
      ensures storage == Put(old(storage), key, CacheData(value, cacheDate))
    {
      var data := EncodeEntry(CacheData(value, cacheDate));
      if data.Some? {
        storage := storage[key := data.value];
      } else {
        storage := storage - {key};
      }
    }

    /** `value(forKey:)`, requested at the Swift type `t`. */
    function ValueForKey(key: CacheKey, t: Type): Option<CacheData>
      reads this
    {
      Lookup(storage, key, t)
    }

    /** `clearAll()`: remove every key of a snapshot of the storage, one at a time. */
    method ClearAll()
      modifies this
      ensures storage == map[]
    {
      var pending := storage.Keys;
      while pending != {}
        invariant storage.Keys == pending
        decreases pending
      {
        var key :| key in pending;
        storage := storage - {key};
        pending := pending - {key};
      }
    }

    /** `clearAll(where:)`: remove the keys of a snapshot that satisfy the predicate. */
    method ClearAllWhere(shouldBeCleared: CacheKey -> bool)
      modifies this
      ensures storage.Keys == set k | k in old(storage) && !shouldBeCleared(k)
      ensures forall k | k in storage :: storage[k] == old(storage)[k]
    {
      var pending := storage.Keys;
      while pending != {}
        invariant pending <= old(storage).Keys
        invariant forall k :: k in storage <==> k in old(storage) && (k in pending || !shouldBeCleared(k))
        invariant forall k | k in storage :: storage[k] == old(storage)[k]
        decreases pending
      {
        var key :| key in pending;
        if shouldBeCleared(key) {
          storage := storage - {key};
        }
        pending := pending - {key};
      }
    }
  }
}
