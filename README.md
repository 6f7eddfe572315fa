# CachePropertyKit, modelled in Dafny

CachePropertyKit is a small in-process cache for Swift. A `Cache` property
wrapper is bound to a string key and a `Lifetime`. Writing a value stores it,
together with the date it was written, in the `CacheContainer`: a dictionary
from keys to encoded `CacheData`. Reading decodes the entry under the key as
the wrapper's value type. It returns the value only while the current date
lies in the closed range from the cache date to the lifetime's expiry date.

The model has one module per part of the library:

- `Lifetimes` (`lifetime.dfy`): dates as whole seconds, `Lifetime` as an
  immutable rule `Date -> Date` with `Duration`, `Until` and `Range`. Swift's
  `...` operator traps when its lower bound is above its upper bound, so
  `Range` requires `Admits(anchor)`, that is `anchor <= expiry(anchor)`.
- `Cacheable` (`cacheable.dfy`): the values an entry can hold (strings,
  integers, booleans, doubles and arrays of these) and the Swift type each is
  read as.
- `Entry` (`entry.dfy`): `CacheData` and its aliveness check.
- `Codec` (`codec.dfy`): the serialiser. It stands in for JSONEncoder and
  JSONDecoder. An entry is encoded as a flat sequence of tagged tokens.
  Decoding is told the Swift type to read and fails when a tag does not fit
  that type. Encoding fails exactly on a NaN or infinite double, which is
  where JSONEncoder throws by default. Both directions of the round trip are
  proved.
- `Container` (`container.dfy`): the `CacheContainer` class with its
  `storage` map, the pure functions `Put` and `Lookup` that specify writing
  and reading, and lemmas relating them.
- `PropertyWrapper` (`cache.dfy`): the `Cache` class with its two
  initialisers and the getter and setter as `Get` and `Set`.
- `Wrappers` (`wrappers.dfy`): `Option`, for Swift's `T?`.

When encoding fails, `storage[key] = data` assigns nil, which removes the key
(Sources/CacheContainer.swift:28-29); `Container.Put` does the same.

## Model

| member | source | states |
|---|---|---|
| `Lifetimes.Lifetime.Duration` | Sources/Lifetime.swift:6-8 | a duration lifetime can build its range from any anchor exactly when the interval is not negative |
| `Lifetimes.Lifetime.Until` | Sources/Lifetime.swift:10-12 | an `until` lifetime gives every anchor the same expiry, and can build its range from an anchor exactly when the anchor is not after the date |
| `Lifetimes.Lifetime.Range` | Sources/Lifetime.swift:18-20 | requires anchor <= expiry(anchor), else the closed range traps; the lower bound is the anchor, the upper bound is the expiry, and the range contains exactly the dates between them, both bounds included |
| `Lifetimes.DurationRange` | Sources/Lifetime.swift:6-8 | `duration(d).range(from: t)` is `t...t + d` for d >= 0 |
| `Lifetimes.UntilRange` | Sources/Lifetime.swift:10-12 | `until(e).range(from: t)` is `t...e` for t <= e |
| `Lifetimes.UntilExpiryIgnoresAnchor` | Sources/Lifetime.swift:11 | two anchors under `until(e)` get ranges with the same upper bound `e` |
| `Entry.CacheData.IsAliveAsWritten` | Sources/CacheContainer.swift:44-46 | defined only when the range from the cache date can be built; then alive iff cacheDate <= now <= expiry(cacheDate) |
| `Entry.CacheData.IsAlive` | Sources/CacheContainer.swift:44-46 | alive iff cacheDate <= now <= expiry(cacheDate), for every lifetime; agrees with the as-written check wherever that is defined, and is false when the window is inverted |
| `Codec.EncodeValue` | Sources/CacheContainer.swift:28 | encoding a value succeeds exactly when it holds no NaN or infinite double, and yields at least one token |
| `Codec.EncodeElements` | Sources/CacheContainer.swift:28 | encoding an array's elements succeeds exactly when every element is representable |
| `Codec.DecodeValue` | Sources/CacheContainer.swift:37 | a successful read consumes at least one token |
| `Codec.DecodeElements` | Sources/CacheContainer.swift:37 | a successful read of n elements yields n values and never grows the remaining input |
| `Codec.DecodeEncodedValue` | Sources/CacheContainer.swift:37 | decoding an encoded value, followed by any tokens, gives the value back with the following tokens exactly when the value has the requested type, and fails otherwise |
| `Codec.DecodeEncodedElements` | Sources/CacheContainer.swift:37 | the same for the elements of an array, read at one element type |
| `Codec.EncodeDecodedValue` | Sources/CacheContainer.swift:37 | whatever decodes has the requested type, is representable, and its encoding is exactly the tokens consumed |
| `Codec.EncodeDecodedElements` | Sources/CacheContainer.swift:37 | the same for the elements of an array |
| `Codec.EncodeEntry` | Sources/CacheContainer.swift:28 | encoding `CacheData(value, cacheDate)` fails exactly when the value is not representable |
| `Codec.DecodeEncodedEntry` | Sources/CacheContainer.swift:37 | an encoded entry decodes to itself at every type its value has and fails at every other type: value and cache date survive exactly |
| `Codec.DecodeEntry` | Sources/CacheContainer.swift:37 | whatever decodes has the requested type and re-encodes to the very data it was read from |
| `Container.Put` | Sources/CacheContainer.swift:27-30 | after a write the key is present exactly when the entry was encodable, holding its encoding; a failed encode removes the key; every other key is unchanged |
| `Container.Lookup` | Sources/CacheContainer.swift:32-38 | a missing key reads as nothing; whatever is read is stored under the key, has the requested type and is the entry the stored data encodes, so data holding no entry of that type reads as nothing |
| `Container.LookupAfterPut` | Sources/CacheContainer.swift:27-38 | reading a key right after writing `CacheData(v, d)` gives that entry back when it was encodable and is read at a type of v, and nothing otherwise (a wrong type is a miss) |
| `Container.LookupOtherAfterPut` | Sources/CacheContainer.swift:29 | writing one key does not change what any other key reads |
| `Container.PutOverwrites` | Sources/CacheContainer.swift:29 | a second write to a key leaves the storage exactly as if the first had not happened |
| `Container.PutFreshKeyGrows` | Sources/CacheContainer.swift:29 | an encodable write under a new key adds exactly one entry |
| `Container.CacheContainer.constructor` | Sources/CacheContainer.swift:20-25 | a new container has empty storage |
| `Container.CacheContainer.SetValue` | Sources/CacheContainer.swift:27-30 | the new storage is `Put` of the old storage, the key and `CacheData(value, cacheDate)` |
| `Container.CacheContainer.ClearAll` | Sources/CacheContainer.swift:6-10 | after removing each key of a snapshot in turn, the storage is empty |
| `Container.CacheContainer.ClearAllWhere` | Sources/CacheContainer.swift:12-18 | afterwards the storage holds exactly the old keys the predicate rejects, each with its old data |
| `PropertyWrapper.Cache.constructor` | Sources/Cache.swift:27-30 | binds key, lifetime and value type and writes nothing |
| `PropertyWrapper.Cache.WithValue` | Sources/Cache.swift:32-41 | nil writes nothing; a value is stored under the key with the current date and is read back at every date its lifetime keeps it alive |
| `PropertyWrapper.Cache.Get` | Sources/Cache.swift:13-19 | nothing for a missing key or an entry that does not decode at the wrapper's type; the stored value when its entry is alive now; nothing when it is not |
| `PropertyWrapper.Cache.Set` | Sources/Cache.swift:20-24 | nil leaves the storage unchanged; a value is stored with the current date and is read back at every date its lifetime keeps it alive |
| `PropertyWrapper.ExpiredUntilTrapsAsWritten` | Sources/Lifetime.swift:19 | a value written at date 10 under `until(0)` is stored and reads back, yet its range 10...0 cannot be built, so the as-written check traps; the corrected one says not alive |

## Findings

| source | as written | input that shows it | evidently intended | confidence | as-written member | corrected member |
|---|---|---|---|---|---|---|
| Sources/Lifetime.swift:19 | `range(from:)` builds `date...makeExpiredDate(date)`; `isAlive` calls it on every read (Sources/CacheContainer.swift:45), and `...` traps when the expiry is before the cache date | a `Cache` with lifetime `until(0)`, written at date 10 and then read: the entry decodes, and `10...0` traps | an entry whose window is inverted is not alive, so the read returns nil | high; not executed | `PropertyWrapper.ExpiredUntilTrapsAsWritten` (over `Entry.CacheData.IsAliveAsWritten`) | `Entry.CacheData.IsAlive` |

## Left out

- Concurrency: the container has no synchronisation, and the concurrent-writes test depends on the Swift task scheduler. Only sequential operations are modelled. The test's count of distinct keys appears in its sequential form as `Container.PutFreshKeyGrows`.
- JSONEncoder and JSONDecoder are foreign code. `Codec` replaces them with a tagged token encoding. It does not model JSON text, key names, or JSON's number coercions (for example, reading a stored integer as a `Double`).
- Keys are Dafny strings, compared scalar by scalar. Swift's `String` equality and `Dictionary` hashing use canonical equivalence, so `"caf\u{E9}"` and `"cafe\u{301}"` are one key there and two keys here; the same holds for the keys `clearAll(where:)` passes to its predicate. Unicode normalisation is not modelled.
- Dates are whole seconds (`int`), not floating-point `Date` and `TimeInterval` values.
- The wall clock `Date.now` is a `now` or `cacheDate` argument on every operation that used it as a default.
- The process-wide `shared` container and the `@propertyWrapper` syntax are not modelled. The wrapper refers to an explicit `CacheContainer`, and the static `clearAll` functions are methods of that instance.
- Value types: strings, integers (unbounded; Swift's 64-bit `Int` range is not modelled), booleans, doubles and arrays. The `Set` and `Dictionary` conformances (Sources/CacheableExtensions/Collections+Cacheable.swift) and user-defined `Codable` types are not part of this model. Swift's static typing makes arrays homogeneous; the model allows a mixed array, which simply never decodes at any type.
- `init(makeExpiredDate:)` is the datatype constructor `Lifetime(...)` itself, so it has no contract of its own.
- Determinism of `range(from:)` has no lemma: `Lifetime.Range` is a Dafny function, so the same anchor always gives the same range.
- `Container.CacheContainer.ValueForKey` has no contract of its own: it is `Container.Lookup` on the current storage.
- The order in which `forEach` visits keys: the clears pick any remaining key of the snapshot, and their results do not depend on the order.
- PropertyWrapper.Cache.Get: uses the corrected aliveness check, so it returns nil where the code as written traps on an inverted window (see Findings).
