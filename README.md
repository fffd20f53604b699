# geoip2service: offset-deduplicated record cache and city lookup

A model of the core of `geoip2service`, an HTTP service that answers "which city is this
IP address in?" from a MaxMind DB file. The core is two functions of `main.go`:

- `createCachedDb` walks every network of the database once, decodes the data record at
  each distinct data-section offset the first time that offset appears, and keeps it in a
  map keyed by offset. Any error from opening, from the network iterator or from decoding
  aborts the build and no cache is returned.
- `cityRequestHandler` parses the address, asks the reader for its offset and answers with
  the cached record: 400 for unparsable text, the reader's error unchanged, 404 for the
  reader's not-found sentinel, 200 with the record, or an "offset without a record" error
  when the offset is not in the cache.

Files:

- `wrappers.dfy`: `Option` and `Result`.
- `reader.dfy` (module `MaxMindReader`): the database reader as a value. It holds the
  answers of `NetworkOffset` in iteration order, the iterator's final `Err()`, `Decode` as a
  function from offset to record or error, and `LookupOffset` as a function from address to
  offset or error. `Offset` is a 64-bit `uintptr`. `NotFound` is its all-ones value.
- `cache_builder.dfy` (module `CacheBuilder`): the `cachedDb` state as the datatype
  `CachedDb`. `CreateCachedDb` is the build loop, filling a local map in a `while` loop.
  It is proved equal to the fold `Walk`/`Build`, and its ghost out-parameter `decoded` is
  the sequence of offsets handed to `Decode`. The lemmas state what the build guarantees.
- `lookup.dfy` (module `CityLookup`): `CityRequest`, the handler as a function from the
  built state and the address text to a `Reply`. Two lemmas connect it to the build.

The record type is a type parameter `R`. The handler's JSON body is modelled as the record
value itself. Because `CachedDb` is an immutable value and `CityRequest` is a function,
a lookup cannot change the cache, and repeated lookups of one address give the same reply.

## Model

| member | source | states |
|---|---|---|
| CacheBuilder.CreateCachedDb | main.go:95-130 | the loop returns exactly what the reference fold `Build` gives: the open error, the first iterator or decode error, the iterator's final error, or the filled cache with the reader; its ghost trace is the fold's decode trace |
| CacheBuilder.BuildSucceedsIff | main.go:96-124 | the build succeeds if and only if the file opened, every iteration step gave an offset, every enumerated offset decodes, and the iterator reports no final error; otherwise there is no cache at all |
| CacheBuilder.BuildFailureIsReaderError | main.go:96-124 | a failed build returns, unchanged, an error reported by `Open`, `NetworkOffset`, `Decode` of an enumerated offset, or the iterator's `Err()` |
| CacheBuilder.BuildCacheContents | main.go:101-129 | a built cache keeps its reader; its key set is exactly the set of enumerated offsets, so its size is the number of distinct offsets; each entry is the record `Decode` gives for its key |
| CacheBuilder.BuildDecodesEachOffsetOnce | main.go:111-119 | on success `Decode` is called exactly once for each enumerated offset and for nothing else, so the number of decode calls equals the cache size |
| CacheBuilder.WalkDecodesAtMostOnce | main.go:111-115 | even on a failing build no offset is decoded twice |
| CacheBuilder.WalkOrder | main.go:105-119 | offsets are decoded in the order of their first occurrence in the enumeration |
| CacheBuilder.BuildKeepsFirstDecode | main.go:111-119 | each cached record was stored by the decode at its offset's first occurrence, and that decode was the last call at that step |
| CacheBuilder.WalkNeverOverwrites | main.go:111-119 | later enumeration steps never remove or replace a stored entry, and the decode trace only grows |
| CacheBuilder.WalkStopsAtFailure | main.go:107-118 | after the first error nothing further happens, so the early return gives the same state as the whole walk |
| CacheBuilder.WalkKeys | main.go:106-121 | until an error, every iteration step gave an offset and the cache keys are exactly the offsets seen so far |
| CacheBuilder.WalkValues | main.go:114-119 | every stored record is the one `Decode` gives for its offset |
| CacheBuilder.WalkDecodes | main.go:111-119 | the decode trace has no duplicates, holds only enumerated offsets, and until an error has exactly the cache keys as its elements |
| CacheBuilder.WalkFailureCause | main.go:107-118 | a build error is one that an iteration step or a decode of an enumerated offset reported |
| CacheBuilder.SharedOffsetDecodedOnce | main.go:106-119 | two networks sharing offset 42 give one decode call and one cache entry |
| CityLookup.CityRequest | main.go:132-158 | five outcomes: 400 with no body exactly when the text does not parse, so the reader is not consulted; the reader's error unchanged; 404 with no body exactly for the not-found sentinel, whatever the cache holds; 200 with exactly the cached record for a cached offset; an error naming the offset, never a 404, for an uncached one |
| CityLookup.ServesDecodedRecord | main.go:139-155 | against a cache built from the same reader, an address whose offset the enumeration yielded gets 200 with exactly the record `Decode` gives for that offset |
| CityLookup.ConsistencyFailureIff | main.go:148-151 | against a built cache, the handler fails if and only if the reader's offset was never enumerated, and then the error names that offset |

## Left out

- Flag parsing, `main`, router setup, `ListenAndServe` and the compression wrapper (main.go:15-19, 73-93): process and network plumbing. The router's turning of a returned error into a 500 is therefore not modelled; `CityRequest` returns the error.
- JSON encoding of the record (main.go:154-155): a foreign library whose error the handler ignores. The body is the record value.
- The MaxMind DB trie walk, `Open`, `Networks`, `LookupOffset` and `Decode` internals: an external library. They are the fields of `MaxMindReader.Reader` and the `opening` argument of the build.
- `net.ParseIP`: a standard-library parser. It is the `parseIP` parameter of `CityRequest`.
- The fields of `City` (main.go:26-71) and model/geoip2.go, which repeats them: they carry no behaviour and include `float64` coordinates. The record is the type parameter `R`.
- Concurrent serving: the model shows only that a lookup reads an immutable value.
- The address token `"me"`: `cityRequestHandler` does no such substitution. The text goes straight to `net.ParseIP`, so the model follows the code and has no alias.
