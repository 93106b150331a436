# Image proxy core: cache-aside fetch and request handler

This project models the core of an on-demand image transformation proxy written in Rust
(`src/main.rs`). A request names an encoded transformation spec and a percent-encoded
source URL. The handler `generate` does the following in order:

1. It parses the spec.
2. It fetches the source bytes through a shared LRU cache (`retrieve_image`).
3. It builds an image engine from the bytes and applies the whole step list.
4. It answers a JPEG of quality 85, or an HTTP status when a step fails.

The model is written in Dafny in four modules:

- `Wrappers`: `Option` and `Result`.
- `Lru`: the least-recently-used map (`lru::LruCache`) the cache is built on. The module
  gives pure specification functions over a sequence of entries in recency order (index 0
  is evicted next). Its class `LruCache` holds that sequence and a capacity, and its methods
  `Get` and `Put` update them in place. Each method is proved against the matching function
  (`Promote`, `Insert`).
- `FetchCache`: `retrieve_image`. `Retrieve` is one call as a function over the abstract
  cache state. `RetrieveImage` is the imperative method that calls `Get` and `Put` on a
  `LruCache` object, and it is proved to implement `Retrieve`. `NewImageCache` is the cache
  created at start-up, with capacity 1024.
- `Handler`: `generate`, as a function over the abstract cache state and over an `Env` of
  black boxes. The black boxes are the spec parser, the URL percent-decoder, the hasher,
  the network and the image engine. `Generate` returns three things: the reply (a response
  or a status code), the cache afterwards, and the effects it performed, in order. The
  ordering properties are stated over those effects.

Two behaviours of the code are modelled as written:

- `reqwest::get` does not fail on a non-success HTTP status, and `retrieve_image` never
  checks the status. So a body that arrives with a 404 or 500 status is cached and returned
  like any other body (`FetchCache.ErrorStatusIsCached`). It is not treated as a fetch
  error.
- When the engine cannot be built from the fetched bytes (they are not a decodable image),
  the code answers 500 Internal Server Error (src/main.rs:84-86), not a client error.

## Model

| member | source | states |
|---|---|---|
| `Lru.LruCache.constructor` | src/main.rs:39 | A new map is empty, has the requested capacity, and satisfies the map invariant (`Valid`). |
| `FetchCache.NewImageCache` | src/main.rs:39 | The server's cache starts empty with capacity 1024. |
| `Lru.LruCache.Position` | src/main.rs:106 | The loop that scans the recency order returns the first position of the key, or none when the key is absent. |
| `Lru.LruCache.Get` | src/main.rs:106 | `get` returns the value stored under the key, and the new recency order is `Promote` of the old one. The map invariant is preserved. |
| `Lru.LruCache.Put` | src/main.rs:115 | `put` leaves the entries as `Insert` of the old ones. The invariant is preserved: at most `capacity` entries and one entry per key. |
| `Lru.Find` | src/main.rs:106 | A lookup answers none exactly when no entry has the key. When keys are distinct, it answers the value of the one entry with that key. |
| `Lru.Promote` | src/main.rs:106 | A hit moves its entry to the most-recent end, and the other entries keep their relative order. A miss changes nothing. Keys stay distinct. |
| `Lru.PromoteKeepsContents` | src/main.rs:106-110 | A `get` changes only the order: every key finds the same value as before. |
| `Lru.PromoteMakesMostRecent` | src/main.rs:106 | After a hit, the key holds the most-recently-used position. |
| `Lru.PromoteMostRecentIsIdentity` | src/main.rs:106 | A `get` of the key that is already most recent leaves the map exactly as it was. |
| `Lru.Insert` | src/main.rs:115 | After `put(k, v)` the map stays within capacity with one entry per key, and `(k, v)` is the most recent entry. An existing entry for `k` is removed and `(k, v)` appended as most recent, with no eviction. A new key on a non-full map is appended. A new key on a full map evicts the entry at index 0, the least recently used, and the survivors keep their recency order before `(k, v)` is appended. |
| `Lru.InsertContents` | src/main.rs:115 | After a `put`, `k` finds `v`. The least-recently-used key disappears exactly when a new key meets a full map. Every other key keeps its value. |
| `Lru.PromoteProtectsFromEviction` | src/main.rs:106-115 | On a full map with capacity above 1, a key that was just looked up survives the eviction caused by the next new key. |
| `FetchCache.Retrieve` | src/main.rs:100-121 | A hit returns the stored bytes and does not fetch. A miss fetches and returns the body it reads, or the error. A failure leaves the cache exactly as it was. Bytes that are returned are what the cache now holds for the URL. The cache stays within its capacity. |
| `FetchCache.RetrieveImage` | src/main.rs:100-121 | The imperative `retrieve_image` (get, then fetch and put on a miss) returns exactly what `Retrieve` says and leaves the cache object in the state `Retrieve` says. |
| `FetchCache.RepeatIsHit` | src/main.rs:101-117 | After a call that returns bytes, the next call with the same URL is a hit. It does not fetch, returns the same bytes and leaves the cache unchanged. |
| `FetchCache.DistinctMissesFetchTwice` | src/main.rs:101-117 | Two uncached URLs with different keys cause two fetches, one per call. |
| `FetchCache.CollidingUrlsShareEntry` | src/main.rs:101-110 | The cache is keyed only by the 64-bit hash. A URL whose hash equals that of a cached URL is answered with the cached bytes, without a fetch. |
| `FetchCache.ErrorStatusIsCached` | src/main.rs:113-116 | On a miss, a body that arrives is returned and cached whatever the HTTP status of the reply. |
| `FetchCache.RetrieveKeepsOtherEntries` | src/main.rs:105-117 | For every key other than the URL's, a call leaves its bytes as they were (on a hit, on a failed fetch, and on a stored miss), except that a miss which stores new bytes in a full cache evicts the least-recently-used entry. |
| `Handler.Generate` | src/main.rs:66-97 | The only error statuses are 400 and 500. The reply is 400 exactly when the spec does not parse or the retrieval fails. It is 500 exactly when both succeed but no engine can be built from the bytes. A spec that does not parse leaves the cache untouched and performs no effect. Otherwise the cache changes as one `retrieve_image` call changes it. |
| `Handler.FetchFailureIs400` | src/main.rs:78-80 | A failed retrieval is answered 400 at once: the effects are exactly entering `retrieve_image` and its network fetch, so no engine is built, no step is applied and nothing is encoded. The cache is left unchanged. |
| `Handler.EngineFailureIs500` | src/main.rs:84-86 | A 500 reply builds no engine, applies no step and encodes nothing. The cache is as the retrieval left it, and the request went to the network exactly when the retrieval fetched. |
| `Handler.ServedEffectsOrder` | src/main.rs:84-89 | A served request builds the engine, applies the step list exactly once, and then encodes exactly once as its last effect. It has gone to the network exactly when the retrieval fetched. |
| `Handler.SuccessAppliesAllStepsOnce` | src/main.rs:84-96 | A successful reply has the single header `content-type: image/jpeg`. Its body is the JPEG (quality 85) of the engine after the whole parsed step list. The steps are applied once, after the engine is built and before the single final encode. |
| `Handler.RepeatRequestIsServedFromCache` | src/main.rs:71-97 | Repeating a request that succeeded gives the same reply and the same cache, and it does not go to the network. |

## Left out

- The HTTP server, routing, extension wiring and `main` (src/main.rs:35-64) are I/O plumbing. Only the cache creation at line 39 is modelled.
- The `tokio` `Mutex` and the `Arc` around the cache are not modelled. Each `retrieve_image` call is one atomic step on a single-threaded map, as the lock makes it. The lock is held across the network fetch. Its effect on throughput, and the interleaving of concurrent requests, are not modelled.
- `DefaultHasher` is a foreign hash. It is a parameter: any deterministic function from URL to `u64`.
- `reqwest::get` and `resp.bytes()` are network I/O. They are one oracle from URL to a reply (status and body, or a body read failure) or a request error. Timeouts and retries are not modelled.
- Percent-decoding of the URL (`percent_decode_str(..).decode_utf8_lossy()`) is a library call. It is a parameter of `Env`.
- The spec-token codec (the `pb` module, generated from `abi.proto` by build.rs) is not part of this model. `ImageSpec::try_from` is a black-box parser, so the codec's round trip is not stated.
- The image engine (the `engine` module, `Photon`: decode, apply, encode) is not part of this model. Its three operations are black boxes, so pixel semantics, step order inside `apply` and the output format's bytes are not stated.
- `print_test_url` (src/main.rs:124-133) is debug-only printing, and the `tracing` log lines are logging. Neither is modelled.
- `Lru.LruCache.constructor` requires a positive capacity. The crate's behaviour for capacity 0 is not modelled, and the server only uses 1024.
- The crate's hash-map index is not modelled: the model finds a key by scanning the recency sequence, so lookup cost is not represented. Cloning of `Bytes` values is not modelled either.
