/** `retrieve_image` (src/main.rs): the cache-aside fetch of a source image. The URL is
    hashed to a 64-bit key; a key found in the LRU map is answered from the map, a missing
    key is fetched from the network and, only when the fetch yields a body, stored under
    the key. The whole call is one critical section on the shared map, so it is modelled
    as one atomic step.

    The hasher (`DefaultHasher`) and the network (`reqwest::get` and `bytes()`) are not
    modelled: they are parameters, a deterministic function from URL to key and an oracle
    from URL to reply. */
module FetchCache {
  import opened Wrappers
  import opened Lru

  newtype u64 = x: int | 0 <= x < 0x1_0000_0000_0000_0000

  type Bytes = seq<bv8>

  /** The capacity the server gives its cache (`LruCache::new(1024)`). */
  const CacheCapacity: nat := 1024

  /** Why a fetch failed: the request itself (`reqwest::get`) or reading its body. */
  datatype FetchError = RequestFailed | BodyFailed

  /** What `reqwest::get` answers when the request goes through: the HTTP status and the
      body, which may still fail to be read. */
  datatype HttpReply = HttpReply(status: nat, body: Option<Bytes>)

  type Hasher = string -> u64

  type Network = string -> Result<HttpReply, FetchError>

  /** The abstract state of the shared cache: its entries in recency order and its capacity. */
  datatype CacheState = CacheState(entries: seq<Entry<u64, Bytes>>, capacity: nat)

  ghost predicate WellFormed(c: CacheState) {
    Bounded(c.entries, c.capacity)
  }

  /** The bytes cached for `url`, if any. */
  function Cached(c: CacheState, url: string, hasher: Hasher): Option<Bytes> {
    Find(c.entries, hasher(url))
  }

  /** One `retrieve_image` call: what it returns, the cache afterwards, and whether it went
      to the network. */
  datatype Retrieval = Retrieval(result: Result<Bytes, FetchError>, cache: CacheState, fetched: bool)

  /** The effect of `retrieve_image(url, cache)` on an abstract cache state. */
  function Retrieve(c: CacheState, url: string, hasher: Hasher, network: Network): (out: Retrieval)
    requires WellFormed(c)
    ensures WellFormed(out.cache) && out.cache.capacity == c.capacity
    // a hit answers the stored bytes and does not fetch
    ensures Cached(c, url, hasher).Some? ==>
      out.result == Ok(Cached(c, url, hasher).value) && !out.fetched
    // a miss goes to the network and answers the body it reads, or an error
    ensures Cached(c, url, hasher).None? ==> out.fetched
    ensures Cached(c, url, hasher).None? ==>
      out.result == match network(url)
                    case Err(e) => Err(e)
                    case Ok(reply) => if reply.body.Some? then Ok(reply.body.value) else Err(BodyFailed)
    // a failure is not cached: the map is left exactly as it was
    ensures out.result.Err? ==> out.fetched && out.cache == c
    // whatever is returned is what the cache now holds for the URL
    ensures out.result.Ok? ==> Cached(out.cache, url, hasher) == Some(out.result.value)
  {
    var key := hasher(url);
    var looked := c.(entries := Promote(c.entries, key));
    match Find(c.entries, key)
    case Some(v) =>
      PromoteKeepsContents(c.entries, key, key);
      Retrieval(Ok(v), looked, false)
    case None =>
      match network(url)
      case Err(e) => Retrieval(Err(e), looked, true)
      case Ok(reply) =>
        match reply.body
        case None => Retrieval(Err(BodyFailed), looked, true)
        case Some(data) =>
          InsertContents(looked.entries, looked.capacity, key, data, key);
          Retrieval(Ok(data), looked.(entries := Insert(looked.entries, looked.capacity, key, data)), true)
  }

  /** The state of a cache object, as a value. */
  ghost function StateOf(cache: LruCache<u64, Bytes>): CacheState
    reads cache
  {
    CacheState(cache.entries, cache.capacity)
  }

  /** The cache the server creates at start-up: empty, with room for 1024 images. */
  method NewImageCache() returns (cache: LruCache<u64, Bytes>)
    ensures fresh(cache) && cache.Valid()
    ensures StateOf(cache) == CacheState([], CacheCapacity)
  {
    cache := new LruCache(CacheCapacity);
  }

  /** `retrieve_image`: look the URL's key up (which refreshes its recency); on a miss fetch
      the URL and, if the body arrives, put it under the key. */
  method RetrieveImage(url: string, cache: LruCache<u64, Bytes>, hasher: Hasher, network: Network)
    returns (r: Result<Bytes, FetchError>, fetched: bool)
    requires cache.Valid()
    modifies cache
    ensures cache.Valid()
    ensures Retrieval(r, StateOf(cache), fetched) == Retrieve(old(StateOf(cache)), url, hasher, network)
  {
    var key := hasher(url);
    var hit := cache.Get(key);
    match hit
    case Some(v) =>
      r, fetched := Ok(v), false;
    case None =>
      fetched := true;
      var resp := network(url);
      if resp.Err? {
        r := Err(resp.error);
        return;
      }
      if resp.value.body.None? {
        r := Err(BodyFailed);
        return;
      }
      var data := resp.value.body.value;
      cache.Put(key, data);
      r := Ok(data);
  }

  /** Two sequential calls for one URL fetch at most once: after a call that returns bytes,
      the next call for the same URL is a hit, answers the same bytes and leaves the cache
      as it was, whatever the network would now answer. */
  lemma RepeatIsHit(c: CacheState, url: string, hasher: Hasher, n1: Network, n2: Network)
    requires WellFormed(c)
    requires Retrieve(c, url, hasher, n1).result.Ok?
    ensures var first := Retrieve(c, url, hasher, n1);
            var second := Retrieve(first.cache, url, hasher, n2);
            !second.fetched && second.result == first.result && second.cache == first.cache
  {
    var first := Retrieve(c, url, hasher, n1);
    var key := hasher(url);
    var s := first.cache.entries;
    assert s[|s| - 1].key == key by {
      if Find(c.entries, key).Some? {
        PromoteMakesMostRecent(c.entries, key);
      }
    }
    PromoteMostRecentIsIdentity(s, key);
  }

  /** Two URLs with different keys, neither cached, cost two fetches. */
  lemma DistinctMissesFetchTwice(c: CacheState, u1: string, u2: string, hasher: Hasher, n1: Network, n2: Network)
    requires WellFormed(c)
    requires hasher(u1) != hasher(u2)
    requires Cached(c, u1, hasher).None? && Cached(c, u2, hasher).None?
    ensures Retrieve(c, u1, hasher, n1).fetched
    ensures Retrieve(Retrieve(c, u1, hasher, n1).cache, u2, hasher, n2).fetched
  {
    var first := Retrieve(c, u1, hasher, n1);
    if first.result.Ok? {
      InsertContents(c.entries, c.capacity, hasher(u1), first.result.value, hasher(u2));
    }
  }

  /** The cache is keyed by the hash alone: once a URL's bytes are cached, another URL with
      the same key is answered with those bytes and is not fetched. */
  lemma CollidingUrlsShareEntry(c: CacheState, u1: string, u2: string, hasher: Hasher, n1: Network, n2: Network)
    requires WellFormed(c)
    requires hasher(u1) == hasher(u2)
    requires Retrieve(c, u1, hasher, n1).result.Ok?
    ensures var first := Retrieve(c, u1, hasher, n1);
            var second := Retrieve(first.cache, u2, hasher, n2);
            !second.fetched && second.result == first.result
  {
  }

  /** The reply's HTTP status is not inspected: on a miss, a body that arrives is cached and
      returned even when the status reports a failure (404, 500, ...). */
  lemma ErrorStatusIsCached(c: CacheState, url: string, hasher: Hasher, network: Network, status: nat, data: Bytes)
    requires WellFormed(c)
    requires Cached(c, url, hasher).None?
    requires network(url) == Ok(HttpReply(status, Some(data)))
    ensures Retrieve(c, url, hasher, network).result == Ok(data)
    ensures Cached(Retrieve(c, url, hasher, network).cache, url, hasher) == Some(data)
  {
  }

  /** Every other key keeps its bytes across a call, except that a miss which stores new
      bytes in a full cache evicts the least recently used entry. */
  lemma RetrieveKeepsOtherEntries(c: CacheState, url: string, hasher: Hasher, network: Network, other: u64)
    requires WellFormed(c)
    requires other != hasher(url)
    ensures var out := Retrieve(c, url, hasher, network);
            Find(out.cache.entries, other) ==
              if out.fetched && out.result.Ok? && |c.entries| == c.capacity && other == c.entries[0].key
              then None
              else Find(c.entries, other)
  {
    var key := hasher(url);
    var out := Retrieve(c, url, hasher, network);
    if Find(c.entries, key).Some? {
      PromoteKeepsContents(c.entries, key, other);
    } else if out.result.Ok? {
      InsertContents(c.entries, c.capacity, key, out.result.value, other);
    }
  }
}
