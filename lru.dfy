/** The least-recently-used map that the image cache is built on (`lru::LruCache`), in the
    two operations the server uses: `get`, which returns the value stored under a key and
    makes that key the most recently used, and `put`, which stores a value as the most
    recently used entry and, when a new key meets a full map, first evicts the least
    recently used entry.

    The entries are kept as a sequence in recency order: index 0 holds the least recently
    used entry (the next one evicted), the last index the most recently used one. */
module Lru {
  import opened Wrappers

  datatype Entry<K, V> = Entry(key: K, value: V)

  /** One entry per key. */
  ghost predicate DistinctKeys<K, V>(s: seq<Entry<K, V>>) {
    forall i, j :: 0 <= i < j < |s| ==> s[i].key != s[j].key
  }

  /** The invariant of a map of the given capacity: never more entries than the capacity. */
  ghost predicate Bounded<K, V>(s: seq<Entry<K, V>>, capacity: nat) {
    0 < capacity && |s| <= capacity && DistinctKeys(s)
  }

  /** The first position of key `k` in `s`, if there is one. */
  function IndexOf<K(==), V>(s: seq<Entry<K, V>>, k: K): (r: Option<nat>)
    ensures r.Some? ==> r.value < |s| && s[r.value].key == k
    ensures r.Some? ==> forall j :: 0 <= j < r.value ==> s[j].key != k
    ensures r.None? ==> forall j :: 0 <= j < |s| ==> s[j].key != k
  {
    if |s| == 0 then None
    else if s[0].key == k then Some(0)
    else match IndexOf(s[1..], k)
      case None => None
      case Some(i) => Some(i + 1)
  }

  /** The value stored under `k`: the map that the sequence represents. */
  function Find<K(==), V>(s: seq<Entry<K, V>>, k: K): (r: Option<V>)
    ensures r.None? <==> forall j :: 0 <= j < |s| ==> s[j].key != k
    ensures DistinctKeys(s) ==> forall j :: 0 <= j < |s| && s[j].key == k ==> r == Some(s[j].value)
  {
    match IndexOf(s, k)
    case None => None
    case Some(i) => Some(s[i].value)
  }

  /** The entries of `s` whose key is not `k`, in their original order. */
  function Without<K(==), V>(s: seq<Entry<K, V>>, k: K): (r: seq<Entry<K, V>>)
    ensures |r| <= |s|
  {
    if |s| == 0 then []
    else (if s[0].key == k then [] else [s[0]]) + Without(s[1..], k)
  }

  /** `Without` keeps exactly the entries whose key is not `k`. */
  lemma {:induction false} WithoutMembers<K, V>(s: seq<Entry<K, V>>, k: K)
    ensures forall e :: e in Without(s, k) <==> e in s && e.key != k
  {
    if |s| > 0 {
      WithoutMembers(s[1..], k);
      assert s == [s[0]] + s[1..];
    }
  }

  /** Removing the one entry for `k` by position is the same as filtering out its key. */
  lemma {:induction false} WithoutAt<K, V>(s: seq<Entry<K, V>>, k: K, i: nat)
    requires DistinctKeys(s) && i < |s| && s[i].key == k
    ensures Without(s, k) == s[..i] + s[i + 1..]
  {
    DistinctTail(s);
    if i == 0 {
      WithoutHead(s, k);
    } else {
      WithoutAt(s[1..], k, i - 1);
      calc {
        Without(s, k);
        [s[0]] + Without(s[1..], k);
        [s[0]] + (s[1..][..i - 1] + s[1..][i..]);
        { assert s[1..][..i - 1] == s[1..i] && s[1..][i..] == s[i + 1..]; }
        [s[0]] + (s[1..i] + s[i + 1..]);
        { assert [s[0]] + s[1..i] == s[..i]; }
        s[..i] + s[i + 1..];
      }
    }
  }

  /** The case of `WithoutAt` where the key's entry is the least recently used one. */
  lemma WithoutHead<K, V>(s: seq<Entry<K, V>>, k: K)
    requires DistinctKeys(s) && 0 < |s| && s[0].key == k
    ensures Without(s, k) == s[1..]
  {
    var tail := s[1..];
    forall j | 0 <= j < |tail| ensures tail[j].key != k {
      assert tail[j] == s[j + 1];
    }
    WithoutAbsent(tail, k);
  }

  lemma DistinctTail<K, V>(s: seq<Entry<K, V>>)
    requires DistinctKeys(s) && |s| > 0
    ensures DistinctKeys(s[1..])
  {
    forall a, b | 0 <= a < b < |s[1..]| ensures s[1..][a].key != s[1..][b].key {
      assert s[1..][a] == s[a + 1] && s[1..][b] == s[b + 1];
    }
  }

  /** Removing one position from a map with one entry per key keeps one entry per key. */
  lemma DistinctWithout<K, V>(s: seq<Entry<K, V>>, i: nat)
    requires DistinctKeys(s) && i < |s|
    ensures DistinctKeys(s[..i] + s[i + 1..])
  {
    var r := s[..i] + s[i + 1..];
    forall a, b | 0 <= a < b < |r| ensures r[a].key != r[b].key {
      var a' := if a < i then a else a + 1;
      var b' := if b < i then b else b + 1;
      assert r[a] == s[a'] && r[b] == s[b'];
    }
  }

  /** Filtering out a key that is not there changes nothing. */
  lemma {:induction false} WithoutAbsent<K, V>(s: seq<Entry<K, V>>, k: K)
    requires forall j :: 0 <= j < |s| ==> s[j].key != k
    ensures Without(s, k) == s
  {
    if |s| > 0 {
      WithoutAbsent(s[1..], k);
      assert [s[0]] + s[1..] == s;
    }
  }

  /** With one entry per key, `Find` answers exactly the membership of entries. */
  lemma FindMember<K, V>(s: seq<Entry<K, V>>, k: K, v: V)
    requires DistinctKeys(s)
    ensures Find(s, k) == Some(v) <==> Entry(k, v) in s
  {
    if Entry(k, v) in s {
      var j :| 0 <= j < |s| && s[j] == Entry(k, v);
    }
  }

  /** Two maps with one entry per key and the same entries answer every lookup alike. */
  lemma SameEntriesSameFind<K, V>(s: seq<Entry<K, V>>, t: seq<Entry<K, V>>, k: K)
    requires DistinctKeys(s) && DistinctKeys(t)
    requires forall e :: e in s <==> e in t
    ensures Find(s, k) == Find(t, k)
  {
    if Find(s, k).Some? {
      FindMember(s, k, Find(s, k).value);
      FindMember(t, k, Find(s, k).value);
    } else if Find(t, k).Some? {
      FindMember(s, k, Find(t, k).value);
      FindMember(t, k, Find(t, k).value);
    }
  }

  /** `get`'s bookkeeping: a key that is present becomes the most recently used one; the
      other entries keep their relative order. A missing key changes nothing. */
  function Promote<K(==), V>(s: seq<Entry<K, V>>, k: K): (r: seq<Entry<K, V>>)
    ensures |r| == |s|
    ensures Find(s, k).None? ==> r == s
    ensures DistinctKeys(s) && Find(s, k).Some? ==> r == Without(s, k) + [Entry(k, Find(s, k).value)]
    ensures DistinctKeys(s) ==> DistinctKeys(r)
  {
    match IndexOf(s, k)
    case None => s
    case Some(i) =>
      var r := s[..i] + s[i + 1..] + [s[i]];
      assert DistinctKeys(s) ==> r == Without(s, k) + [Entry(k, Find(s, k).value)] && DistinctKeys(r) by {
        if DistinctKeys(s) {
          WithoutAt(s, k, i);
          DistinctWithout(s, i);
          DistinctAppend(s[..i] + s[i + 1..], k, s[i].value);
        }
      }
      r
  }

  /** `put`: `v` is stored under `k` as the most recently used entry. An entry already
      held for `k` is replaced; a new key on a full map first evicts the entry at index 0,
      the least recently used one. */
  function Insert<K(==), V>(s: seq<Entry<K, V>>, capacity: nat, k: K, v: V): (r: seq<Entry<K, V>>)
    requires Bounded(s, capacity)
    ensures Bounded(r, capacity)
    ensures |r| > 0 && r[|r| - 1] == Entry(k, v)
    ensures Find(s, k).Some? ==> r == Without(s, k) + [Entry(k, v)]
    ensures Find(s, k).None? && |s| < capacity ==> r == s + [Entry(k, v)]
    ensures Evicts(s, capacity, k) ==> r == s[1..] + [Entry(k, v)]
  {
    match IndexOf(s, k)
    case Some(i) =>
      WithoutAt(s, k, i);
      DistinctWithout(s, i);
      DistinctAppend(s[..i] + s[i + 1..], k, v);
      s[..i] + s[i + 1..] + [Entry(k, v)]
    case None =>
      if |s| == capacity then
        DistinctTail(s);
        assert forall j :: 0 <= j < |s[1..]| ==> s[1..][j] == s[j + 1];
        DistinctAppend(s[1..], k, v);
        s[1..] + [Entry(k, v)]
      else
        DistinctAppend(s, k, v);
        s + [Entry(k, v)]
  }

  /** Appending an entry for a key not yet present keeps one entry per key. */
  lemma DistinctAppend<K, V>(s: seq<Entry<K, V>>, k: K, v: V)
    requires DistinctKeys(s)
    requires forall j :: 0 <= j < |s| ==> s[j].key != k
    ensures DistinctKeys(s + [Entry(k, v)])
  {
  }

  /** Whether `put(k, _)` on `s` evicts an entry: `k` is new and the map is full. */
  ghost predicate Evicts<K, V>(s: seq<Entry<K, V>>, capacity: nat, k: K) {
    Find(s, k).None? && |s| == capacity
  }

  /** `get` changes the recency order only: every key still finds the same value. */
  lemma PromoteKeepsContents<K, V>(s: seq<Entry<K, V>>, k: K, j: K)
    requires DistinctKeys(s)
    ensures Find(Promote(s, k), j) == Find(s, j)
  {
    var r := Promote(s, k);
    if Find(s, k).Some? {
      var v := Find(s, k).value;
      WithoutMembers(s, k);
      forall e: Entry<K, V> ensures e in r <==> e in s {
        if e in s && e.key == k {
          var m :| 0 <= m < |s| && s[m] == e;
        }
      }
    }
    SameEntriesSameFind(r, s, j);
  }

  /** After `get` finds `k`, `k` is the most recently used key. */
  lemma PromoteMakesMostRecent<K, V>(s: seq<Entry<K, V>>, k: K)
    requires DistinctKeys(s) && Find(s, k).Some?
    ensures |Promote(s, k)| > 0 && Promote(s, k)[|s| - 1] == Entry(k, Find(s, k).value)
  {
  }

  /** A `get` of the key that is already the most recently used changes nothing. */
  lemma PromoteMostRecentIsIdentity<K, V>(s: seq<Entry<K, V>>, k: K)
    requires DistinctKeys(s) && 0 < |s| && s[|s| - 1].key == k
    ensures Promote(s, k) == s
  {
    var i := |s| - 1;
    assert IndexOf(s, k) == Some(i);
    assert s[..i] + s[i + 1..] + [s[i]] == s;
  }

  /** What `put` does to the map: `k` now finds `v`; the least recently used key is gone
      exactly when the put evicts; every other key finds what it found before. */
  lemma {:induction false} InsertContents<K, V>(s: seq<Entry<K, V>>, capacity: nat, k: K, v: V, j: K)
    requires Bounded(s, capacity)
    ensures Find(Insert(s, capacity, k, v), j) ==
      if j == k then Some(v)
      else if Evicts(s, capacity, k) && j == s[0].key then None
      else Find(s, j)
  {
    var r := Insert(s, capacity, k, v);
    if j == k {
      FindMember(r, k, v);
    } else if Find(s, k).Some? {
      WithoutMembers(s, k);
      forall e: Entry<K, V> | e.key == j ensures e in r <==> e in s { }
      if Find(s, j).Some? {
        FindMember(s, j, Find(s, j).value);
        FindMember(r, j, Find(s, j).value);
      } else if Find(r, j).Some? {
        FindMember(s, j, Find(r, j).value);
        FindMember(r, j, Find(r, j).value);
      }
    } else if |s| < capacity {
      if Find(s, j).Some? {
        FindMember(s, j, Find(s, j).value);
        FindMember(r, j, Find(s, j).value);
      } else if Find(r, j).Some? {
        FindMember(s, j, Find(r, j).value);
        FindMember(r, j, Find(r, j).value);
      }
    } else {
      assert r == s[1..] + [Entry(k, v)];
      if j == s[0].key {
        assert forall m :: 0 <= m < |r| ==> r[m].key != j;
      } else {
        if Find(s, j).Some? {
          FindMember(s, j, Find(s, j).value);
          var m :| 0 <= m < |s| && s[m] == Entry(j, Find(s, j).value);
          assert r[m - 1] == s[m];
          FindMember(r, j, Find(s, j).value);
        } else {
          assert forall m :: 0 <= m < |r| ==> r[m].key != j by {
            forall m | 0 <= m < |r| ensures r[m].key != j {
              if m < |r| - 1 { assert r[m] == s[m + 1]; }
            }
          }
        }
      }
    }
  }

  /** A `get` protects its key from the next eviction: on a full map, looking a key up and
      then putting a new key keeps the looked-up entry, as long as the capacity exceeds 1. */
  lemma PromoteProtectsFromEviction<K, V>(s: seq<Entry<K, V>>, capacity: nat, a: K, k: K, v: V)
    requires Bounded(s, capacity) && |s| == capacity && 1 < capacity
    requires Find(s, a).Some? && a != k
    ensures Find(Insert(Promote(s, a), capacity, k, v), a) == Find(s, a)
  {
    var p := Promote(s, a);
    PromoteKeepsContents(s, a, a);
    PromoteKeepsContents(s, a, k);
    PromoteMakesMostRecent(s, a);
    InsertContents(p, capacity, k, v, a);
    assert p[0].key != a by {
      assert p[|p| - 1].key == a;
    }
  }

  /** The map itself: a sequence of entries in recency order with a fixed capacity, which
      `Get` and `Put` update in place. */
  class LruCache<K(==), V> {
    var entries: seq<Entry<K, V>>
    const capacity: nat

    ghost predicate Valid()
      reads this
    {
      Bounded(entries, capacity)
    }

    /** `LruCache::new(capacity)`: an empty map. */
    constructor (capacity: nat)
      requires 0 < capacity
      ensures Valid() && this.capacity == capacity && entries == []
    {
      this.capacity := capacity;
      entries := [];
    }

    /** Where `k` sits in the recency order, by a scan from the least recently used end. */
    method Position(k: K) returns (r: Option<nat>)
      ensures r == IndexOf(entries, k)
    {
      var i := 0;
      while i < |entries|
        invariant 0 <= i <= |entries|
        invariant forall j :: 0 <= j < i ==> entries[j].key != k
      {
        if entries[i].key == k {
          return Some(i);
        }
        i := i + 1;
      }
      return None;
    }

    /** `get`: the value under `k`, and `k` becomes the most recently used key. */
    method Get(k: K) returns (r: Option<V>)
      requires Valid()
      modifies this
      ensures Valid()
      ensures r == Find(old(entries), k)
      ensures entries == Promote(old(entries), k)
    {
      var p := Position(k);
      match p
      case None =>
        r := None;
      case Some(i) =>
        r := Some(entries[i].value);
        entries := entries[..i] + entries[i + 1..] + [entries[i]];
    }

    /** `put`: store `v` under `k`, evicting the least recently used entry of a full map
        when `k` is new. */
    method Put(k: K, v: V)
      requires Valid()
      modifies this
      ensures Valid()
      ensures entries == Insert(old(entries), capacity, k, v)
    {
      var p := Position(k);
      match p
      case Some(i) =>
        entries := entries[..i] + entries[i + 1..] + [Entry(k, v)];
      case None =>
        if |entries| == capacity {
          entries := entries[1..];
        }
        entries := entries + [Entry(k, v)];
    }
  }
}
