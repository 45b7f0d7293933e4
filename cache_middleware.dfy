/**
 * The response cache for GET requests: entries keyed by "GET:<url>", each
 * with the cached body and the time it was stored or last served; a
 * recency list whose first key is the least recently used; a size bound
 * and a maximum age.
 */
module CacheMiddleware {
  import opened Wrappers
  import opened Store

  datatype Entry<Body> = Entry(data: Body, timestamp: int)

  /** What the middleware does with one request. */
  datatype Lookup<Body> =
    | Bypass            // not a GET: handed on, and the response is not cached
    | Hit(data: Body)   // answered from the cache
    | Miss(key: string) // handed on; the response will be stored under `key`

  /** The recency list with `key` moved (or added) to the most recent end. */
  function Touch(lru: seq<string>, key: string): (r: seq<string>)
    ensures |r| > 0 && r[|r| - 1] == key
    ensures forall k :: k in r <==> k in lru || k == key
  {
    Remove(lru, key) + [key]
  }

  /** The recency list without `key`, other keys keeping their order (see `RemoveCut`). */
  function Remove(lru: seq<string>, key: string): (r: seq<string>)
    ensures key !in r
    ensures forall k :: k in r <==> k in lru && k != key
    ensures Distinct(lru) ==> Distinct(r)
    ensures |r| <= |lru|
    ensures key !in lru ==> r == lru
  {
    if lru == [] then []
    else
      var rest := Remove(lru[1..], key);
      if lru[0] == key then rest
      else
        assert Distinct(lru) ==> lru[0] !in lru[1..] by {
          if Distinct(lru) {
            forall k | 0 <= k < |lru[1..]| ensures lru[1..][k] != lru[0] {
              assert lru[1..][k] == lru[k + 1];
            }
          }
        }
        assert key !in lru ==> lru == [lru[0]] + lru[1..];
        [lru[0]] + rest
  }

  /** In a list without repeats, removing the key at position `i` cuts out exactly that position. */
  lemma {:induction false} RemoveCut(lru: seq<string>, key: string, i: nat)
    requires Distinct(lru) && i < |lru| && lru[i] == key
    ensures Remove(lru, key) == lru[..i] + lru[i + 1..]
  {
    var tail := lru[1..];
    assert Distinct(tail) && lru[0] !in tail by {
      forall a, b | 0 <= a < b < |tail| ensures tail[a] != tail[b] {
        assert tail[a] == lru[a + 1] && tail[b] == lru[b + 1];
      }
      forall k | 0 <= k < |tail| ensures tail[k] != lru[0] {
        assert tail[k] == lru[k + 1];
      }
    }
    if i == 0 {
      assert Remove(lru, key) == Remove(tail, key) == tail;
    } else {
      assert tail[i - 1] == key;
      RemoveCut(tail, key, i - 1);
      assert tail[..i - 1] == lru[1..i] && tail[i..] == lru[i + 1..];
      assert lru[..i] == [lru[0]] + lru[1..i];
    }
  }

  /**
   * Touching a key keeps the list distinct and makes the key the most recent;
   * every other key keeps its place relative to the others, so the list
   * stays ordered from least to most recently used.
   */
  lemma TouchSpec(lru: seq<string>, key: string)
    requires Distinct(lru)
    ensures var r := Touch(lru, key);
      && Distinct(r) && r[|r| - 1] == key
      && (forall k :: k in r <==> k in lru || k == key)
      && (key !in lru ==> r == lru + [key])
      && (forall i :: 0 <= i < |lru| && lru[i] == key ==> r == lru[..i] + lru[i + 1..] + [key])
  {
    var rest := Remove(lru, key);
    var r := rest + [key];
    forall i | 0 <= i < |lru| && lru[i] == key ensures r == lru[..i] + lru[i + 1..] + [key] {
      RemoveCut(lru, key, i);
    }
    forall i, j | 0 <= i < j < |r| ensures r[i] != r[j] {
      if j == |r| - 1 {
        assert r[i] in rest;
      }
    }
  }

  class Cache<Body> {
    var entries: map<string, Entry<Body>>
    var lru: seq<string>
    const max: int
    const maxAge: int

    /** The recency list holds exactly the cached keys, once each, and a positive bound is respected. */
    ghost predicate Valid()
      reads this
    {
      && Distinct(lru)
      && (forall k :: k in lru <==> k in entries)
      && "" !in entries
      && (max >= 1 ==> |entries| <= max)
    }

    /** `createCacheMiddleware(config)`: an absent `max` is 50 and an absent `maxAge` 30000 milliseconds. */
    constructor (maxOption: Option<int>, maxAgeOption: Option<int>)
      ensures entries == map[] && lru == []
      ensures max == (if maxOption.Some? then maxOption.value else 50)
      ensures maxAge == (if maxAgeOption.Some? then maxAgeOption.value else 30000)
      ensures Valid()
    {
      entries := map[];
      lru := [];
      max := if maxOption.Some? then maxOption.value else 50;
      maxAge := if maxAgeOption.Some? then maxAgeOption.value else 30000;
    }

    /** `evictCache(key)`: the entry and its recency are dropped. */
    method Evict(key: string)
      requires Valid()
      modifies this
      ensures entries == old(entries) - {key} && lru == Remove(old(lru), key)
      ensures Valid()
    {
      entries := entries - {key};
      lru := Remove(lru, key);
      SizeOfKeys(lru, entries);
    }

    /** `evictCache()`: the least recently used entry, if any, is dropped. */
    method EvictOldest()
      requires Valid()
      modifies this
      ensures old(lru) == [] ==> entries == old(entries) && lru == old(lru)
      ensures old(lru) != [] ==>
        entries == old(entries) - {old(lru)[0]} && lru == old(lru)[1..]
      ensures Valid()
      ensures old(lru) != [] ==> |entries| == |old(entries)| - 1
    {
      if lru != [] {
        var oldest := lru[0];
        RemoveCut(lru, oldest, 0);
        assert lru[..0] + lru[1..] == lru[1..];
        Evict(oldest);
      }
    }

    /** A served entry gets the timestamp `now` and becomes the most recently used. */
    method Renew(key: string, now: int)
      requires Valid() && key in entries
      modifies this
      ensures entries == old(entries)[key := Entry(old(entries)[key].data, now)]
      ensures lru == Touch(old(lru), key)
      ensures Valid()
    {
      TouchSpec(lru, key);
      assert entries[key := Entry(entries[key].data, now)].Keys == entries.Keys;
      entries := entries[key := Entry(entries[key].data, now)];
      lru := Touch(lru, key);
    }

    /**
     * The request phase: a non-GET request is bypassed; a fresh entry
     * (younger than `maxAge` at time `now`) is served and becomes the most
     * recently used, with its timestamp renewed; an expired one is evicted.
     */
    method Handle(httpMethod: string, url: string, now: int) returns (r: Lookup<Body>)
      requires Valid()
      modifies this
      ensures Valid()
      ensures httpMethod != "GET" ==> r == Bypass && entries == old(entries) && lru == old(lru)
      ensures httpMethod == "GET" ==>
        var key := "GET:" + url;
        && (key in old(entries) && now - old(entries)[key].timestamp < maxAge ==>
              && r == Hit(old(entries)[key].data)
              && entries == old(entries)[key := Entry(old(entries)[key].data, now)]
              && lru == Touch(old(lru), key))
        && (key in old(entries) && now - old(entries)[key].timestamp >= maxAge ==>
              r == Miss(key) && entries == old(entries) - {key} && lru == Remove(old(lru), key))
        && (key !in old(entries) ==> r == Miss(key) && entries == old(entries) && lru == old(lru))
    {
      if httpMethod != "GET" {
        return Bypass;
      }
      var key := "GET:" + url;  // the request's method followed by its URL
      if key in entries {
        var cached := entries[key];
        if now - cached.timestamp < maxAge {
          Renew(key, now);
          return Hit(cached.data);
        }
        Evict(key);
      }
      r := Miss(key);
    }

    /**
     * The response phase (the wrapped `res.json`): when the cache is full the
     * least recently used entry is evicted first; then the body is stored at
     * time `now` as the most recently used entry.
     */
    method Store(url: string, body: Body, now: int)
      requires Valid()
      modifies this
      ensures Valid()
      ensures var key := "GET:" + url;
        var evicts := |old(entries)| >= max && old(lru) != [];
        && entries == (if evicts then old(entries) - {old(lru)[0]} else old(entries))[key := Entry(body, now)]
        && lru == Touch(if evicts then old(lru)[1..] else old(lru), key)
        && |lru| > 0 && lru[|lru| - 1] == key
    {
      var key := "GET:" + url;
      if |entries| >= max {
        EvictOldest();
      }
      entries := entries[key := Entry(body, now)];
      TouchSpec(lru, key);
      lru := Touch(lru, key);
      SizeOfKeys(lru, entries);
    }

    /** The size of the cache is the length of its distinct recency list. */
    static lemma SizeOfKeys(lru: seq<string>, entries: map<string, Entry<Body>>)
      requires Distinct(lru) && forall k :: k in lru <==> k in entries
      ensures |entries| == |lru|
    {
      DistinctCard(lru);
      assert (set k | k in lru) == entries.Keys;
    }
  }

  lemma {:induction false} DistinctCard(s: seq<string>)
    requires Distinct(s)
    ensures |set k | k in s| == |s|
  {
    if s != [] {
      var t := s[1..];
      assert Distinct(t) by {
        forall i, j | 0 <= i < j < |t| ensures t[i] != t[j] {
          assert t[i] == s[i + 1] && t[j] == s[j + 1];
        }
      }
      DistinctCard(t);
      assert s[0] !in t by {
        forall k | 0 <= k < |t| ensures t[k] != s[0] {
          assert t[k] == s[k + 1];
        }
      }
      assert (set k | k in s) == (set k | k in t) + {s[0]} by {
        assert s == [s[0]] + t;
      }
    }
  }
}
