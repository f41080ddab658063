/**
 * The in-memory response cache (`SimpleCache`): entries keyed by query and
 * source, each stamped with the time it was stored, and valid for `ttl`
 * seconds. The clock (`time.time()`) is a parameter `now` of the operations
 * that read it.
 */
module Cache {
  import opened Common

  datatype Entry<D> = Entry(data: D, timestamp: real)

  /** The key of a query and a source. The source hashes `f"{query}_{source}"`
      with MD5; the hash is left out (as if it had no collisions), so the key
      is the string that is hashed. */
  function Key(query: string, source: string): string
  {
    query + "_" + source
  }

  /** An entry is still valid while it is younger than `ttl`. */
  predicate Valid<D>(e: Entry<D>, ttl: real, now: real)
  {
    now - e.timestamp < ttl
  }

  /** The value `get` returns. */
  function Lookup<D>(cache: map<string, Entry<D>>, ttl: real, key: string, now: real): Option<D>
  {
    if key in cache && Valid(cache[key], ttl, now) then Some(cache[key].data) else None
  }

  /** The entries after `get`: an expired entry under `key` is deleted. */
  function AfterLookup<D>(cache: map<string, Entry<D>>, ttl: real, key: string, now: real): map<string, Entry<D>>
  {
    if key in cache && !Valid(cache[key], ttl, now) then cache - {key} else cache
  }

  /** The entries after `cleanup_expired`: the valid ones. */
  function Unexpired<D>(cache: map<string, Entry<D>>, ttl: real, now: real): map<string, Entry<D>>
  {
    map k | k in cache && Valid(cache[k], ttl, now) :: cache[k]
  }

  class SimpleCache<D> {
    var cache: map<string, Entry<D>>
    const ttl: real

    /** `SimpleCache(ttl_seconds)`; the module-level `api_cache` uses 300. */
    constructor(ttlSeconds: real)
      ensures cache == map[] && ttl == ttlSeconds
    {
      cache := map[];
      ttl := ttlSeconds;
    }

    method Get(query: string, source: string, now: real) returns (r: Option<D>)
      modifies this
      ensures r == Lookup(old(cache), ttl, Key(query, source), now)
      ensures cache == AfterLookup(old(cache), ttl, Key(query, source), now)
    {
      var key := Key(query, source);
      if key in cache {
        var entry := cache[key];
        if now - entry.timestamp < ttl {
          return Some(entry.data);
        } else {
          cache := cache - {key};
        }
      }
      return None;
    }

    method Set(query: string, source: string, data: D, now: real)
      modifies this
      ensures cache == old(cache)[Key(query, source) := Entry(data, now)]
    {
      var key := Key(query, source);
      cache := cache[key := Entry(data, now)];
    }

    method Clear()
      modifies this
      ensures cache == map[]
    {
      cache := map[];
    }

    method CleanupExpired(now: real)
      modifies this
      ensures cache == Unexpired(old(cache), ttl, now)
    {
      var expired := set k | k in cache && !Valid(cache[k], ttl, now);
      var todo := expired;
      while todo != {}
        invariant todo <= expired
        invariant cache == old(cache) - (expired - todo)
        decreases |todo|
      {
        var k :| k in todo;
        cache := cache - {k};
        todo := todo - {k};
      }
      assert expired - todo == expired;
      forall k
        ensures k in cache <==> k in Unexpired(old(cache), ttl, now)
      {
        assert k in expired <==> k in old(cache) && !Valid(old(cache)[k], ttl, now);
      }
      assert cache.Keys == Unexpired(old(cache), ttl, now).Keys;
    }
  }

  /** `get` returns data exactly when an entry exists under the key and is
      younger than `ttl`, and then it is that entry's data. */
  lemma LookupSome<D>(cache: map<string, Entry<D>>, ttl: real, key: string, now: real, d: D)
    ensures Lookup(cache, ttl, key, now) == Some(d)
        <==> key in cache && now - cache[key].timestamp < ttl && cache[key].data == d
  {
  }

  /** `get` deletes the entry under its key when it has expired, keeps it
      otherwise, and leaves every other key as it was. */
  lemma LookupTouchesOnlyKey<D>(cache: map<string, Entry<D>>, ttl: real, key: string, now: real)
    ensures var c := AfterLookup(cache, ttl, key, now);
      && (key in c <==> key in cache && Valid(cache[key], ttl, now))
      && (forall k :: k != key ==> (k in c <==> k in cache))
      && (forall k :: k in c ==> c[k] == cache[k])
  {
  }

  /** A `get` within `ttl` of a `set` returns the data just stored, and a
      `set` changes no other key's `get`. */
  lemma SetThenLookup<D>(cache: map<string, Entry<D>>, ttl: real, key: string, d: D,
                         stamped: real, now: real, other: string)
    requires now - stamped < ttl && other != key
    ensures Lookup(cache[key := Entry(d, stamped)], ttl, key, now) == Some(d)
    ensures Lookup(cache[key := Entry(d, stamped)], ttl, other, now) == Lookup(cache, ttl, other, now)
  {
  }

  /** After `clear` every `get` misses. */
  lemma ClearedMisses<D>(ttl: real, key: string, now: real)
    ensures Lookup<D>(map[], ttl, key, now) == None
  {
  }

  /** `cleanup_expired` removes exactly the entries aged `ttl` or more and
      keeps the others untouched. */
  lemma UnexpiredExactly<D>(cache: map<string, Entry<D>>, ttl: real, now: real, k: string)
    ensures k in Unexpired(cache, ttl, now) <==> k in cache && now - cache[k].timestamp < ttl
    ensures k in Unexpired(cache, ttl, now) ==> Unexpired(cache, ttl, now)[k] == cache[k]
  {
  }

  /** Cleaning up at time `now` changes no `get` made at that time. */
  lemma CleanupInvisible<D>(cache: map<string, Entry<D>>, ttl: real, now: real, key: string)
    ensures Lookup(Unexpired(cache, ttl, now), ttl, key, now) == Lookup(cache, ttl, key, now)
  {
  }

  /** Keys come from the joined string, so query/source pairs that join to the
      same string share one entry. */
  lemma KeysOfSameJoinCollide()
    ensures ("a_b", "c") != ("a", "b_c") && Key("a_b", "c") == Key("a", "b_c")
  {
  }
}
