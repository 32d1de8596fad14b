/** The mobile app's offline cache (`app/src/utils/offlineCache.ts`): a
    key-value store (AsyncStorage) in which cached API responses live under
    keys with a common prefix, stamped with the time they were written and
    trusted for thirty minutes. */
module OfflineCache {
  import opened Wrappers
  import opened JsonValue

  const Prefix: string := "@pwelltrack_cache_"

  /** Thirty minutes, in milliseconds. */
  const Ttl: int := 1000 * 60 * 30

  /** What the store holds under one key: an entry `set` wrote (the JSON text
      of `{data, timestamp}`, which parses back to the same pair), or any
      other text, which `JSON.parse` refuses (the empty text included). */
  datatype Stored = Entry(data: Json, timestamp: int) | Unparsable(raw: string)

  type Store = map<string, Stored>

  predicate IsCacheKey(k: string) {
    Prefix <= k
  }

  /** The answer of `get(key)` at time `now` (ms); `JNull` is the source's
      `null`. It is the stored data exactly when the entry under the key was
      written by `set` at most `Ttl` before `now`. */
  function Lookup(store: Store, key: string, now: int): (r: Json)
    ensures (Prefix + key in store && store[Prefix + key].Entry? && now - store[Prefix + key].timestamp <= Ttl)
              ==> r == store[Prefix + key].data
    ensures (Prefix + key !in store || store[Prefix + key].Unparsable? || now - store[Prefix + key].timestamp > Ttl)
              ==> r == JNull
  {
    var k := Prefix + key;
    if k !in store then JNull
    else match store[k]
      case Unparsable(_) => JNull
      case Entry(data, ts) => if now - ts > Ttl then JNull else data
  }

  /** The store after `get(key)` at time `now`: an expired entry is removed,
      and nothing else changes. */
  function AfterGet(store: Store, key: string, now: int): (r: Store)
    ensures r.Keys <= store.Keys && store.Keys - r.Keys <= {Prefix + key}
    ensures forall k :: k in r ==> r[k] == store[k]
    ensures (Prefix + key !in r) <==> (Prefix + key !in store || (store[Prefix + key].Entry? && now - store[Prefix + key].timestamp > Ttl))
  {
    var k := Prefix + key;
    if k in store && store[k].Entry? && now - store[k].timestamp > Ttl then store - {k} else store
  }

  /** The whole AsyncStorage, cache keys and others alike. */
  class Cache {
    var store: Store

    constructor (initial: Store)
      ensures store == initial
    {
      store := initial;
    }

    /** `set(key, data)` at time `now`: overwrites whatever was there. */
    method Set(key: string, data: Json, now: int)
      modifies this
      ensures store == old(store)[Prefix + key := Entry(data, now)]
    {
      store := store[Prefix + key := Entry(data, now)];
    }

    /** `get(key)` at time `now`. */
    method Get(key: string, now: int) returns (r: Json)
      modifies this
      ensures r == Lookup(old(store), key, now)
      ensures store == AfterGet(old(store), key, now)
    {
      var k := Prefix + key;
      if k !in store {
        return JNull;
      }
      match store[k]
      case Unparsable(_) =>
        r := JNull;
      case Entry(data, timestamp) =>
        if now - timestamp > Ttl {
          store := store - {k};
          return JNull;
        }
        r := data;
    }

    /** `invalidate(key)`. */
    method Invalidate(key: string)
      modifies this
      ensures store == old(store) - {Prefix + key}
    {
      store := store - {Prefix + key};
    }

    /** `invalidateAll()`: the keys with the prefix go, every other key keeps
        its value. */
    method InvalidateAll()
      modifies this
      ensures forall k :: k in store <==> k in old(store) && !IsCacheKey(k)
      ensures forall k :: k in store ==> store[k] == old(store)[k]
    {
      var cacheKeys := set k | k in store && IsCacheKey(k);
      if |cacheKeys| > 0 {
        store := store - cacheKeys;
      } else {
        assert forall k :: k in store && IsCacheKey(k) ==> k in cacheKeys;
      }
    }

    /** `fetchWithCache(key, apiFn)` at time `now`, where `api` is what the
        call answered (`Err` when it threw). */
    method FetchWithCache<E>(key: string, api: Result<Json, E>, now: int) returns (r: Result<Json, E>)
      modifies this
      ensures api.Ok? ==> r == api && store == old(store)[Prefix + key := Entry(api.value, now)]
      ensures api.Err? ==> store == AfterGet(old(store), key, now)
      ensures api.Err? ==> r == if Lookup(old(store), key, now) != JNull then Ok(Lookup(old(store), key, now)) else api
    {
      if api.Ok? {
        Set(key, api.value, now);
        return api;
      }
      var cached := Get(key, now);
      if cached != JNull {
        return Ok(cached);
      }
      return api;
    }
  }

  /** A key never written reads as `null` and leaves the store alone. */
  lemma GetAbsent(store: Store, key: string, now: int)
    requires Prefix + key !in store
    ensures Lookup(store, key, now) == JNull && AfterGet(store, key, now) == store
  {
  }

  /** What `set` wrote is read back for `Ttl` ms, the last millisecond
      included, and reading it changes nothing. */
  lemma SetThenGet(store: Store, key: string, data: Json, written: int, now: int)
    requires now - written <= Ttl
    ensures Lookup(store[Prefix + key := Entry(data, written)], key, now) == data
    ensures AfterGet(store[Prefix + key := Entry(data, written)], key, now) == store[Prefix + key := Entry(data, written)]
  {
  }

  /** One millisecond later the entry has expired: it reads as `null` and is
      removed. */
  lemma SetThenGetExpired(store: Store, key: string, data: Json, written: int, now: int)
    requires now - written > Ttl
    ensures Lookup(store[Prefix + key := Entry(data, written)], key, now) == JNull
    ensures AfterGet(store[Prefix + key := Entry(data, written)], key, now) == store - {Prefix + key}
  {
  }

  /** Text the parser refuses reads as `null` and stays in the store. */
  lemma UnparsableKept(store: Store, key: string, now: int)
    requires Prefix + key in store && store[Prefix + key].Unparsable?
    ensures Lookup(store, key, now) == JNull && AfterGet(store, key, now) == store
  {
  }

  /** Every key `get`, `set` and `invalidate` touch is a cache key, so the
      other contents of the store are safe from them. */
  lemma OnlyCacheKeysTouched(key: string)
    ensures IsCacheKey(Prefix + key)
  {
  }

  /** A cached `null` cannot be told from a miss: `fetchWithCache` rethrows
      even though the entry is fresh. */
  lemma CachedNullRethrows(store: Store, key: string, written: int, now: int)
    requires now - written <= Ttl
    ensures Lookup(store[Prefix + key := Entry(JNull, written)], key, now) == JNull
  {
  }
}
