/** The cache-aside service over an in-memory cache: a key -> entry map where
    an entry holds a possibly-null value and an optional absolute expiry. */
module Caching {
  import opened Common

  datatype CacheEntry<V> = CacheEntry(value: Option<V>, expiresAt: Option<DateTime>)

  /** A memory-cache entry is dropped once the clock reaches its absolute expiry. */
  predicate Live<V>(e: CacheEntry<V>, now: DateTime) {
    e.expiresAt.None? || now < e.expiresAt.value
  }

  /** TryGetValue(key, out value) && value is not null. */
  function Lookup<V>(entries: map<string, CacheEntry<V>>, key: string, now: DateTime): (r: Option<V>)
    ensures r.Some? <==> key in entries && Live(entries[key], now) && entries[key].value.Some?
    ensures r.Some? ==> r == entries[key].value
  {
    if key in entries && Live(entries[key], now) then entries[key].value else None
  }

  /** The entry Set stores: AbsoluteExpirationRelativeToNow only when an expiration is given. */
  function Stored<V>(value: Option<V>, expiration: Option<int>, now: DateTime): CacheEntry<V> {
    CacheEntry(value, if expiration.Some? then Some(now + expiration.value) else None)
  }

  /** A stored non-null value is found again until its expiry, and forever without one. */
  lemma StoredValueFound<V>(entries: map<string, CacheEntry<V>>, key: string, v: V, expiration: Option<int>, now: DateTime, later: DateTime)
    requires expiration.Some? ==> now <= later < now + expiration.value
    ensures Lookup(entries[key := Stored(Some(v), expiration, now)], key, later) == Some(v)
  {
  }

  /** A stored value is gone once its expiry has passed. */
  lemma StoredValueExpires<V>(entries: map<string, CacheEntry<V>>, key: string, v: Option<V>, span: int, now: DateTime, later: DateTime)
    requires later >= now + span
    ensures Lookup(entries[key := Stored(v, Some(span), now)], key, later).None?
  {
  }

  /** A stored null is a miss at every later time: the factory runs again. */
  lemma StoredNullIsMiss<V>(entries: map<string, CacheEntry<V>>, key: string, expiration: Option<int>, now: DateTime, later: DateTime)
    ensures Lookup(entries[key := Stored(None, expiration, now)], key, later).None?
  {
  }

  class InMemoryCacheService<V> {
    var entries: map<string, CacheEntry<V>>

    constructor ()
      ensures entries == map[]
    {
      entries := map[];
    }

    /** GetOrCreateAsync: a hit returns the cached value without calling the
        factory; a miss calls the factory once, stores and returns its value.
        A non-positive expiration makes the cache options throw, so callers
        give a positive one. */
    method GetOrCreate(key: string, factory: () -> Option<V>, expiration: Option<int>, now: DateTime)
      returns (r: Option<V>, factoryCalled: bool)
      requires expiration.Some? ==> expiration.value > 0
      modifies this
      ensures factoryCalled <==> Lookup(old(entries), key, now).None?
      ensures !factoryCalled ==> r == Lookup(old(entries), key, now) && entries == old(entries)
      ensures factoryCalled ==> r == factory() && entries == old(entries)[key := Stored(r, expiration, now)]
    {
      var cached := Lookup(entries, key, now);
      if cached.Some? {
        return cached, false;
      }
      r := factory();
      entries := entries[key := Stored(r, expiration, now)];
      factoryCalled := true;
    }

    /** RemoveAsync: deletes only the given key. */
    method Remove(key: string)
      modifies this
      ensures entries == old(entries) - {key}
      ensures forall k | k in old(entries) && k != key :: k in entries && entries[k] == old(entries)[k]
    {
      entries := entries - {key};
    }
  }
}
