/** The in-process LRU cache `MemoryCache` and the two-tier lookup of
    `CachedDBProcessor` (an optional Redis tier in front of the memory
    tier). Keys are strings; cached values are never None (a stored None
    would read back as a miss in the source, so it is not modelled). */
module MemCache {
  import opened PyStr
  import opened PyList

  /** A duplicate-free listing of a set has as many entries as the set. */
  lemma {:induction false} DistinctCard(s: seq<string>, keys: set<string>)
    requires Distinct(s)
    requires forall k :: k in keys <==> k in s
    ensures |keys| == |s|
  {
    if |s| > 0 {
      var last := s[|s| - 1];
      var init := s[..|s| - 1];
      assert forall k :: k in keys - {last} <==> k in init by {
        forall k ensures k in keys - {last} <==> k in init {
          if k in init {
            var j :| 0 <= j < |init| && init[j] == k;
            assert s[j] == k;
          }
          if k in s && k != last {
            var j :| 0 <= j < |s| && s[j] == k;
            assert j < |s| - 1;
            assert init[j] == k;
          }
        }
      }
      DistinctCard(init, keys - {last});
    }
  }

  /** Dropping the least recently used key keeps the listing exact. */
  lemma EvictOldest(order: seq<string>, keys: set<string>)
    requires |order| > 0 && Distinct(order)
    requires forall k :: k in keys <==> k in order
    ensures Distinct(order[1..])
    ensures forall k :: k in keys - {order[0]} <==> k in order[1..]
  {
    forall k ensures k in keys - {order[0]} <==> k in order[1..] {
      if k in order && k != order[0] {
        var j :| 0 <= j < |order| && order[j] == k;
        assert order[1..][j - 1] == k;
      }
      if k in order[1..] {
        var j :| 0 <= j < |order[1..]| && order[1..][j] == k;
        assert order[j + 1] == k;
      }
    }
  }

  /** Listing a new key last keeps the listing exact and duplicate-free. */
  lemma AppendNew(order: seq<string>, keys: set<string>, key: string)
    requires Distinct(order) && key !in keys
    requires forall k :: k in keys <==> k in order
    ensures Distinct(order + [key])
    ensures forall k :: k in keys + {key} <==> k in order + [key]
    ensures |keys + {key}| == |order| + 1
  {
    DistinctCard(order, keys);
  }

  /** Storing `key` in a map whose other keys are `keys`. */
  lemma PutKeys<V>(m: map<string, V>, keys: set<string>, key: string, v: V)
    requires key !in keys
    requires forall k :: k in m && k != key <==> k in keys
    ensures forall k :: k in m[key := v] <==> k in keys + {key}
    ensures |m[key := v]| == |keys + {key}|
  {
    assert m[key := v].Keys == keys + {key};
  }

  /** The entries and access order `set(key, value)` leaves behind: an
      existing key is overwritten and moved last; a new key in a full cache
      first evicts the head of the order; any other new key is added last. */
  function Stored<V>(cache: map<string, V>, order: seq<string>, maxSize: int, key: string, value: V): (map<string, V>, seq<string>)
    requires key !in cache && |cache| >= maxSize ==> |order| > 0
  {
    if key in cache then (cache[key := value], RemoveFirst(order, key) + [key])
    else if |cache| >= maxSize then ((cache - {order[0]})[key := value], order[1..] + [key])
    else (cache[key := value], order + [key])
  }

  datatype Stats = Stats(hits: nat, misses: nat, hitRate: real, cacheSize: nat, maxSize: int)

  class MemoryCache<V> {
    var cache: map<string, V>
    var accessOrder: seq<string>
    const maxSize: int
    var hits: nat
    var misses: nat
    /** number of `get` calls since construction or the last `clear` */
    ghost var gets: nat

    ghost predicate Valid()
      reads this
    {
      maxSize >= 1 &&
      Distinct(accessOrder) &&
      (forall k :: k in cache <==> k in accessOrder) &&
      |cache| <= maxSize &&
      hits + misses == gets
    }

    constructor (maxSize: int)
      requires maxSize >= 1
      ensures Valid() && fresh(this)
      ensures this.maxSize == maxSize && cache == map[] && accessOrder == [] && hits == 0 && misses == 0
    {
      this.maxSize := maxSize;
      cache := map[];
      accessOrder := [];
      hits := 0;
      misses := 0;
      gets := 0;
    }

    /** `get(key)`: a hit moves the key to the most recent end of the order. */
    method Get(key: string) returns (r: Option<V>)
      requires Valid()
      modifies this
      ensures Valid()
      ensures cache == old(cache) && gets == old(gets) + 1
      ensures key in old(cache) ==>
        r == Some(old(cache)[key]) && hits == old(hits) + 1 && misses == old(misses) &&
        accessOrder == RemoveFirst(old(accessOrder), key) + [key]
      ensures key !in old(cache) ==>
        r == None && misses == old(misses) + 1 && hits == old(hits) && accessOrder == old(accessOrder)
    {
      gets := gets + 1;
      if key in cache {
        RemoveFirstDistinct(accessOrder, key);
        accessOrder := RemoveFirst(accessOrder, key) + [key];
        hits := hits + 1;
        r := Some(cache[key]);
      } else {
        misses := misses + 1;
        r := None;
      }
    }

    /** `set(key, value)`: replace an existing entry and move it to the
        most recent end, or evict the least recently used key first when the
        cache is full. */
    method Set(key: string, value: V)
      requires Valid()
      modifies this
      ensures Valid()
      ensures hits == old(hits) && misses == old(misses) && gets == old(gets)
      ensures key in old(cache) ==>
        cache == old(cache)[key := value] &&
        accessOrder == RemoveFirst(old(accessOrder), key) + [key]
      ensures key !in old(cache) && |old(cache)| >= maxSize ==>
        var oldest := old(accessOrder)[0];
        cache == (old(cache) - {oldest})[key := value] &&
        accessOrder == old(accessOrder)[1..] + [key]
      ensures key !in old(cache) && |old(cache)| < maxSize ==>
        cache == old(cache)[key := value] && accessOrder == old(accessOrder) + [key]
      ensures |old(accessOrder)| == |old(cache)| &&
        (cache, accessOrder) == Stored(old(cache), old(accessOrder), maxSize, key, value)
    {
      DistinctCard(accessOrder, cache.Keys);
      ghost var keys := cache.Keys;
      if key in cache {
        RemoveFirstDistinct(accessOrder, key);
        accessOrder := RemoveFirst(accessOrder, key);
        keys := cache.Keys - {key};
      } else if |cache| >= maxSize {
        var oldest := accessOrder[0];
        EvictOldest(accessOrder, cache.Keys);
        accessOrder := accessOrder[1..];
        cache := cache - {oldest};
        keys := cache.Keys;
      }
      AppendNew(accessOrder, keys, key);
      PutKeys(cache, keys, key, value);
      cache := cache[key := value];
      accessOrder := accessOrder + [key];
    }

    /** `delete(key)`: no effect on an absent key. */
    method Delete(key: string)
      requires Valid()
      modifies this
      ensures Valid()
      ensures hits == old(hits) && misses == old(misses) && gets == old(gets)
      ensures cache == old(cache) - {key}
      ensures accessOrder == RemoveFirst(old(accessOrder), key)
    {
      if key in cache {
        RemoveFirstDistinct(accessOrder, key);
        cache := cache - {key};
        accessOrder := RemoveFirst(accessOrder, key);
      }
    }

    /** `clear()`: both structures emptied, both counters zeroed. */
    method Clear()
      requires Valid()
      modifies this
      ensures Valid()
      ensures cache == map[] && accessOrder == [] && hits == 0 && misses == 0 && gets == 0
    {
      cache := map[];
      accessOrder := [];
      hits := 0;
      misses := 0;
      gets := 0;
    }

    /** `get_stats()`; the hit rate is a percentage, 0 before any lookup. */
    method GetStats() returns (s: Stats)
      requires Valid()
      ensures s.hits == hits && s.misses == misses && s.maxSize == maxSize
      ensures s.cacheSize == |cache| == |accessOrder|
      ensures hits + misses == 0 ==> s.hitRate == 0.0
      ensures hits + misses > 0 ==> 0.0 <= s.hitRate <= 100.0 && s.hitRate * (hits + misses) as real == hits as real * 100.0
    {
      DistinctCard(accessOrder, cache.Keys);
      var total := hits + misses;
      var rate := if total > 0 then hits as real / total as real * 100.0 else 0.0;
      s := Stats(hits, misses, rate, |cache|, maxSize);
    }
  }

  /** `CachedDBProcessor`'s two cache tiers and its hit/miss statistics.
      The Redis tier is an optional key-value store (`None` when Redis is
      disabled or unreachable); the memory tier is optional as well. */
  class TwoTierCache<V> {
    var redis: Option<map<string, V>>
    const memory: MemoryCache?<V>
    var cacheHits: nat
    var cacheMisses: nat

    ghost predicate Valid()
      reads this, memory
    {
      memory != null ==> memory.Valid()
    }

    constructor (redis: Option<map<string, V>>, memory: MemoryCache?<V>)
      requires memory != null ==> memory.Valid()
      ensures Valid()
      ensures this.redis == redis && this.memory == memory && cacheHits == 0 && cacheMisses == 0
    {
      this.redis := redis;
      this.memory := memory;
      cacheHits := 0;
      cacheMisses := 0;
    }

    /** `get_from_cache(key)`: Redis first (a hit is copied into memory),
        then memory; one hit per successful lookup, a miss only when both
        tiers miss. */
    method GetFromCache(key: string) returns (r: Option<V>)
      requires Valid()
      modifies this, memory
      ensures Valid()
      ensures redis == old(redis)
      ensures old(redis).Some? && key in old(redis).value ==>
        r == Some(old(redis).value[key]) &&
        (memory != null ==> key in memory.cache && memory.cache[key] == r.value)
      ensures r.Some? <==> cacheHits == old(cacheHits) + 1
      ensures r.None? <==> cacheMisses == old(cacheMisses) + 1
      ensures cacheHits + cacheMisses == old(cacheHits) + old(cacheMisses) + 1
      ensures r.None? ==>
        !(old(redis).Some? && key in old(redis).value) && (memory == null || key !in old(memory.cache))
      ensures r.Some? && !(old(redis).Some? && key in old(redis).value) ==>
        memory != null && key in old(memory.cache) && r.value == old(memory.cache)[key]
      ensures memory != null && old(redis).Some? && key in old(redis).value ==>
        |old(memory.accessOrder)| == |old(memory.cache)| &&
        (memory.cache, memory.accessOrder) ==
          Stored(old(memory.cache), old(memory.accessOrder), memory.maxSize, key, old(redis).value[key]) &&
        memory.hits == old(memory.hits) && memory.misses == old(memory.misses)
      ensures memory != null && !(old(redis).Some? && key in old(redis).value) ==>
        memory.cache == old(memory.cache) &&
        (key in old(memory.cache) ==>
          memory.accessOrder == RemoveFirst(old(memory.accessOrder), key) + [key] &&
          memory.hits == old(memory.hits) + 1 && memory.misses == old(memory.misses)) &&
        (key !in old(memory.cache) ==>
          memory.accessOrder == old(memory.accessOrder) &&
          memory.hits == old(memory.hits) && memory.misses == old(memory.misses) + 1)
    {
      if redis.Some? && key in redis.value {
        var value := redis.value[key];
        if memory != null {
          memory.Set(key, value);
        }
        cacheHits := cacheHits + 1;
        return Some(value);
      }
      if memory != null {
        var value := memory.Get(key);
        if value.Some? {
          cacheHits := cacheHits + 1;
          return Some(value.value);
        }
      }
      cacheMisses := cacheMisses + 1;
      return None;
    }

    /** `set_to_cache(key, value)`: written to every present tier. */
    method SetToCache(key: string, value: V)
      requires Valid()
      modifies this, memory
      ensures Valid()
      ensures cacheHits == old(cacheHits) && cacheMisses == old(cacheMisses)
      ensures old(redis).Some? ==> redis == Some(old(redis).value[key := value])
      ensures old(redis).None? ==> redis == None
      ensures memory != null ==> key in memory.cache && memory.cache[key] == value
      ensures memory != null ==>
        |old(memory.accessOrder)| == |old(memory.cache)| &&
        (memory.cache, memory.accessOrder) ==
          Stored(old(memory.cache), old(memory.accessOrder), memory.maxSize, key, value) &&
        memory.hits == old(memory.hits) && memory.misses == old(memory.misses)
    {
      if redis.Some? {
        redis := Some(redis.value[key := value]);
      }
      if memory != null {
        memory.Set(key, value);
      }
    }
  }
}
