/**
 * The memoising caches of CacheTrait: a class-level cache shared by every object of the
 * class (`static::$staticCache`) and a per-object cache (`$this->cache`), both keyed by an
 * explicit id. A miss calls the creating function once and stores what it returns; a hit,
 * even of a stored null, returns the stored value without calling it.
 *
 * The creating function is a `Factory` that counts its calls; what it returns on its n-th
 * call is a parameter of the model, so a second call may give a different value.
 */
module Caches {
  import opened Wrappers
  import opened Php

  /** A `$createFunction` callable. */
  class Factory {
    /** What the function returns on its n-th call (counting from 0). */
    const produce: nat -> Value
    var calls: nat

    constructor (produce: nat -> Value)
      ensures this.produce == produce && calls == 0
    {
      this.produce := produce;
      calls := 0;
    }

    method Call() returns (v: Value)
      modifies this`calls
      ensures v == produce(old(calls)) && calls == old(calls) + 1
    {
      v := produce(calls);
      calls := calls + 1;
    }
  }

  /** The key an `$id` (a string or an integer) becomes in the cache array. */
  function CacheKey(id: Value): (k: Key)
    requires id.Int? || id.Str?
    ensures id.Int? ==> k == IntKey(id.i)
    ensures id.Str? ==> k == ArrayKey(id.s)
  {
    OffsetKey(id)
  }

  /** One cache array, mapping ids to the objects created for them. */
  class Memo {
    var entries: map<Key, Value>

    constructor ()
      ensures entries == map[]
    {
      entries := map[];
    }

    /** The body of `cache`/`staticCache` for a given id: a hit (tested with
        `array_key_exists`, so a stored null counts) returns the stored value and calls
        nothing; a miss calls the factory once and stores its result. */
    method Fetch(create: Factory, id: Key) returns (v: Value)
      modifies this`entries, create`calls
      ensures id in old(entries) ==>
        v == old(entries)[id] && entries == old(entries) && create.calls == old(create.calls)
      ensures id !in old(entries) ==>
        v == create.produce(old(create.calls)) && create.calls == old(create.calls) + 1 &&
        entries == old(entries)[id := v]
    {
      if id in entries {
        return entries[id];
      }
      v := create.Call();
      entries := entries[id := v];
    }

    /** The body of `releaseCache`/`releaseStaticCache`: without an id the whole cache is
        emptied, with one only that entry is removed. */
    method Release(id: Option<Key>)
      modifies this`entries
      ensures id.None? ==> entries == map[]
      ensures id.Some? ==> entries == old(entries) - {id.value}
    {
      if id.None? {
        entries := map[];
      } else {
        entries := entries - {id.value};
      }
    }
  }

  /** An object of a class using the trait: its own cache, and the class-level cache it
      shares with every other object of the class. */
  class Holder {
    const staticCache: Memo
    const cache: Memo

    constructor (classCache: Memo)
      ensures staticCache == classCache && fresh(cache) && cache.entries == map[]
    {
      staticCache := classCache;
      cache := new Memo();
    }

    /** `cache($createFunction, $id)`. */
    method Cache(create: Factory, id: Value) returns (v: Value)
      requires id.Int? || id.Str?
      modifies cache`entries, create`calls
      ensures var k := CacheKey(id);
        (k in old(cache.entries) ==>
          v == old(cache.entries)[k] && cache.entries == old(cache.entries) && create.calls == old(create.calls)) &&
        (k !in old(cache.entries) ==>
          v == create.produce(old(create.calls)) && create.calls == old(create.calls) + 1 &&
          cache.entries == old(cache.entries)[k := v])
    {
      v := cache.Fetch(create, CacheKey(id));
    }

    /** `releaseCache($id)`. */
    method ReleaseCache(id: Option<Value>)
      requires id.Some? ==> id.value.Int? || id.value.Str?
      modifies cache`entries
      ensures id.None? ==> cache.entries == map[]
      ensures id.Some? ==> cache.entries == old(cache.entries) - {CacheKey(id.value)}
    {
      if id.None? {
        cache.Release(None);
      } else {
        cache.Release(Some(CacheKey(id.value)));
      }
    }

    /** `staticCache($createFunction, $id)`: the same rules, on the class-level cache. */
    method StaticCache(create: Factory, id: Value) returns (v: Value)
      requires id.Int? || id.Str?
      modifies staticCache`entries, create`calls
      ensures var k := CacheKey(id);
        (k in old(staticCache.entries) ==>
          v == old(staticCache.entries)[k] && staticCache.entries == old(staticCache.entries) &&
          create.calls == old(create.calls)) &&
        (k !in old(staticCache.entries) ==>
          v == create.produce(old(create.calls)) && create.calls == old(create.calls) + 1 &&
          staticCache.entries == old(staticCache.entries)[k := v])
    {
      v := staticCache.Fetch(create, CacheKey(id));
    }

    /** `releaseStaticCache($id)`. */
    method ReleaseStaticCache(id: Option<Value>)
      requires id.Some? ==> id.value.Int? || id.value.Str?
      modifies staticCache`entries
      ensures id.None? ==> staticCache.entries == map[]
      ensures id.Some? ==> staticCache.entries == old(staticCache.entries) - {CacheKey(id.value)}
    {
      if id.None? {
        staticCache.Release(None);
      } else {
        staticCache.Release(Some(CacheKey(id.value)));
      }
    }
  }

  /** Asking twice for the same id calls the factory at most once, and both answers agree. */
  method FetchTwice(m: Memo, create: Factory, id: Key) returns (first: Value, second: Value)
    modifies m`entries, create`calls
    ensures first == second
    ensures create.calls == old(create.calls) + (if id in old(m.entries) then 0 else 1)
    ensures id in m.entries && m.entries[id] == first
  {
    first := m.Fetch(create, id);
    second := m.Fetch(create, id);
  }

  /** After an id is released, the next request for it calls the factory again, and the
      other entries are kept. */
  method RecomputeAfterRelease(m: Memo, create: Factory, id: Key) returns (before: Value, after: Value)
    modifies m`entries, create`calls
    ensures var missed := if id in old(m.entries) then 0 else 1;
      after == create.produce(old(create.calls) + missed) && create.calls == old(create.calls) + missed + 1
    ensures forall k :: k in old(m.entries) && k != id ==> k in m.entries && m.entries[k] == old(m.entries)[k]
  {
    before := m.Fetch(create, id);
    m.Release(Some(id));
    after := m.Fetch(create, id);
  }

  /** The class-level cache is shared and the object caches are not: what one object puts
      in the class cache is a hit for another, while its own cache stays invisible to it. */
  method SharedClassCache(a: Holder, b: Holder, create: Factory, id: Value) returns (va: Value, vb: Value)
    requires id.Int? || id.Str?
    requires a.staticCache == b.staticCache && a.cache != b.cache
    requires a.cache != a.staticCache && b.cache != b.staticCache
    modifies a.staticCache`entries, create`calls
    ensures va == vb
    ensures create.calls <= old(create.calls) + 1
    ensures unchanged(a.cache, b.cache)
  {
    va := a.StaticCache(create, id);
    vb := b.StaticCache(create, id);
  }
}
