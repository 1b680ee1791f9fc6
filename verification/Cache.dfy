/** The cache object: a recency list behind a byte count that is kept by the eviction callback. */
module Cache {
  import opened Wrappers
  import opened LruCache

  class Cache<V> {
    const limits: Limits
    /** The backend's list, most recently used first. */
    var entries: seq<Entry<V>>
    var currentSizeBytes: int
    var hits: nat
    var misses: nat

    /** Fails, as the backend does, without room for an entry. */
    static method NewCache(maxEntries: int, maxSizeMB: int, maxAge: int) returns (c: Option<Cache<V>>)
      ensures c.Some? <==> maxEntries > 0
      ensures c.Some? ==> fresh(c.value) && c.value.Value() == State([], 0, 0, 0)
                          && c.value.limits == Limits(maxEntries, maxSizeMB * 1024 * 1024, maxAge)
                          && (maxSizeMB >= 0 ==> c.value.Valid())
    {
      if maxEntries <= 0 {
        return None;
      }
      var cache := new Cache<V>(Limits(maxEntries, maxSizeMB * 1024 * 1024, maxAge));
      return Some(cache);
    }

    constructor (l: Limits)
      ensures Value() == State([], 0, 0, 0) && limits == l && (l.Valid() ==> Valid())
    {
      limits, entries, currentSizeBytes, hits, misses := l, [], 0, 0, 0;
    }

    function Value(): State<V>
      reads this
    {
      State(entries, currentSizeBytes, hits, misses)
    }

    ghost predicate Valid()
      reads this
    {
      Consistent(limits, Value())
    }

    method Get(now: int, key: string) returns (cacheObject: Option<V>)
      requires Valid()
      modifies this
      ensures Valid() && (Value(), cacheObject) == GetStep(limits, old(Value()), now, key)
    {
      GetConsistent(limits, Value(), now, key);
      var e := Lookup(entries, key);
      if e.Some? {
        entries := [e.value] + Without(entries, key);
        if now - e.value.fetchTime < limits.maxAge {
          hits := hits + 1;
          return Some(e.value.cacheObject);
        }
      }
      misses := misses + 1;
      return None;
    }

    method Set(now: int, key: string, labelText: string, sizeBytes: int, cacheObject: V)
      requires Valid()
      modifies this
      ensures Valid() && currentSizeBytes <= limits.maxSizeBytes
      ensures Value() == SetStep(limits, old(Value()), Entry(key, labelText, sizeBytes, now, cacheObject))
    {
      var entry := Entry(key, labelText, sizeBytes, now, cacheObject);
      SetConsistent(limits, Value(), entry);
      WithoutFacts(entries, key);
      BackendRemove(key);
      currentSizeBytes := currentSizeBytes + sizeBytes;
      entries := [entry] + entries;
      assert entries[1..] == Without(old(entries), key);
      EvictToFit();
    }

    /** The end of Set, with the new entry in front: first the backend drops one entry if there are too many, then the
        loop drops entries while the bytes are too many. What stays is the longest prefix that fits. */
    method EvictToFit()
      requires limits.Valid() && currentSizeBytes == TotalSize(entries) && |entries| <= limits.maxEntries + 1
      modifies `entries, `currentSizeBytes
      ensures entries == old(entries)[..LongestFit(limits, old(entries), |old(entries)|)]
      ensures currentSizeBytes == TotalSize(entries)
    {
      ghost var all := entries;
      assert entries == all[..|entries|];
      if |entries| > limits.maxEntries {
        BackendRemoveOldest();
      }
      while currentSizeBytes > limits.maxSizeBytes
        invariant |entries| <= |all| && entries == all[..|entries|]
        invariant |entries| <= limits.maxEntries && currentSizeBytes == TotalSize(entries)
        invariant forall m :: |entries| < m <= |all| ==> !Fits(limits, all[..m])
        decreases |entries|
      {
        BackendRemoveOldest();
        assert all[..|entries| + 1][..|entries|] == all[..|entries|];
      }
      assert Fits(limits, all[..|entries|]);
    }

    /** The backend's Remove, which reports what it removed to onEvicted. */
    method BackendRemove(key: string)
      requires currentSizeBytes == TotalSize(entries) && DistinctKeys(entries)
      modifies `entries, `currentSizeBytes
      ensures Value() == RemoveStep(old(Value()), key) && currentSizeBytes == TotalSize(entries)
    {
      LookupFacts(entries, key);
      var e := Lookup(entries, key);
      if e.Some? {
        LookupInDistinct(entries, e.value);
        entries := Without(entries, key);
        OnEvicted(e.value);
      }
    }

    method BackendRemoveOldest()
      requires entries != [] && currentSizeBytes == TotalSize(entries)
      modifies `entries, `currentSizeBytes
      ensures entries == old(entries)[..|old(entries)| - 1] && currentSizeBytes == TotalSize(entries)
    {
      var n := |entries| - 1;
      var oldest := entries[n];
      TotalSizeSnoc(entries[..n], oldest);
      assert entries == entries[..n] + [oldest];
      entries := entries[..n];
      OnEvicted(oldest);
    }

    method OnEvicted(entry: Entry<V>)
      modifies `currentSizeBytes
      ensures currentSizeBytes == old(currentSizeBytes) - entry.size
    {
      currentSizeBytes := currentSizeBytes - entry.size;
    }

    /** Without interference: everything older than allowed goes, the rest keeps its place. clock is what the time is when a key
        is looked at. */
    method PurgeOldEntries(clock: string -> int) returns (purged: nat)
      requires Valid()
      modifies `entries, `currentSizeBytes
      ensures Valid() && entries == Young(old(entries), clock, limits.maxAge)
      ensures purged == |old(entries)| - |entries|
    {
      var keys := entries;
      ghost var all := entries;
      purged := 0;
      var i := |keys|;
      assert all[i..] == [] && all[..i] == all && all + [] == all;
      while i > 0
        invariant 0 <= i <= |keys|
        invariant Valid()
        invariant entries == all[..i] + Young(all[i..], clock, limits.maxAge)
        invariant purged == |all| - |entries|
      {
        i := i - 1;
        var e := Lookup(entries, keys[i].key);
        ghost var front, back := all[..i], Young(all[i + 1..], clock, limits.maxAge);
        YoungStep(all, i, clock, limits.maxAge);
        RemoveFromMiddle(front, all[i], back);
        RemoveConsistent(limits, Value(), keys[i].key);
        if e.Some? && clock(keys[i].key) - e.value.fetchTime > limits.maxAge {
          BackendRemove(keys[i].key);
          purged := purged + 1;
        }
      }
    }

    method PurgeEntries(keys: seq<string>) returns (purged: nat)
      requires Valid()
      modifies `entries, `currentSizeBytes
      ensures Valid() && entries == WithoutAll(old(entries), keys)
      ensures purged == |old(entries)| - |entries|
    {
      purged := 0;
      var i := 0;
      while i < |keys|
        invariant 0 <= i <= |keys|
        invariant Valid() && entries == WithoutAll(old(entries), keys[..i])
        invariant purged == |old(entries)| - |entries|
      {
        LookupFacts(entries, keys[i]);
        RemoveConsistent(limits, Value(), keys[i]);
        assert keys[..i + 1][..i] == keys[..i];
        if Lookup(entries, keys[i]).Some? {
          LookupInDistinct(entries, Lookup(entries, keys[i]).value);
          BackendRemove(keys[i]);
          purged := purged + 1;
        }
        i := i + 1;
      }
      assert keys[..i] == keys;
    }

    /** Purging the backend calls onEvicted for every entry, so that the count is zero even before it is reset. */
    method Invalidate()
      requires Valid()
      modifies `entries, `currentSizeBytes
      ensures Valid() && Value() == InvalidateStep(old(Value()))
    {
      var i := 0;
      assert entries[i..] == entries;
      while i < |entries|
        invariant 0 <= i <= |entries| && entries == old(entries)
        invariant currentSizeBytes == TotalSize(entries[i..])
      {
        OnEvicted(entries[i]);
        i := i + 1;
      }
      entries := [];
      assert currentSizeBytes == 0;
      currentSizeBytes := 0;
    }
  }

  function Young<V>(entries: seq<Entry<V>>, clock: string -> int, maxAge: int): seq<Entry<V>> {
    if entries == [] then []
    else (if clock(entries[0].key) - entries[0].fetchTime > maxAge then [] else [entries[0]]) + Young(entries[1..], clock, maxAge)
  }

  lemma YoungStep<V>(entries: seq<Entry<V>>, i: nat, clock: string -> int, maxAge: int)
    requires i < |entries|
    ensures var front, back := entries[..i], Young(entries[i + 1..], clock, maxAge);
            && entries[..i + 1] + back == front + [entries[i]] + back
            && front + Young(entries[i..], clock, maxAge)
               == if clock(entries[i].key) - entries[i].fetchTime > maxAge then front + back else front + [entries[i]] + back
  {
    var front, back := entries[..i], Young(entries[i + 1..], clock, maxAge);
    assert entries[i..][1..] == entries[i + 1..] && entries[..i + 1] == front + [entries[i]];
    assert [] + back == back && front + ([entries[i]] + back) == front + [entries[i]] + back;
  }

  function WithoutAll<V>(entries: seq<Entry<V>>, keys: seq<string>): seq<Entry<V>> {
    if keys == [] then entries else Without(WithoutAll(entries, keys[..|keys| - 1]), keys[|keys| - 1])
  }

  /** What a purge leaves, and in which order. */
  lemma {:induction false} YoungExactly<V>(entries: seq<Entry<V>>, clock: string -> int, maxAge: int)
    ensures forall e :: e in Young(entries, clock, maxAge) <==> e in entries && clock(e.key) - e.fetchTime <= maxAge
  {
    if entries != [] {
      YoungExactly(entries[1..], clock, maxAge);
      assert forall e :: e in entries <==> e == entries[0] || e in entries[1..];
    }
  }

  lemma {:induction false} YoungInOrder<V>(a: seq<Entry<V>>, b: seq<Entry<V>>, clock: string -> int, maxAge: int)
    ensures Young(a + b, clock, maxAge) == Young(a, clock, maxAge) + Young(b, clock, maxAge)
  {
    if a == [] {
      assert a + b == b;
    } else {
      assert (a + b)[1..] == a[1..] + b;
      YoungInOrder(a[1..], b, clock, maxAge);
    }
  }

  lemma {:induction false} WithoutAllExactly<V>(entries: seq<Entry<V>>, keys: seq<string>)
    ensures forall e :: e in WithoutAll(entries, keys) <==> e in entries && e.key !in keys
  {
    if keys != [] {
      var n := |keys| - 1;
      WithoutAllExactly(entries, keys[..n]);
      WithoutFacts(WithoutAll(entries, keys[..n]), keys[n]);
      assert keys == keys[..n] + [keys[n]];
    }
  }

  lemma {:induction false} WithoutInOrder<V>(a: seq<Entry<V>>, b: seq<Entry<V>>, key: string)
    ensures Without(a + b, key) == Without(a, key) + Without(b, key)
  {
    if a == [] {
      assert a + b == b;
    } else {
      assert (a + b)[1..] == a[1..] + b;
      WithoutInOrder(a[1..], b, key);
    }
  }

  lemma {:induction false} WithoutAllInOrder<V>(a: seq<Entry<V>>, b: seq<Entry<V>>, keys: seq<string>)
    ensures WithoutAll(a + b, keys) == WithoutAll(a, keys) + WithoutAll(b, keys)
  {
    if keys != [] {
      var n := |keys| - 1;
      WithoutAllInOrder(a, b, keys[..n]);
      WithoutInOrder(WithoutAll(a, keys[..n]), WithoutAll(b, keys[..n]), keys[n]);
    }
  }
}
