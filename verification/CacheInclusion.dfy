/** A cache with room for more entries never misses what a smaller one hits, as long as bytes are no concern. */
module CacheInclusion {
  import opened LruCache
  import opened CacheRuns

  /** a is b with some entries left out. */
  ghost predicate Sub<V>(a: seq<Entry<V>>, b: seq<Entry<V>>) {
    a == [] || (b != [] && ((a[0] == b[0] && Sub(a[1..], b[1..])) || Sub(a, b[1..])))
  }

  lemma {:induction false} SubEmpty<V>(a: seq<Entry<V>>, b: seq<Entry<V>>)
    requires Sub(a, b)
    ensures |a| <= |b| && forall e :: e in a ==> e in b
  {
    if a != [] {
      if a[0] == b[0] && Sub(a[1..], b[1..]) { SubEmpty(a[1..], b[1..]); } else { SubEmpty(a, b[1..]); }
      assert forall e :: e in a <==> e == a[0] || e in a[1..];
      assert forall e :: e in b <==> e == b[0] || e in b[1..];
    }
  }

  lemma {:induction false} SubWithout<V>(a: seq<Entry<V>>, b: seq<Entry<V>>, key: string)
    requires Sub(a, b)
    ensures Sub(Without(a, key), Without(b, key))
  {
    if a != [] {
      if a[0] == b[0] && Sub(a[1..], b[1..]) {
        SubWithout(a[1..], b[1..], key);
        SubCons(a[0], Without(a[1..], key), Without(b[1..], key));
      } else {
        SubWithout(a, b[1..], key);
        SubSkip(Without(a, key), b[0], Without(b[1..], key));
      }
    }
  }

  lemma SubCons<V>(e: Entry<V>, a: seq<Entry<V>>, b: seq<Entry<V>>)
    requires Sub(a, b)
    ensures Sub([e] + a, [e] + b)
  {
    assert ([e] + a)[1..] == a && ([e] + b)[1..] == b;
  }

  lemma SubSkip<V>(a: seq<Entry<V>>, e: Entry<V>, b: seq<Entry<V>>)
    requires Sub(a, b)
    ensures Sub(a, [e] + b)
  {
    assert ([e] + b)[1..] == b;
  }

  /** Cutting both lists, the smaller one at least as much. */
  lemma {:induction false} SubTake<V>(a: seq<Entry<V>>, b: seq<Entry<V>>, k: nat, m: nat)
    requires Sub(a, b) && k <= |a| && m <= |b| && |b| - m <= |a| - k
    ensures Sub(a[..k], b[..m])
  {
    if k > 0 {
      SubEmpty(a, b);
      if a[0] == b[0] && Sub(a[1..], b[1..]) {
        SubTake(a[1..], b[1..], k - 1, m - 1);
        assert a[..k][1..] == a[1..][..k - 1] && b[..m][1..] == b[1..][..m - 1];
      } else {
        SubEmpty(a, b[1..]);
        SubTake(a, b[1..], k, m - 1);
        assert b[..m][1..] == b[1..][..m - 1];
      }
    }
  }

  lemma {:induction false} SubTotal<V>(a: seq<Entry<V>>, b: seq<Entry<V>>)
    requires Sub(a, b) && Weighted(b)
    ensures TotalSize(a) <= TotalSize(b)
  {
    if a == [] {
      NonNegativeTotal(b);
    } else {
      assert b[0] in b && forall e :: e in b[1..] ==> e in b;
      if a[0] == b[0] && Sub(a[1..], b[1..]) { SubTotal(a[1..], b[1..]); } else { SubTotal(a, b[1..]); }
    }
  }

  lemma SubLookup<V>(a: seq<Entry<V>>, b: seq<Entry<V>>, key: string)
    requires Sub(a, b) && DistinctKeys(a) && DistinctKeys(b)
    ensures Lookup(a, key).Some? ==> Lookup(b, key) == Lookup(a, key)
    ensures Lookup(a, key).None? ==> Without(a, key) == a
    ensures |Without(b, key)| - |Without(a, key)| <= |b| - |a|
  {
    SubEmpty(a, b);
    LookupFacts(a, key);
    LookupFacts(b, key);
    WithoutFacts(b, key);
    if Lookup(a, key).Some? {
      LookupInDistinct(a, Lookup(a, key).value);
      LookupInDistinct(b, Lookup(a, key).value);
    }
  }

  function Min(a: nat, b: nat): nat {
    if a < b then a else b
  }

  /** The bytes of no Set force an eviction on their own. */
  ghost predicate NeverBinds<V>(limits: Limits, events: seq<Event<V>>)
    requires limits.Valid()
  {
    events != [] ==>
      var n := |events| - 1;
      && NeverBinds(limits, events[..n])
      && (events[n].SetEvent? ==>
            var all := [events[n].entry] + Without(Run(limits, events[..n]).entries, events[n].entry.key);
            TotalSize(all[..Min(|all|, limits.maxEntries)]) <= limits.maxSizeBytes)
  }

  lemma SetByEntriesOnly<V>(limits: Limits, s: State<V>, e: Entry<V>)
    requires limits.Valid()
    requires var all := [e] + Without(s.entries, e.key); TotalSize(all[..Min(|all|, limits.maxEntries)]) <= limits.maxSizeBytes
    ensures var all := [e] + Without(s.entries, e.key); SetStep(limits, s, e).entries == all[..Min(|all|, limits.maxEntries)]
  {
  }

  ghost predicate Included<V>(small: Limits, big: Limits, a: State<V>, b: State<V>) {
    Sub(a.entries, b.entries) && |b.entries| - |a.entries| <= big.maxEntries - small.maxEntries
  }

  ghost predicate Larger(small: Limits, big: Limits) {
    small.Valid() && big.Valid() && small.maxEntries <= big.maxEntries
    && small.maxSizeBytes == big.maxSizeBytes && small.maxAge == big.maxAge
  }

  lemma GetIncluded<V>(small: Limits, big: Limits, a: State<V>, b: State<V>, now: int, key: string)
    requires Larger(small, big) && Consistent(small, a) && Consistent(big, b) && Included(small, big, a, b)
    ensures Included(small, big, GetStep(small, a, now, key).0, GetStep(big, b, now, key).0)
    ensures GetStep(small, a, now, key).1.Some? ==> GetStep(big, b, now, key).1 == GetStep(small, a, now, key).1
  {
    SubLookup(a.entries, b.entries, key);
    SubWithout(a.entries, b.entries, key);
    LookupFacts(b.entries, key);
    if Lookup(b.entries, key).Some? {
      var e := Lookup(b.entries, key).value;
      LookupInDistinct(b.entries, e);
      if Lookup(a.entries, key).Some? {
        LookupFacts(a.entries, key);
        LookupInDistinct(a.entries, e);
        SubCons(e, Without(a.entries, key), Without(b.entries, key));
      } else {
        SubSkip(a.entries, e, Without(b.entries, key));
      }
    }
  }

  lemma SetIncluded<V>(small: Limits, big: Limits, a: State<V>, b: State<V>, e: Entry<V>)
    requires Larger(small, big) && Consistent(small, a) && Consistent(big, b) && Included(small, big, a, b)
    requires Weighted(b.entries) && e.size >= 0
    requires var all := [e] + Without(b.entries, e.key); TotalSize(all[..Min(|all|, big.maxEntries)]) <= big.maxSizeBytes
    ensures Included(small, big, SetStep(small, a, e), SetStep(big, b, e))
  {
    var x, y := [e] + Without(a.entries, e.key), [e] + Without(b.entries, e.key);
    var k, m := Min(|x|, small.maxEntries), Min(|y|, big.maxEntries);
    SubLookup(a.entries, b.entries, e.key);
    SubWithout(a.entries, b.entries, e.key);
    SubCons(e, Without(a.entries, e.key), Without(b.entries, e.key));
    SubTake(x, y, k, m);
    assert Weighted(y[..m]) by {
      WithoutFacts(b.entries, e.key);
      assert forall v :: v in y[..m] ==> v in y;
    }
    SubTotal(x[..k], y[..m]);
    SetByEntriesOnly(small, a, e);
    SetByEntriesOnly(big, b, e);
  }

  lemma RemoveIncluded<V>(small: Limits, big: Limits, a: State<V>, b: State<V>, key: string)
    requires Consistent(small, a) && Consistent(big, b) && Included(small, big, a, b)
    ensures Included(small, big, RemoveStep(a, key), RemoveStep(b, key))
  {
    SubLookup(a.entries, b.entries, key);
    SubWithout(a.entries, b.entries, key);
  }

  /** On the same events the recency list of the smaller cache stays a subsequence of the larger one's, and the larger one
      holds at most the difference of the limits more. */
  lemma {:induction false} LargerIncludes<V>(small: Limits, big: Limits, events: seq<Event<V>>)
    requires Larger(small, big) && NonNegative(events) && NeverBinds(big, events)
    ensures Included(small, big, Run(small, events), Run(big, events))
  {
    if events != [] {
      var n := |events| - 1;
      var a, b := Run(small, events[..n]), Run(big, events[..n]);
      assert events[n] in events && forall e :: e in events[..n] ==> e in events;
      LargerIncludes(small, big, events[..n]);
      RunConsistent(small, events[..n]);
      RunConsistent(big, events[..n]);
      RunWithinBytes(big, events[..n]);
      match events[n] {
        case GetEvent(now, key) => GetIncluded(small, big, a, b, now, key);
        case SetEvent(entry) => SetIncluded(small, big, a, b, entry);
        case RemoveEvent(key) => RemoveIncluded(small, big, a, b, key);
        case InvalidateEvent =>
      }
    }
  }

  /** Every hit of the smaller cache is a hit of the larger one, with the same object. */
  lemma LargerKeepsHits<V>(small: Limits, big: Limits, events: seq<Event<V>>, now: int, key: string)
    requires Larger(small, big) && NonNegative(events) && NeverBinds(big, events)
    ensures var hit := GetStep(small, Run(small, events), now, key).1;
            hit.Some? ==> GetStep(big, Run(big, events), now, key).1 == hit
  {
    LargerIncludes(small, big, events);
    RunConsistent(small, events);
    RunConsistent(big, events);
    GetIncluded(small, big, Run(small, events), Run(big, events), now, key);
  }
}
