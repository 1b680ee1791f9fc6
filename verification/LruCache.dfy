/** The cache as a value: what each critical section does to the recency list and the byte count. */
module LruCache {
  import opened Wrappers

  datatype Entry<V> = Entry(key: string, labelText: string, size: int, fetchTime: int, cacheObject: V)

  /** Limits on entries, bytes and age. */
  datatype Limits = Limits(maxEntries: nat, maxSizeBytes: int, maxAge: int) {
    /** simplelru demands room for one entry; with a negative byte limit Set would evict forever. */
    predicate Valid() {
      maxEntries > 0 && maxSizeBytes >= 0
    }
  }

  /** entries is the recency list of the backend, most recently used first. */
  datatype State<V> = State(entries: seq<Entry<V>>, bytes: int, hits: nat, misses: nat)

  function Lookup<V>(entries: seq<Entry<V>>, key: string): Option<Entry<V>> {
    if entries == [] then None
    else if entries[0].key == key then Some(entries[0])
    else Lookup(entries[1..], key)
  }

  function Without<V>(entries: seq<Entry<V>>, key: string): seq<Entry<V>> {
    if entries == [] then []
    else if entries[0].key == key then Without(entries[1..], key)
    else [entries[0]] + Without(entries[1..], key)
  }

  function TotalSize<V>(entries: seq<Entry<V>>): int {
    if entries == [] then 0 else entries[0].size + TotalSize(entries[1..])
  }

  ghost predicate DistinctKeys<V>(entries: seq<Entry<V>>) {
    forall i, j :: 0 <= i < j < |entries| ==> entries[i].key != entries[j].key
  }

  ghost predicate NoKey<V>(entries: seq<Entry<V>>, key: string) {
    forall e :: e in entries ==> e.key != key
  }

  ghost predicate Consistent<V>(limits: Limits, s: State<V>) {
    && limits.Valid()
    && s.bytes == TotalSize(s.entries)
    && DistinctKeys(s.entries)
    && |s.entries| <= limits.maxEntries
  }

  function GetStep<V>(limits: Limits, s: State<V>, now: int, key: string): (State<V>, Option<V>) {
    match Lookup(s.entries, key)
    case None => (s.(misses := s.misses + 1), None)
    case Some(e) =>
      // the backend moves the entry to the front even if it turns out to be too old
      var touched := s.(entries := [e] + Without(s.entries, key));
      if now - e.fetchTime < limits.maxAge then (touched.(hits := s.hits + 1), Some(e.cacheObject))
      else (touched.(misses := s.misses + 1), None)
  }

  /** These entries are within both limits. */
  predicate Fits<V>(limits: Limits, entries: seq<Entry<V>>) {
    |entries| <= limits.maxEntries && TotalSize(entries) <= limits.maxSizeBytes
  }

  /** The length of the longest prefix, not longer than n, that meets both limits. */
  function LongestFit<V>(limits: Limits, entries: seq<Entry<V>>, n: nat): (k: nat)
    requires limits.Valid() && n <= |entries|
    ensures k <= n && Fits(limits, entries[..k])
    ensures forall m :: k < m <= n ==> !Fits(limits, entries[..m])
  {
    if Fits(limits, entries[..n]) then n
    else
      assert n > 0 by { assert entries[..0] == []; }
      LongestFit(limits, entries, n - 1)
  }

  /** The new entry goes to the front, and as few of the least recently used entries as possible go. */
  function SetStep<V>(limits: Limits, s: State<V>, e: Entry<V>): State<V>
    requires limits.Valid()
  {
    var all := [e] + Without(s.entries, e.key);
    var kept := all[..LongestFit(limits, all, |all|)];
    s.(entries := kept, bytes := TotalSize(kept))
  }

  function RemoveStep<V>(s: State<V>, key: string): State<V> {
    var kept := Without(s.entries, key);
    s.(entries := kept, bytes := TotalSize(kept))
  }

  function InvalidateStep<V>(s: State<V>): State<V> {
    s.(entries := [], bytes := 0)
  }

  // --------------------------------------------------------------------------------- facts about lists

  lemma DistinctCons<V>(e: Entry<V>, rest: seq<Entry<V>>)
    ensures DistinctKeys([e] + rest) <==> DistinctKeys(rest) && NoKey(rest, e.key)
  {
    if DistinctKeys([e] + rest) { DistinctRest(e, rest); }
    if DistinctKeys(rest) && NoKey(rest, e.key) { DistinctFront(e, rest); }
  }

  lemma DistinctRest<V>(e: Entry<V>, rest: seq<Entry<V>>)
    requires DistinctKeys([e] + rest)
    ensures DistinctKeys(rest) && NoKey(rest, e.key)
  {
    var all := [e] + rest;
    assert forall i :: 0 <= i < |rest| ==> rest[i] == all[i + 1];
    forall x | x in rest ensures x.key != e.key {
      var i :| 0 <= i < |rest| && rest[i] == x;
      assert all[0].key != all[i + 1].key;
    }
  }

  lemma DistinctFront<V>(e: Entry<V>, rest: seq<Entry<V>>)
    requires DistinctKeys(rest) && NoKey(rest, e.key)
    ensures DistinctKeys([e] + rest)
  {
    var all := [e] + rest;
    forall i, j | 0 <= i < j < |all| ensures all[i].key != all[j].key {
      assert all[j] == rest[j - 1] && rest[j - 1] in rest;
      if i > 0 { assert all[i] == rest[i - 1]; }
    }
  }

  lemma {:induction false} WithoutFacts<V>(entries: seq<Entry<V>>, key: string)
    ensures forall e :: e in Without(entries, key) <==> e in entries && e.key != key
    ensures NoKey(Without(entries, key), key)
    ensures |Without(entries, key)| <= |entries|
  {
    if entries != [] {
      WithoutFacts(entries[1..], key);
      assert forall e :: e in entries <==> e == entries[0] || e in entries[1..];
    }
  }

  lemma {:induction false} WithoutDistinct<V>(entries: seq<Entry<V>>, key: string)
    requires DistinctKeys(entries)
    ensures DistinctKeys(Without(entries, key))
  {
    if entries != [] {
      assert entries == [entries[0]] + entries[1..];
      DistinctCons(entries[0], entries[1..]);
      WithoutDistinct(entries[1..], key);
      WithoutFacts(entries[1..], key);
      assert NoKey(Without(entries[1..], key), entries[0].key);
      DistinctCons(entries[0], Without(entries[1..], key));
    }
  }

  lemma {:induction false} LookupFacts<V>(entries: seq<Entry<V>>, key: string)
    ensures Lookup(entries, key).Some? ==> Lookup(entries, key).value in entries && Lookup(entries, key).value.key == key
    ensures Lookup(entries, key).None? <==> NoKey(entries, key)
    ensures Lookup(entries, key).None? ==> Without(entries, key) == entries
  {
    if entries != [] {
      LookupFacts(entries[1..], key);
      assert forall e :: e in entries <==> e == entries[0] || e in entries[1..];
    }
  }

  lemma {:induction false} LookupInDistinct<V>(entries: seq<Entry<V>>, e: Entry<V>)
    requires DistinctKeys(entries) && e in entries
    ensures Lookup(entries, e.key) == Some(e)
    ensures TotalSize(entries) == e.size + TotalSize(Without(entries, e.key))
    ensures |entries| == 1 + |Without(entries, e.key)|
  {
    var rest := entries[1..];
    assert forall i :: 0 <= i < |rest| ==> rest[i] == entries[i + 1];
    if entries[0].key == e.key {
      var i :| 0 <= i < |entries| && entries[i] == e;
      assert i == 0;
      forall x | x in rest ensures x.key != e.key {
        var j :| 0 <= j < |rest| && rest[j] == x;
        assert entries[j + 1] == x;
      }
      LookupFacts(rest, e.key);
    } else {
      LookupInDistinct(rest, e);
      var kept := Without(rest, e.key);
      assert ([entries[0]] + kept)[1..] == kept;
    }
  }

  lemma {:induction false} TotalSizeSnoc<V>(entries: seq<Entry<V>>, last: Entry<V>)
    ensures TotalSize(entries + [last]) == TotalSize(entries) + last.size
  {
    if entries == [] {
      assert entries + [last] == [last];
    } else {
      assert (entries + [last])[1..] == entries[1..] + [last];
      TotalSizeSnoc(entries[1..], last);
    }
  }

  lemma {:induction false} DistinctInFront<V>(e: Entry<V>, entries: seq<Entry<V>>)
    requires DistinctKeys(entries)
    ensures DistinctKeys([e] + Without(entries, e.key))
  {
    WithoutFacts(entries, e.key);
    WithoutDistinct(entries, e.key);
    DistinctCons(e, Without(entries, e.key));
  }

  lemma {:induction false} RemoveFirst<V>(front: seq<Entry<V>>, e: Entry<V>, back: seq<Entry<V>>)
    requires NoKey(front, e.key)
    ensures Lookup(front + [e] + back, e.key) == Some(e)
    ensures Without(front + [e] + back, e.key) == front + Without(back, e.key)
  {
    var all := front + [e] + back;
    if front == [] {
      assert all[1..] == back;
    } else {
      assert all[1..] == front[1..] + [e] + back;
      RemoveFirst(front[1..], e, back);
    }
  }

  lemma RemoveFromMiddle<V>(front: seq<Entry<V>>, e: Entry<V>, back: seq<Entry<V>>)
    requires DistinctKeys(front + [e] + back)
    ensures Lookup(front + [e] + back, e.key) == Some(e) && Without(front + [e] + back, e.key) == front + back
  {
    var all, n := front + [e] + back, |front|;
    assert all[n] == e;
    forall i | 0 <= i < n ensures front[i].key != e.key { assert all[i] == front[i]; }
    forall i | 0 <= i < |back| ensures back[i].key != e.key { assert all[n + 1 + i] == back[i]; }
    RemoveFirst(front, e, back);
    LookupFacts(back, e.key);
  }

  // ------------------------------------------------------------------- every critical section keeps the accounts

  lemma GetConsistent<V>(limits: Limits, s: State<V>, now: int, key: string)
    requires Consistent(limits, s)
    ensures Consistent(limits, GetStep(limits, s, now, key).0)
  {
    LookupFacts(s.entries, key);
    match Lookup(s.entries, key) {
      case None =>
      case Some(e) =>
        LookupInDistinct(s.entries, e);
        DistinctInFront(e, s.entries);
        var kept := Without(s.entries, key);
        assert ([e] + kept)[1..] == kept;
    }
  }

  /** Setting keeps the accounts and leaves both limits respected, whatever they were before. */
  lemma SetConsistent<V>(limits: Limits, s: State<V>, e: Entry<V>)
    requires Consistent(limits, s)
    ensures Consistent(limits, SetStep(limits, s, e)) && SetStep(limits, s, e).bytes <= limits.maxSizeBytes
  {
    DistinctInFront(e, s.entries);
  }

  lemma RemoveConsistent<V>(limits: Limits, s: State<V>, key: string)
    requires Consistent(limits, s)
    ensures Consistent(limits, RemoveStep(s, key))
  {
    WithoutFacts(s.entries, key);
    WithoutDistinct(s.entries, key);
  }
}
