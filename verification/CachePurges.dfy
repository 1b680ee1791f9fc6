/** What a purge removes in the end: it looks a key up, gives the lock back, and removes whatever the key holds by then. */
module CachePurges {
  import opened Wrappers
  import opened LruCache
  import opened CacheRuns

  // -------------------------------------------------------------------------- what a step does to a key

  lemma {:induction false} LookupWithout<V>(entries: seq<Entry<V>>, other: string, key: string)
    requires key != other
    ensures Lookup(Without(entries, other), key) == Lookup(entries, key)
  {
    if entries != [] {
      LookupWithout(entries[1..], other, key);
      var kept := Without(entries[1..], other);
      assert ([entries[0]] + kept)[1..] == kept;
    }
  }

  lemma {:induction false} LookupPrefix<V>(entries: seq<Entry<V>>, n: nat, key: string)
    requires n <= |entries|
    ensures Lookup(entries[..n], key).Some? ==> Lookup(entries[..n], key) == Lookup(entries, key)
  {
    if n > 0 {
      assert entries[..n][1..] == entries[1..][..n - 1];
      LookupPrefix(entries[1..], n - 1, key);
    }
  }

  lemma LookupInFront<V>(e: Entry<V>, entries: seq<Entry<V>>, key: string)
    ensures Lookup([e] + Without(entries, e.key), key) == if e.key == key then Some(e) else Lookup(entries, key)
  {
    var rest := Without(entries, e.key);
    assert ([e] + rest)[1..] == rest;
    if e.key != key { LookupWithout(entries, e.key, key); }
  }

  predicate Sets<V>(event: Event<V>, key: string) {
    event.SetEvent? && event.entry.key == key
  }

  /** A step leaves what a key holds or takes it away; a Set of the key stores the new entry or nothing. */
  lemma StepHolds<V>(limits: Limits, s: State<V>, event: Event<V>, key: string)
    requires limits.Valid()
    ensures var held := Lookup(Step(limits, s, event).entries, key);
            held == None || held == if Sets(event, key) then Some(event.entry) else Lookup(s.entries, key)
  {
    match event {
      case GetEvent(_, k) =>
        LookupFacts(s.entries, k);
        if Lookup(s.entries, k).Some? { LookupInFront(Lookup(s.entries, k).value, s.entries, key); }
      case SetEvent(e) =>
        var all := [e] + Without(s.entries, e.key);
        LookupPrefix(all, LongestFit(limits, all, |all|), key);
        LookupInFront(e, s.entries, key);
      case RemoveEvent(k) =>
        if k == key {
          WithoutFacts(s.entries, k);
          LookupFacts(Without(s.entries, k), k);
        } else {
          LookupWithout(s.entries, k, key);
        }
      case InvalidateEvent =>
    }
  }

  // ------------------------------------------------------------------------------- what a purge removes

  /** What the latest Set of the key behind step p stored. */
  function LatestBehind<V>(events: seq<Option<Event<V>>>, p: nat, key: string): Option<Entry<V>> {
    if |events| <= p + 1 then None
    else
      var last := events[|events| - 1];
      if last.Some? && Sets(last.value, key) then Some(last.value.entry) else LatestBehind(events[..|events| - 1], p, key)
  }

  /** Where a purger about to remove something was before. */
  lemma BeforeRemoval<V(!new)>(limits: Limits, s: System<V>, s': System<V>, event: Option<Event<V>>, i: nat)
    requires limits.Valid() && Next(limits, s, s', event) && i < |s'.purgers| && s'.purgers[i].Removing?
    ensures i < |s.purgers|
    ensures s.purgers[i] == s'.purgers[i] ||
            (s.purgers[i].Looking? && event == None && s'.cache == s.cache
             && Lookup(s.cache.entries, s'.purgers[i].found.key) == Some(s'.purgers[i].found))
    ensures s'.cache == if event.Some? then Step(limits, s.cache, event.value) else s.cache
  {
    if exists j: nat, now: int :: j < |s.purgers| && event.None? && Look(limits, s, s', j, now) {
      var j: nat, now: int :| j < |s.purgers| && event.None? && Look(limits, s, s', j, now);
      LookupFacts(s.cache.entries, s.purgers[j].todo[0]);
    }
  }

  /** In every interleaving, a purger that is about to remove an entry's key found that entry under the key at an earlier step p. By
      now the key holds what the latest Set of it behind p stored, or the entry found if there is no such Set, or nothing. */
  lemma {:induction false} PurgeHolds<V(!new)>(limits: Limits, systems: seq<System<V>>, events: seq<Option<Event<V>>>, i: nat)
    returns (p: nat)
    requires limits.Valid() && Interleaving(limits, systems, events)
    requires i < |systems[|events|].purgers| && systems[|events|].purgers[i].Removing?
    ensures p < |events| && i < |systems[p].purgers| && systems[p].purgers[i].Looking?
    ensures var found := systems[|events|].purgers[i].found;
            var held, latest := Lookup(systems[|events|].cache.entries, found.key), LatestBehind(events, p, found.key);
            && Lookup(systems[p].cache.entries, found.key) == Some(found)
            && (held == None || held == if latest.Some? then latest else Some(found))
    decreases |events|
  {
    assert events != [];
    var n := |events| - 1;
    var found := systems[n + 1].purgers[i].found;
    assert Next(limits, systems[n], systems[n + 1], events[n]);
    BeforeRemoval(limits, systems[n], systems[n + 1], events[n], i);
    if systems[n].purgers[i].Looking? {
      p := n;
    } else {
      ShorterInterleaving(limits, systems, events);
      p := PurgeHolds(limits, systems[..n + 1], events[..n], i);
      if events[n].Some? { StepHolds(limits, systems[n].cache, events[n].value, found.key); }
    }
  }

  /** What the removal takes is the entry found or nothing if and only if, since the purger looked, the key was not set again, or what
      it was set to last is gone by now or is the same as what was found. */
  lemma PurgeTakes<V(!new)>(limits: Limits, systems: seq<System<V>>, events: seq<Option<Event<V>>>, i: nat)
    returns (p: nat)
    requires limits.Valid() && Interleaving(limits, systems, events)
    requires i < |systems[|events|].purgers| && systems[|events|].purgers[i].Removing?
    ensures p < |events| && i < |systems[p].purgers| && systems[p].purgers[i].Looking?
    ensures var found := systems[|events|].purgers[i].found;
            var entries, latest := systems[|events|].cache.entries, LatestBehind(events, p, found.key);
            && Lookup(systems[p].cache.entries, found.key) == Some(found)
            && ((forall e :: e in entries && e.key == found.key ==> e == found) <==>
                latest == None || latest == Some(found) || latest.value !in entries)
  {
    p := PurgeHolds(limits, systems, events, i);
    var found := systems[|events|].purgers[i].found;
    var entries, latest := systems[|events|].cache.entries, LatestBehind(events, p, found.key);
    InterleavingIsRun(limits, systems, events);
    RunConsistent(limits, Effects(events));
    LookupFacts(entries, found.key);
    LatestHasKey(events, p, found.key);
    forall e | e in entries && e.key == found.key ensures Lookup(entries, found.key) == Some(e) { LookupInDistinct(entries, e); }
  }

  lemma {:induction false} LatestHasKey<V>(events: seq<Option<Event<V>>>, p: nat, key: string)
    ensures LatestBehind(events, p, key).Some? ==> LatestBehind(events, p, key).value.key == key
    decreases |events|
  {
    if |events| > p + 1 { LatestHasKey(events[..|events| - 1], p, key); }
  }

  lemma ShorterInterleaving<V(!new)>(limits: Limits, systems: seq<System<V>>, events: seq<Option<Event<V>>>)
    requires limits.Valid() && Interleaving(limits, systems, events) && events != []
    ensures var n := |events| - 1; Interleaving(limits, systems[..n + 1], events[..n])
  {
    var n := |events| - 1;
    forall k | 0 <= k < n ensures Next(limits, systems[..n + 1][k], systems[..n + 1][k + 1], events[..n][k]) {
      assert Next(limits, systems[k], systems[k + 1], events[k]);
    }
  }

  /** A purge of the entries older than this decides to remove a key if and only if an entry stored under it is older than this when
      it is looked at. */
  lemma LookExactly<V>(limits: Limits, s: System<V>, s': System<V>, i: nat, now: int, maxAge: int)
    requires i < |s.purgers| && s.purgers[i].Looking? && s.purgers[i].onlyOlderThan == Some(maxAge) && Look(limits, s, s', i, now)
    requires DistinctKeys(s.cache.entries)
    ensures i < |s'.purgers| && s'.cache == s.cache
    ensures s'.purgers[i].Removing? <==>
              exists e :: e in s.cache.entries && e.key == s.purgers[i].todo[0] && now - e.fetchTime > maxAge
    ensures s'.purgers[i].Removing? ==> s'.purgers[i].found in s.cache.entries && s'.purgers[i].found.key == s.purgers[i].todo[0]
  {
    LookupFacts(s.cache.entries, s.purgers[i].todo[0]);
    forall e | e in s.cache.entries && e.key == s.purgers[i].todo[0] ensures Lookup(s.cache.entries, e.key) == Some(e) {
      LookupInDistinct(s.cache.entries, e);
    }
  }

  /** The entry removed may be a fresh one: an interleaving in which a purge of entries older than 5 removes one stored the moment
      before, because it replaced an old one after the purge had looked. */
  lemma FreshEntryPurged() returns (systems: seq<System<int>>, events: seq<Option<Event<int>>>)
    ensures Interleaving(Limits(1, 10, 5), systems, events) && |events| == 5
    ensures var newer := Entry("a", "", 1, 100, 2);
            && systems[4].purgers == [Removing(Entry("a", "", 1, 0, 1), [], Some(5))]
            && events[3] == Some(SetEvent(newer)) && systems[4].cache.entries == [newer]
            && events[4] == Some(RemoveEvent("a")) && systems[5].cache.entries == []
  {
    var limits, stale, newer := Limits(1, 10, 5), Entry("a", "", 1, 0, 1), Entry("a", "", 1, 100, 2);
    var s1: System<int> := System(State([stale], 1, 0, 0), []);
    var s4, s5: System<int> := System(State([newer], 1, 0, 0), [Removing(stale, [], Some(5))]), System(State([], 0, 0, 0), [Looking([], Some(5))]);
    events := [Some(SetEvent(stale)), None, None, Some(SetEvent(newer)), Some(RemoveEvent("a"))];
    systems := [System(Empty(), []), s1, s1.(purgers := [Looking(["a"], Some(5))]), s1.(purgers := [Removing(stale, [], Some(5))]), s4, s5];
    StaleIsFound(limits, systems[0], systems[1], systems[2], systems[3], stale);
    NewerIsRemoved(limits, systems[3], systems[4], systems[5], stale, newer);
  }

  lemma StaleIsFound(limits: Limits, s0: System<int>, s1: System<int>, s2: System<int>, s3: System<int>, stale: Entry<int>)
    requires limits == Limits(1, 10, 5) && stale == Entry("a", "", 1, 0, 1)
    requires s0 == System(Empty(), []) && s1 == System(State([stale], 1, 0, 0), [])
    requires s2 == s1.(purgers := [Looking(["a"], Some(5))]) && s3 == s1.(purgers := [Removing(stale, [], Some(5))])
    ensures Next(limits, s0, s1, Some(SetEvent(stale))) && Next(limits, s1, s2, None) && Next(limits, s2, s3, None)
  {
    OneSet(limits, Empty(), stale);
    assert [] + s2.purgers == s2.purgers && ["a"][1..] == [];
    assert s2 == s1.(purgers := s1.purgers + [Looking(["a"], Some(5))]);
    assert Look(limits, s2, s3, 0, 100);
  }

  lemma NewerIsRemoved(limits: Limits, s3: System<int>, s4: System<int>, s5: System<int>, stale: Entry<int>, newer: Entry<int>)
    requires limits == Limits(1, 10, 5) && stale == Entry("a", "", 1, 0, 1) && newer == Entry("a", "", 1, 100, 2)
    requires s3 == System(State([stale], 1, 0, 0), [Removing(stale, [], Some(5))]) && s4 == s3.(cache := State([newer], 1, 0, 0))
    requires s5 == System(State([], 0, 0, 0), [Looking([], Some(5))])
    ensures Next(limits, s3, s4, Some(SetEvent(newer))) && Next(limits, s4, s5, Some(RemoveEvent("a")))
  {
    OneSet(limits, s3.cache, newer);
    RemoveLast(s4, s4.purgers[0], s5.purgers[0]);
  }

  lemma RemoveLast(s: System<int>, removing: Purger<int>, done: Purger<int>)
    requires s.purgers == [removing] && removing.Removing? && |s.cache.entries| == 1 && s.cache.entries[0].key == removing.found.key
    ensures RemoveStep(s.cache, removing.found.key) == s.cache.(entries := [], bytes := 0)
    ensures s.purgers[0 := done] == [done] && s.purgers[0].Removing?
  {
    assert s.cache.entries[1..] == [];
    assert Without(s.cache.entries, removing.found.key) == Without(s.cache.entries[1..], removing.found.key) == [];
    assert RemoveStep(s.cache, removing.found.key).entries == [];
  }

  lemma OneSet(limits: Limits, s: State<int>, e: Entry<int>)
    requires limits == Limits(1, 10, 5) && e.size == 1 && (s.entries == [] || (|s.entries| == 1 && s.entries[0].key == e.key))
    ensures SetStep(limits, s, e) == s.(entries := [e], bytes := 1)
  {
    assert s.entries != [] ==> s.entries[1..] == [];
    var all := [e] + Without(s.entries, e.key);
    assert Without(s.entries, e.key) == [];
    assert all == [e] && all[..1] == all && all[1..] == [] && TotalSize(all) == e.size + TotalSize(all[1..]);
    assert Fits(limits, all[..1]);
  }
}
