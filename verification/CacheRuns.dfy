/** Whole runs of the cache: any interleaving of its critical sections, as a sequence of atomic events. */
module CacheRuns {
  import opened Wrappers
  import opened LruCache

  /** The critical sections that change the cache. SetEvent carries the entry, whose fetch time is read before the lock is
      taken; RemoveEvent is the second phase of a purge, which removes whatever the key holds by then. */
  datatype Event<V> =
    | GetEvent(now: int, key: string)
    | SetEvent(entry: Entry<V>)
    | RemoveEvent(key: string)
    | InvalidateEvent

  function Step<V>(limits: Limits, s: State<V>, e: Event<V>): State<V>
    requires limits.Valid()
  {
    match e
    case GetEvent(now, key) => GetStep(limits, s, now, key).0
    case SetEvent(entry) => SetStep(limits, s, entry)
    case RemoveEvent(key) => RemoveStep(s, key)
    case InvalidateEvent => InvalidateStep(s)
  }

  function Empty<V>(): State<V> {
    State([], 0, 0, 0)
  }

  /** The cache after these events, the oldest event first. */
  function Run<V>(limits: Limits, events: seq<Event<V>>): State<V>
    requires limits.Valid()
  {
    if events == [] then Empty() else Step(limits, Run(limits, events[..|events| - 1]), events[|events| - 1])
  }

  // -------------------------------------------------------------------------------------- purging threads

  /** A thread in PurgeOldEntries or PurgeEntries: about to look at the next key, or about to remove the key of an entry it has
      found. */
  datatype Purger<V> =
    | Looking(todo: seq<string>, onlyOlderThan: Option<int>)
    | Removing(found: Entry<V>, todo: seq<string>, onlyOlderThan: Option<int>)

  datatype System<V> = System(cache: State<V>, purgers: seq<Purger<V>>)

  /** What one thread does in one critical section. Clients call Get, Set and Invalidate, or start a purge; a purger looks a
      key up under the read lock, gives the lock back, and removes under the write lock. */
  ghost predicate Next<V(!new)>(limits: Limits, s: System<V>, s': System<V>, event: Option<Event<V>>)
    requires limits.Valid()
  {
    || (event.Some? && !event.value.RemoveEvent? && s' == s.(cache := Step(limits, s.cache, event.value)))
    || (exists purger: Purger<V> :: event.None? && purger.Looking? && s' == s.(purgers := s.purgers + [purger]))
    || (exists i: nat, now: int :: i < |s.purgers| && event.None? && Look(limits, s, s', i, now))
    || (exists i: nat :: i < |s.purgers| && s.purgers[i].Removing?
                    && event == Some(RemoveEvent(s.purgers[i].found.key))
                    && s' == System(RemoveStep(s.cache, s.purgers[i].found.key),
                                    s.purgers[i := Looking(s.purgers[i].todo, s.purgers[i].onlyOlderThan)]))
  }

  ghost predicate Look<V>(limits: Limits, s: System<V>, s': System<V>, i: nat, now: int)
    requires i < |s.purgers|
  {
    var p := s.purgers[i];
    && p.Looking? && p.todo != []
    && var found := Lookup(s.cache.entries, p.todo[0]);
       var remove := found.Some? && (p.onlyOlderThan.Some? ==> now - found.value.fetchTime > p.onlyOlderThan.value);
       s' == s.(purgers := s.purgers[i := if remove then Removing(found.value, p.todo[1..], p.onlyOlderThan)
                                          else Looking(p.todo[1..], p.onlyOlderThan)])
  }

  ghost predicate Interleaving<V(!new)>(limits: Limits, systems: seq<System<V>>, events: seq<Option<Event<V>>>)
    requires limits.Valid()
  {
    && |systems| == |events| + 1
    && systems[0] == System(Empty(), [])
    && forall i :: 0 <= i < |events| ==> Next(limits, systems[i], systems[i + 1], events[i])
  }

  function Effects<V>(events: seq<Option<Event<V>>>): seq<Event<V>> {
    if events == [] then []
    else
      var n := |events| - 1;
      Effects(events[..n]) + if events[n].Some? then [events[n].value] else []
  }

  /** Every interleaving of threads leaves the cache as the run of its atomic events does. */
  lemma {:induction false} InterleavingIsRun<V(!new)>(limits: Limits, systems: seq<System<V>>, events: seq<Option<Event<V>>>)
    requires limits.Valid() && Interleaving(limits, systems, events)
    ensures systems[|events|].cache == Run(limits, Effects(events))
    decreases |events|
  {
    if events != [] {
      var n := |events| - 1;
      assert Next(limits, systems[n], systems[n + 1], events[n]);
      assert Interleaving(limits, systems[..n + 1], events[..n]) by {
        forall i | 0 <= i < n ensures Next(limits, systems[..n + 1][i], systems[..n + 1][i + 1], events[..n][i]) {
          assert Next(limits, systems[i], systems[i + 1], events[i]);
        }
      }
      InterleavingIsRun(limits, systems[..n + 1], events[..n]);
      if events[n].Some? {
        assert (Effects(events[..n]) + [events[n].value])[..|Effects(events[..n])|] == Effects(events[..n]);
      } else {
        assert Effects(events) == Effects(events[..n]);
      }
    }
  }

  // ------------------------------------------------------------------------------------------ accounting

  ghost predicate NonNegative<V>(events: seq<Event<V>>) {
    forall e :: e in events && e.SetEvent? ==> e.entry.size >= 0
  }

  lemma StepConsistent<V>(limits: Limits, s: State<V>, e: Event<V>)
    requires Consistent(limits, s)
    ensures Consistent(limits, Step(limits, s, e))
  {
    match e {
      case GetEvent(now, key) => GetConsistent(limits, s, now, key);
      case SetEvent(entry) => SetConsistent(limits, s, entry);
      case RemoveEvent(key) => RemoveConsistent(limits, s, key);
      case InvalidateEvent =>
    }
  }

  /** Between any two critical sections the byte count is the sum of the stored sizes, no key is stored twice, and there are
      not more entries than allowed. */
  lemma {:induction false} RunConsistent<V>(limits: Limits, events: seq<Event<V>>)
    requires limits.Valid()
    ensures Consistent(limits, Run(limits, events))
  {
    if events != [] {
      RunConsistent(limits, events[..|events| - 1]);
      StepConsistent(limits, Run(limits, events[..|events| - 1]), events[|events| - 1]);
    }
  }

  ghost predicate Weighted<V>(entries: seq<Entry<V>>) {
    forall e :: e in entries ==> e.size >= 0
  }

  lemma {:induction false} RemovalShrinks<V>(entries: seq<Entry<V>>, key: string)
    requires Weighted(entries)
    ensures Weighted(Without(entries, key)) && 0 <= TotalSize(Without(entries, key)) <= TotalSize(entries)
  {
    if entries != [] {
      assert entries[0] in entries && forall e :: e in entries[1..] ==> e in entries;
      RemovalShrinks(entries[1..], key);
      WithoutFacts(entries, key);
      var kept := Without(entries[1..], key);
      assert ([entries[0]] + kept)[1..] == kept;
    }
  }

  lemma StepWithinBytes<V>(limits: Limits, s: State<V>, e: Event<V>)
    requires Consistent(limits, s) && Weighted(s.entries) && 0 <= s.bytes <= limits.maxSizeBytes
    requires e.SetEvent? ==> e.entry.size >= 0
    ensures Weighted(Step(limits, s, e).entries) && 0 <= Step(limits, s, e).bytes <= limits.maxSizeBytes
  {
    match e {
      case GetEvent(now, key) =>
        LookupFacts(s.entries, key);
        if Lookup(s.entries, key).Some? {
          var e := Lookup(s.entries, key).value;
          var all := [e] + Without(s.entries, key);
          WeightedInFront(e, s.entries, |all|);
          assert all[..|all|] == all;
        }
      case SetEvent(entry) =>
        SetWithinBytes(limits, s, entry);
      case RemoveEvent(key) =>
        RemovalShrinks(s.entries, key);
      case InvalidateEvent =>
    }
  }

  lemma WeightedInFront<V>(e: Entry<V>, entries: seq<Entry<V>>, k: nat)
    requires Weighted(entries) && e.size >= 0 && k <= 1 + |Without(entries, e.key)|
    ensures Weighted(([e] + Without(entries, e.key))[..k])
  {
    var rest := Without(entries, e.key);
    WithoutFacts(entries, e.key);
    var all := [e] + rest;
    assert Weighted(all);
    assert forall x :: x in all[..k] ==> x in all;
  }

  lemma SetWithinBytes<V>(limits: Limits, s: State<V>, entry: Entry<V>)
    requires Consistent(limits, s) && Weighted(s.entries) && entry.size >= 0
    ensures Weighted(SetStep(limits, s, entry).entries) && 0 <= SetStep(limits, s, entry).bytes <= limits.maxSizeBytes
  {
    var all := [entry] + Without(s.entries, entry.key);
    SetConsistent(limits, s, entry);
    WeightedInFront(entry, s.entries, LongestFit(limits, all, |all|));
    NonNegativeTotal(SetStep(limits, s, entry).entries);
  }

  lemma {:induction false} NonNegativeTotal<V>(entries: seq<Entry<V>>)
    requires Weighted(entries)
    ensures TotalSize(entries) >= 0
  {
    if entries != [] {
      assert entries[0] in entries && forall e :: e in entries[1..] ==> e in entries;
      NonNegativeTotal(entries[1..]);
    }
  }

  /** With non-negative sizes the byte limit holds between any two critical sections. */
  lemma {:induction false} RunWithinBytes<V>(limits: Limits, events: seq<Event<V>>)
    requires limits.Valid() && NonNegative(events)
    ensures Weighted(Run(limits, events).entries) && 0 <= Run(limits, events).bytes <= limits.maxSizeBytes
  {
    if events != [] {
      var n := |events| - 1;
      assert events[n] in events && forall e :: e in events[..n] ==> e in events;
      RunWithinBytes(limits, events[..n]);
      RunConsistent(limits, events[..n]);
      StepWithinBytes(limits, Run(limits, events[..n]), events[n]);
    }
  }

  // ------------------------------------------------------------------------------------ hits are exact

  /** What the latest Set under this key stored, unless it was purged or the cache invalidated since. */
  function LatestSet<V>(events: seq<Event<V>>, key: string): Option<Entry<V>> {
    if events == [] then None
    else
      var n := |events| - 1;
      match events[n]
      case SetEvent(entry) => if entry.key == key then Some(entry) else LatestSet(events[..n], key)
      case RemoveEvent(k) => if k == key then None else LatestSet(events[..n], key)
      case InvalidateEvent => None
      case GetEvent(_, _) => LatestSet(events[..n], key)
  }

  /** Whatever the cache holds is what the latest Set of its key stored. */
  lemma {:induction false} StoredIsLatest<V>(limits: Limits, events: seq<Event<V>>, e: Entry<V>)
    requires limits.Valid() && e in Run(limits, events).entries
    ensures LatestSet(events, e.key) == Some(e)
  {
    var n := |events| - 1;
    var before := Run(limits, events[..n]);
    match events[n] {
      case GetEvent(now, key) =>
        LookupFacts(before.entries, key);
        WithoutFacts(before.entries, key);
        StoredIsLatest(limits, events[..n], e);
      case SetEvent(entry) =>
        WithoutFacts(before.entries, entry.key);
        if e.key != entry.key { StoredIsLatest(limits, events[..n], e); }
      case RemoveEvent(key) =>
        WithoutFacts(before.entries, key);
        StoredIsLatest(limits, events[..n], e);
      case InvalidateEvent =>
    }
  }

  /** A hit returns what the latest Set of the key stored, less than maxAge after it was fetched, with no purge of the key
      and no invalidation in between; anything else is a miss. */
  lemma HitsAreExact<V>(limits: Limits, events: seq<Event<V>>, now: int, key: string)
    requires limits.Valid()
    ensures var hit := GetStep(limits, Run(limits, events), now, key).1;
            hit.Some? ==> var latest := LatestSet(events, key);
                          latest.Some? && hit.value == latest.value.cacheObject && now - latest.value.fetchTime < limits.maxAge
  {
    var s := Run(limits, events);
    LookupFacts(s.entries, key);
    if Lookup(s.entries, key).Some? { StoredIsLatest(limits, events, Lookup(s.entries, key).value); }
  }

  // ------------------------------------------------------------------------------------------- counting

  /** The lookups of a history, and those among them that hit. */
  function Lookups<V>(events: seq<Event<V>>): nat {
    if events == [] then 0 else Lookups(events[..|events| - 1]) + if events[|events| - 1].GetEvent? then 1 else 0
  }

  function HitsAmong<V>(limits: Limits, events: seq<Event<V>>): nat
    requires limits.Valid()
  {
    if events == [] then 0
    else
      var n := |events| - 1;
      var e := events[n];
      HitsAmong(limits, events[..n]) + if e.GetEvent? && GetStep(limits, Run(limits, events[..n]), e.now, e.key).1.Some? then 1 else 0
  }

  /** Every lookup is counted once, as a hit if an object was found and as a miss otherwise. */
  lemma {:induction false} LookupsAreCounted<V>(limits: Limits, events: seq<Event<V>>)
    requires limits.Valid()
    ensures Run(limits, events).hits == HitsAmong(limits, events)
    ensures Run(limits, events).hits + Run(limits, events).misses == Lookups(events)
  {
    if events != [] { LookupsAreCounted(limits, events[..|events| - 1]); }
  }
}
