/** What removals and evictions by size do to later hits: when a removal can add a hit, and when bytes can cost one. */
module CacheRemovals {
  import opened Wrappers
  import opened LruCache
  import opened CacheRuns
  import opened CacheInclusion

  /** The cache after these events, from any state. */
  function RunFrom<V>(limits: Limits, s: State<V>, events: seq<Event<V>>): State<V>
    requires limits.Valid()
  {
    if events == [] then s else Step(limits, RunFrom(limits, s, events[..|events| - 1]), events[|events| - 1])
  }

  predicate Hits<V>(limits: Limits, s: State<V>, now: int, key: string) {
    GetStep(limits, s, now, key).1.Some?
  }

  /** After these events the key is a hit if k was removed in the beginning, and a miss if not. */
  predicate AddsHit<V>(limits: Limits, s: State<V>, k: string, events: seq<Event<V>>, now: int, key: string)
    requires limits.Valid()
  {
    && Hits(limits, RunFrom(limits, RemoveStep(s, k), events), now, key)
    && !Hits(limits, RunFrom(limits, s, events), now, key)
  }

  ghost predicate WithinLimits<V>(limits: Limits, s: State<V>) {
    Consistent(limits, s) && Weighted(s.entries) && 0 <= s.bytes <= limits.maxSizeBytes
  }

  lemma {:induction false} RunFromConcat<V>(limits: Limits, s: State<V>, a: seq<Event<V>>, b: seq<Event<V>>)
    requires limits.Valid()
    ensures RunFrom(limits, s, a + b) == RunFrom(limits, RunFrom(limits, s, a), b)
  {
    if b == [] {
      assert a + b == a;
    } else {
      assert (a + b)[..|a + b| - 1] == a + b[..|b| - 1];
      RunFromConcat(limits, s, a, b[..|b| - 1]);
    }
  }

  // ---------------------------------------------------------------------------------- no added hits

  lemma {:induction false} SameRun<V>(limits: Limits, s: State<V>, t: State<V>, events: seq<Event<V>>)
    requires limits.Valid() && s.entries == t.entries
    ensures RunFrom(limits, s, events).entries == RunFrom(limits, t, events).entries
  {
    if events != [] { SameRun(limits, s, t, events[..|events| - 1]); }
  }

  /** With room for one entry only, a Set forgets everything before it. */
  lemma SetOfOne<V>(limits: Limits, s: State<V>, e: Entry<V>)
    requires limits.Valid() && limits.maxEntries == 1
    ensures SetStep(limits, s, e).entries == if e.size <= limits.maxSizeBytes then [e] else []
  {
    var all := [e] + Without(s.entries, e.key);
    assert all[..1] == [e] && all[..0] == [] && TotalSize([e]) == e.size + TotalSize([e][1..]);
  }

  lemma {:induction false} OneEntryOrNone<V>(limits: Limits, a: State<V>, b: State<V>, events: seq<Event<V>>)
    requires limits.Valid() && limits.maxEntries == 1 && (a.entries == b.entries || a.entries == [])
    ensures var x, y := RunFrom(limits, a, events).entries, RunFrom(limits, b, events).entries; x == y || x == []
  {
    if events != [] {
      var n := |events| - 1;
      OneEntryOrNone(limits, a, b, events[..n]);
      if events[n].SetEvent? {
        SetOfOne(limits, RunFrom(limits, a, events[..n]), events[n].entry);
        SetOfOne(limits, RunFrom(limits, b, events[..n]), events[n].entry);
      }
    }
  }

  lemma NoAddedHit<V>(limits: Limits, s: State<V>, k: string, events: seq<Event<V>>, now: int, key: string)
    requires Consistent(limits, s) && (Lookup(s.entries, k).None? || limits.maxEntries == 1)
    ensures !AddsHit(limits, s, k, events, now, key)
  {
    LookupFacts(s.entries, k);
    if Lookup(s.entries, k).None? {
      SameRun(limits, s, RemoveStep(s, k), events);
    } else {
      var e := Lookup(s.entries, k).value;
      LookupInDistinct(s.entries, e);
      OneEntryOrNone(limits, RemoveStep(s, k), s, events);
    }
  }

  // ------------------------------------------------------------------------------------ an added hit

  /** Keys longer than k by n characters. */
  function Tag(k: string, n: nat): (t: string)
    ensures |t| == |k| + n
  {
    if n == 0 then k else Tag(k, n - 1) + "x"
  }

  function Filling<V>(k: string, n: nat, now: int, v: V): Entry<V> {
    Entry(Tag(k, n + 1), "", 0, now, v)
  }

  /** n Sets of fresh keys without size. */
  function Fill<V>(k: string, n: nat, now: int, v: V): seq<Event<V>> {
    if n == 0 then [] else Fill(k, n - 1, now, v) + [SetEvent(Filling(k, n, now, v))]
  }

  function Filled<V>(k: string, n: nat, now: int, v: V): seq<Entry<V>> {
    if n == 0 then [] else [Filling(k, n, now, v)] + Filled(k, n - 1, now, v)
  }

  lemma {:induction false} FilledKeys<V>(k: string, n: nat, now: int, v: V)
    ensures |Filled(k, n, now, v)| == n
    ensures forall e :: e in Filled(k, n, now, v) ==> |k| + 2 <= |e.key| <= |k| + n + 1
  {
    if n > 0 { FilledKeys(k, n - 1, now, v); }
  }

  lemma {:induction false} WithoutBehind<V>(front: seq<Entry<V>>, rest: seq<Entry<V>>, key: string)
    requires NoKey(front, key)
    ensures Without(front + rest, key) == front + Without(rest, key)
  {
    if front == [] {
      assert front + rest == rest;
    } else {
      assert (front + rest)[1..] == front[1..] + rest;
      WithoutBehind(front[1..], rest, key);
    }
  }

  lemma {:induction false} PrefixTotal<V>(entries: seq<Entry<V>>, n: nat)
    requires Weighted(entries) && n <= |entries|
    ensures TotalSize(entries[..n]) <= TotalSize(entries)
  {
    if n == 0 {
      NonNegativeTotal(entries);
    } else {
      assert entries[0] in entries && entries[..n][1..] == entries[1..][..n - 1];
      PrefixTotal(entries[1..], n - 1);
    }
  }

  /** A Set without size comes to the front and pushes out at most what is behind the first maxEntries - 1 entries. */
  lemma SetInFront<V>(limits: Limits, s: State<V>, e: Entry<V>, front: seq<Entry<V>>)
    requires WithinLimits(limits, s) && e.size == 0 && front <= s.entries && NoKey(front, e.key) && |front| < limits.maxEntries
    ensures [e] + front <= SetStep(limits, s, e).entries && WithinLimits(limits, SetStep(limits, s, e))
  {
    var all := [e] + Without(s.entries, e.key);
    assert s.entries == front + s.entries[|front|..];
    WithoutBehind(front, s.entries[|front|..], e.key);
    RemovalShrinks(s.entries, e.key);
    WeightedInFront(e, s.entries, |all|);
    assert all[..|all|] == all && all[1..] == Without(s.entries, e.key);
    PrefixTotal(all, Min(|all|, limits.maxEntries));
    SetByEntriesOnly(limits, s, e);
    assert [e] + front <= all;
    SetWithinBytes(limits, s, e);
    SetConsistent(limits, s, e);
  }

  lemma FrontKeys<V>(k: string, n: nat, now: int, v: V, c: Entry<V>, f: Entry<V>)
    requires |c.key| <= |k| + 1 && |f.key| > |k| + n + 1
    ensures NoKey(Filled(k, n, now, v) + [c], f.key) && |Filled(k, n, now, v) + [c]| == n + 1
  {
    FilledKeys(k, n, now, v);
  }

  lemma {:induction false} FillInFront<V>(limits: Limits, s: State<V>, k: string, n: nat, now: int, v: V, c: Entry<V>)
    requires WithinLimits(limits, s) && [c] <= s.entries && |c.key| <= |k| + 1 && n < limits.maxEntries
    ensures var t := RunFrom(limits, s, Fill(k, n, now, v));
            WithinLimits(limits, t) && Filled(k, n, now, v) + [c] <= t.entries
  {
    if n == 0 {
      assert Filled(k, 0, now, v) + [c] == [c];
    } else {
      FillInFront(limits, s, k, n - 1, now, v, c);
      assert Fill(k, n, now, v)[..|Fill(k, n, now, v)| - 1] == Fill(k, n - 1, now, v);
      FillOneMore(limits, RunFrom(limits, s, Fill(k, n - 1, now, v)), k, n, now, v, c);
    }
  }

  lemma FillOneMore<V>(limits: Limits, s: State<V>, k: string, n: nat, now: int, v: V, c: Entry<V>)
    requires WithinLimits(limits, s) && 0 < n < limits.maxEntries && |c.key| <= |k| + 1 && Filled(k, n - 1, now, v) + [c] <= s.entries
    ensures var t := SetStep(limits, s, Filling(k, n, now, v));
            WithinLimits(limits, t) && Filled(k, n, now, v) + [c] <= t.entries
  {
    var f, front := Filling(k, n, now, v), Filled(k, n - 1, now, v) + [c];
    FrontKeys(k, n - 1, now, v, c, f);
    SetInFront(limits, s, f, front);
    assert Filled(k, n, now, v) + [c] == [f] + front;
  }

  /** Look k up, store something, look k up again, store maxEntries - 1 more. */
  function Witness<V>(limits: Limits, k: string, now: int, v: V): seq<Event<V>>
    requires limits.Valid()
  {
    [GetEvent(now, k), SetEvent(Filling(k, 0, now, v)), GetEvent(now, k)] + Fill(k, limits.maxEntries - 1, now, v)
  }

  lemma ThreeSteps<V>(limits: Limits, s: State<V>, k: string, now: int, v: V)
    requires limits.Valid()
    ensures var s1 := GetStep(limits, s, now, k).0;
            var s2 := SetStep(limits, s1, Filling(k, 0, now, v));
            RunFrom(limits, s, Witness(limits, k, now, v))
            == RunFrom(limits, GetStep(limits, s2, now, k).0, Fill(k, limits.maxEntries - 1, now, v))
  {
    var three: seq<Event<V>> := [GetEvent(now, k), SetEvent(Filling(k, 0, now, v)), GetEvent(now, k)];
    RunFromConcat(limits, s, three, Fill(k, limits.maxEntries - 1, now, v));
    var two, one := three[..2], three[..1];
    assert two[..1] == one && one[..0] == [];
    assert RunFrom(limits, s, one) == Step(limits, s, three[0]);
    assert RunFrom(limits, s, two) == Step(limits, RunFrom(limits, s, one), three[1]);
    assert RunFrom(limits, s, three) == Step(limits, RunFrom(limits, s, two), three[2]);
  }

  lemma GetWithinLimits<V>(limits: Limits, s: State<V>, now: int, k: string)
    requires WithinLimits(limits, s)
    ensures WithinLimits(limits, GetStep(limits, s, now, k).0)
  {
    StepWithinBytes(limits, s, GetEvent(now, k));
    GetConsistent(limits, s, now, k);
  }

  /** With the key in the cache, it stays in front of what was stored in between, which then has to go. */
  lemma WitnessMisses<V>(limits: Limits, s: State<V>, e: Entry<V>, now: int, v: V)
    requires WithinLimits(limits, s) && limits.maxEntries > 1 && Lookup(s.entries, e.key) == Some(e)
    ensures !Hits(limits, RunFrom(limits, s, Witness(limits, e.key, now, v)), now, Tag(e.key, 1))
  {
    var k, b, n := e.key, Filling(e.key, 0, now, v), limits.maxEntries - 1;
    ThreeSteps(limits, s, k, now, v);
    var s1 := GetStep(limits, s, now, k).0;
    GetWithinLimits(limits, s, now, k);
    SetInFront(limits, s1, b, [e]);
    var s2 := SetStep(limits, s1, b);
    assert s2.entries[1] == e;
    assert e in s2.entries;
    LookupInDistinct(s2.entries, e);
    GetWithinLimits(limits, s2, now, k);
    var s3 := GetStep(limits, s2, now, k).0;
    FillInFront(limits, s3, k, n, now, v, e);
    FilledKeys(k, n, now, v);
    var t := RunFrom(limits, s3, Fill(k, n, now, v));
    assert t.entries == Filled(k, n, now, v) + [e];
    LookupFacts(t.entries, Tag(k, 1));
  }

  /** Without the key, what was stored in between stays. */
  lemma WitnessHits<V>(limits: Limits, s: State<V>, k: string, now: int, v: V)
    requires WithinLimits(limits, s) && Lookup(s.entries, k).None? && limits.maxAge > 0
    ensures Hits(limits, RunFrom(limits, s, Witness(limits, k, now, v)), now, Tag(k, 1))
  {
    var c := Filling(k, 0, now, v);
    ThreeSteps(limits, s, k, now, v);
    StoredInBetween(limits, s, k, c, now);
    StillHit(limits, GetStep(limits, SetStep(limits, GetStep(limits, s, now, k).0, c), now, k).0, k, limits.maxEntries - 1, now, v, c);
  }

  /** A look at a key that is not there does not change the order. */
  lemma StoredInBetween<V>(limits: Limits, s: State<V>, k: string, c: Entry<V>, now: int)
    requires WithinLimits(limits, s) && Lookup(s.entries, k).None? && c.key != k && c.size == 0
    ensures var t := GetStep(limits, SetStep(limits, GetStep(limits, s, now, k).0, c), now, k).0;
            WithinLimits(limits, t) && [c] <= t.entries
  {
    var s1 := GetStep(limits, s, now, k).0;
    GetWithinLimits(limits, s, now, k);
    MissKeepsOrder(limits, s, now, k);
    SetInFront(limits, s1, c, []);
    assert [c] + [] == [c];
    var s2 := SetStep(limits, s1, c);
    StillMissing(limits, s1, c, k);
    GetWithinLimits(limits, s2, now, k);
    MissKeepsOrder(limits, s2, now, k);
  }

  lemma MissKeepsOrder<V>(limits: Limits, s: State<V>, now: int, k: string)
    requires Lookup(s.entries, k).None?
    ensures GetStep(limits, s, now, k).0.entries == s.entries
  {
  }

  lemma StillMissing<V>(limits: Limits, s: State<V>, c: Entry<V>, k: string)
    requires limits.Valid() && Lookup(s.entries, k).None? && c.key != k
    ensures Lookup(SetStep(limits, s, c).entries, k).None?
  {
    var rest, kept := Without(s.entries, c.key), SetStep(limits, s, c).entries;
    LookupFacts(s.entries, k);
    WithoutFacts(s.entries, c.key);
    LookupFacts(kept, k);
    assert NoKey(rest, k);
    forall e | e in kept ensures e.key != k {
      assert e in [c] + rest;
    }
  }

  /** What is in front stays behind fewer keys than there is room for. */
  lemma StillHit<V>(limits: Limits, s: State<V>, k: string, n: nat, now: int, v: V, c: Entry<V>)
    requires WithinLimits(limits, s) && 0 < limits.maxAge && n < limits.maxEntries
    requires [c] <= s.entries && c.fetchTime == now && |c.key| <= |k| + 1
    ensures Hits(limits, RunFrom(limits, s, Fill(k, n, now, v)), now, c.key)
  {
    FillInFront(limits, s, k, n, now, v, c);
    StoredIsHit(limits, RunFrom(limits, s, Fill(k, n, now, v)), Filled(k, n, now, v), c, now);
  }

  lemma StoredIsHit<V>(limits: Limits, t: State<V>, front: seq<Entry<V>>, c: Entry<V>, now: int)
    requires WithinLimits(limits, t) && front + [c] <= t.entries && c.fetchTime == now && 0 < limits.maxAge
    ensures Hits(limits, t, now, c.key)
  {
    assert t.entries[|front|] == c;
    LookupInDistinct(t.entries, c);
  }

  /** A removal can add a hit later on, and not only cost hits, if and only if the key was stored and there is room for a second
      entry. */
  lemma RemovalAddsHitsExactly<V>(limits: Limits, s: State<V>, k: string, now: int)
    requires WithinLimits(limits, s) && limits.maxAge > 0
    ensures (exists events: seq<Event<V>>, key :: AddsHit(limits, s, k, events, now, key)) <==>
            Lookup(s.entries, k).Some? && limits.maxEntries > 1
  {
    forall events: seq<Event<V>>, key | Lookup(s.entries, k).None? || limits.maxEntries == 1
      ensures !AddsHit(limits, s, k, events, now, key)
    {
      NoAddedHit(limits, s, k, events, now, key);
    }
    if Lookup(s.entries, k).Some? && limits.maxEntries > 1 {
      var e := Lookup(s.entries, k).value;
      LookupFacts(s.entries, k);
      WitnessMisses(limits, s, e, now, e.cacheObject);
      RemovalShrinks(s.entries, k);
      RemoveConsistent(limits, s, k);
      WithoutFacts(s.entries, k);
      LookupFacts(RemoveStep(s, k).entries, k);
      WitnessHits(limits, RemoveStep(s, k), k, now, e.cacheObject);
      assert AddsHit(limits, s, k, Witness(limits, k, now, e.cacheObject), now, Tag(k, 1));
    }
  }

  // ------------------------------------------------------------------------------- bytes may cost hits

  lemma SetTo<V>(limits: Limits, s: State<V>, e: Entry<V>, kept: nat)
    requires limits.Valid()
    requires var all := [e] + Without(s.entries, e.key);
             kept <= |all| && Fits(limits, all[..kept]) && forall m :: kept < m <= |all| ==> !Fits(limits, all[..m])
    ensures SetStep(limits, s, e).entries == ([e] + Without(s.entries, e.key))[..kept]
  {
  }

  lemma ShortTotals(c: Entry<int>, x: Entry<int>, y: Entry<int>)
    ensures TotalSize([c]) == c.size && TotalSize([c, x]) == c.size + x.size && TotalSize([c, x, y]) == c.size + x.size + y.size
  {
    assert [c][1..] == [] && [c, x][1..] == [x] && [x][1..] == [] && [c, x, y][1..] == [x, y] && [x, y][1..] == [y] && [y][1..] == [];
    assert TotalSize([y]) == y.size && TotalSize([x]) == x.size && TotalSize([x, y]) == x.size + y.size;
  }

  lemma ShortWithout(c: Entry<int>, x: Entry<int>, key: string)
    ensures Without([c, x], key) == (if c.key == key then [] else [c]) + (if x.key == key then [] else [x])
    ensures Without([x], key) == if x.key == key then [] else [x]
  {
    assert [c, x][1..] == [x] && [x][1..] == [];
    assert Without([x], key) == if x.key == key then [] else [x];
  }

  lemma LookupOfTwo(c: Entry<int>, x: Entry<int>, key: string)
    ensures Lookup([c, x], key) == if c.key == key then Some(c) else if x.key == key then Some(x) else None
  {
    assert [c, x][1..] == [x] && [x][1..] == [];
    assert Lookup([x], key) == if x.key == key then Some(x) else None;
  }

  function X(): Entry<int> { Entry("x", "", 1, 0, 1) }
  function Y(): Entry<int> { Entry("y", "", 1, 0, 2) }
  function C(): Entry<int> { Entry("c", "", 1, 0, 3) }
  function Z(): Entry<int> { Entry("z", "", 9, 0, 4) }

  const BINDING: seq<Event<int>> := [SetEvent(C()), SetEvent(X()), SetEvent(Y()), GetEvent(0, "c"), RemoveEvent("y"), SetEvent(Z())]

  /** Once bytes force evictions the larger cache can miss what the smaller one hits, after one and the same history. */
  lemma BytesMayCostHits()
    ensures var small, big := Limits(2, 10, 9), Limits(3, 10, 9);
            && Larger(small, big)
            && GetStep(small, Run(small, BINDING), 0, "x").1 == Some(1)
            && GetStep(big, Run(big, BINDING), 0, "x").1 == None
  {
    SmallRun();
    BigRun();
    LookupOfTwo(Z(), X(), "x");
    LookupOfTwo(Z(), C(), "x");
  }

  lemma StepOf(limits: Limits, n: nat)
    requires limits.Valid() && n < |BINDING|
    ensures Run(limits, BINDING[..n + 1]) == Step(limits, Run(limits, BINDING[..n]), BINDING[n])
  {
    assert BINDING[..n + 1][..n] == BINDING[..n];
  }

  /** Two keys fit into both caches. */
  lemma FirstSets(limits: Limits)
    requires 2 <= limits.maxEntries && 10 <= limits.maxSizeBytes
    ensures Run(limits, BINDING[..2]).entries == [X(), C()]
  {
    StepOf(limits, 0);
    StepOf(limits, 1);
    SetFew(limits, Empty(), C(), []);
    SetSecond(limits, Run(limits, BINDING[..1]));
  }

  lemma SetSecond(limits: Limits, s: State<int>)
    requires 2 <= limits.maxEntries && 10 <= limits.maxSizeBytes && s.entries == [C()]
    ensures SetStep(limits, s, X()).entries == [X(), C()]
  {
    ShortWithout(X(), C(), "x");
    ShortTotals(X(), C(), C());
    SetFew(limits, s, X(), [C()]);
  }

  /** The states behind the first two events and behind each of the next three. */
  lemma LastSteps(limits: Limits) returns (s2: State<int>, s3: State<int>, s4: State<int>, s5: State<int>)
    requires 2 <= limits.maxEntries && 10 <= limits.maxSizeBytes
    ensures s2.entries == [X(), C()] && s3 == SetStep(limits, s2, Y()) && s4 == GetStep(limits, s3, 0, "c").0
    ensures s5 == RemoveStep(s4, "y") && Run(limits, BINDING) == SetStep(limits, s5, Z())
  {
    FirstSets(limits);
    s2 := Run(limits, BINDING[..2]);
    s3, s4 := TwoSteps(limits, s2);
    s5 := RemoveStep(s4, "y");
    StepOf(limits, 4);
    StepOf(limits, 5);
    assert BINDING[..6] == BINDING;
  }

  lemma TwoSteps(limits: Limits, s2: State<int>) returns (s3: State<int>, s4: State<int>)
    requires limits.Valid() && s2 == Run(limits, BINDING[..2])
    ensures s3 == SetStep(limits, s2, Y()) && s4 == GetStep(limits, s3, 0, "c").0 && s4 == Run(limits, BINDING[..4])
  {
    s3, s4 := Run(limits, BINDING[..3]), Run(limits, BINDING[..4]);
    StepOf(limits, 2);
    StepOf(limits, 3);
  }

  lemma SmallRun()
    ensures Run(Limits(2, 10, 9), BINDING).entries == [Z(), X()]
  {
    var small := Limits(2, 10, 9);
    var s2, s3, s4, s5 := LastSteps(small);
    SmallThird(small, s2);
    SmallMiss(small, s3);
    SmallRemoval(s4);
    SmallLast(small, s5);
  }

  lemma SmallThird(small: Limits, s: State<int>)
    requires small == Limits(2, 10, 9) && s.entries == [X(), C()]
    ensures SetStep(small, s, Y()).entries == [Y(), X()]
  {
    ShortWithout(X(), C(), "y");
    var all := [Y()] + Without(s.entries, "y");
    assert all == [Y(), X(), C()] && all[..2] == [Y(), X()];
    ShortTotals(Y(), X(), C());
    SetTo(small, s, Y(), 2);
  }

  lemma SmallMiss(small: Limits, s: State<int>)
    requires s.entries == [Y(), X()]
    ensures GetStep(small, s, 0, "c").0.entries == [Y(), X()]
  {
    LookupOfTwo(Y(), X(), "c");
  }

  lemma SmallRemoval(s: State<int>)
    requires s.entries == [Y(), X()]
    ensures RemoveStep(s, "y").entries == [X()]
  {
    ShortWithout(Y(), X(), "y");
    LookupOfTwo(Y(), X(), "y");
  }

  lemma SmallLast(small: Limits, s: State<int>)
    requires small == Limits(2, 10, 9) && s.entries == [X()]
    ensures SetStep(small, s, Z()).entries == [Z(), X()]
  {
    ShortWithout(X(), X(), "z");
    ShortTotals(Z(), X(), X());
    SetFew(small, s, Z(), [X()]);
  }

  lemma BigRun()
    ensures Run(Limits(3, 10, 9), BINDING).entries == [Z(), C()]
  {
    var big := Limits(3, 10, 9);
    var s2, s3, s4, s5 := LastSteps(big);
    BigThird(big, s2);
    BigHit(big, s3);
    BigRemoval(s4);
    BigLast(big, s5);
  }

  lemma BigThird(big: Limits, s: State<int>)
    requires big == Limits(3, 10, 9) && s.entries == [X(), C()]
    ensures SetStep(big, s, Y()).entries == [Y(), X(), C()]
  {
    ShortWithout(X(), C(), "y");
    ShortTotals(Y(), X(), C());
    SetFew(big, s, Y(), [X(), C()]);
  }

  lemma BigHit(big: Limits, s: State<int>)
    requires s.entries == [Y(), X(), C()]
    ensures GetStep(big, s, 0, "c").0.entries == [C(), Y(), X()]
  {
    assert [Y(), X(), C()][1..] == [X(), C()];
    LookupOfTwo(X(), C(), "c");
    ShortWithout(X(), C(), "c");
    assert Without(s.entries, "c") == [Y()] + [X()];
  }

  lemma BigRemoval(s: State<int>)
    requires s.entries == [C(), Y(), X()]
    ensures RemoveStep(s, "y").entries == [C(), X()]
  {
    assert [C(), Y(), X()][1..] == [Y(), X()];
    ShortWithout(Y(), X(), "y");
  }

  /** Two entries fit, and the third one goes. */
  lemma BigLast(big: Limits, s: State<int>)
    requires big == Limits(3, 10, 9) && s.entries == [C(), X()]
    ensures SetStep(big, s, Z()).entries == [Z(), C()]
  {
    ShortWithout(C(), X(), "z");
    ShortTotals(Z(), C(), X());
    var all := [Z()] + Without(s.entries, "z");
    assert all == [Z(), C(), X()] && all[..2] == [Z(), C()] && all[..3] == all;
    SetTo(big, s, Z(), 2);
  }

  /** Setting a new key where there is room. */
  lemma SetFew(limits: Limits, s: State<int>, e: Entry<int>, before: seq<Entry<int>>)
    requires limits.Valid() && s.entries == before && Without(before, e.key) == before
    requires Fits(limits, [e] + before)
    ensures SetStep(limits, s, e).entries == [e] + before
  {
    var all := [e] + before;
    assert all[..|all|] == all;
    SetTo(limits, s, e, |all|);
  }
}
