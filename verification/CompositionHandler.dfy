/** From fetched results to the merge: contents are added in the order of the results, which decides whose head tags survive. */
module CompositionHandler {
  import opened Wrappers
  import opened Html
  import opened Fragments
  import opened FragmentIndex
  import opened HeadDeduplication
  import opened HeadDeduplicationLaws
  import opened HeadFixpoints
  import opened FetchProtocol
  import opened StylesheetDeduplication
  import opened Templating
  import CM = ContentMerge
  import HD = HeadDeduplication

  /** The factory for merges, with the strategy it was given. */
  method NewMerge(metaJSON: map<string, Value>, strategy: Strategy) returns (merge: CM.ContentMerge)
    ensures fresh(merge) && merge.Valid() && merge.metaJSON == metaJSON && merge.strategy == strategy
    ensures merge.heads == [] && merge.tails == [] && merge.bodyAttrsArray == [] && merge.body == map[] && merge.pages == []
    ensures merge.priorities == map[] && merge.stylesheets == []
  {
    merge := new CM.ContentMerge(metaJSON);
    merge.SetDeduplicationStrategy(strategy);
  }

  /** Loaded contents with their priorities. */
  type Contents = seq<(MemoryContent, int)>

  function HeadObjects(contents: Contents): seq<StringFragment>
    reads set c | c in contents :: c.0
  {
    if contents == [] then []
    else
      var n := |contents| - 1;
      HeadObjects(contents[..n]) + OwnHead(contents[n].0)
  }

  function OwnHead(c: MemoryContent): seq<StringFragment>
    reads c`head
  {
    if c.head.Some? then [c.head.value] else []
  }

  /** What a content brings with it. */
  datatype Brought = Brought(head: Option<StringFragment>, tail: Option<StringFragment>, attributes: seq<Attribute>,
                             page: PageBody<StringFragment>)

  function Brings(c: MemoryContent): Brought
    reads c
  {
    Brought(c.head, c.tail, c.bodyAttributes, PageBody(c.name, c.body))
  }

  function AllBring(contents: Contents): seq<Brought>
    reads set c | c in contents :: c.0
  {
    seq(|contents|, i requires 0 <= i < |contents| reads set c | c in contents :: c.0 => Brings(contents[i].0))
  }

  function Heads(parts: seq<Brought>): seq<StringFragment> {
    if parts == [] then []
    else
      var n := |parts| - 1;
      Heads(parts[..n]) + if parts[n].head.Some? then [parts[n].head.value] else []
  }

  function Tails(parts: seq<Brought>): seq<StringFragment> {
    if parts == [] then []
    else
      var n := |parts| - 1;
      Tails(parts[..n]) + if parts[n].tail.Some? then [parts[n].tail.value] else []
  }

  function BodyAttributes(parts: seq<Brought>): seq<seq<Attribute>> {
    if parts == [] then []
    else
      var n := |parts| - 1;
      BodyAttributes(parts[..n]) + if parts[n].attributes != [] then [parts[n].attributes] else []
  }

  function Pages(parts: seq<Brought>): seq<PageBody<StringFragment>> {
    seq(|parts|, i requires 0 <= i < |parts| => parts[i].page)
  }

  lemma {:induction false} HeadsBrought(contents: Contents)
    ensures HeadObjects(contents) == Heads(AllBring(contents))
  {
    if contents != [] {
      var n := |contents| - 1;
      HeadsBrought(contents[..n]);
      assert AllBring(contents)[..n] == AllBring(contents[..n]);
    }
  }

  lemma HeadsSnoc(heads: seq<StringFragment>, parts: seq<Brought>, i: nat)
    requires i < |parts|
    ensures heads + Heads(parts[..i + 1]) == (heads + Heads(parts[..i])) + (if parts[i].head.Some? then [parts[i].head.value] else [])
  {
    assert parts[..i + 1][..i] == parts[..i];
  }

  lemma PartsSnoc(tails: seq<StringFragment>, attrs: seq<seq<Attribute>>, pages: seq<PageBody<StringFragment>>, parts: seq<Brought>, i: nat)
    requires i < |parts|
    ensures tails + Tails(parts[..i + 1]) == (tails + Tails(parts[..i])) + (if parts[i].tail.Some? then [parts[i].tail.value] else [])
    ensures attrs + BodyAttributes(parts[..i + 1])
         == (attrs + BodyAttributes(parts[..i])) + (if parts[i].attributes != [] then [parts[i].attributes] else [])
    ensures pages + Pages(parts[..i + 1]) == (pages + Pages(parts[..i])) + [parts[i].page]
  {
    assert parts[..i + 1][..i] == parts[..i];
  }

  ghost predicate NonePositive(contents: Contents) {
    forall c :: c in contents ==> c.1 <= 0
  }

  lemma NonePositiveSnoc(contents: Contents, i: nat)
    requires i < |contents|
    ensures NonePositive(contents[..i + 1]) <==> NonePositive(contents[..i]) && contents[i].1 <= 0
  {
    assert contents[..i + 1] == contents[..i] + [contents[i]];
  }

  lemma PriorityNoted(before: map<MemoryContent, int>, c: MemoryContent, priority: int)
    ensures (if priority > 0 then before[c := priority] else before) == map[] <==> before == map[] && priority <= 0
  {
    if priority > 0 { assert c in before[c := priority]; }
  }

  /** The merge holds what it had before, and behind it what these contents bring. */
  ghost predicate Holds(merge: CM.ContentMerge, parts: seq<Brought>, heads: seq<StringFragment>, tails: seq<StringFragment>,
                        attrs: seq<seq<Attribute>>, pages: seq<PageBody<StringFragment>>)
    reads merge
  {
    && merge.heads == heads + Heads(parts) && merge.tails == tails + Tails(parts)
    && merge.bodyAttrsArray == attrs + BodyAttributes(parts) && merge.pages == pages + Pages(parts)
  }

  method AddResult(merge: CM.ContentMerge, c: MemoryContent, priority: int, ghost parts: seq<Brought>, ghost i: nat,
                   ghost heads: seq<StringFragment>, ghost tails: seq<StringFragment>, ghost attrs: seq<seq<Attribute>>,
                   ghost pages: seq<PageBody<StringFragment>>)
    requires i < |parts| && parts[i] == Brings(c) && merge.Valid() && Holds(merge, parts[..i], heads, tails, attrs, pages)
    modifies merge
    ensures merge.Valid() && Holds(merge, parts[..i + 1], heads, tails, attrs, pages)
    ensures merge.stylesheets == old(merge.stylesheets) && merge.strategy == old(merge.strategy)
    ensures merge.priorities == map[] <==> old(merge.priorities) == map[] && priority <= 0
  {
    PriorityNoted(merge.priorities, c, priority);
    merge.AddContent(c, priority);
    HeadsSnoc(heads, parts, i);
    PartsSnoc(tails, attrs, pages, parts, i);
  }

  /** The loop over the results: everything they bring is added in their order, and a positive priority is noted. */
  method AddResults(merge: CM.ContentMerge, contents: Contents)
    requires merge.Valid()
    modifies merge
    ensures merge.Valid() && merge.heads == old(merge.heads) + HeadObjects(contents)
    ensures merge.tails == old(merge.tails) + Tails(AllBring(contents)) && merge.pages == old(merge.pages) + Pages(AllBring(contents))
    ensures merge.bodyAttrsArray == old(merge.bodyAttrsArray) + BodyAttributes(AllBring(contents))
    ensures merge.stylesheets == old(merge.stylesheets) && merge.strategy == old(merge.strategy)
    ensures merge.priorities == map[] <==> old(merge.priorities) == map[] && NonePositive(contents)
  {
    ghost var parts := AllBring(contents);
    ghost var heads, tails, attrs, pages := merge.heads, merge.tails, merge.bodyAttrsArray, merge.pages;
    var i := 0;
    while i < |contents|
      invariant 0 <= i <= |contents| && merge.Valid() && parts == AllBring(contents)
      invariant Holds(merge, parts[..i], heads, tails, attrs, pages)
      invariant merge.stylesheets == old(merge.stylesheets) && merge.strategy == old(merge.strategy)
      invariant merge.priorities == map[] <==> old(merge.priorities) == map[] && NonePositive(contents[..i])
    {
      assert parts[i] == Brings(contents[i].0);
      AddResult(merge, contents[i].0, contents[i].1, parts, i, heads, tails, attrs, pages);
      NonePositiveSnoc(contents, i);
      i := i + 1;
    }
    assert contents[..i] == contents && parts[..i] == parts;
    HeadsBrought(contents);
  }

  /** The merge of these contents. Rendering begins with the backward pass if and only if one of them has a positive priority. */
  method MergeContents(metaJSON: map<string, Value>, strategy: Strategy, contents: Contents, ghost tokenize: string -> seq<Token>)
    returns (merge: CM.ContentMerge)
    ensures fresh(merge) && merge.Valid() && merge.metaJSON == metaJSON && merge.strategy == strategy && merge.stylesheets == []
    ensures merge.heads == HeadObjects(contents) && merge.tails == Tails(AllBring(contents))
    ensures merge.pages == Pages(AllBring(contents)) && merge.bodyAttrsArray == BodyAttributes(AllBring(contents))
    ensures SomePositive(contents) ==> merge.TextsToRender(tokenize) == AfterPass(merge.heads, HD.Contents(merge.heads), map[], tokenize)
    ensures !SomePositive(contents) ==> merge.TextsToRender(tokenize) == HD.Contents(merge.heads)
  {
    merge := NewMerge(metaJSON, strategy);
    AddResults(merge, contents);
    SomePositiveExactly(contents);
  }

  ghost predicate SomePositive(contents: Contents) {
    exists i :: 0 <= i < |contents| && contents[i].1 > 0
  }

  lemma SomePositiveExactly(contents: Contents)
    ensures SomePositive(contents) <==> !NonePositive(contents)
  {
    if !NonePositive(contents) {
      var c :| c in contents && c.1 > 0;
      var i :| 0 <= i < |contents| && contents[i] == c;
      assert contents[i].1 > 0;
    }
  }

  // ------------------------------------------------------------------------------ whose tags survive

  /** The loaded contents in the order of the results, with the priorities of their definitions; page is the object that a loaded
      content is. */
  function LoadedContents<V>(results: seq<FetchResult<V>>, page: Content<V> -> MemoryContent): Contents {
    if results == [] then []
    else
      var n := |results| - 1;
      var r := results[n];
      LoadedContents(results[..n], page) + if r.load.Loaded? then [(page(r.load.content), r.def.priority)] else []
  }

  /** The priorities of the contents that have a head. */
  function HeadPriorities(contents: Contents): seq<int>
    reads set c | c in contents :: c.0
  {
    if contents == [] then []
    else
      var n := |contents| - 1;
      HeadPriorities(contents[..n]) + if contents[n].0.head.Some? then [contents[n].1] else []
  }

  ghost predicate Ascending(priorities: seq<int>) {
    forall i, j :: 0 <= i < j < |priorities| ==> priorities[i] <= priorities[j]
  }

  ghost predicate Bounded(contents: Contents, bound: int) {
    forall c :: c in contents ==> c.1 <= bound
  }

  ghost predicate AscendingContents(contents: Contents) {
    forall i, j :: 0 <= i < j < |contents| ==> contents[i].1 <= contents[j].1
  }

  lemma AscendingSnoc(contents: Contents, c: (MemoryContent, int))
    requires AscendingContents(contents) && Bounded(contents, c.1)
    ensures AscendingContents(contents + [c]) && Bounded(contents + [c], c.1)
  {
    assert forall i :: 0 <= i < |contents| ==> contents[i] in contents;
  }

  lemma {:induction false} LoadedAscend<V>(results: seq<FetchResult<V>>, page: Content<V> -> MemoryContent, bound: int)
    requires Sorted(results) && forall r :: r in results ==> r.def.priority <= bound
    ensures AscendingContents(LoadedContents(results, page)) && Bounded(LoadedContents(results, page), bound)
  {
    if results != [] {
      var n := |results| - 1;
      var r, front := results[n], results[..n];
      assert r in results;
      forall x | x in front ensures x.def.priority <= r.def.priority {
        var k :| 0 <= k < n && results[k] == x;
        assert results[k].def.priority <= results[n].def.priority;
      }
      LoadedAscend(front, page, r.def.priority);
      if r.load.Loaded? { AscendingSnoc(LoadedContents(front, page), (page(r.load.content), r.def.priority)); }
      assert LoadedContents(front, page) + [] == LoadedContents(front, page);
    }
  }

  lemma {:induction false} HeadsAscend(contents: Contents)
    requires AscendingContents(contents)
    ensures |HeadPriorities(contents)| == |HeadObjects(contents)| && Ascending(HeadPriorities(contents))
    ensures forall p :: p in HeadPriorities(contents) ==> contents != [] && p <= contents[|contents| - 1].1
  {
    if contents != [] {
      var n := |contents| - 1;
      var front := contents[..n];
      HeadsAscend(front);
      var before, all := HeadPriorities(front), HeadPriorities(contents);
      assert forall p :: p in before ==> p <= contents[n].1 by {
        if n > 0 { assert front[|front| - 1] == contents[n - 1]; }
      }
      assert forall i :: 0 <= i < |all| ==> if i < |before| then all[i] == before[i] && before[i] in before else all[i] == contents[n].1;
    }
  }

  lemma {:induction false} LoadedIn<V>(results: seq<FetchResult<V>>, page: Content<V> -> MemoryContent, r: FetchResult<V>)
    requires r in results && r.load.Loaded?
    ensures (page(r.load.content), r.def.priority) in LoadedContents(results, page)
  {
    var n := |results| - 1;
    assert results == results[..n] + [results[n]];
    if r in results[..n] {
      LoadedIn(results[..n], page, r);
    } else {
      var own := (page(r.load.content), r.def.priority);
      assert r == results[n] && LoadedContents(results, page) == LoadedContents(results[..n], page) + [own];
    }
  }

  /** The results come sorted as soon as one of them has a positive priority. */
  lemma PrioritizedIsSorted<V>(states: seq<State<V>>, events: seq<Event<V>>, tops: seq<Def>, meta: map<string, V>, r: FetchResult<V>)
    requires IsRun(states, events, tops, meta) && states[|events|].caller.Returned?
    requires r in states[|events|].caller.results && r.def.priority > 0
    ensures Sorted(states[|events|].caller.results)
  {
    var s := states[|events|];
    RunKeeps(states, events, tops, meta);
    assert r in multiset(s.caller.results);
    assert r in s.results;
  }

  /** Without a positive priority they come in the order in which they were scheduled. */
  lemma OtherwiseAsScheduled<V>(states: seq<State<V>>, events: seq<Event<V>>, tops: seq<Def>, meta: map<string, V>)
    requires IsRun(states, events, tops, meta) && states[|events|].caller.Returned?
    requires forall r :: r in states[|events|].results ==> r.def.priority <= 0
    ensures states[|events|].caller.results == states[|events|].results
  {
    RunKeeps(states, events, tops, meta);
  }

  /** Of all claims of the property exactly one is kept, the first one of a head of maximal priority among those that make it. */
  ghost predicate TopPrioritySurvives(heads: seq<seq<Token>>, kept: seq<seq<Token>>, priorities: seq<int>, key: string)
    requires |heads| == |kept| == |priorities|
  {
    ClaimedIn(heads, key) ==> exists i :: 0 <= i < |heads| && IsSurvivor(heads, kept, priorities, key, i)
  }

  ghost predicate IsSurvivor(heads: seq<seq<Token>>, kept: seq<seq<Token>>, priorities: seq<int>, key: string, i: nat)
    requires |heads| == |kept| == |priorities| && i < |heads|
  {
    && FirstClaim(heads[i], key).Some? && FirstClaim(kept[i], key) == FirstClaim(heads[i], key)
    && (forall h :: 0 <= h < |heads| && FirstClaim(heads[h], key).Some? ==> priorities[h] <= priorities[i])
    && (forall h :: 0 <= h < |heads| && h != i ==> FirstClaim(kept[h], key) == None)
  }

  lemma AscendingSurvives(heads: seq<seq<Token>>, priorities: seq<int>, key: string)
    requires (forall h :: h in heads ==> WellTitled(h) && HasText(h)) && NoHeadOnlyRepeats(heads)
    requires |priorities| == |heads| && Ascending(priorities)
    ensures TopPrioritySurvives(heads, DedupHeads(heads, map[]).0, priorities, key)
  {
    NoHeadOnlyRepeatsIsRewritten(heads);
    if ClaimedIn(heads, key) {
      var j :| 0 <= j < |heads| && FirstClaim(heads[j], key).Some?;
      var i := PriorityWins(heads, priorities, key, j);
      assert IsSurvivor(heads, DedupHeads(heads, map[]).0, priorities, key, i);
    }
  }

  /** From the fetcher to the page, in every run of the fetcher that returns its results, whatever the contents were before. If some
      loaded content has a positive priority, adding the results notes it, so that rendering begins with the backward pass. The pass
      leaves each head object with the text of the tags kept of it; and if no head that claims something only repeats later ones, of
      all claims of any property exactly one is kept, the first one of a head of maximal priority among those that make it. */
  lemma SurvivorHasTopPriority<V>(states: seq<State<V>>, events: seq<Event<V>>, tops: seq<Def>, meta: map<string, V>, r: FetchResult<V>,
                                  page: Content<V> -> MemoryContent, before: map<StringFragment, string>, tokenize: string -> seq<Token>)
    requires IsRun(states, events, tops, meta) && states[|events|].caller.Returned?
    requires r in states[|events|].caller.results && r.load.Loaded? && r.def.priority > 0 && Reads(tokenize)
    requires var heads := HeadObjects(LoadedContents(states[|events|].caller.results, page));
             (forall h :: h in heads ==> h in before) && Distinct(heads) && NoHeadOnlyRepeats(TokensOf(TextsIn(heads, before), tokenize))
    ensures var contents := LoadedContents(states[|events|].caller.results, page);
            var heads := HeadObjects(contents);
            var tokens := TokensOf(TextsIn(heads, before), tokenize);
            var kept, after := DedupHeads(tokens, map[]).0, AfterPass(heads, before, map[], tokenize);
            && !NonePositive(contents) && |HeadPriorities(contents)| == |heads|
            && (forall i :: 0 <= i < |heads| ==> heads[i] in after && after[heads[i]] == Raw(kept[i]))
            && (forall key :: TopPrioritySurvives(tokens, kept, HeadPriorities(contents), key))
  {
    var results := states[|events|].caller.results;
    var contents := LoadedContents(results, page);
    var heads := HeadObjects(contents);
    var texts := TextsIn(heads, before);
    var tokens := TokensOf(texts, tokenize);
    PrioritizedIsSorted(states, events, tops, meta, r);
    LoadedIn(results, page, r);
    assert forall x :: x in results ==> x.def.priority <= results[|results| - 1].def.priority;
    LoadedAscend(results, page, results[|results| - 1].def.priority);
    HeadsAscend(contents);
    forall i: nat | i < |heads|
      ensures var after := AfterPass(heads, before, map[], tokenize);
              heads[i] in after && after[heads[i]] == Raw(DedupHeads(tokens, map[]).0[i])
    {
      DistinctPass(heads, before, map[], tokenize, i);
      TextsAreHeads(texts, map[], tokenize, i);
    }
    forall key ensures TopPrioritySurvives(tokens, DedupHeads(tokens, map[]).0, HeadPriorities(contents), key) {
      AscendingSurvives(tokens, HeadPriorities(contents), key);
    }
  }
}
