/** Whole runs of the caching loader: loads, merges, purges and invalidations in any order. */
module CacheService {
  import opened Wrappers
  import opened Html
  import opened Fragments
  import opened LruCache
  import opened SharedHeads
  import opened CacheLoader
  import C = Cache

  /** A merge names earlier loads by their position, with priorities. */
  datatype Command =
    | LoadCommand(request: Request, now: int, later: int)
    | MergeCommand(picks: seq<(nat, int)>)
    | PurgeCommand(keys: seq<string>)
    | PurgeOldCommand(clock: string -> int)
    | InvalidateCommand

  /** headText is the text of the head at the time of the load. */
  datatype Outcome<P> = Loaded(content: Option<Content<P>>, error: Option<string>, headText: Option<string>) | NoContent

  predicate HasHead<P>(o: Outcome<P>) {
    o.Loaded? && o.content.Some? && o.content.value.head.Some?
  }

  function HeadOf<P>(o: Outcome<P>): StringFragment
    requires HasHead(o)
  {
    o.content.value.head.value
  }

  ghost function HeadsIn<P>(results: seq<Outcome<P>>): set<StringFragment> {
    set o | o in results && HasHead(o) :: HeadOf(o)
  }

  /** Only contents loaded without error are merged. */
  function PartsOf<P>(results: seq<Outcome<P>>, picks: seq<(nat, int)>): Parts<P> {
    if picks == [] then []
    else
      var n := |picks| - 1;
      var (i, priority) := picks[n];
      PartsOf(results, picks[..n]) +
      if i < |results| && results[i].Loaded? && results[i].error.None? && results[i].content.Some?
      then [(results[i].content.value, priority)] else []
  }

  lemma {:induction false} PartsFromResults<P>(results: seq<Outcome<P>>, picks: seq<(nat, int)>)
    ensures forall h :: h in HeadsOf(PartsOf(results, picks)) ==> h in HeadsIn(results)
  {
    if picks != [] {
      var n := |picks| - 1;
      PartsFromResults(results, picks[..n]);
      var (i, priority) := picks[n];
      if i < |results| && results[i].Loaded? && results[i].error.None? && results[i].content.Some? {
        var before := PartsOf(results, picks[..n]);
        assert results[i] in results;
        assert (before + [(results[i].content.value, priority)])[..|before|] == before;
      } else {
        assert PartsOf(results, picks) == PartsOf(results, picks[..n]);
      }
    }
  }

  // ------------------------------------------------------------------------------------- one command

  /** The head had the text it was loaded with if and only if every merge so far left that text alone. */
  ghost predicate HeadShown<P>(o: Outcome<P>, origins: Origins, log: seq<Rewrite>, tokenize: string -> seq<Token>) {
    HasHead(o) ==>
      var h := HeadOf(o);
      h in origins && o.headText.Some? && (o.headText.value == origins[h] <==> Untouched(origins[h], h, log, tokenize))
  }

  /** What a command returns, and what it adds to the history of heads. */
  ghost predicate Done<P(!new)>(loader: CachingContentLoader<P>, command: Command, results: seq<Outcome<P>>, o: Outcome<P>,
                                   log: seq<Rewrite>, log': seq<Rewrite>, origins: Origins)
    reads if o.Loaded? && o.content.Some? && o.content.value.Streaming? then {o.content.value.reader} else {}
  {
    match command
    case LoadCommand(request, _, _) =>
      && o.Loaded? && Shows(loader.Origin(request), o.content, o.error, origins)
      && HeadShown(o, origins, log, loader.tokenize) && log' == log
    case MergeCommand(picks) =>
      && o.NoContent? && HeadsIn(results) <= origins.Keys
      && (forall h :: h in HeadsOf(PartsOf(results, picks)) ==> h in origins)
      && log' == log + MergeLog(PartsOf(results, picks), origins, log, loader.tokenize)
    case _ => o.NoContent? && log' == log
  }

  /** Heads loaded later on do not change what was done before. */
  lemma DoneExtends<P(!new)>(loader: CachingContentLoader<P>, command: Command, results: seq<Outcome<P>>, o: Outcome<P>,
                                log: seq<Rewrite>, log': seq<Rewrite>, origins: Origins, more: Origins)
    requires Done(loader, command, results, o, log, log', origins) && Extends(origins, more)
    ensures Done(loader, command, results, o, log, log', more)
  {
    if command.MergeCommand? {
      var heads := HeadsOf(PartsOf(results, command.picks));
      assert Current(heads, origins, log, loader.tokenize) == Current(heads, more, log, loader.tokenize);
    }
  }

  /** What a command leaves in the cache. */
  ghost predicate CacheDone<P(!new)>(loader: CachingContentLoader<P>, command: Command, o: Outcome<P>, before: State<Content<P>>,
                                     after: State<Content<P>>)
  {
    match command
    case LoadCommand(request, now, later) => o.Loaded? && loader.Leaves(request, now, later, before, o.content, o.error, after)
    case MergeCommand(_) => after == before
    case PurgeCommand(keys) => after.entries == C.WithoutAll(before.entries, keys)
    case PurgeOldCommand(clock) => after.entries == C.Young(before.entries, clock, loader.cache.limits.maxAge)
    case InvalidateCommand => after.entries == []
  }

  method ServeOne<P(!new,==)>(loader: CachingContentLoader<P>, command: Command, results: seq<Outcome<P>>) returns (o: Outcome<P>)
    requires loader.Valid() && HeadsIn(results) <= loader.origins.Keys
    modifies loader`origins, loader`log, loader.cache, HeadsIn(results)`content
    ensures loader.Valid() && Extends(old(loader.origins), loader.origins) && fresh(loader.origins.Keys - old(loader.origins.Keys))
    ensures HasHead(o) ==> HeadOf(o) in loader.origins
    ensures old(loader.log) <= loader.log
    ensures Done(loader, command, results, o, old(loader.log), loader.log, loader.origins)
    ensures CacheDone(loader, command, o, old(loader.cache.Value()), loader.cache.Value())
    ensures o.Loaded? && o.content.Some? && o.content.value.Streaming? ==> fresh(o.content.value.reader)
  {
    o := NoContent;
    match command {
      case LoadCommand(request, now, later) =>
        var content, error := loader.Load(request, now, later);
        var text := None;
        if content.Some? && content.value.head.Some? {
          text := Some(content.value.head.value.content);
        }
        o := Loaded(content, error, text);
      case MergeCommand(picks) =>
        PartsFromResults(results, picks);
        loader.Merge(PartsOf(results, picks));
      case PurgeCommand(keys) =>
        loader.PurgeEntries(keys);
      case PurgeOldCommand(clock) =>
        loader.PurgeOldEntries(clock);
      case InvalidateCommand =>
        loader.Invalidate();
    }
  }

  // ------------------------------------------------------------------------------------- all commands

  /** marks[i] is the length of the history before command i. */
  ghost predicate Marked(marks: seq<nat>, n: nat, length: nat) {
    |marks| == n + 1 && marks[n] == length && forall i, j :: 0 <= i <= j <= n ==> marks[i] <= marks[j]
  }

  ghost predicate DoneAt<P(!new)>(loader: CachingContentLoader<P>, commands: seq<Command>, results: seq<Outcome<P>>, marks: seq<nat>,
                                     log: seq<Rewrite>, origins: Origins, i: nat)
    requires i < |results| <= |commands| && Marked(marks, |results|, |log|)
    reads if results[i].Loaded? && results[i].content.Some? && results[i].content.value.Streaming? then {results[i].content.value.reader} else {}
  {
    Done(loader, commands[i], results[..i], results[i], log[..marks[i]], log[..marks[i + 1]], origins)
  }

  lemma MarkedSnoc(marks: seq<nat>, n: nat, length: nat, length': nat)
    requires Marked(marks, n, length) && length <= length'
    ensures Marked(marks + [length'], n + 1, length')
  {
  }

  /** The next command leaves what was done before. */
  lemma DoneAtLater<P(!new)>(loader: CachingContentLoader<P>, commands: seq<Command>, results: seq<Outcome<P>>, marks: seq<nat>,
                             log: seq<Rewrite>, origins: Origins, i: nat, o: Outcome<P>, log': seq<Rewrite>, more: Origins)
    requires i < |results| < |commands| && Marked(marks, |results|, |log|) && DoneAt(loader, commands, results, marks, log, origins, i)
    requires log <= log' && Extends(origins, more) && Marked(marks + [|log'|], |results| + 1, |log'|)
    ensures DoneAt(loader, commands, results + [o], marks + [|log'|], log', more, i)
  {
    var marks' := marks + [|log'|];
    assert (results + [o])[..i] == results[..i] && marks'[i] == marks[i] && marks'[i + 1] == marks[i + 1];
    assert marks[i + 1] <= marks[|results|];
    assert log'[..marks[i]] == log[..marks[i]] && log'[..marks[i + 1]] == log[..marks[i + 1]];
    DoneExtends(loader, commands[i], results[..i], results[i], log[..marks[i]], log[..marks[i + 1]], origins, more);
  }

  lemma DoneAtLast<P(!new)>(loader: CachingContentLoader<P>, commands: seq<Command>, results: seq<Outcome<P>>, marks: seq<nat>,
                            log: seq<Rewrite>, o: Outcome<P>, log': seq<Rewrite>, origins: Origins)
    requires |results| < |commands| && Marked(marks, |results|, |log|) && log <= log' && Marked(marks + [|log'|], |results| + 1, |log'|)
    requires Done(loader, commands[|results|], results, o, log, log', origins)
    ensures DoneAt(loader, commands, results + [o], marks + [|log'|], log', origins, |results|)
  {
    var n, marks' := |results|, marks + [|log'|];
    assert (results + [o])[..n] == results && marks'[n] == |log| && marks'[n + 1] == |log'|;
    assert log'[..|log|] == log && log'[..|log'|] == log';
  }

  ghost function Readers<P>(results: seq<Outcome<P>>): set<Stream> {
    set o | o in results && o.Loaded? && o.content.Some? && o.content.value.Streaming? :: o.content.value.reader
  }

  ghost predicate AllDone<P(!new)>(loader: CachingContentLoader<P>, commands: seq<Command>, results: seq<Outcome<P>>, marks: seq<nat>,
                                   log: seq<Rewrite>, origins: Origins)
    requires |results| <= |commands| && Marked(marks, |results|, |log|)
    reads Readers(results)
  {
    forall i: nat :: i < |results| ==> DoneAt(loader, commands, results, marks, log, origins, i)
  }

  lemma DoneNext<P(!new)>(loader: CachingContentLoader<P>, commands: seq<Command>, results: seq<Outcome<P>>, marks: seq<nat>,
                          log: seq<Rewrite>, origins: Origins, o: Outcome<P>, log': seq<Rewrite>, more: Origins)
    requires |results| < |commands| && Marked(marks, |results|, |log|) && AllDone(loader, commands, results, marks, log, origins)
    requires log <= log' && Extends(origins, more) && Done(loader, commands[|results|], results, o, log, log', more)
    ensures Marked(marks + [|log'|], |results| + 1, |log'|)
    ensures AllDone(loader, commands, results + [o], marks + [|log'|], log', more)
  {
    MarkedSnoc(marks, |results|, |log|, |log'|);
    DoneAtLast(loader, commands, results, marks, log, o, log', more);
    forall i: nat | i < |results| ensures DoneAt(loader, commands, results + [o], marks + [|log'|], log', more, i) {
      DoneAtLater(loader, commands, results, marks, log, origins, i, o, log', more);
    }
  }

  lemma HeadsInSnoc<P>(results: seq<Outcome<P>>, o: Outcome<P>)
    ensures HeadsIn(results + [o]) == HeadsIn(results) + if HasHead(o) then {HeadOf(o)} else {}
  {
  }

  /** The states of the cache before and behind every command. */
  ghost predicate AllCached<P(!new)>(loader: CachingContentLoader<P>, commands: seq<Command>, results: seq<Outcome<P>>,
                                     caches: seq<State<Content<P>>>)
    requires |results| <= |commands|
  {
    |caches| == |results| + 1 && forall i :: 0 <= i < |results| ==> CacheDone(loader, commands[i], results[i], caches[i], caches[i + 1])
  }

  lemma CachedNext<P(!new)>(loader: CachingContentLoader<P>, commands: seq<Command>, results: seq<Outcome<P>>,
                            caches: seq<State<Content<P>>>, o: Outcome<P>, cache: State<Content<P>>)
    requires |results| < |commands| && AllCached(loader, commands, results, caches)
    requires CacheDone(loader, commands[|results|], o, caches[|results|], cache)
    ensures AllCached(loader, commands, results + [o], caches + [cache])
  {
  }

  method ServeNext<P(!new,==)>(loader: CachingContentLoader<P>, commands: seq<Command>, before: seq<Outcome<P>>, ghost earlier: seq<nat>,
                               ghost states: seq<State<Content<P>>>)
    returns (results: seq<Outcome<P>>, ghost marks: seq<nat>, ghost caches: seq<State<Content<P>>>)
    requires loader.Valid() && |before| < |commands| && HeadsIn(before) <= loader.origins.Keys
    requires Marked(earlier, |before|, |loader.log|) && AllDone(loader, commands, before, earlier, loader.log, loader.origins)
    requires AllCached(loader, commands, before, states) && states[|before|] == loader.cache.Value()
    modifies loader`origins, loader`log, loader.cache, loader.origins.Keys`content
    ensures loader.Valid() && old(loader.log) <= loader.log && fresh(loader.origins.Keys - old(loader.origins.Keys))
    ensures |results| == |before| + 1 && HeadsIn(results) <= loader.origins.Keys
    ensures Marked(marks, |results|, |loader.log|) && marks[0] == earlier[0]
    ensures AllDone(loader, commands, results, marks, loader.log, loader.origins)
    ensures AllCached(loader, commands, results, caches) && caches[0] == states[0] && caches[|results|] == loader.cache.Value()
  {
    ghost var log, origins := loader.log, loader.origins;
    var o := ServeOne(loader, commands[|before|], before);
    assert forall reader :: reader in Readers(before) ==> unchanged(reader);
    DoneNext(loader, commands, before, earlier, log, origins, o, loader.log, loader.origins);
    HeadsInSnoc(before, o);
    CachedNext(loader, commands, before, states, o, loader.cache.Value());
    results, marks, caches := before + [o], earlier + [|loader.log|], states + [loader.cache.Value()];
  }

  /** Whatever loads, merges, purges and invalidations come one after the other: every load shows what the origin answers; its head
      has the text that the origin gave it if and only if the heads it was merged with before, by their tags, left that text alone;
      the history holds exactly what the merges rewrote, and the cache what the loads and purges leave in it. */
  method Serve<P(!new,==)>(loader: CachingContentLoader<P>, commands: seq<Command>)
    returns (results: seq<Outcome<P>>, ghost marks: seq<nat>, ghost caches: seq<State<Content<P>>>)
    requires loader.Valid()
    modifies loader`origins, loader`log, loader.cache, loader.origins.Keys`content
    ensures loader.Valid() && |results| == |commands| && Marked(marks, |results|, |loader.log|)
    ensures marks[0] == |old(loader.log)| && old(loader.log) <= loader.log
    ensures AllDone(loader, commands, results, marks, loader.log, loader.origins)
    ensures AllCached(loader, commands, results, caches)
    ensures caches[0] == old(loader.cache.Value()) && caches[|results|] == loader.cache.Value()
  {
    results, marks, caches := [], [|loader.log|], [loader.cache.Value()];
    while |results| < |commands|
      invariant |results| <= |commands| && Marked(marks, |results|, |loader.log|)
      invariant marks[0] == |old(loader.log)| && old(loader.log) <= loader.log
      invariant fresh(loader.origins.Keys - old(loader.origins.Keys))
      invariant loader.Valid() && HeadsIn(results) <= loader.origins.Keys
      invariant AllDone(loader, commands, results, marks, loader.log, loader.origins)
      invariant AllCached(loader, commands, results, caches)
      invariant caches[0] == old(loader.cache.Value()) && caches[|results|] == loader.cache.Value()
    {
      results, marks, caches := ServeNext(loader, commands, results, marks, caches);
    }
  }
}
