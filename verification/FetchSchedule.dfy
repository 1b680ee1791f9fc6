/** Without lazy dependencies, and with loads that depend on nothing but the hash, the schedule does not matter: every
    interleaving fetches the same hashes, and with disjoint meta keys it gathers the same meta data. */
module FetchSchedule {
  import opened FetchProtocol
  import opened FetchLaws

  /** What fetching a hash comes to. NotFetched: its URL cannot be expanded. */
  type World<!V> = string -> Load<V>

  /** The environment's choices are those of the world, and the factory never has anything. */
  ghost predicate Conforms<V>(world: World<V>, s: State<V>, e: Event<V>) {
    e.Job? && e.i < |s.results| ==>
      var h := s.results[e.i].def.hash;
      match e.choice
      case ExpandFails => world(h).NotFetched?
      case ExpandSucceeds => !world(h).NotFetched?
      case LoadFails => world(h).LoadFailed?
      case LoadSucceeds(content) => world(h) == Loaded(content)
      case FactoryHas(_) => false
      case _ => true
  }

  ghost predicate IsConformingRun<V>(world: World<V>, states: seq<State<V>>, events: seq<Event<V>>, tops: seq<Def>, meta: map<string, V>) {
    IsRun(states, events, tops, meta) && forall k :: 0 <= k < |events| ==> Conforms(world, states[k], events[k])
  }

  ghost predicate Closed<V>(world: World<V>, tops: seq<Def>, hashes: iset<string>) {
    && (forall d :: d in tops ==> d.hash in hashes)
    && (forall h, d :: h in hashes && world(h).Loaded? && d in world(h).content.requiredContent ==> d.hash in hashes)
  }

  function ISet(s: set<string>): iset<string> {
    iset h | h in s
  }

  // -------------------------------------------------------------------------- what is known about a job

  /** How far the job got agrees with the world. */
  ghost predicate JobConforms<V>(world: World<V>, pc: Pc<V>, r: FetchResult<V>) {
    && (pc.Loading? ==> !world(r.def.hash).NotFetched?)
    && (r.load.Loaded? ==> world(r.def.hash) == r.load)
    && (pc.Finishing? || pc.Gone? ==> world(r.def.hash) == r.load)
    && !pc.AddingLazy?
  }

  ghost predicate AllConform<V>(world: World<V>, s: State<V>) {
    |s.jobs| == |s.results| && forall i: nat :: i < |s.jobs| ==> JobConforms(world, s.jobs[i], s.results[i])
  }

  lemma AddJobConforms<V>(world: World<V>, s: State<V>, d: Def)
    requires AllConform(world, s)
    ensures AllConform(world, AddJob(s, d))
  {
    var t := AddJob(s, d);
    forall i: nat | i < |t.jobs| ensures JobConforms(world, t.jobs[i], t.results[i]) {
      if i < |s.jobs| { assert t.jobs[i] == s.jobs[i] && t.results[i] == s.results[i]; }
    }
  }

  lemma MoveConforms<V>(world: World<V>, s: State<V>, i: nat, pc: Pc<V>, r: FetchResult<V>, t: State<V>)
    requires AllConform(world, s) && i < |s.jobs| && JobConforms(world, pc, r)
    requires t.jobs == s.jobs[i := pc] && t.results == s.results[i := r]
    ensures AllConform(world, t)
  {
    forall k: nat | k < |t.jobs| ensures JobConforms(world, t.jobs[k], t.results[k]) {
      if k != i { assert t.jobs[k] == s.jobs[k] && t.results[k] == s.results[k]; }
    }
  }

  lemma JobStepConforms<V>(world: World<V>, s: State<V>, i: nat, choice: Choice<V>, tops: seq<Def>)
    requires Inv(s, tops) && AllConform(world, s) && i < |s.jobs| && JobEnabled(s.jobs[i], choice)
    requires Conforms(world, s, Job(i, choice))
    ensures AllConform(world, JobStep(s, i, choice))
  {
    var pc, r := s.jobs[i], s.results[i];
    assert Matches(pc, r.load) && JobConforms(world, pc, r);
    assert s.results[i := r] == s.results;
    if pc.Requiring? && pc.todo != {} {
      var u := At(s, i, Requiring(pc.content, pc.todo - {choice.next}));
      MoveConforms(world, s, i, u.jobs[i], r, u);
      AddJobConforms(world, u, choice.next);
    } else if pc.AddingLazy? {
      assert false;
    } else {
      var t := JobStep(s, i, choice);
      MoveConforms(world, s, i, t.jobs[i], t.results[i], t);
    }
  }

  lemma NextConforms<V>(world: World<V>, s: State<V>, e: Event<V>, tops: seq<Def>)
    requires Inv(s, tops) && AllConform(world, s) && Enabled(s, e) && Conforms(world, s, e)
    ensures AllConform(world, Next(s, e))
  {
    match e {
      case CallerAdds =>
        AddJobConforms(world, s, s.caller.todo[0]);
        var u, t := AddJob(s, s.caller.todo[0]), Next(s, e);
        assert t.jobs == u.jobs && t.results == u.results;
        assert forall k: nat :: k < |t.jobs| ==> JobConforms(world, u.jobs[k], u.results[k]);
      case CallerWaits =>
        assert forall k: nat :: k < |s.jobs| ==> JobConforms(world, s.jobs[k], s.results[k]);
      case CallerReturns(_) =>
        assert forall k: nat :: k < |s.jobs| ==> JobConforms(world, s.jobs[k], s.results[k]);
      case Job(i, choice) => JobStepConforms(world, s, i, choice, tops);
    }
  }

  lemma {:induction false} RunConforms<V>(world: World<V>, states: seq<State<V>>, events: seq<Event<V>>, tops: seq<Def>, meta: map<string, V>)
    requires IsConformingRun(world, states, events, tops, meta)
    ensures Inv(states[|events|], tops) && AllConform(world, states[|events|])
    decreases |events|
  {
    if events != [] {
      var n := |events| - 1;
      assert IsConformingRun(world, states[..n + 1], events[..n], tops, meta);
      RunConforms(world, states[..n + 1], events[..n], tops, meta);
      NextKeeps(states[n], events[n], tops);
      NextConforms(world, states[n], events[n], tops);
    }
  }

  // --------------------------------------------------------------------------------- the fetched hashes

  lemma {:induction false} RunWithin<V>(world: World<V>, states: seq<State<V>>, events: seq<Event<V>>, tops: seq<Def>, meta: map<string, V>,
                                         hashes: set<string>)
    requires IsConformingRun(world, states, events, tops, meta) && Closed(world, tops, ISet(hashes))
    ensures Within(states[|events|], hashes)
    decreases |events|
  {
    if events != [] {
      var n := |events| - 1;
      var s, e := states[n], events[n];
      assert IsConformingRun(world, states[..n + 1], events[..n], tops, meta);
      RunWithin(world, states[..n + 1], events[..n], tops, meta, hashes);
      RunConforms(world, states[..n + 1], events[..n], tops, meta);
      assert EventWithin(e, hashes) by {
        assert Conforms(world, s, e);
        if e.Job? && e.choice.LoadSucceeds? {
          assert s.results[e.i].def.hash in Hashes(s.results);
        }
      }
      NextWithin(s, e, hashes);
    }
  }

  lemma FinalIsClosed<V>(world: World<V>, states: seq<State<V>>, events: seq<Event<V>>, tops: seq<Def>, meta: map<string, V>)
    requires IsConformingRun(world, states, events, tops, meta) && states[|events|].caller.Returned?
    ensures Closed(world, tops, ISet(Hashes(states[|events|].results)))
  {
    var s := states[|events|];
    RunConforms(world, states, events, tops, meta);
    forall h, d | h in Hashes(s.results) && world(h).Loaded? && d in world(h).content.requiredContent
      ensures d.hash in Hashes(s.results)
    {
      var i: nat :| i < |s.results| && s.results[i].def.hash == h;
      NobodyLive(s.jobs, i);
      assert JobConforms(world, s.jobs[i], s.results[i]) && Covered(s, i);
    }
  }

  /** The fetched hashes are the least set that has the top-level jobs and is closed under required content. */
  lemma LeastClosed<V>(world: World<V>, states: seq<State<V>>, events: seq<Event<V>>, tops: seq<Def>, meta: map<string, V>, hashes: iset<string>)
    requires IsConformingRun(world, states, events, tops, meta) && states[|events|].caller.Returned?
    requires Closed(world, tops, hashes)
    ensures Closed(world, tops, ISet(Hashes(states[|events|].results)))
    ensures ISet(Hashes(states[|events|].results)) <= hashes
  {
    var final := Hashes(states[|events|].results);
    FinalIsClosed(world, states, events, tops, meta);
    var common := set h | h in final && h in hashes;
    assert Closed(world, tops, ISet(common));
    RunWithin(world, states, events, tops, meta, common);
  }

  /** Two runs that end fetch the same hashes, whatever the schedules. */
  lemma SameHashes<V>(world: World<V>, tops: seq<Def>, meta: map<string, V>, states: seq<State<V>>, events: seq<Event<V>>,
                      states': seq<State<V>>, events': seq<Event<V>>)
    requires IsConformingRun(world, states, events, tops, meta) && states[|events|].caller.Returned?
    requires IsConformingRun(world, states', events', tops, meta) && states'[|events'|].caller.Returned?
    ensures Hashes(states[|events|].results) == Hashes(states'[|events'|].results)
  {
    FinalIsClosed(world, states, events, tops, meta);
    FinalIsClosed(world, states', events', tops, meta);
    RunWithin(world, states, events, tops, meta, Hashes(states'[|events'|].results));
    RunWithin(world, states', events', tops, meta, Hashes(states[|events|].results));
  }

  // ------------------------------------------------------------------------------------- the meta data

  function MetaOf<V>(world: World<V>, h: string): map<string, V> {
    if world(h).Loaded? then world(h).content.meta else map[]
  }

  /** No two of these hashes give the same key. */
  ghost predicate DisjointMeta<V>(world: World<V>, hashes: set<string>) {
    forall h, h' :: h in hashes && h' in hashes && h != h' ==> MetaOf(world, h).Keys !! MetaOf(world, h').Keys
  }

  ghost predicate Given<V>(world: World<V>, hashes: set<string>, key: string) {
    exists h :: h in hashes && key in MetaOf(world, h)
  }

  /** meta is the initial data overridden by what the hashes give. */
  ghost predicate IsMeta<V>(world: World<V>, initial: map<string, V>, hashes: set<string>, meta: map<string, V>) {
    && (forall key :: key in meta <==> key in initial || Given(world, hashes, key))
    && (forall key, h :: h in hashes && key in MetaOf(world, h) ==> key in meta && meta[key] == MetaOf(world, h)[key])
    && (forall key :: key in initial && !Given(world, hashes, key) ==> key in meta && meta[key] == initial[key])
  }

  predicate HasMerged<V>(pc: Pc<V>, r: FetchResult<V>) {
    r.load.Loaded? && !pc.AddingMeta?
  }

  function MergedHashes<V>(s: State<V>): set<string>
    requires |s.jobs| == |s.results|
  {
    set i | 0 <= i < |s.jobs| && HasMerged(s.jobs[i], s.results[i]) :: s.results[i].def.hash
  }

  lemma GivenMore<V>(world: World<V>, hashes: set<string>, h: string, key: string)
    ensures Given(world, hashes + {h}, key) <==> Given(world, hashes, key) || key in MetaOf(world, h)
  {
    if key in MetaOf(world, h) { assert h in hashes + {h}; }
    if Given(world, hashes, key) {
      var x :| x in hashes && key in MetaOf(world, x);
      assert x in hashes + {h};
    }
  }

  lemma MergeOne<V>(world: World<V>, initial: map<string, V>, hashes: set<string>, meta: map<string, V>, h: string)
    requires DisjointMeta(world, hashes + {h}) && IsMeta(world, initial, hashes, meta)
    ensures IsMeta(world, initial, hashes + {h}, meta + MetaOf(world, h))
  {
    var all, meta' := hashes + {h}, meta + MetaOf(world, h);
    forall key ensures Given(world, all, key) <==> Given(world, hashes, key) || key in MetaOf(world, h) {
      GivenMore(world, hashes, h, key);
    }
    forall key, x | x in all && key in MetaOf(world, x) ensures key in meta' && meta'[key] == MetaOf(world, x)[key] {
      if x != h { assert MetaOf(world, x).Keys !! MetaOf(world, h).Keys; }
    }
  }

  lemma MetaIsUnique<V>(world: World<V>, initial: map<string, V>, hashes: set<string>, meta: map<string, V>, meta': map<string, V>)
    requires IsMeta(world, initial, hashes, meta) && IsMeta(world, initial, hashes, meta')
    ensures meta == meta'
  {
    assert forall key :: key in meta <==> key in meta';
    forall key | key in meta ensures meta[key] == meta'[key] {
      if Given(world, hashes, key) {
        var h :| h in hashes && key in MetaOf(world, h);
        assert meta[key] == MetaOf(world, h)[key];
      }
    }
  }

  predicate AddsMeta<V>(s: State<V>, e: Event<V>) {
    e.Job? && e.i < |s.jobs| && s.jobs[e.i].AddingMeta?
  }

  lemma MergedAt<V>(s: State<V>, e: Event<V>, tops: seq<Def>, k: nat)
    requires Inv(s, tops) && Enabled(s, e) && k < |Next(s, e).jobs| == |Next(s, e).results|
    ensures var t := Next(s, e);
            && (HasMerged(t.jobs[k], t.results[k]) <==>
                k < |s.jobs| && (HasMerged(s.jobs[k], s.results[k]) || (AddsMeta(s, e) && e.i == k)))
            && (k < |s.jobs| ==> t.results[k].def == s.results[k].def)
  {
    match e {
      case CallerAdds => MergedAtAddJob(s, s.caller.todo[0], k);
      case CallerWaits =>
      case CallerReturns(_) =>
      case Job(i, choice) => MergedAtStep(s, i, choice, k);
    }
  }

  lemma MergedAtAddJob<V>(s: State<V>, d: Def, k: nat)
    requires |s.jobs| == |s.results| && k < |AddJob(s, d).jobs|
    ensures var t := AddJob(s, d);
            && (HasMerged(t.jobs[k], t.results[k]) <==> k < |s.jobs| && HasMerged(s.jobs[k], s.results[k]))
            && (k < |s.jobs| ==> t.results[k].def == s.results[k].def)
  {
  }

  lemma MergedAtStep<V>(s: State<V>, i: nat, choice: Choice<V>, k: nat)
    requires |s.jobs| == |s.results| && i < |s.jobs| && JobEnabled(s.jobs[i], choice) && Matches(s.jobs[i], s.results[i].load)
    requires k < |JobStep(s, i, choice).jobs|
    ensures var t := JobStep(s, i, choice);
            && (HasMerged(t.jobs[k], t.results[k]) <==>
                k < |s.jobs| && (HasMerged(s.jobs[k], s.results[k]) || (s.jobs[i].AddingMeta? && i == k)))
            && (k < |s.jobs| ==> t.results[k].def == s.results[k].def)
  {
    match s.jobs[i] {
      case Requiring(c, todo) => if todo != {} { MergedAtAddJob(At(s, i, Requiring(c, todo - {choice.next})), choice.next, k); }
      case AddingLazy(c, _, d, names) => MergedAtAddJob(At(s, i, Depending(c, names)), d, k);
      case _ =>
    }
  }

  /** Only the step that adds meta data changes which hashes have been merged. */
  lemma MergedBy<V>(s: State<V>, e: Event<V>, tops: seq<Def>)
    requires Inv(s, tops) && Enabled(s, e) && |Next(s, e).jobs| == |Next(s, e).results|
    ensures MergedHashes(Next(s, e)) == MergedHashes(s) + if AddsMeta(s, e) then {s.results[e.i].def.hash} else {}
  {
    var t := Next(s, e);
    assert |t.jobs| >= |s.jobs|;
    forall k: nat | k < |t.jobs|
      ensures HasMerged(t.jobs[k], t.results[k]) <==>
              k < |s.jobs| && (HasMerged(s.jobs[k], s.results[k]) || (AddsMeta(s, e) && e.i == k))
      ensures k < |s.jobs| ==> t.results[k].def == s.results[k].def
    {
      MergedAt(s, e, tops, k);
    }
  }

  lemma MetaBy<V>(world: World<V>, s: State<V>, e: Event<V>, tops: seq<Def>)
    requires Inv(s, tops) && AllConform(world, s) && Enabled(s, e)
    ensures Next(s, e).meta == s.meta + if AddsMeta(s, e) then MetaOf(world, s.results[e.i].def.hash) else map[]
  {
    if e.Job? { assert Matches(s.jobs[e.i], s.results[e.i].load) && JobConforms(world, s.jobs[e.i], s.results[e.i]); }
    assert s.meta + map[] == s.meta;
  }

  lemma StepMeta<V>(world: World<V>, s: State<V>, e: Event<V>, tops: seq<Def>, initial: map<string, V>)
    requires Inv(s, tops) && AllConform(world, s) && Enabled(s, e) && |Next(s, e).jobs| == |Next(s, e).results|
    requires DisjointMeta(world, Hashes(s.results)) && IsMeta(world, initial, MergedHashes(s), s.meta)
    ensures IsMeta(world, initial, MergedHashes(Next(s, e)), Next(s, e).meta)
  {
    MergedBy(s, e, tops);
    MetaBy(world, s, e, tops);
    if AddsMeta(s, e) {
      MergeScheduled(world, s, e.i, initial);
    } else {
      assert s.meta + map[] == s.meta && MergedHashes(s) + {} == MergedHashes(s);
    }
  }

  lemma MergeScheduled<V>(world: World<V>, s: State<V>, i: nat, initial: map<string, V>)
    requires |s.jobs| == |s.results| && i < |s.results|
    requires DisjointMeta(world, Hashes(s.results)) && IsMeta(world, initial, MergedHashes(s), s.meta)
    ensures var h := s.results[i].def.hash; IsMeta(world, initial, MergedHashes(s) + {h}, s.meta + MetaOf(world, h))
  {
    var h := s.results[i].def.hash;
    assert MergedHashes(s) + {h} <= Hashes(s.results);
    MergeOne(world, initial, MergedHashes(s), s.meta, h);
  }

  lemma HashesGrow<V>(s: State<V>, e: Event<V>, tops: seq<Def>)
    requires Inv(s, tops) && Enabled(s, e)
    ensures Hashes(s.results) <= Hashes(Next(s, e).results)
  {
    var t := Next(s, e);
    assert |t.results| >= |s.results|;
    assert forall k :: 0 <= k < |s.results| ==> t.results[k].def == s.results[k].def;
  }

  lemma {:induction false} RunMeta<V>(world: World<V>, states: seq<State<V>>, events: seq<Event<V>>, tops: seq<Def>, meta: map<string, V>)
    requires IsConformingRun(world, states, events, tops, meta) && DisjointMeta(world, Hashes(states[|events|].results))
    ensures Inv(states[|events|], tops)
    ensures IsMeta(world, meta, MergedHashes(states[|events|]), states[|events|].meta)
    decreases |events|
  {
    if events != [] {
      var n := |events| - 1;
      var s, e := states[n], events[n];
      assert IsConformingRun(world, states[..n + 1], events[..n], tops, meta);
      RunConforms(world, states[..n + 1], events[..n], tops, meta);
      HashesGrow(s, e, tops);
      RunMeta(world, states[..n + 1], events[..n], tops, meta);
      NextKeeps(s, e, tops);
      StepMeta(world, s, e, tops, meta);
    }
  }

  /** In the end exactly the hashes that the world can load have been merged. */
  lemma MergedInTheEnd<V>(world: World<V>, states: seq<State<V>>, events: seq<Event<V>>, tops: seq<Def>, meta: map<string, V>)
    requires IsConformingRun(world, states, events, tops, meta) && states[|events|].caller.Returned?
    ensures Inv(states[|events|], tops)
    ensures MergedHashes(states[|events|]) == set h | h in Hashes(states[|events|].results) && world(h).Loaded?
  {
    var s := states[|events|];
    RunConforms(world, states, events, tops, meta);
    forall i: nat | i < |s.jobs| ensures HasMerged(s.jobs[i], s.results[i]) <==> world(s.results[i].def.hash).Loaded? {
      NobodyLive(s.jobs, i);
      assert JobConforms(world, s.jobs[i], s.results[i]);
    }
  }

  /** Two runs that end gather the same meta data, if no two of the hashes they fetch give the same key. */
  lemma SameMeta<V>(world: World<V>, tops: seq<Def>, meta: map<string, V>, states: seq<State<V>>, events: seq<Event<V>>,
                    states': seq<State<V>>, events': seq<Event<V>>)
    requires IsConformingRun(world, states, events, tops, meta) && states[|events|].caller.Returned?
    requires DisjointMeta(world, Hashes(states[|events|].results))
    requires IsConformingRun(world, states', events', tops, meta) && states'[|events'|].caller.Returned?
    ensures states[|events|].meta == states'[|events'|].meta
  {
    SameHashes(world, tops, meta, states, events, states', events');
    RunMeta(world, states, events, tops, meta);
    RunMeta(world, states', events', tops, meta);
    MergedInTheEnd(world, states, events, tops, meta);
    MergedInTheEnd(world, states', events', tops, meta);
    MetaIsUnique(world, meta, MergedHashes(states[|events|]), states[|events|].meta, states'[|events'|].meta);
  }
}
