/** What the events of a run come to in the end: every definition that is supplied is scheduled, every outcome of a load is what its
    result shows, and nothing is scheduled that nobody has named. */
module FetchOutcomes {
  import opened FetchProtocol
  import opened FetchLaws

  /** What a goroutine's choice leaves behind, at once or with one more step of the goroutine. */
  ghost predicate Shows<V>(s: State<V>, e: Event<V>) {
    e.Job? ==>
      && e.i < |s.jobs| == |s.results|
      && var pc, load := s.jobs[e.i], s.results[e.i].load;
         match e.choice
         case ExpandFails => load == NotFetched && (pc.Finishing? || pc.Gone?)
         case LoadFails => load == LoadFailed && (pc.Finishing? || pc.Gone?)
         case LoadSucceeds(content) => load == Loaded(content)
         case PickRequired(d) => d.hash in Hashes(s.results)
         case FactoryHas(d) => d.hash in Hashes(s.results) || (pc.AddingLazy? && pc.def == d)
         case _ => true
  }

  lemma HashesOfMore<V>(a: seq<FetchResult<V>>, b: seq<FetchResult<V>>)
    requires |a| <= |b| && forall k :: 0 <= k < |a| ==> b[k].def == a[k].def
    ensures Hashes(a) <= Hashes(b)
  {
  }

  /** A step of another goroutine, or of the caller, leaves this one alone. */
  ghost predicate LeavesAlone<V>(s: State<V>, t: State<V>, i: nat) {
    && i < |s.jobs| == |s.results| && |s.jobs| <= |t.jobs| == |t.results|
    && t.jobs[i] == s.jobs[i] && t.results[i] == s.results[i] && Hashes(s.results) <= Hashes(t.results)
  }

  lemma AddJobLeaves<V>(s: State<V>, d: Def, i: nat)
    requires i < |s.jobs| == |s.results|
    ensures LeavesAlone(s, AddJob(s, d), i)
    ensures d.hash in Hashes(AddJob(s, d).results)
  {
    HashesSnoc(s.results, FetchResult(d, NotFetched));
  }

  lemma OtherStepLeaves<V>(s: State<V>, j: nat, choice: Choice<V>, i: nat)
    requires |s.jobs| == |s.results| && j < |s.jobs| && i < |s.jobs| && i != j && JobEnabled(s.jobs[j], choice)
    ensures LeavesAlone(s, JobStep(s, j, choice), i)
  {
    match s.jobs[j] {
      case Loading => HashesOfMore(s.results, JobStep(s, j, choice).results);
      case Requiring(c, todo) => if todo != {} { AddJobLeaves(At(s, j, Requiring(c, todo - {choice.next})), choice.next, i); }
      case AddingLazy(c, _, d, names) => AddJobLeaves(At(s, j, Depending(c, names)), d, i);
      case _ =>
    }
  }

  /** The goroutine's own next step keeps what it has left behind. */
  lemma OwnStepShows<V>(s: State<V>, i: nat, choice: Choice<V>, e: Event<V>)
    requires |s.jobs| == |s.results| && i < |s.jobs| && JobEnabled(s.jobs[i], choice) && Matches(s.jobs[i], s.results[i].load)
    requires e.Job? && e.i == i && Shows(s, e)
    ensures Shows(JobStep(s, i, choice), e)
  {
    match s.jobs[i] {
      case Loading => HashesOfMore(s.results, JobStep(s, i, choice).results);
      case Requiring(c, todo) => if todo != {} { AddJobLeaves(At(s, i, Requiring(c, todo - {choice.next})), choice.next, i); }
      case AddingLazy(c, _, d, names) => AddJobLeaves(At(s, i, Depending(c, names)), d, i);
      case _ =>
    }
  }

  lemma StillShows<V>(s: State<V>, e': Event<V>, tops: seq<Def>, e: Event<V>)
    requires Inv(s, tops) && Enabled(s, e') && Shows(s, e)
    ensures Shows(Next(s, e'), e)
  {
    if e.Job? {
      match e' {
        case CallerAdds => AddJobLeaves(s, s.caller.todo[0], e.i);
        case CallerWaits =>
        case CallerReturns(_) =>
        case Job(j, choice) =>
          if j == e.i { OwnStepShows(s, j, choice, e); } else { OtherStepLeaves(s, j, choice, e.i); }
      }
    }
  }

  lemma ShowsAtOnce<V>(s: State<V>, e: Event<V>, tops: seq<Def>)
    requires Inv(s, tops) && Enabled(s, e)
    ensures Shows(Next(s, e), e)
  {
    if e.Job? {
      match s.jobs[e.i] {
        case Requiring(c, todo) => if todo != {} { AddJobLeaves(At(s, e.i, Requiring(c, todo - {e.choice.next})), e.choice.next, e.i); }
        case AddingLazy(c, _, d, names) => AddJobLeaves(At(s, e.i, Depending(c, names)), d, e.i);
        case _ =>
      }
    }
  }

  lemma {:induction false} EventShows<V>(states: seq<State<V>>, events: seq<Event<V>>, tops: seq<Def>, meta: map<string, V>, k: nat)
    requires IsRun(states, events, tops, meta) && k < |events|
    ensures Shows(states[|events|], events[k])
    decreases |events|
  {
    var n := |events| - 1;
    assert IsRun(states[..n + 1], events[..n], tops, meta);
    RunKeeps(states[..n + 1], events[..n], tops, meta);
    if k == n {
      ShowsAtOnce(states[n], events[n], tops);
    } else {
      EventShows(states[..n + 1], events[..n], tops, meta, k);
      StillShows(states[n], events[n], tops, events[k]);
    }
  }

  /** Whatever the lazy factory supplies in a run has a result in the end, by its hash. */
  lemma SuppliedIsScheduled<V>(states: seq<State<V>>, events: seq<Event<V>>, tops: seq<Def>, meta: map<string, V>)
    requires IsRun(states, events, tops, meta) && states[|events|].caller.Returned?
    ensures forall k, i: nat, d :: 0 <= k < |events| && events[k] == Job(i, FactoryHas(d)) ==> d.hash in Hashes(states[|events|].results)
  {
    Completeness(states, events, tops, meta);
    forall k, i: nat, d | 0 <= k < |events| && events[k] == Job(i, FactoryHas(d)) ensures d.hash in Hashes(states[|events|].results) {
      EventShows(states, events, tops, meta, k);
      assert states[|events|].jobs[i] in states[|events|].jobs;
    }
  }

  /** And every result shows how its load has ended. */
  lemma OutcomesAreShown<V>(states: seq<State<V>>, events: seq<Event<V>>, tops: seq<Def>, meta: map<string, V>, k: nat, i: nat)
    requires IsRun(states, events, tops, meta) && k < |events| && events[k].Job? && events[k].i == i
    ensures i < |states[|events|].results|
    ensures events[k].choice.ExpandFails? ==> states[|events|].results[i].load == NotFetched
    ensures events[k].choice.LoadFails? ==> states[|events|].results[i].load == LoadFailed
    ensures events[k].choice.LoadSucceeds? ==> states[|events|].results[i].load == Loaded(events[k].choice.content)
  {
    EventShows(states, events, tops, meta, k);
  }

  // ------------------------------------------------------------------------------ nothing else is fetched

  ghost predicate Required<V>(events: seq<Event<V>>, d: Def) {
    exists k :: 0 <= k < |events| && events[k].Job? && events[k].choice.LoadSucceeds? && d in events[k].choice.content.requiredContent
  }

  ghost predicate Supplied<V>(events: seq<Event<V>>, d: Def) {
    exists k :: 0 <= k < |events| && events[k].Job? && events[k].choice == FactoryHas(d)
  }

  ghost predicate Named<V>(events: seq<Event<V>>, tops: seq<Def>, d: Def) {
    d in tops || Required(events, d) || Supplied(events, d)
  }

  /** Everything fetched or about to be has been named. */
  ghost predicate AllNamed<V>(s: State<V>, events: seq<Event<V>>, tops: seq<Def>) {
    && (forall r :: r in s.results ==> Named(events, tops, r.def))
    && (forall d :: d in CallerTodo(s.caller) ==> d in tops)
    && (forall pc, d :: pc in s.jobs && d in PendingRequired(pc) ==> Named(events, tops, d))
    && (forall pc :: pc in s.jobs && pc.AddingLazy? ==> Named(events, tops, pc.def))
  }

  lemma NamedMore<V>(events: seq<Event<V>>, e: Event<V>, tops: seq<Def>, d: Def)
    requires Named(events, tops, d)
    ensures Named(events + [e], tops, d)
  {
    assert forall k :: 0 <= k < |events| ==> (events + [e])[k] == events[k];
    if Required(events, d) {
      var k :| 0 <= k < |events| && events[k].Job? && events[k].choice.LoadSucceeds? && d in events[k].choice.content.requiredContent;
      assert (events + [e])[k] == events[k];
    } else if Supplied(events, d) {
      var k :| 0 <= k < |events| && events[k].Job? && events[k].choice == FactoryHas(d);
      assert (events + [e])[k] == events[k];
    }
  }

  lemma NamedNow<V>(events: seq<Event<V>>, e: Event<V>, tops: seq<Def>, d: Def)
    requires e.Job? && (e.choice == FactoryHas(d) || (e.choice.LoadSucceeds? && d in e.choice.content.requiredContent))
    ensures Named(events + [e], tops, d)
  {
    assert (events + [e])[|events|] == e;
  }

  lemma AllNamedMore<V>(s: State<V>, events: seq<Event<V>>, e: Event<V>, tops: seq<Def>)
    requires AllNamed(s, events, tops)
    ensures AllNamed(s, events + [e], tops)
  {
    forall d | Named(events, tops, d) ensures Named(events + [e], tops, d) { NamedMore(events, e, tops, d); }
  }

  lemma AddJobNamed<V>(s: State<V>, d: Def, events: seq<Event<V>>, tops: seq<Def>)
    requires AllNamed(s, events, tops) && Named(events, tops, d)
    ensures AllNamed(AddJob(s, d), events, tops)
  {
  }

  /** Moving on to a program counter with nothing new to name. */
  lemma MoveNamed<V>(s: State<V>, i: nat, pc: Pc<V>, events: seq<Event<V>>, tops: seq<Def>)
    requires AllNamed(s, events, tops) && i < |s.jobs|
    requires forall d :: d in PendingRequired(pc) ==> Named(events, tops, d)
    requires pc.AddingLazy? ==> Named(events, tops, pc.def)
    ensures AllNamed(At(s, i, pc), events, tops)
  {
    forall x | x in At(s, i, pc).jobs ensures x == pc || x in s.jobs {
    }
  }

  lemma SameNamed<V>(s: State<V>, t: State<V>, events: seq<Event<V>>, tops: seq<Def>)
    requires AllNamed(s, events, tops) && t.jobs == s.jobs && CallerTodo(t.caller) == CallerTodo(s.caller)
    requires |t.results| == |s.results| && forall k :: 0 <= k < |s.results| ==> t.results[k].def == s.results[k].def
    ensures AllNamed(t, events, tops)
  {
    forall r | r in t.results ensures Named(events, tops, r.def) {
      var k :| 0 <= k < |t.results| && t.results[k] == r;
      assert s.results[k] in s.results;
    }
  }

  lemma StepNamed<V>(s: State<V>, i: nat, choice: Choice<V>, events: seq<Event<V>>, tops: seq<Def>)
    requires |s.jobs| == |s.results| && i < |s.jobs| && JobEnabled(s.jobs[i], choice) && AllNamed(s, events, tops)
    requires choice.FactoryHas? ==> Named(events, tops, choice.def)
    requires choice.LoadSucceeds? ==> forall d :: d in choice.content.requiredContent ==> Named(events, tops, d)
    ensures AllNamed(JobStep(s, i, choice), events, tops)
  {
    var t := JobStep(s, i, choice);
    assert s.jobs[i] in s.jobs;
    if s.jobs[i].Requiring? && s.jobs[i].todo != {} {
      var pc := Requiring(s.jobs[i].content, s.jobs[i].todo - {choice.next});
      MoveNamed(s, i, pc, events, tops);
      AddJobNamed(At(s, i, pc), choice.next, events, tops);
    } else if s.jobs[i].AddingLazy? {
      var pc := Depending(s.jobs[i].content, s.jobs[i].names);
      MoveNamed(s, i, pc, events, tops);
      AddJobNamed(At(s, i, pc), s.jobs[i].def, events, tops);
    } else {
      MoveNamed(s, i, t.jobs[i], events, tops);
      SameNamed(At(s, i, t.jobs[i]), t, events, tops);
    }
  }

  lemma {:induction false} RunNamed<V>(states: seq<State<V>>, events: seq<Event<V>>, tops: seq<Def>, meta: map<string, V>)
    requires IsRun(states, events, tops, meta)
    ensures AllNamed(states[|events|], events, tops)
    decreases |events|
  {
    if events != [] {
      var n := |events| - 1;
      var s, e := states[n], events[n];
      assert IsRun(states[..n + 1], events[..n], tops, meta);
      RunKeeps(states[..n + 1], events[..n], tops, meta);
      RunNamed(states[..n + 1], events[..n], tops, meta);
      AllNamedMore(s, events[..n], e, tops);
      assert events[..n] + [e] == events;
      NextNamed(s, e, events[..n], tops);
    }
  }

  lemma NextNamed<V>(s: State<V>, e: Event<V>, before: seq<Event<V>>, tops: seq<Def>)
    requires |s.jobs| == |s.results| && Enabled(s, e) && AllNamed(s, before + [e], tops)
    ensures AllNamed(Next(s, e), before + [e], tops)
  {
    match e {
      case CallerAdds => AddJobNamed(s, s.caller.todo[0], before + [e], tops);
      case CallerWaits =>
      case CallerReturns(_) =>
      case Job(i, choice) =>
        if choice.FactoryHas? { NamedNow(before, e, tops, choice.def); }
        if choice.LoadSucceeds? {
          forall d | d in choice.content.requiredContent ensures Named(before + [e], tops, d) { NamedNow(before, e, tops, d); }
        }
        StepNamed(s, i, choice, before + [e], tops);
    }
  }

  /** Nothing is fetched but what the caller, a loaded content or the factory has named. */
  lemma OnlyNamedIsFetched<V>(states: seq<State<V>>, events: seq<Event<V>>, tops: seq<Def>, meta: map<string, V>, r: FetchResult<V>)
    requires IsRun(states, events, tops, meta) && r in states[|events|].results
    ensures r.def in tops || Required(events, r.def) || Supplied(events, r.def)
  {
    RunNamed(states, events, tops, meta);
  }

  // ------------------------------------------------------------------------------------ lazy dependencies

  /** The factory was asked for this name, at an event of the run. */
  ghost predicate AskedFor<V>(states: seq<State<V>>, events: seq<Event<V>>, name: string, k: nat) {
    && k < |events| < |states| && events[k].Job? && (events[k].choice.FactoryHasNone? || events[k].choice.FactoryHas?)
    && events[k].i < |states[k].jobs| && states[k].jobs[events[k].i].Asking? && states[k].jobs[events[k].i].name == name
  }

  lemma OfferedNow<V>(s: State<V>, e: Event<V>, name: string)
    requires Enabled(s, e)
    ensures name in Next(s, e).offered ==>
              name in s.offered || (e.Job? && s.jobs[e.i].Asking? && s.jobs[e.i].name == name && (e.choice.FactoryHasNone? || e.choice.FactoryHas?))
  {
  }

  lemma {:induction false} OfferedIsAsked<V>(states: seq<State<V>>, events: seq<Event<V>>, tops: seq<Def>, meta: map<string, V>, name: string)
    returns (k: nat)
    requires IsRun(states, events, tops, meta) && name in states[|events|].offered
    ensures AskedFor(states, events, name, k)
    decreases |events|
  {
    var n := |events| - 1;
    assert events != [];
    assert IsRun(states[..n + 1], events[..n], tops, meta);
    OfferedNow(states[n], events[n], name);
    if name in states[n].offered {
      k := OfferedIsAsked(states[..n + 1], events[..n], tops, meta, name);
    } else {
      k := n;
    }
  }

  /** Every dependency name of a content that was loaded, in a run that has returned: a result bears it, or the factory was asked for
      it, and what the factory had for it has a result. */
  lemma DependenciesAnswered<V>(states: seq<State<V>>, events: seq<Event<V>>, tops: seq<Def>, meta: map<string, V>, r: FetchResult<V>, name: string)
    requires IsRun(states, events, tops, meta) && states[|events|].caller.Returned?
    requires r in states[|events|].results && r.load.Loaded? && name in r.load.content.dependencies
    ensures name in Names(states[|events|].results) ||
            exists k: nat :: AskedFor(states, events, name, k)
                        && (events[k].choice.FactoryHas? ==> events[k].choice.def.hash in Hashes(states[|events|].results))
  {
    Completeness(states, events, tops, meta);
    if name !in Names(states[|events|].results) {
      var k := OfferedIsAsked(states, events, tops, meta, name);
      SuppliedIsScheduled(states, events, tops, meta);
      if events[k].choice.FactoryHas? { assert events[k] == Job(events[k].i, FactoryHas(events[k].choice.def)); }
    }
  }
}
