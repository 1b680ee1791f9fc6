/** Names of scheduled definitions: looking a dependency's name up and scheduling what the factory has for it are two critical
    sections, so that a name can be scheduled twice. */
module FetchNames {
  import opened Wrappers
  import opened FetchProtocol

  /** The definition a step offers to AddFetchJob. */
  ghost function Submitted<V>(s: State<V>, e: Event<V>): Option<Def>
    requires Enabled(s, e)
  {
    match e
    case CallerAdds => Some(s.caller.todo[0])
    case Job(i, choice) =>
      if choice.PickRequired? then Some(choice.next)
      else if s.jobs[i].AddingLazy? then Some(s.jobs[i].def)
      else None
    case _ => None
  }

  /** The step schedules a definition of this name: it submits one whose hash is new. */
  ghost predicate Schedules<V>(s: State<V>, e: Event<V>, name: string) {
    && Enabled(s, e)
    && Submitted(s, e).Some?
    && Submitted(s, e).value.name == name
    && Submitted(s, e).value.hash !in Hashes(s.results)
  }

  lemma NamesAfter<V>(s: State<V>, e: Event<V>, name: string)
    requires Enabled(s, e)
    ensures name in Next(s, e).names <==> name in s.names || Schedules(s, e, name)
  {
  }

  /** Some step strictly between, not one of goroutine i, schedules the name. */
  ghost predicate OthersSchedule<V>(states: seq<State<V>>, events: seq<Event<V>>, i: nat, name: string, p: nat)
    requires |events| < |states|
  {
    exists k :: p < k < |events| && !(events[k].Job? && events[k].i == i) && Schedules(states[k], events[k], name)
  }

  lemma OthersScheduleSnoc<V>(states: seq<State<V>>, events: seq<Event<V>>, i: nat, name: string, p: nat)
    requires |events| < |states| && p < |events| - 1
    ensures var n := |events| - 1;
            OthersSchedule(states, events, i, name, p) <==>
            || OthersSchedule(states[..n + 1], events[..n], i, name, p)
            || (!(events[n].Job? && events[n].i == i) && Schedules(states[n], events[n], name))
  {
    var n := |events| - 1;
    assert forall k :: 0 <= k < n ==> events[..n][k] == events[k] && states[..n + 1][k] == states[k];
  }

  predicate ForName<V>(pc: Pc<V>) {
    pc.Asking? || pc.AddingLazy?
  }

  /** Where a goroutine that is busy with a name was before. */
  lemma BeforeName<V>(s: State<V>, e: Event<V>, i: nat)
    requires Enabled(s, e) && |s.jobs| == |s.results| && i < |Next(s, e).jobs| && ForName(Next(s, e).jobs[i])
    ensures i < |s.jobs|
    ensures if e.Job? && e.i == i
            then if s.jobs[i].Asking? then Next(s, e).jobs[i].name == s.jobs[i].name && Submitted(s, e) == None
                 else e.choice == Pick(Next(s, e).jobs[i].name) && e.choice.name !in s.names && Submitted(s, e) == None
            else Next(s, e).jobs[i] == s.jobs[i]
  {
    match e {
      case CallerAdds => AddedBehind(s, s.caller.todo[0], i);
      case CallerWaits =>
      case CallerReturns(_) =>
      case Job(j, choice) => BeforeStep(s, j, choice, i);
    }
  }

  /** Scheduling leaves the goroutines alone and starts one that is not busy with a name. */
  lemma AddedBehind<V>(s: State<V>, d: Def, i: nat)
    requires i < |AddJob(s, d).jobs| && ForName(AddJob(s, d).jobs[i])
    ensures i < |s.jobs| && AddJob(s, d).jobs[i] == s.jobs[i]
  {
  }

  lemma BeforeStep<V>(s: State<V>, j: nat, choice: Choice<V>, i: nat)
    requires j < |s.jobs| == |s.results| && JobEnabled(s.jobs[j], choice)
    requires i < |JobStep(s, j, choice).jobs| && ForName(JobStep(s, j, choice).jobs[i])
    ensures i < |s.jobs|
    ensures i != j ==> JobStep(s, j, choice).jobs[i] == s.jobs[i]
    ensures i == j && s.jobs[i].Asking? ==> JobStep(s, j, choice).jobs[i].name == s.jobs[i].name
    ensures i == j && !s.jobs[i].Asking? ==>
              s.jobs[i].Depending? && choice == Pick(JobStep(s, j, choice).jobs[i].name) && choice.name !in s.names
  {
    match s.jobs[j] {
      case Requiring(c, todo) => if todo != {} { AddedBehind(At(s, j, Requiring(c, todo - {choice.next})), choice.next, i); }
      case AddingLazy(c, _, d, names) => AddedBehind(At(s, j, Depending(c, names)), d, i);
      case _ =>
    }
  }

  /** In every run, a goroutine that asks the factory for a name, or is about to add what the factory has for it, looked the
      name up at an earlier step p and did not find it. By now the name is scheduled if and only if another goroutine or the
      caller has scheduled it in between. */
  lemma {:induction false} ScheduledMeanwhile<V>(states: seq<State<V>>, events: seq<Event<V>>, tops: seq<Def>, meta: map<string, V>, i: nat)
    returns (p: nat)
    requires IsRun(states, events, tops, meta)
    requires i < |states[|events|].jobs| && ForName(states[|events|].jobs[i])
    ensures var name := states[|events|].jobs[i].name;
            && p < |events| && events[p] == Job(i, Pick(name)) && name !in states[p].names
            && (name in states[|events|].names <==> OthersSchedule(states, events, i, name, p))
    decreases |events|
  {
    assert events != [];
    var n := |events| - 1;
    var s, e, name := states[n], events[n], states[n + 1].jobs[i].name;
    assert IsRun(states[..n + 1], events[..n], tops, meta);
    RunKeeps(states[..n + 1], events[..n], tops, meta);
    BeforeName(s, e, i);
    NamesAfter(s, e, name);
    if e.Job? && e.i == i && !s.jobs[i].Asking? {
      p := n;
    } else {
      p := ScheduledMeanwhile(states[..n + 1], events[..n], tops, meta, i);
      OthersScheduleSnoc(states, events, i, name, p);
    }
  }

  /** A run that schedules two definitions of one name: while a goroutine asks the factory for it, the caller adds a job of
      that name. */
  lemma NamesAreNotUnique<V>() returns (states: seq<State<V>>, events: seq<Event<V>>, tops: seq<Def>)
    ensures IsRun(states, events, tops, map[])
    ensures exists i, j :: 0 <= i < j < |states[|events|].results|
                           && states[|events|].results[i].def.name == states[|events|].results[j].def.name
  {
    var page, top, lazy := Def("page", "0", 0), Def("dep", "1", 0), Def("dep", "2", 0);
    var c: Content<V> := Content({}, {"dep"}, map[]);
    tops := [page, top];
    states, events := FirstSteps(c, page, top);
    states, events := LaterSteps(states, events, tops, c, top, lazy);
    var s := states[|events|];
    assert s.results[1].def.name == s.results[2].def.name;
  }

  ghost predicate Goes<V>(s: State<V>, e: Event<V>, t: State<V>) {
    Enabled(s, e) && Next(s, e) == t
  }

  lemma OneMore<V>(states: seq<State<V>>, events: seq<Event<V>>, tops: seq<Def>, e: Event<V>, t: State<V>)
    requires IsRun(states, events, tops, map[]) && Goes(states[|events|], e, t)
    ensures IsRun(states + [t], events + [e], tops, map[])
  {
  }

  /** The first page is loaded and has nothing but a dependency. */
  lemma FirstSteps<V>(c: Content<V>, page: Def, top: Def) returns (states: seq<State<V>>, events: seq<Event<V>>)
    requires c == Content({}, {"dep"}, map[])
    ensures IsRun(states, events, [page, top], map[])
    ensures states[|events|] == State([FetchResult(page, Loaded(c))], {page.name}, 1, [Depending(c, {"dep"})], map[], {}, Adding([top]))
  {
    var tops := [page, top];
    states, events := [Init(tops, map[])], [];
    var s1 := CallerGoes(states[0], page, [top]);
    OneMore(states, events, tops, CallerAdds, s1);
    states, events := states + [s1], events + [CallerAdds];
    var s2 := s1.(jobs := [Loading]);
    OneMore(states, events, tops, Job(0, ExpandSucceeds), s2);
    states, events := states + [s2], events + [Job(0, ExpandSucceeds)];
    var s3 := s2.(jobs := [AddingMeta(c)], results := [FetchResult(page, Loaded(c))]);
    OneMore(states, events, tops, Job(0, LoadSucceeds(c)), s3);
    states, events := states + [s3], events + [Job(0, LoadSucceeds(c))];
    var s4 := s3.(jobs := [Requiring(c, {})]);
    OneMore(states, events, tops, Job(0, Proceed), s4);
    states, events := states + [s4], events + [Job(0, Proceed)];
    var s5 := s3.(jobs := [Depending(c, {"dep"})]);
    OneMore(states, events, tops, Job(0, Proceed), s5);
    states, events := states + [s5], events + [Job(0, Proceed)];
  }

  lemma CallerGoes<V>(s: State<V>, d: Def, rest: seq<Def>) returns (t: State<V>)
    requires s.caller == Adding([d] + rest) && d.hash !in Hashes(s.results)
    ensures Goes(s, CallerAdds, t)
    ensures t == s.(results := s.results + [FetchResult(d, NotFetched)], names := s.names + {d.name}, active := s.active + 1,
                    jobs := s.jobs + [Expanding], caller := Adding(rest))
  {
    t := Next(s, CallerAdds);
  }

  /** The dependency is looked up in vain; then the caller schedules its name, and then the goroutine what the factory has. */
  lemma LaterSteps<V>(before: seq<State<V>>, start: seq<Event<V>>, tops: seq<Def>, c: Content<V>, top: Def, lazy: Def)
    returns (states: seq<State<V>>, events: seq<Event<V>>)
    requires IsRun(before, start, tops, map[])
    requires var s := before[|start|];
             && s.jobs == [Depending(c, {"dep"})] && "dep" !in s.names && |s.results| == 1 && s.caller == Adding([top])
             && top.hash !in Hashes(s.results) && lazy.hash !in Hashes(s.results) + {top.hash}
    ensures IsRun(states, events, tops, map[])
    ensures |states[|events|].results| == 3 && states[|events|].results[1].def == top && states[|events|].results[2].def == lazy
  {
    var s5 := before[|start|];
    var s6 := LookedUp(s5, c);
    OneMore(before, start, tops, Job(0, Pick("dep")), s6);
    states, events := before + [s6], start + [Job(0, Pick("dep"))];
    assert [top] + [] == [top];
    var s7 := CallerGoes(s6, top, []);
    OneMore(states, events, tops, CallerAdds, s7);
    states, events := states + [s7], events + [CallerAdds];
    var s8 := FactoryGoes(s7, c, lazy);
    OneMore(states, events, tops, Job(0, FactoryHas(lazy)), s8);
    states, events := states + [s8], events + [Job(0, FactoryHas(lazy))];
    HashesSnoc(s5.results, FetchResult(top, NotFetched));
    var s9 := LazyGoes(s8, c, lazy);
    OneMore(states, events, tops, Job(0, Proceed), s9);
    states, events := states + [s9], events + [Job(0, Proceed)];
  }

  lemma LookedUp<V>(s: State<V>, c: Content<V>) returns (t: State<V>)
    requires s.jobs == [Depending(c, {"dep"})] && "dep" !in s.names && |s.results| == 1
    ensures Goes(s, Job(0, Pick("dep")), t) && t == s.(jobs := [Asking(c, "dep", {})])
  {
    t := Next(s, Job(0, Pick("dep")));
    assert {"dep"} - {"dep"} == {};
  }

  lemma FactoryGoes<V>(s: State<V>, c: Content<V>, lazy: Def) returns (t: State<V>)
    requires s.jobs == [Asking(c, "dep", {}), Expanding] && |s.results| == 2
    ensures Goes(s, Job(0, FactoryHas(lazy)), t)
    ensures t == s.(jobs := [AddingLazy(c, "dep", lazy, {}), Expanding], offered := s.offered + {"dep"})
  {
    t := Next(s, Job(0, FactoryHas(lazy)));
  }

  lemma LazyGoes<V>(s: State<V>, c: Content<V>, lazy: Def) returns (t: State<V>)
    requires s.jobs == [AddingLazy(c, "dep", lazy, {}), Expanding] && |s.results| == 2 && lazy.hash !in Hashes(s.results)
    ensures Goes(s, Job(0, Proceed), t) && t.results == s.results + [FetchResult(lazy, NotFetched)]
  {
    t := Next(s, Job(0, Proceed));
  }
}
