/** What fetching guarantees over whole runs: quiescence, completeness, termination, and independence of the schedule. */
module FetchLaws {
  import opened FetchProtocol

  // -------------------------------------------------------------------------- quiescence and completeness

  /** Once the caller waits and the counter is zero, it never rises again: nothing is left but to return. */
  lemma ZeroIsFinal<V>(s: State<V>, e: Event<V>, tops: seq<Def>)
    requires Inv(s, tops) && !s.caller.Adding? && s.active == 0 && Enabled(s, e)
    ensures e.CallerReturns? && Next(s, e).active == 0 && Next(s, e).results == s.results
  {
    if e.Job? {
      NobodyLive(s.jobs, e.i);
      assert false;
    }
  }

  /** When the results are returned, all goroutines are done, hashes are distinct, every top-level job has a result, every
      required definition of a loaded content has a result with its hash, every dependency name was scheduled or offered to
      the factory, and the results are handed out unsorted or sorted by priority. */
  lemma Completeness<V>(states: seq<State<V>>, events: seq<Event<V>>, tops: seq<Def>, meta: map<string, V>)
    requires IsRun(states, events, tops, meta) && states[|events|].caller.Returned?
    ensures var s := states[|events|];
            && (forall pc :: pc in s.jobs ==> pc.Gone?)
            && DistinctHashes(s.results)
            && (forall d :: d in tops ==> d.hash in Hashes(s.results))
            && (forall r :: r in s.results && r.load.Loaded? ==>
                  && (forall d :: d in r.load.content.requiredContent ==> d.hash in Hashes(s.results))
                  && (forall n :: n in r.load.content.dependencies ==> n in Names(s.results) || n in s.offered))
            && ReturnedOrder(s.results, s.caller.results)
  {
    var s := states[|events|];
    RunKeeps(states, events, tops, meta);
    forall pc | pc in s.jobs ensures pc.Gone? {
      var i: nat :| i < |s.jobs| && s.jobs[i] == pc;
      NobodyLive(s.jobs, i);
    }
    forall r | r in s.results && r.load.Loaded?
      ensures forall d :: d in r.load.content.requiredContent ==> d.hash in Hashes(s.results)
      ensures forall n :: n in r.load.content.dependencies ==> n in Names(s.results) || n in s.offered
    {
      var i: nat :| i < |s.results| && s.results[i] == r;
      NobodyLive(s.jobs, i);
      assert Covered(s, i);
    }
  }

  // ---------------------------------------------------------------------------------------- termination

  /** Steps left for a goroutine that has loaded its content. */
  function Work<V>(pc: Pc<V>): nat {
    match pc
    case Expanding => 4
    case Loading => 3
    case AddingMeta(c) => 5 + |c.requiredContent| + 3 * |c.dependencies|
    case Requiring(c, todo) => 4 + |todo| + 3 * |c.dependencies|
    case Depending(_, names) => 3 + 3 * |names|
    case Asking(_, _, names) => 5 + 3 * |names|
    case AddingLazy(_, _, _, names) => 4 + 3 * |names|
    case Finishing => 1
    case Gone => 0
  }

  function TotalWork<V>(jobs: seq<Pc<V>>): nat {
    if jobs == [] then 0 else TotalWork(jobs[..|jobs| - 1]) + Work(jobs[|jobs| - 1])
  }

  function CallerWork<V>(caller: Caller<V>): nat {
    match caller
    case Adding(todo) => 2 + |todo|
    case Waiting => 1
    case Returned(_) => 0
  }

  predicate IsUnloaded<V>(pc: Pc<V>) {
    pc.Expanding? || pc.Loading?
  }

  function Unloaded<V>(jobs: seq<Pc<V>>): nat {
    if jobs == [] then 0 else Unloaded(jobs[..|jobs| - 1]) + if IsUnloaded(jobs[|jobs| - 1]) then 1 else 0
  }

  lemma {:induction false} WorkUpdate<V>(jobs: seq<Pc<V>>, i: nat, pc: Pc<V>)
    requires i < |jobs|
    ensures TotalWork(jobs[i := pc]) == TotalWork(jobs) - Work(jobs[i]) + Work(pc)
    ensures Unloaded(jobs[i := pc]) == Unloaded(jobs) - (if IsUnloaded(jobs[i]) then 1 else 0) + if IsUnloaded(pc) then 1 else 0
  {
    var n := |jobs| - 1;
    if i < n {
      assert jobs[i := pc][..n] == jobs[..n][i := pc];
      WorkUpdate(jobs[..n], i, pc);
    } else {
      assert jobs[i := pc][..n] == jobs[..n];
    }
  }

  /** Every hash the caller, a required definition or the factory can name lies in the finite set universe. */
  ghost predicate Within<V>(s: State<V>, universe: set<string>) {
    && Hashes(s.results) <= universe
    && (forall d :: d in CallerTodo(s.caller) ==> d.hash in universe)
    && (forall i: nat :: i < |s.jobs| ==> PcWithin(s.jobs[i], universe))
  }

  ghost predicate PcWithin<V>(pc: Pc<V>, universe: set<string>) {
    && (forall d :: d in PendingRequired(pc) ==> d.hash in universe)
    && (pc.AddingLazy? ==> pc.def.hash in universe)
  }

  ghost predicate EventWithin<V>(e: Event<V>, universe: set<string>) {
    && (e.Job? && e.choice.LoadSucceeds? ==> forall d :: d in e.choice.content.requiredContent ==> d.hash in universe)
    && (e.Job? && e.choice.FactoryHas? ==> e.choice.def.hash in universe)
  }

  /** The lexicographic measure: hashes without a result, goroutines that have not loaded yet, remaining steps. */
  ghost predicate Decreases<V>(t: State<V>, s: State<V>, universe: set<string>) {
    var unseen, unseen' := |universe - Hashes(s.results)|, |universe - Hashes(t.results)|;
    var work, work' := TotalWork(s.jobs) + CallerWork(s.caller), TotalWork(t.jobs) + CallerWork(t.caller);
    || unseen' < unseen
    || (unseen' == unseen && Unloaded(t.jobs) < Unloaded(s.jobs))
    || (unseen' == unseen && Unloaded(t.jobs) == Unloaded(s.jobs) && work' < work)
  }

  lemma AddJobUnseen<V>(s: State<V>, d: Def, universe: set<string>)
    requires d.hash in universe && d.hash !in Hashes(s.results)
    ensures |universe - Hashes(AddJob(s, d).results)| < |universe - Hashes(s.results)|
  {
    HashesSnoc(s.results, FetchResult(d, NotFetched));
    var seen := Hashes(s.results);
    assert universe - (seen + {d.hash}) == (universe - seen) - {d.hash};
    assert |(universe - seen) - {d.hash}| == |universe - seen| - 1;
  }

  lemma MoveDecreases<V>(s: State<V>, i: nat, pc: Pc<V>, t: State<V>, universe: set<string>)
    requires i < |s.jobs| && t.jobs == s.jobs[i := pc] && Hashes(t.results) == Hashes(s.results) && t.caller == s.caller
    requires (IsUnloaded(s.jobs[i]) && !IsUnloaded(pc)) || (IsUnloaded(s.jobs[i]) == IsUnloaded(pc) && Work(pc) < Work(s.jobs[i]))
    ensures Decreases(t, s, universe)
  {
    WorkUpdate(s.jobs, i, pc);
  }

  lemma AddAndMoveDecreases<V>(s: State<V>, i: nat, pc: Pc<V>, d: Def, universe: set<string>)
    requires i < |s.jobs| && d.hash in universe && IsUnloaded(s.jobs[i]) == IsUnloaded(pc) && Work(pc) < Work(s.jobs[i])
    ensures Decreases(AddJob(At(s, i, pc), d), s, universe)
  {
    if d.hash in Hashes(s.results) {
      MoveDecreases(s, i, pc, At(s, i, pc), universe);
    } else {
      AddJobUnseen(At(s, i, pc), d, universe);
    }
  }

  lemma LoadHashes<V>(results: seq<FetchResult<V>>, i: nat, load: Load<V>)
    requires i < |results|
    ensures Hashes(results[i := results[i].(load := load)]) == Hashes(results)
  {
    var changed := results[i := results[i].(load := load)];
    assert forall k :: 0 <= k < |results| ==> changed[k].def == results[k].def;
  }

  lemma LoadDecreases<V>(s: State<V>, i: nat, choice: Choice<V>, universe: set<string>)
    requires i < |s.jobs| == |s.results| && s.jobs[i].Loading? && JobEnabled(s.jobs[i], choice)
    ensures Decreases(JobStep(s, i, choice), s, universe)
  {
    var t := JobStep(s, i, choice);
    LoadHashes(s.results, i, if choice.LoadFails? then LoadFailed else Loaded(choice.content));
    MoveDecreases(s, i, t.jobs[i], t, universe);
  }

  lemma DependDecreases<V>(s: State<V>, i: nat, choice: Choice<V>, universe: set<string>)
    requires i < |s.jobs| == |s.results| && s.jobs[i].Depending? && JobEnabled(s.jobs[i], choice)
    ensures Decreases(JobStep(s, i, choice), s, universe)
  {
    var t, names := JobStep(s, i, choice), s.jobs[i].names;
    if names != {} { assert |names - {choice.name}| == |names| - 1; }
    MoveDecreases(s, i, t.jobs[i], t, universe);
  }

  /** The steps that only move the program counter. */
  predicate OnlyMoves<V>(pc: Pc<V>) {
    pc.Expanding? || pc.AddingMeta? || pc.Asking? || pc.Finishing? || (pc.Requiring? && pc.todo == {})
  }

  lemma OnlyMoveDecreases<V>(s: State<V>, i: nat, choice: Choice<V>, universe: set<string>)
    requires i < |s.jobs| == |s.results| && OnlyMoves(s.jobs[i]) && JobEnabled(s.jobs[i], choice)
    ensures Decreases(JobStep(s, i, choice), s, universe)
  {
    var t := JobStep(s, i, choice);
    MoveDecreases(s, i, t.jobs[i], t, universe);
  }

  lemma RequireDecreases<V>(s: State<V>, i: nat, d: Def, universe: set<string>)
    requires i < |s.jobs| == |s.results| && s.jobs[i].Requiring? && d in s.jobs[i].todo && PcWithin(s.jobs[i], universe)
    ensures Decreases(JobStep(s, i, PickRequired(d)), s, universe)
  {
    var c, todo := s.jobs[i].content, s.jobs[i].todo;
    assert d in PendingRequired(s.jobs[i]) && |todo - {d}| == |todo| - 1;
    AddAndMoveDecreases(s, i, Requiring(c, todo - {d}), d, universe);
  }

  lemma JobDecreases<V>(s: State<V>, i: nat, choice: Choice<V>, universe: set<string>)
    requires i < |s.jobs| == |s.results| && JobEnabled(s.jobs[i], choice)
    requires PcWithin(s.jobs[i], universe)
    ensures Decreases(JobStep(s, i, choice), s, universe)
  {
    var pc := s.jobs[i];
    if OnlyMoves(pc) {
      OnlyMoveDecreases(s, i, choice, universe);
    } else if pc.Loading? {
      LoadDecreases(s, i, choice, universe);
    } else if pc.Depending? {
      DependDecreases(s, i, choice, universe);
    } else if pc.Requiring? {
      RequireDecreases(s, i, choice.next, universe);
    } else {
      AddAndMoveDecreases(s, i, Depending(pc.content, pc.names), pc.def, universe);
    }
  }

  /** Every step decreases the measure. */
  lemma NextDecreases<V>(s: State<V>, e: Event<V>, tops: seq<Def>, universe: set<string>)
    requires Inv(s, tops) && Enabled(s, e) && Within(s, universe)
    ensures Decreases(Next(s, e), s, universe)
  {
    match e {
      case CallerAdds =>
        var d := s.caller.todo[0];
        assert d in CallerTodo(s.caller);
        if d.hash !in Hashes(s.results) { AddJobUnseen(s, d, universe); }
      case CallerWaits =>
      case CallerReturns(order) =>
      case Job(i, choice) => JobDecreases(s, i, choice, universe);
    }
  }

  lemma AddJobWithin<V>(s: State<V>, d: Def, universe: set<string>)
    requires Within(s, universe) && d.hash in universe
    ensures Within(AddJob(s, d), universe)
  {
    if d.hash !in Hashes(s.results) {
      HashesSnoc(s.results, FetchResult(d, NotFetched));
      var t := AddJob(s, d);
      forall i: nat | i < |t.jobs| ensures PcWithin(t.jobs[i], universe) {
        if i < |s.jobs| { assert t.jobs[i] == s.jobs[i] && PcWithin(s.jobs[i], universe); }
      }
    }
  }

  lemma MoveWithin<V>(s: State<V>, i: nat, pc: Pc<V>, universe: set<string>)
    requires Within(s, universe) && i < |s.jobs| && PcWithin(pc, universe)
    ensures Within(At(s, i, pc), universe)
  {
    var t := At(s, i, pc);
    forall k: nat | k < |t.jobs| ensures PcWithin(t.jobs[k], universe) {
      if k != i { assert PcWithin(s.jobs[k], universe); }
    }
  }

  lemma JobWithin<V>(s: State<V>, i: nat, choice: Choice<V>, universe: set<string>)
    requires Within(s, universe) && i < |s.jobs| == |s.results| && JobEnabled(s.jobs[i], choice)
    requires EventWithin(Job(i, choice), universe)
    ensures Within(JobStep(s, i, choice), universe)
  {
    var pc := s.jobs[i];
    assert PcWithin(pc, universe);
    if pc.Loading? {
      LoadHashes(s.results, i, if choice.LoadFails? then LoadFailed else Loaded(choice.content));
      MoveWithin(s, i, JobStep(s, i, choice).jobs[i], universe);
    } else if pc.Requiring? && pc.todo != {} {
      var rest := Requiring(pc.content, pc.todo - {choice.next});
      assert choice.next in PendingRequired(pc);
      MoveWithin(s, i, rest, universe);
      AddJobWithin(At(s, i, rest), choice.next, universe);
    } else if pc.AddingLazy? {
      MoveWithin(s, i, Depending(pc.content, pc.names), universe);
      AddJobWithin(At(s, i, Depending(pc.content, pc.names)), pc.def, universe);
    } else {
      MoveWithin(s, i, JobStep(s, i, choice).jobs[i], universe);
    }
  }

  lemma NextWithin<V>(s: State<V>, e: Event<V>, universe: set<string>)
    requires Within(s, universe) && Enabled(s, e) && |s.jobs| == |s.results| && EventWithin(e, universe)
    ensures Within(Next(s, e), universe)
  {
    match e {
      case CallerAdds =>
        var d := s.caller.todo[0];
        assert d in CallerTodo(s.caller) && forall x :: x in s.caller.todo[1..] ==> x in s.caller.todo;
        AddJobWithin(s, d, universe);
        var u, t := AddJob(s, d), Next(s, e);
        assert forall k: nat :: k < |t.jobs| && PcWithin(u.jobs[k], universe) ==> PcWithin(t.jobs[k], universe);
      case CallerWaits =>
        assert forall k: nat :: k < |s.jobs| && PcWithin(s.jobs[k], universe) ==> PcWithin(Next(s, e).jobs[k], universe);
      case CallerReturns(order) =>
        assert forall k: nat :: k < |s.jobs| && PcWithin(s.jobs[k], universe) ==> PcWithin(Next(s, e).jobs[k], universe);
      case Job(i, choice) => JobWithin(s, i, choice, universe);
    }
  }

  /** However the goroutines are scheduled and whatever the loads return, if only finitely many hashes can be named, every
      infinite sequence of events comes to one that is not enabled: all runs are finite. */
  lemma {:induction false} RunsAreFinite<V>(states: nat -> State<V>, events: nat -> Event<V>, n: nat, tops: seq<Def>, universe: set<string>)
    returns (m: nat)
    requires Inv(states(n), tops) && Within(states(n), universe)
    requires forall k: nat :: EventWithin(events(k), universe)
    requires forall k: nat :: Enabled(states(k), events(k)) ==> states(k + 1) == Next(states(k), events(k))
    ensures n <= m && !Enabled(states(m), events(m))
    decreases |universe - Hashes(states(n).results)|, Unloaded(states(n).jobs), TotalWork(states(n).jobs) + CallerWork(states(n).caller)
  {
    if !Enabled(states(n), events(n)) {
      return n;
    }
    NextKeeps(states(n), events(n), tops);
    NextWithin(states(n), events(n), universe);
    NextDecreases(states(n), events(n), tops, universe);
    m := RunsAreFinite(states, events, n + 1, tops, universe);
  }

  /** Until the results are returned some event is enabled: no interleaving gets stuck. */
  lemma Progress<V>(s: State<V>, tops: seq<Def>) returns (e: Event<V>)
    requires Inv(s, tops) && !s.caller.Returned?
    ensures Enabled(s, e)
  {
    if s.caller.Adding? {
      e := if s.caller.todo == [] then CallerWaits else CallerAdds;
    } else if s.active == 0 {
      var order := SomeOrder(s.results);
      e := CallerReturns(order);
    } else {
      var i := SomeLive(s.jobs);
      var choice := SomeChoice(s.jobs[i]);
      e := Job(i, choice);
    }
  }

  lemma {:induction false} SomeLive<V>(jobs: seq<Pc<V>>) returns (i: nat)
    requires Live(jobs) > 0
    ensures i < |jobs| && !jobs[i].Gone?
  {
    var n := |jobs| - 1;
    if jobs[n].Gone? { i := SomeLive(jobs[..n]); } else { i := n; }
  }

  lemma SomeChoice<V>(pc: Pc<V>) returns (choice: Choice<V>)
    requires !pc.Gone?
    ensures JobEnabled(pc, choice)
  {
    match pc {
      case Expanding => choice := ExpandFails;
      case Loading => choice := LoadFails;
      case Depending(_, names) =>
        if names == {} {
          choice := Proceed;
        } else {
          var name :| name in names;
          choice := Pick(name);
        }
      case Requiring(_, todo) =>
        if todo == {} {
          choice := Proceed;
        } else {
          var next :| next in todo;
          choice := PickRequired(next);
        }
      case Asking(_, _, _) => choice := FactoryHasNone;
      case _ => choice := Proceed;
    }
  }

  lemma {:induction false} Insert<V>(sorted: seq<FetchResult<V>>, r: FetchResult<V>) returns (order: seq<FetchResult<V>>)
    requires Sorted(sorted)
    ensures Sorted(order) && multiset(order) == multiset(sorted) + multiset{r}
    ensures |order| == |sorted| + 1
    ensures order[|order| - 1] == r || (sorted != [] && order[|order| - 1] == sorted[|sorted| - 1])
  {
    var n := |sorted| - 1;
    if sorted == [] || sorted[n].def.priority <= r.def.priority {
      order := sorted + [r];
      SortedSnoc(sorted, r);
    } else {
      var front := Insert(sorted[..n], r);
      order := front + [sorted[n]];
      assert sorted == sorted[..n] + [sorted[n]];
      SortedSnoc(front, sorted[n]);
    }
  }

  lemma SortedSnoc<V>(front: seq<FetchResult<V>>, r: FetchResult<V>)
    requires Sorted(front) && (front != [] ==> front[|front| - 1].def.priority <= r.def.priority)
    ensures Sorted(front + [r])
  {
  }

  lemma {:induction false} SomeSorted<V>(results: seq<FetchResult<V>>) returns (order: seq<FetchResult<V>>)
    ensures Sorted(order) && multiset(order) == multiset(results)
  {
    if results == [] {
      order := [];
    } else {
      var n := |results| - 1;
      var front := SomeSorted(results[..n]);
      order := Insert(front, results[n]);
      assert results == results[..n] + [results[n]];
    }
  }

  lemma SomeOrder<V>(results: seq<FetchResult<V>>) returns (order: seq<FetchResult<V>>)
    ensures ReturnedOrder(results, order)
  {
    if HasPrioritySetting(results) { order := SomeSorted(results); } else { order := results; }
  }
}
