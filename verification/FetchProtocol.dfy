/** Fetching pages and their dependencies concurrently, as a system of atomic steps: one goroutine per scheduled job, the
    caller that adds the first jobs and waits, and the state they share behind mutexes. */
module FetchProtocol {

  /** A fetch definition; its hash decides what it loads. */
  datatype Def = Def(name: string, hash: string, priority: int)

  /** Required definitions and dependencies come from maps, which are gone through in any order. */
  datatype Content<V> = Content(requiredContent: set<Def>, dependencies: set<string>, meta: map<string, V>)

  /** NotFetched also stands for a URL whose template cannot be expanded. */
  datatype Load<V> = NotFetched | LoadFailed | Loaded(content: Content<V>)

  datatype FetchResult<V> = FetchResult(def: Def, load: Load<V>)

  /** Where a goroutine is. Everything between two program counters happens in one critical section or touches nothing that
      is shared. */
  datatype Pc<V> =
    | Expanding
    | Loading
    | AddingMeta(content: Content<V>)
    | Requiring(content: Content<V>, todo: set<Def>)
    | Depending(content: Content<V>, names: set<string>)
    | Asking(content: Content<V>, name: string, names: set<string>)   // the name was not scheduled when looked up
    | AddingLazy(content: Content<V>, name: string, def: Def, names: set<string>)   // what the factory has for the name
    | Finishing
    | Gone

  datatype Caller<V> = Adding(todo: seq<Def>) | Waiting | Returned(results: seq<FetchResult<V>>)

  /** results and jobs have the same indices. offered records which names the lazy factory was asked for. */
  datatype State<V> = State(results: seq<FetchResult<V>>, names: set<string>, active: int, jobs: seq<Pc<V>>,
                            meta: map<string, V>, offered: set<string>, caller: Caller<V>)

  function Init<V>(tops: seq<Def>, meta: map<string, V>): State<V> {
    State([], {}, 0, [], meta, {}, Adding(tops))
  }

  function Hashes<V>(results: seq<FetchResult<V>>): set<string> {
    set i | 0 <= i < |results| :: results[i].def.hash
  }

  /** The critical section of AddFetchJob. */
  function AddJob<V>(s: State<V>, d: Def): State<V> {
    if d.hash in Hashes(s.results) then s
    else s.(results := s.results + [FetchResult(d, NotFetched)], names := s.names + {d.name}, active := s.active + 1,
            jobs := s.jobs + [Expanding])
  }

  /** What the environment decides in a step of a goroutine. */
  datatype Choice<V> =
    | ExpandFails | ExpandSucceeds
    | LoadFails | LoadSucceeds(content: Content<V>)
    | Proceed
    | PickRequired(next: Def)
    | Pick(name: string)
    | FactoryHasNone | FactoryHas(def: Def)

  datatype Event<V> = CallerAdds | CallerWaits | CallerReturns(order: seq<FetchResult<V>>) | Job(i: nat, choice: Choice<V>)

  ghost predicate Sorted<V>(results: seq<FetchResult<V>>) {
    forall i, j :: 0 <= i < j < |results| ==> results[i].def.priority <= results[j].def.priority
  }

  predicate HasPrioritySetting<V>(results: seq<FetchResult<V>>) {
    exists i :: 0 <= i < |results| && results[i].def.priority > 0
  }

  /** Sorting is not stable: any sorted order of the results may be returned, but only if there is a priority. */
  ghost predicate ReturnedOrder<V>(results: seq<FetchResult<V>>, order: seq<FetchResult<V>>) {
    multiset(order) == multiset(results) && if HasPrioritySetting(results) then Sorted(order) else order == results
  }

  predicate JobEnabled<V>(pc: Pc<V>, choice: Choice<V>) {
    match pc
    case Expanding => choice.ExpandFails? || choice.ExpandSucceeds?
    case Loading => choice.LoadFails? || choice.LoadSucceeds?
    case AddingMeta(_) => choice.Proceed?
    case Requiring(_, todo) => if todo == {} then choice.Proceed? else choice.PickRequired? && choice.next in todo
    case Depending(_, names) => if names == {} then choice.Proceed? else choice.Pick? && choice.name in names
    case Asking(_, _, _) => choice.FactoryHasNone? || choice.FactoryHas?
    case AddingLazy(_, _, _, _) => choice.Proceed?
    case Finishing => choice.Proceed?
    case Gone => false
  }

  ghost predicate Enabled<V>(s: State<V>, e: Event<V>) {
    match e
    case CallerAdds => s.caller.Adding? && s.caller.todo != []
    case CallerWaits => s.caller == Adding([])
    case CallerReturns(order) => s.caller.Waiting? && s.active == 0 && ReturnedOrder(s.results, order)
    case Job(i, choice) => i < |s.jobs| && i < |s.results| && JobEnabled(s.jobs[i], choice)
  }

  function At<V>(s: State<V>, i: nat, pc: Pc<V>): State<V>
    requires i < |s.jobs|
  {
    s.(jobs := s.jobs[i := pc])
  }

  function JobStep<V>(s: State<V>, i: nat, choice: Choice<V>): State<V>
    requires i < |s.jobs| && i < |s.results| && JobEnabled(s.jobs[i], choice)
  {
    match s.jobs[i]
    case Expanding => At(s, i, if choice.ExpandFails? then Finishing else Loading)
    case Loading =>
      if choice.LoadFails? then At(s, i, Finishing).(results := s.results[i := s.results[i].(load := LoadFailed)])
      else At(s, i, AddingMeta(choice.content)).(results := s.results[i := s.results[i].(load := Loaded(choice.content))])
    case AddingMeta(c) => At(s, i, Requiring(c, c.requiredContent)).(meta := s.meta + c.meta)
    case Requiring(c, todo) =>
      if todo == {} then At(s, i, Depending(c, c.dependencies))
      else AddJob(At(s, i, Requiring(c, todo - {choice.next})), choice.next)
    case Depending(c, names) =>
      if names == {} then At(s, i, Finishing)
      else if choice.name in s.names then At(s, i, Depending(c, names - {choice.name}))
      else At(s, i, Asking(c, choice.name, names - {choice.name}))
    case Asking(c, name, names) =>
      At(s, i, if choice.FactoryHas? then AddingLazy(c, name, choice.def, names) else Depending(c, names)).(offered := s.offered + {name})
    case AddingLazy(c, _, d, names) => AddJob(At(s, i, Depending(c, names)), d)
    case Finishing => At(s, i, Gone).(active := s.active - 1)
  }

  ghost function Next<V>(s: State<V>, e: Event<V>): State<V>
    requires Enabled(s, e)
  {
    match e
    case CallerAdds => AddJob(s, s.caller.todo[0]).(caller := Adding(s.caller.todo[1..]))
    case CallerWaits => s.(caller := Waiting)
    case CallerReturns(order) => s.(caller := Returned(order))
    case Job(i, choice) => JobStep(s, i, choice)
  }

  /** states is a run of the system under these events. */
  ghost predicate IsRun<V>(states: seq<State<V>>, events: seq<Event<V>>, tops: seq<Def>, meta: map<string, V>) {
    && |states| == |events| + 1
    && states[0] == Init(tops, meta)
    && forall k :: 0 <= k < |events| ==> Enabled(states[k], events[k]) && states[k + 1] == Next(states[k], events[k])
  }

  // ------------------------------------------------------------------------------------------- invariant

  function Live<V>(jobs: seq<Pc<V>>): nat {
    if jobs == [] then 0 else Live(jobs[..|jobs| - 1]) + if jobs[|jobs| - 1].Gone? then 0 else 1
  }

  /** Required definitions the goroutine has not added yet. */
  function PendingRequired<V>(pc: Pc<V>): set<Def> {
    match pc
    case AddingMeta(c) => c.requiredContent
    case Requiring(_, todo) => todo
    case _ => {}
  }

  /** Dependency names the goroutine has not dealt with yet. */
  function PendingNames<V>(pc: Pc<V>): set<string> {
    match pc
    case AddingMeta(c) => c.dependencies
    case Requiring(c, _) => c.dependencies
    case Depending(_, names) => names
    case Asking(_, name, names) => names + {name}
    case AddingLazy(_, _, _, names) => names
    case _ => {}
  }

  /** The program counter goes with what has been loaded. */
  ghost predicate Matches<V>(pc: Pc<V>, load: Load<V>) {
    match pc
    case Expanding => load.NotFetched?
    case Loading => load.NotFetched?
    case AddingMeta(c) => load == Loaded(c)
    case Requiring(c, _) => load == Loaded(c)
    case Depending(c, _) => load == Loaded(c)
    case Asking(c, _, _) => load == Loaded(c)
    case AddingLazy(c, _, _, _) => load == Loaded(c)
    case Finishing => true
    case Gone => true
  }

  /** Of a loaded content, every required hash has a result and every dependency name is scheduled or was offered to the
      factory, but for what the goroutine still has to do. */
  ghost predicate Covered<V>(s: State<V>, i: nat)
    requires i < |s.results| == |s.jobs|
  {
    s.results[i].load.Loaded? ==>
      var c := s.results[i].load.content;
      && (forall d :: d in c.requiredContent && d !in PendingRequired(s.jobs[i]) ==> d.hash in Hashes(s.results))
      && (forall n :: n in c.dependencies && n !in PendingNames(s.jobs[i]) ==> n in s.names || n in s.offered)
  }

  ghost predicate DistinctHashes<V>(results: seq<FetchResult<V>>) {
    forall i, j :: 0 <= i < j < |results| ==> results[i].def.hash != results[j].def.hash
  }

  function Names<V>(results: seq<FetchResult<V>>): set<string> {
    set i | 0 <= i < |results| :: results[i].def.name
  }

  function CallerTodo<V>(caller: Caller<V>): seq<Def> {
    if caller.Adding? then caller.todo else []
  }

  ghost predicate Inv<V>(s: State<V>, tops: seq<Def>) {
    && |s.jobs| == |s.results|
    && s.active == Live(s.jobs)
    && DistinctHashes(s.results)
    && s.names == Names(s.results)
    && (forall i: nat :: i < |s.results| ==> Matches(s.jobs[i], s.results[i].load) && Covered(s, i))
    && (forall d :: d in tops && d !in CallerTodo(s.caller) ==> d.hash in Hashes(s.results))
    && (s.caller.Returned? ==> s.active == 0 && ReturnedOrder(s.results, s.caller.results))
  }

  // --------------------------------------------------------------------------------------- preservation

  lemma {:induction false} LiveUpdate<V>(jobs: seq<Pc<V>>, i: nat, pc: Pc<V>)
    requires i < |jobs|
    ensures Live(jobs[i := pc]) == Live(jobs) - (if jobs[i].Gone? then 0 else 1) + if pc.Gone? then 0 else 1
  {
    var n := |jobs| - 1;
    if i < n {
      assert jobs[i := pc][..n] == jobs[..n][i := pc];
      LiveUpdate(jobs[..n], i, pc);
    } else {
      assert jobs[i := pc][..n] == jobs[..n];
    }
  }

  lemma {:induction false} NobodyLive<V>(jobs: seq<Pc<V>>, i: nat)
    requires i < |jobs| && Live(jobs) == 0
    ensures jobs[i].Gone?
  {
    var n := |jobs| - 1;
    if i < n { NobodyLive(jobs[..n], i); }
  }

  lemma HashesSnoc<V>(results: seq<FetchResult<V>>, r: FetchResult<V>)
    ensures Hashes(results + [r]) == Hashes(results) + {r.def.hash} && Names(results + [r]) == Names(results) + {r.def.name}
  {
    var all := results + [r];
    assert forall i :: 0 <= i < |results| ==> all[i] == results[i];
    assert all[|results|] == r;
  }

  /** Adding a job keeps the invariant, and afterwards the hash has a result. */
  lemma AddJobKeeps<V>(s: State<V>, d: Def, tops: seq<Def>)
    requires Inv(s, tops) && !s.caller.Returned?
    ensures Inv(AddJob(s, d), tops) && d.hash in Hashes(AddJob(s, d).results)
    ensures Hashes(AddJob(s, d).results) == Hashes(s.results) + {d.hash}
    ensures AddJob(s, d).jobs[..|s.jobs|] == s.jobs && AddJob(s, d).results[..|s.results|] == s.results
  {
    var t := AddJob(s, d);
    if d.hash !in Hashes(s.results) {
      HashesSnoc(s.results, FetchResult(d, NotFetched));
      assert t.jobs[..|s.jobs|] == s.jobs;
      forall i: nat | i < |t.results| ensures Matches(t.jobs[i], t.results[i].load) && Covered(t, i) {
        if i < |s.results| { assert Covered(s, i); }
      }
    }
  }

  /** Moving a program counter keeps the invariant if the moved goroutine still answers for its content. */
  lemma MoveKeeps<V>(s: State<V>, i: nat, pc: Pc<V>, t: State<V>, tops: seq<Def>)
    requires Inv(s, tops) && !s.caller.Returned? && i < |s.jobs| && !s.jobs[i].Gone?
    requires t == At(s, i, pc).(active := s.active - (if pc.Gone? then 1 else 0), meta := t.meta, offered := t.offered)
    requires s.offered <= t.offered && Matches(pc, s.results[i].load) && Covered(t, i)
    ensures Inv(t, tops)
  {
    LiveUpdate(s.jobs, i, pc);
    forall k: nat | k < |t.results| ensures Matches(t.jobs[k], t.results[k].load) && Covered(t, k) {
      if k != i { assert Covered(s, k); }
    }
  }

  /** The outcome of a load. */
  lemma LoadKeeps<V>(s: State<V>, i: nat, load: Load<V>, pc: Pc<V>, tops: seq<Def>)
    requires Inv(s, tops) && !s.caller.Returned? && i < |s.jobs| && s.jobs[i].Loading?
    requires (load.LoadFailed? && pc.Finishing?) || (load.Loaded? && pc == AddingMeta(load.content))
    ensures Inv(At(s, i, pc).(results := s.results[i := s.results[i].(load := load)]), tops)
  {
    var t := At(s, i, pc).(results := s.results[i := s.results[i].(load := load)]);
    LiveUpdate(s.jobs, i, pc);
    assert forall k :: 0 <= k < |s.results| ==> t.results[k].def == s.results[k].def;
    assert Hashes(t.results) == Hashes(s.results) && Names(t.results) == Names(s.results);
    forall k: nat | k < |t.results| ensures Matches(t.jobs[k], t.results[k].load) && Covered(t, k) {
      if k != i { assert Covered(s, k); }
    }
  }

  /** Adding a job and moving on are one critical section; the order does not show. */
  lemma AddJobMoves<V>(s: State<V>, i: nat, pc: Pc<V>, d: Def)
    requires i < |s.jobs|
    ensures i < |AddJob(s, d).jobs| && AddJob(At(s, i, pc), d) == At(AddJob(s, d), i, pc)
  {
    if d.hash !in Hashes(s.results) {
      assert (s.jobs + [Expanding])[i := pc] == s.jobs[i := pc] + [Expanding];
    }
  }

  lemma AddAndMoveKeeps<V>(s: State<V>, i: nat, pc: Pc<V>, d: Def, tops: seq<Def>)
    requires Inv(s, tops) && !s.caller.Returned? && i < |s.jobs| && !s.jobs[i].Gone? && !pc.Gone?
    requires Matches(pc, s.results[i].load) && s.results[i].load.Loaded?
    requires PendingNames(s.jobs[i]) == PendingNames(pc)
    requires forall x :: x in PendingRequired(s.jobs[i]) ==> x == d || x in PendingRequired(pc)
    ensures Inv(AddJob(At(s, i, pc), d), tops)
  {
    AddJobKeeps(s, d, tops);
    AddJobMoves(s, i, pc, d);
    var u := AddJob(s, d);
    assert u.jobs[i] == s.jobs[i] && u.results[i] == s.results[i];
    assert Covered(u, i);
    MoveKeeps(u, i, pc, At(u, i, pc), tops);
  }

  lemma AddStepKeeps<V>(s: State<V>, i: nat, choice: Choice<V>, tops: seq<Def>)
    requires Inv(s, tops) && !s.caller.Returned? && i < |s.jobs| && JobEnabled(s.jobs[i], choice)
    requires s.jobs[i].AddingLazy? || (s.jobs[i].Requiring? && s.jobs[i].todo != {})
    ensures Inv(JobStep(s, i, choice), tops)
  {
    assert Covered(s, i);
    match s.jobs[i] {
      case Requiring(c, todo) => AddAndMoveKeeps(s, i, Requiring(c, todo - {choice.next}), choice.next, tops);
      case AddingLazy(c, _, d, names) => AddAndMoveKeeps(s, i, Depending(c, names), d, tops);
    }
  }

  lemma JobStepKeeps<V>(s: State<V>, i: nat, choice: Choice<V>, tops: seq<Def>)
    requires Inv(s, tops) && !s.caller.Returned? && i < |s.jobs| && JobEnabled(s.jobs[i], choice)
    ensures Inv(JobStep(s, i, choice), tops)
  {
    match s.jobs[i] {
      case Loading =>
        if choice.LoadFails? {
          LoadKeeps(s, i, LoadFailed, Finishing, tops);
        } else {
          LoadKeeps(s, i, Loaded(choice.content), AddingMeta(choice.content), tops);
        }
      case Requiring(_, todo) =>
        if todo == {} { MoveStepKeeps(s, i, choice, tops); } else { AddStepKeeps(s, i, choice, tops); }
      case AddingLazy(_, _, _, _) => AddStepKeeps(s, i, choice, tops);
      case _ => MoveStepKeeps(s, i, choice, tops);
    }
  }

  lemma MoveStepKeeps<V>(s: State<V>, i: nat, choice: Choice<V>, tops: seq<Def>)
    requires Inv(s, tops) && !s.caller.Returned? && i < |s.jobs| && JobEnabled(s.jobs[i], choice)
    requires !s.jobs[i].Loading? && !s.jobs[i].AddingLazy? && (s.jobs[i].Requiring? ==> s.jobs[i].todo == {})
    ensures Inv(JobStep(s, i, choice), tops)
  {
    var t := JobStep(s, i, choice);
    assert Covered(s, i);
    MoveKeeps(s, i, t.jobs[i], t, tops);
  }

  lemma ReturnedMeansIdle<V>(s: State<V>, tops: seq<Def>, i: nat)
    requires Inv(s, tops) && s.active == 0 && i < |s.jobs|
    ensures s.jobs[i].Gone?
  {
    NobodyLive(s.jobs, i);
  }

  /** What only the caller sees plays no part in how a goroutine answers for its content. */
  lemma CallerMoveKeeps<V>(s: State<V>, caller: Caller<V>, tops: seq<Def>)
    requires Inv(s, tops)
    requires forall d :: d in tops && d !in CallerTodo(caller) ==> d.hash in Hashes(s.results)
    requires caller.Returned? ==> s.active == 0 && ReturnedOrder(s.results, caller.results)
    ensures Inv(s.(caller := caller), tops)
  {
    var t := s.(caller := caller);
    assert forall k: nat :: k < |t.results| && Covered(s, k) ==> Covered(t, k);
  }

  lemma CallerAddsKeeps<V>(s: State<V>, tops: seq<Def>)
    requires Inv(s, tops) && Enabled(s, CallerAdds)
    ensures Inv(Next(s, CallerAdds), tops)
  {
    var d, rest := s.caller.todo[0], s.caller.todo[1..];
    AddJobKeeps(s, d, tops);
    forall x | x in tops && x !in rest ensures x.hash in Hashes(AddJob(s, d).results) {
      assert x != d ==> x !in [d] + rest;
      assert s.caller.todo == [d] + rest;
    }
    CallerMoveKeeps(AddJob(s, d), Adding(rest), tops);
  }

  lemma NextKeeps<V>(s: State<V>, e: Event<V>, tops: seq<Def>)
    requires Inv(s, tops) && Enabled(s, e)
    ensures Inv(Next(s, e), tops)
  {
    match e {
      case CallerAdds => CallerAddsKeeps(s, tops);
      case CallerWaits => CallerMoveKeeps(s, Waiting, tops);
      case CallerReturns(order) => CallerMoveKeeps(s, Returned(order), tops);
      case Job(i, choice) =>
        if s.caller.Returned? {
          ReturnedMeansIdle(s, tops, i);
          assert false;
        } else {
          JobStepKeeps(s, i, choice, tops);
        }
    }
  }

  /** In every interleaving the WaitGroup counts the unfinished goroutines, no two results share a hash, and every loaded
      content is covered. */
  lemma {:induction false} RunKeeps<V>(states: seq<State<V>>, events: seq<Event<V>>, tops: seq<Def>, meta: map<string, V>)
    requires IsRun(states, events, tops, meta)
    ensures Inv(states[|events|], tops)
    decreases |events|
  {
    if events != [] {
      var n := |events| - 1;
      assert IsRun(states[..n + 1], events[..n], tops, meta);
      RunKeeps(states[..n + 1], events[..n], tops, meta);
      NextKeeps(states[n], events[n], tops);
    }
  }
}
