/** The fetcher itself: its fields, the critical sections on them, and a goroutine's steps, each of which is the step of the
    protocol. */
module ContentFetcher {
  import opened Wrappers
  import opened FetchProtocol

  /** Every hash of these definitions has one result, and a goroutine that has not done anything yet. */
  ghost predicate AllStarted<V>(s: State<V>, ds: seq<Def>) {
    && Hashes(s.results) == (set d | d in ds :: d.hash) && DistinctHashes(s.results)
    && s.active == |s.results| && s.jobs == seq(|s.results|, _ => Expanding)
  }

  lemma OneMoreStarted<V>(s: State<V>, ds: seq<Def>, d: Def)
    requires AllStarted(s, ds)
    ensures AllStarted(AddJob(s, d), ds + [d])
  {
    var hashes := set e | e in ds + [d] :: e.hash;
    assert hashes == (set e | e in ds :: e.hash) + {d.hash};
    HashesSnoc(s.results, FetchResult(d, NotFetched));
  }

  class ContentFetcher<V> {
    var results: seq<FetchResult<V>>
    var scheduledNames: map<string, string>
    var activeJobs: int
    var metaJSON: map<string, V>
    var jobs: seq<Pc<V>>         // the goroutines, in the order they were started
    ghost var offered: set<string>
    ghost var caller: Caller<V>

    ghost function Value(): State<V>
      reads this
    {
      State(results, scheduledNames.Keys, activeJobs, jobs, metaJSON, offered, caller)
    }

    constructor (defaultMetaJSON: Option<map<string, V>>, ghost tops: seq<Def>)
      ensures Value() == Init(tops, if defaultMetaJSON.Some? then defaultMetaJSON.value else map[])
    {
      results, scheduledNames, activeJobs, jobs, offered, caller := [], map[], 0, [], {}, Adding(tops);
      metaJSON := if defaultMetaJSON.Some? then defaultMetaJSON.value else map[];
    }

    method IsAlreadyScheduled(hash: string) returns (scheduled: bool)
      ensures scheduled <==> hash in Hashes(results)
    {
      var i := 0;
      while i < |results|
        invariant 0 <= i <= |results|
        invariant forall k :: 0 <= k < i ==> results[k].def.hash != hash
      {
        if results[i].def.hash == hash {
          return true;
        }
        i := i + 1;
      }
      scheduled := false;
    }

    /** One critical section: a definition whose hash is new gets a result, its name is noted, and a goroutine is counted and
        started. */
    method AddFetchJob(d: Def)
      modifies `results, `scheduledNames, `activeJobs, `jobs
      ensures Value() == AddJob(old(Value()), d)
    {
      var scheduled := IsAlreadyScheduled(d.hash);
      if scheduled {
        return;
      }
      activeJobs := activeJobs + 1;
      results := results + [FetchResult(d, NotFetched)];
      scheduledNames := scheduledNames[d.name := d.name];
      jobs := jobs + [Expanding];
    }

    /** Keys already there are overwritten, key by key and in any order. */
    method AddMeta(data: map<string, V>)
      modifies `metaJSON
      ensures metaJSON == old(metaJSON) + data
    {
      var keys := data.Keys;
      while keys != {}
        invariant keys <= data.Keys
        invariant metaJSON == old(metaJSON) + map k | k in data && k !in keys :: data[k]
        decreases |keys|
      {
        var k :| k in keys;
        metaJSON := metaJSON[k := data[k]];
        keys := keys - {k};
      }
      assert (map k | k in data && k !in {} :: data[k]) == data;
    }

    method StoreResult(i: nat, load: Load<V>)
      requires i < |results|
      modifies `results
      ensures results == old(results)[i := old(results)[i].(load := load)]
    {
      results := results[i := results[i].(load := load)];
    }

    /** What goroutine i does next: the protocol's step. */
    method Step(i: nat, choice: Choice<V>)
      requires i < |jobs| == |results| && JobEnabled(jobs[i], choice)
      modifies `results, `scheduledNames, `activeJobs, `jobs, `metaJSON, `offered
      ensures Value() == JobStep(old(Value()), i, choice)
    {
      match jobs[i] {
        case Expanding =>
          jobs := jobs[i := if choice.ExpandFails? then Finishing else Loading];
        case Loading =>
          StoreResult(i, if choice.LoadFails? then LoadFailed else Loaded(choice.content));
          jobs := jobs[i := if choice.LoadFails? then Finishing else AddingMeta(choice.content)];
        case AddingMeta(c) =>
          AddMeta(c.meta);
          jobs := jobs[i := Requiring(c, c.requiredContent)];
        case Requiring(c, todo) =>
          if todo == {} {
            jobs := jobs[i := Depending(c, c.dependencies)];
          } else {
            jobs := jobs[i := Requiring(c, todo - {choice.next})];
            AddFetchJob(choice.next);
          }
        case Depending(c, names) =>
          if names == {} {
            jobs := jobs[i := Finishing];
          } else {
            var rest := names - {choice.name};
            var alreadyScheduled := choice.name in scheduledNames;
            jobs := jobs[i := if alreadyScheduled then Depending(c, rest) else Asking(c, choice.name, rest)];
          }
        case Asking(c, name, names) =>
          offered := offered + {name};
          jobs := jobs[i := if choice.FactoryHas? then AddingLazy(c, name, choice.def, names) else Depending(c, names)];
        case AddingLazy(c, _, d, names) =>
          jobs := jobs[i := Depending(c, names)];
          AddFetchJob(d);
        case Finishing =>
          activeJobs := activeJobs - 1;
          jobs := jobs[i := Gone];
      }
    }

    /** The caller adds its next job. */
    method AddTopLevelJob(d: Def)
      requires caller.Adding? && caller.todo != [] && d == caller.todo[0]
      modifies `results, `scheduledNames, `activeJobs, `jobs, `caller
      ensures Value() == Next(old(Value()), CallerAdds)
    {
      AddFetchJob(d);
      caller := Adding(caller.todo[1..]);
    }

    /** The caller has added all its jobs and starts to wait for the counter. */
    ghost method Wait()
      requires caller == Adding([])
      modifies `caller
      ensures Value() == Next(old(Value()), CallerWaits)
    {
      caller := Waiting;
    }

    /** A caller that no goroutine interferes with: all its jobs are scheduled, each hash once, before it waits. */
    method AddAllAndWait(tops: seq<Def>)
      requires caller == Adding(tops) && results == [] && jobs == [] && activeJobs == 0
      modifies `results, `scheduledNames, `activeJobs, `jobs, `caller
      ensures caller == Waiting && AllStarted(Value(), tops)
    {
      var i := 0;
      while i < |tops|
        invariant 0 <= i <= |tops| && caller == Adding(tops[i..])
        invariant AllStarted(Value(), tops[..i])
      {
        OneMoreStarted(Value(), tops[..i], tops[i]);
        assert tops[..i + 1] == tops[..i] + [tops[i]];
        AddTopLevelJob(tops[i]);
        i := i + 1;
      }
      assert tops[..i] == tops;
      Wait();
    }

    method HasPriority() returns (found: bool)
      ensures found == HasPrioritySetting(results)
    {
      var i := 0;
      while i < |results|
        invariant 0 <= i <= |results|
        invariant forall k :: 0 <= k < i ==> results[k].def.priority <= 0
      {
        if results[i].def.priority > 0 {
          return true;
        }
        i := i + 1;
      }
      found := false;
    }

    /** Behind the wait for the counter. The results are sorted in place, by any sorting function, but only if there is a
        priority. */
    method WaitForResults(sort: seq<FetchResult<V>> -> seq<FetchResult<V>>) returns (order: seq<FetchResult<V>>)
      requires caller == Waiting && activeJobs == 0
      requires Sorted(sort(results)) && multiset(sort(results)) == multiset(results)
      modifies `results, `caller
      ensures ReturnedOrder(old(results), order) && results == order
      ensures Enabled(old(Value()), CallerReturns(order))
      ensures Value() == Next(old(Value()), CallerReturns(order)).(results := order)
    {
      var prioritized := HasPriority();
      if prioritized {
        results := sort(results);
      }
      order := results;
      caller := Returned(order);
    }
  }
}
