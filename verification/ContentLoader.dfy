/**
  The shared variables of the page loads, as an object whose methods are the pieces of script that update them.
  The object's state is always that of a run of the specification, kept as its history; each method says what its
  caller may rely on, as long as the history has no call inside a call, or no nested load registered too late.
*/
module ContentLoaders {
  import opened Common
  import opened ContentLoads

  class Loader {
    var roots: seq<Root>
    var contentLoadDfd: Option<nat>
    var calls: seq<nat>
    var loadDfd: Option<nat>
    var loads: seq<Load>
    ghost var history: seq<Op>

    function Value(): State
      reads this`roots, this`contentLoadDfd, this`calls, this`loadDfd, this`loads
    {
      State(roots, contentLoadDfd, calls, loadDfd, loads)
    }

    ghost predicate Valid()
      reads this
    {
      Value() == Run(Init(), history)
    }

    /** No call was made inside another one so far. */
    ghost predicate Orderly()
      reads this`history
    {
      NoCallsInside(Init(), history)
    }

    /** Every nested load so far was registered before its parent's after-load script. */
    ghost predicate OnTime()
      reads this`history
    {
      TimelyRun(Init(), history)
    }

    constructor ()
      ensures Valid() && history == []
    {
      roots, contentLoadDfd, calls, loadDfd, loads := [], None, [], None, [];
      history := [];
    }

    /**
      `contentLoad` up to its assignment.  A load called from outside starts at once only if all earlier ones are
      finished, and waits for the one before it otherwise; a call inside another call leads to overlapping loads.
    */
    method ContentLoad() returns (k: nat, started: bool)
      requires Valid() && Enabled(Value(), Call)
      modifies this`roots, this`calls, this`history
      ensures Valid() && history == old(history) + [Call] && (OnTime() <==> old(OnTime()))
      ensures Orderly() <==> old(Orderly()) && old(calls) == []
      ensures k == |old(roots)| && |roots| == k + 1
      ensures Orderly() && started ==> old(FinishedBefore(Value(), k)) && roots[k].phase == Started
      ensures Orderly() && !started ==> k > 0 && roots == old(roots) + [Root(Waiting, Some(k - 1), None)]
      ensures old(Orderly()) ==> (LeadsToOverlap(Value()) <==> old(calls) != [])
    {
      RunExtends(Init(), history, Call);
      if Orderly() {
        CallOverlaps(history);
        if calls == [] { CallChains(history); }
      }
      k, started := |roots|, StartsNow(Value());
      roots := roots + [Root(if started then Started else Waiting, contentLoadDfd, None)];
      calls := calls + [k];
      history := history + [Call];
    }

    /** The next call from outside waits for the latest load. */
    method EndContentLoad()
      requires Valid() && calls != []
      modifies this`contentLoadDfd, this`calls, this`history
      ensures Valid() && history == old(history) + [Return]
      ensures (Orderly() <==> old(Orderly())) && (OnTime() <==> old(OnTime()))
      ensures Orderly() ==> LatestIsCurrent(Value())
    {
      RunExtends(Init(), history, Return);
      if Orderly() { ReturnSetsLatest(history); }
      contentLoadDfd := Some(calls[|calls| - 1]);
      calls := calls[..|calls| - 1];
      history := history + [Return];
    }

    /** A load that waited is started when all before it are finished, and before any after it. */
    method ContentLoadAsync(k: nat)
      requires Valid() && Enabled(Value(), StartWaiting(k))
      modifies this`roots, this`history
      ensures Valid() && history == old(history) + [StartWaiting(k)]
      ensures (Orderly() <==> old(Orderly())) && (OnTime() <==> old(OnTime()))
      ensures Orderly() ==> old(FinishedBefore(Value(), k)) && roots == old(roots)[k := old(roots)[k].(phase := Started)]
    {
      RunExtends(Init(), history, StartWaiting(k));
      if Orderly() { WaitingIsNext(history, k); }
      roots := roots[k := roots[k].(phase := Started)];
      history := history + [StartWaiting(k)];
    }

    /** `load` with a Deferred: no other root load is going on that could lose `loadDfd` to it. */
    method Load(k: nat)
      requires Valid() && Enabled(Value(), LoadRoot(k))
      modifies this`roots, this`loadDfd, this`loads, this`history
      ensures Valid() && history == old(history) + [LoadRoot(k)]
      ensures (Orderly() <==> old(Orderly())) && (OnTime() <==> old(OnTime()))
      ensures loadDfd == Some(k) && |roots| == |old(roots)| && roots[k].phase == Loading
      ensures Orderly() ==> old(loadDfd) == None && OthersIdle(Value(), k)
    {
      RunExtends(Init(), history, LoadRoot(k));
      if Orderly() { StartedIsAlone(history, k); }
      loadDfd := Some(k);
      roots := roots[k := roots[k].(phase := Loading, content := Some(|loads|))];
      loads := loads + [ContentLoads.Load(None, k, Requested)];
      history := history + [LoadRoot(k)];
    }

    /** `load` without one, while a root load is going on; a parent already past its after-load script will not wait. */
    method LoadInside(parent: nat)
      requires Valid() && Enabled(Value(), LoadNested(parent))
      modifies this`loads, this`history
      ensures Valid() && history == old(history) + [LoadNested(parent)] && (Orderly() <==> old(Orderly()))
      ensures OnTime() <==> old(OnTime()) && old(loads)[parent].stage.Inserted?
      ensures |loads| == |old(loads)| + 1 && Around(loads, parent, |old(loads)|) && !WaitsFor(Value(), parent, |old(loads)|)
    {
      RunExtends(Init(), history, LoadNested(parent));
      NewIsNotWaitedFor(history, parent);
      loads := loads + [ContentLoads.Load(Some(parent), loads[parent].root, Requested)];
      history := history + [LoadNested(parent)];
    }

    /** `contentLoadAsync` without a page to load. */
    method ResolveRoot(k: nat)
      requires Valid() && Enabled(Value(), ResolveDirectly(k))
      modifies this`roots, this`history
      ensures Valid() && history == old(history) + [ResolveDirectly(k)]
      ensures (Orderly() <==> old(Orderly())) && (OnTime() <==> old(OnTime()))
      ensures RootResolved(Value(), k) && (Orderly() ==> loadDfd == None && OthersIdle(Value(), k))
    {
      RunExtends(Init(), history, ResolveDirectly(k));
      if Orderly() { StartedIsAlone(history, k); }
      roots := roots[k := roots[k].(phase := Firing)];
      history := history + [ResolveDirectly(k)];
    }

    /** After the last done callback no root load is going on, and all up to this one are finished. */
    method EndCallbacks(k: nat)
      requires Valid() && Enabled(Value(), ContentLoads.Finish(k))
      modifies this`roots, this`loadDfd, this`history
      ensures Valid() && history == old(history) + [ContentLoads.Finish(k)]
      ensures (Orderly() <==> old(Orderly())) && (OnTime() <==> old(OnTime()))
      ensures Orderly() ==> loadDfd == None && FinishedBefore(Value(), k + 1)
    {
      RunExtends(Init(), history, ContentLoads.Finish(k));
      if Orderly() { FinishFrees(history, k); }
      if roots[k].content.Some? {
        loadDfd := None;
      }
      roots := roots[k := roots[k].(phase := Finished)];
      history := history + [ContentLoads.Finish(k)];
    }

    /** The response arrives and its HTML is inserted. */
    method Respond(l: nat)
      requires Valid() && Enabled(Value(), ContentLoads.Insert(l))
      modifies this`loads, this`history
      ensures Valid() && history == old(history) + [ContentLoads.Insert(l)]
      ensures (Orderly() <==> old(Orderly())) && (OnTime() <==> old(OnTime()))
    {
      RunExtends(Init(), history, ContentLoads.Insert(l));
      loads := loads[l := loads[l].(stage := Inserted)];
      history := history + [ContentLoads.Insert(l)];
    }

    /** The after-load script: the containers of class `loader` inside the load's own container. */
    method RunAfterLoad(l: nat)
      requires Valid() && Enabled(Value(), ContentLoads.AfterLoad(l))
      modifies this`loads, this`history
      ensures Valid() && history == old(history) + [ContentLoads.AfterLoad(l)]
      ensures (Orderly() <==> old(Orderly())) && (OnTime() <==> old(OnTime()))
      ensures forall m: nat :: WaitsFor(Value(), l, m) <==> Around(old(loads), l, m)
    {
      RunExtends(Init(), history, ContentLoads.AfterLoad(l));
      var others: set<nat> := {};
      for m := 0 to |loads|
        invariant others == set i: nat | i < m && Around(loads, l, i)
      {
        if Around(loads, l, m) {
          others := others + {m};
        }
      }
      assert others == Below(loads, l);
      loads := loads[l := loads[l].(stage := Awaiting(others))];
      history := history + [ContentLoads.AfterLoad(l)];
    }

    /**
      `$.when(...).done(...)` of the loads waited for.  If all were registered in time, everything below is resolved;
      the Deferred of a root load is resolved with its container.
    */
    method ResolveLoad(l: nat)
      requires Valid() && Enabled(Value(), ContentLoads.Resolve(l))
      modifies this`roots, this`loads, this`history
      ensures Valid() && history == old(history) + [ContentLoads.Resolve(l)]
      ensures (Orderly() <==> old(Orderly())) && (OnTime() <==> old(OnTime()))
      ensures Done(Value(), l) && (loads[l].parent.None? ==> RootResolved(Value(), loads[l].root))
      ensures OnTime() ==> forall m: nat :: Around(loads, l, m) ==> Done(Value(), m)
    {
      RunExtends(Init(), history, ContentLoads.Resolve(l));
      var load := loads[l];
      loads := loads[l := load.(stage := Resolved(load.stage.others))];
      if load.parent.None? && load.root < |roots| && roots[load.root].phase == Loading {
        roots := roots[load.root := roots[load.root].(phase := Firing)];
      }
      history := history + [ContentLoads.Resolve(l)];
      if load.parent.None? { RootWithContainer(history, l); }
      if OnTime() { ResolvedAll(history, l); }
    }
  }
}
