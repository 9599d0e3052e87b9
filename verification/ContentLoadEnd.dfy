/** No page load is left waiting: what has been called can always be brought to its end. */
module ContentLoadEnds {
  import opened Common
  import opened ContentLoads

  /** A waiting load waits for another one, and the load recorded as a root's content is that of its container. */
  ghost predicate Recorded(s: State) {
    && (forall k :: 0 <= k < |s.roots| && s.roots[k].phase == Waiting ==> s.roots[k].waitsFor.Some?)
    && (forall k :: 0 <= k < |s.roots| && s.roots[k].content.Some? ==>
          var l := s.roots[k].content.value; l < |s.loads| && s.loads[l].parent.None? && s.loads[l].root == k)
  }

  lemma {:induction false} RootsRecorded(s: State, op: Op)
    requires Recorded(s) && Enabled(s, op)
    requires op.Call? || op.Return? || op.StartWaiting? || op.ResolveDirectly? || op.Finish?
    ensures Recorded(Apply(s, op))
  {
    assert Apply(s, op).loads == s.loads;
  }

  lemma {:induction false} LoadsRecorded(s: State, op: Op)
    requires Recorded(s) && Enabled(s, op) && (op.LoadNested? || op.Insert? || op.AfterLoad?)
    ensures Recorded(Apply(s, op))
  {
    assert Apply(s, op).roots == s.roots;
  }

  lemma {:induction false} LoadRootRecorded(s: State, k: nat)
    requires Recorded(s) && Enabled(s, LoadRoot(k))
    ensures Recorded(Apply(s, LoadRoot(k)))
  {
  }

  lemma {:induction false} ResolveRecorded(s: State, l: nat)
    requires Recorded(s) && Enabled(s, Resolve(l))
    ensures Recorded(Apply(s, Resolve(l)))
  {
  }

  lemma {:induction false} RecordedKeeps(s: State, op: Op)
    requires Recorded(s)
    ensures Recorded(Apply(s, op))
  {
    if Enabled(s, op) {
      if op.LoadRoot? {
        LoadRootRecorded(s, op.k);
      } else if op.Resolve? {
        ResolveRecorded(s, op.l);
      } else if op.LoadNested? || op.Insert? || op.AfterLoad? {
        LoadsRecorded(s, op);
      } else {
        RootsRecorded(s, op);
      }
    }
  }

  /** What holds in every run without calls inside calls. */
  ghost predicate Orderly(s: State) {
    InOrder(s) && Owned(s) && Settling(s) && Rooted(s) && Recorded(s)
  }

  lemma {:induction false} OrderlyKeeps(s: State, op: Op)
    requires Orderly(s) && Enabled(s, op) && !CallsInside(s, op)
    ensures Orderly(Apply(s, op))
  {
    InOrderKeeps(s, op);
    OwnedKeeps(s, op);
    SettlingKeeps(s, op);
    RootedKeeps(s, op);
    RecordedKeeps(s, op);
  }

  lemma {:induction false} OrderlyRun(s: State, ops: seq<Op>)
    requires Orderly(s) && NoCallsInside(s, ops)
    ensures Orderly(Run(s, ops))
    decreases |ops|
  {
    if ops != [] {
      if Enabled(s, ops[0]) { OrderlyKeeps(s, ops[0]); }
      OrderlyRun(Apply(s, ops[0]), ops[1..]);
    }
  }

  // ---------- The next step ----------

  /** A step that brings something to its end, as opposed to one that starts something new. */
  predicate Proceeds(op: Op) {
    !op.Call? && !op.LoadNested?
  }

  predicate AllFinished(s: State) {
    s.calls == [] && forall k :: 0 <= k < |s.roots| ==> s.roots[k].phase == Finished
  }

  /** An unresolved load, or one it waits for, can go on. */
  lemma {:induction false} LoadProceeds(s: State, l: nat) returns (op: Op)
    requires Settling(s) && !AboutToReturn(s) && s.loadDfd.Some? && l < |s.loads| && !Done(s, l)
    ensures Enabled(s, op) && Proceeds(op)
    decreases |s.loads| - l
  {
    match s.loads[l].stage
    case Requested => op := Insert(l);
    case Inserted => op := AfterLoad(l);
    case Resolved(_) => assert false;
    case Awaiting(others) =>
      if m :| m in others && !Done(s, m) {
        assert WaitsFor(s, l, m);
        op := LoadProceeds(s, m);
      } else {
        op := Resolve(l);
      }
  }

  lemma {:induction false} FirstUnfinished(s: State, n: nat) returns (k: nat)
    requires n <= |s.roots| && exists j :: 0 <= j < n && s.roots[j].phase != Finished
    ensures k < n && s.roots[k].phase != Finished && forall j :: 0 <= j < k ==> s.roots[j].phase == Finished
  {
    if exists j :: 0 <= j < n - 1 && s.roots[j].phase != Finished { k := FirstUnfinished(s, n - 1); } else { k := n - 1; }
  }

  lemma {:induction false} RootProceeds(s: State, k: nat) returns (op: Op)
    requires Orderly(s) && s.calls == [] && k < |s.roots| && s.roots[k].phase != Finished
    requires forall j :: 0 <= j < k ==> s.roots[j].phase == Finished
    ensures Enabled(s, op) && Proceeds(op)
  {
    match s.roots[k].phase
    case Waiting => op := StartWaiting(k);
    case Started => op := ResolveDirectly(k);
    case Loading => op := LoadProceeds(s, s.roots[k].content.value);
    case Firing => op := ContentLoads.Finish(k);
    case Finished => assert false;
  }

  /** Unless everything called is finished, some step goes on with it. */
  lemma {:induction false} NeverStuck(s: State) returns (op: Op)
    requires Orderly(s) && !AllFinished(s)
    ensures Enabled(s, op) && Proceeds(op)
  {
    if s.calls != [] {
      op := Return;
    } else {
      var k := FirstUnfinished(s, |s.roots|);
      op := RootProceeds(s, k);
    }
  }

  // ---------- And there are only so many steps ----------

  function RootWeight(phase: Phase): nat {
    match phase
    case Waiting => 7
    case Started => 6
    case Loading => 2
    case Firing => 1
    case Finished => 0
  }

  function LoadWeight(stage: Stage): nat {
    match stage
    case Requested => 3
    case Inserted => 2
    case Awaiting(_) => 1
    case Resolved(_) => 0
  }

  function RootsLeft(roots: seq<Root>): nat {
    if roots == [] then 0 else RootsLeft(roots[..|roots| - 1]) + RootWeight(roots[|roots| - 1].phase)
  }

  function LoadsLeft(loads: seq<Load>): nat {
    if loads == [] then 0 else LoadsLeft(loads[..|loads| - 1]) + LoadWeight(loads[|loads| - 1].stage)
  }

  function StepsLeft(s: State): nat {
    RootsLeft(s.roots) + LoadsLeft(s.loads) + |s.calls|
  }

  lemma {:induction false} RootsUpdate(roots: seq<Root>, k: nat, root: Root)
    requires k < |roots|
    ensures RootsLeft(roots[k := root]) == RootsLeft(roots) - RootWeight(roots[k].phase) + RootWeight(root.phase)
    decreases |roots|
  {
    var n := |roots| - 1;
    if k == n {
      assert roots[k := root][..n] == roots[..n];
    } else {
      assert roots[k := root][..n] == roots[..n][k := root];
      RootsUpdate(roots[..n], k, root);
    }
  }

  lemma {:induction false} LoadsUpdate(loads: seq<Load>, l: nat, load: Load)
    requires l < |loads|
    ensures LoadsLeft(loads[l := load]) == LoadsLeft(loads) - LoadWeight(loads[l].stage) + LoadWeight(load.stage)
    decreases |loads|
  {
    var n := |loads| - 1;
    if l == n {
      assert loads[l := load][..n] == loads[..n];
    } else {
      assert loads[l := load][..n] == loads[..n][l := load];
      LoadsUpdate(loads[..n], l, load);
    }
  }

  lemma {:induction false} LoadsMore(loads: seq<Load>, load: Load)
    ensures LoadsLeft(loads + [load]) == LoadsLeft(loads) + LoadWeight(load.stage)
  {
    assert (loads + [load])[..|loads|] == loads;
  }

  lemma {:induction false} PhaseCounts(s: State, op: Op)
    requires Enabled(s, op) && (op.Return? || op.StartWaiting? || op.ResolveDirectly? || op.Finish?)
    ensures StepsLeft(Apply(s, op)) < StepsLeft(s)
  {
    if !op.Return? {
      var phase := if op.StartWaiting? then Started else if op.ResolveDirectly? then Firing else Finished;
      RootsUpdate(s.roots, op.k, s.roots[op.k].(phase := phase));
    }
  }

  lemma {:induction false} LoadRootCounts(s: State, k: nat)
    requires Enabled(s, LoadRoot(k))
    ensures StepsLeft(Apply(s, LoadRoot(k))) < StepsLeft(s)
  {
    RootsUpdate(s.roots, k, s.roots[k].(phase := Loading, content := Some(|s.loads|)));
    LoadsMore(s.loads, Load(None, k, Requested));
  }

  lemma {:induction false} StageCounts(s: State, op: Op)
    requires Enabled(s, op) && (op.Insert? || op.AfterLoad? || op.Resolve?)
    ensures StepsLeft(Apply(s, op)) < StepsLeft(s)
  {
    var load := s.loads[op.l];
    if op.Insert? {
      LoadsUpdate(s.loads, op.l, load.(stage := Inserted));
    } else if op.AfterLoad? {
      LoadsUpdate(s.loads, op.l, load.(stage := Awaiting(Below(s.loads, op.l))));
    } else {
      LoadsUpdate(s.loads, op.l, load.(stage := Resolved(load.stage.others)));
      if load.root < |s.roots| { RootsUpdate(s.roots, load.root, s.roots[load.root].(phase := Firing)); }
    }
  }

  lemma {:induction false} StepCounts(s: State, op: Op)
    requires Enabled(s, op) && Proceeds(op)
    ensures StepsLeft(Apply(s, op)) < StepsLeft(s)
  {
    if op.LoadRoot? {
      LoadRootCounts(s, op.k);
    } else if op.Insert? || op.AfterLoad? || op.Resolve? {
      StageCounts(s, op);
    } else {
      PhaseCounts(s, op);
    }
  }

  lemma {:induction false} OrderlyStep(s: State) returns (op: Op)
    requires Orderly(s) && !AllFinished(s)
    ensures Enabled(s, op) && Proceeds(op) && Orderly(Apply(s, op)) && StepsLeft(Apply(s, op)) < StepsLeft(s)
  {
    op := NeverStuck(s);
    StepCounts(s, op);
    OrderlyKeeps(s, op);
  }

  lemma {:induction false} RunFrom(s: State, op: Op, rest: seq<Op>)
    requires Proceeds(op) && forall i :: 0 <= i < |rest| ==> Proceeds(rest[i])
    ensures Run(s, [op] + rest) == Run(Apply(s, op), rest)
    ensures forall i :: 0 <= i < |[op] + rest| ==> Proceeds(([op] + rest)[i])
  {
    assert ([op] + rest)[1..] == rest;
  }

  lemma {:induction false} CanEnd(s: State) returns (ops: seq<Op>)
    requires Orderly(s)
    ensures (forall i :: 0 <= i < |ops| ==> Proceeds(ops[i])) && AllFinished(Run(s, ops))
    decreases StepsLeft(s)
  {
    if AllFinished(s) {
      ops := [];
    } else {
      var op := OrderlyStep(s);
      var rest := CanEnd(Apply(s, op));
      RunFrom(s, op, rest);
      ops := [op] + rest;
    }
  }

  /**
    After every run without calls inside calls: unless all is finished some step goes on, each such step leaves fewer to
    come, and so every way of going on ends with all calls returned and all root loads finished.
  */
  lemma EveryLoadEnds(ops: seq<Op>)
    requires NoCallsInside(Init(), ops)
    ensures var s := Run(Init(), ops);
            && (AllFinished(s) || exists op :: Enabled(s, op) && Proceeds(op))
            && (forall op :: Enabled(s, op) && Proceeds(op) ==> StepsLeft(Apply(s, op)) < StepsLeft(s))
            && exists more: seq<Op> :: (forall i :: 0 <= i < |more| ==> Proceeds(more[i])) && AllFinished(Run(s, more))
  {
    OrderlyRun(Init(), ops);
    var s := Run(Init(), ops);
    if !AllFinished(s) { var op := NeverStuck(s); }
    forall op | Enabled(s, op) && Proceeds(op) ensures StepsLeft(Apply(s, op)) < StepsLeft(s) { StepCounts(s, op); }
    var more := CanEnd(s);
  }
}
