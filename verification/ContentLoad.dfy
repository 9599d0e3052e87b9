/**
  Page loads: `contentLoad` chains root loads one behind the other, and `load` lets a root load wait for the
  loads nested in its subtree.

  A step is what one uninterrupted piece of script does.  A root load has been started when `contentLoadAsync`
  was called for it; its Deferred is `Firing` while its done callbacks run.
*/
module ContentLoads {
  import opened Common

  datatype Phase = Waiting | Started | Loading | Firing | Finished

  /** `waitsFor` is the Deferred that was current when the load was called; `content` the load made by its `load`. */
  datatype Root = Root(phase: Phase, waitsFor: Option<nat>, content: Option<nat>)

  /** A load's Deferred: requested, its HTML inserted, its after-load script run, resolved; with what it waits for. */
  datatype Stage = Requested | Inserted | Awaiting(others: set<nat>) | Resolved(others: set<nat>)

  /** A container with its Deferred; the parent is the load whose container is the nearest one around it. */
  datatype Load = Load(parent: Option<nat>, root: nat, stage: Stage)

  /** `contentLoadDfd` and `loadDfd` by number; `calls` are the calls of `contentLoad` that have not returned yet. */
  datatype State = State(roots: seq<Root>, contentLoadDfd: Option<nat>, calls: seq<nat>, loadDfd: Option<nat>, loads: seq<Load>)

  datatype Op =
    | Call                       // contentLoad is called, and starts the load at once if it may
    | Return                     // ... and ends with the assignment of contentLoadDfd
    | StartWaiting(k: nat)       // the Deferred that load k waits for is done with: contentLoadAsync
    | LoadRoot(k: nat)           // contentLoadAsync calls load with its Deferred
    | ResolveDirectly(k: nat)    // contentLoadAsync has nothing to load
    | Finish(k: nat)             // the last done callback of load k; one of them gives loadDfd up
    | LoadNested(parent: nat)    // a script of the parent's HTML calls load
    | Insert(l: nat)             // the response of load l arrives
    | AfterLoad(l: nat)          // its after-load script
    | Resolve(l: nat)            // all it waits for is resolved

  function Init(): State {
    State([], None, [], None, [])
  }

  /** `$.when(dfd).done(...)` calls back at once if there is no Deferred or it is through with its callbacks. */
  predicate StartsNow(s: State) {
    match s.contentLoadDfd
    case None => true
    case Some(k) => k < |s.roots| && s.roots[k].phase == Finished
  }

  function SetPhase(s: State, k: nat, phase: Phase): State
    requires k < |s.roots|
  {
    s.(roots := s.roots[k := s.roots[k].(phase := phase)])
  }

  /** Load `a` is around load `l`. */
  predicate Around(loads: seq<Load>, a: nat, l: nat)
    decreases l
  {
    l < |loads| && loads[l].parent.Some? && loads[l].parent.value < l
    && (loads[l].parent.value == a || Around(loads, a, loads[l].parent.value))
  }

  /** The loads below `l`: the elements of class `loader` found in its container. */
  function Below(loads: seq<Load>, l: nat): set<nat> {
    set m: nat | m < |loads| && Around(loads, l, m)
  }

  predicate Done(s: State, l: nat) {
    l < |s.loads| && s.loads[l].stage.Resolved?
  }

  /** The innermost call of `contentLoad` only waits its turn: no foreign script runs before it returns. */
  predicate AboutToReturn(s: State) {
    s.calls != [] && (var k := s.calls[|s.calls| - 1]; k < |s.roots| && s.roots[k].phase == Waiting)
  }

  predicate Enabled(s: State, op: Op) {
    (AboutToReturn(s) ==> op.Return?) &&
    match op
    case Call => true
    case Return => s.calls != []
    case StartWaiting(k) =>
      && k < |s.roots| && s.roots[k].phase == Waiting && s.roots[k].waitsFor.Some?
      && s.roots[k].waitsFor.value < |s.roots| && s.roots[s.roots[k].waitsFor.value].phase == Finished
    case LoadRoot(k) => k < |s.roots| && s.roots[k].phase == Started
    case ResolveDirectly(k) => k < |s.roots| && s.roots[k].phase == Started
    case Finish(k) => k < |s.roots| && s.roots[k].phase == Firing
    case LoadNested(parent) => s.loadDfd.Some? && parent < |s.loads| && !s.loads[parent].stage.Requested?
    case Insert(l) => l < |s.loads| && s.loads[l].stage.Requested?
    case AfterLoad(l) => s.loadDfd.Some? && l < |s.loads| && s.loads[l].stage.Inserted?
    case Resolve(l) => l < |s.loads| && s.loads[l].stage.Awaiting? && forall m :: m in s.loads[l].stage.others ==> Done(s, m)
  }

  function SetStage(s: State, l: nat, stage: Stage): State
    requires l < |s.loads|
  {
    s.(loads := s.loads[l := s.loads[l].(stage := stage)])
  }

  function Apply(s: State, op: Op): State {
    if !Enabled(s, op) then s
    else
      match op
      case Call =>
        var phase := if StartsNow(s) then Started else Waiting;
        s.(roots := s.roots + [Root(phase, s.contentLoadDfd, None)], calls := s.calls + [|s.roots|])
      case Return =>
        s.(contentLoadDfd := Some(s.calls[|s.calls| - 1]), calls := s.calls[..|s.calls| - 1])
      case StartWaiting(k) => SetPhase(s, k, Started)
      case LoadRoot(k) =>
        s.(roots := s.roots[k := s.roots[k].(phase := Loading, content := Some(|s.loads|))],
           loadDfd := Some(k), loads := s.loads + [Load(None, k, Requested)])
      case ResolveDirectly(k) => SetPhase(s, k, Firing)
      case Finish(k) =>
        var s' := SetPhase(s, k, Finished);
        if s.roots[k].content.Some? then s'.(loadDfd := None) else s'
      case LoadNested(parent) => s.(loads := s.loads + [Load(Some(parent), s.loads[parent].root, Requested)])
      case Insert(l) => SetStage(s, l, Inserted)
      case AfterLoad(l) => SetStage(s, l, Awaiting(Below(s.loads, l)))
      case Resolve(l) =>
        var s', load := SetStage(s, l, Resolved(s.loads[l].stage.others)), s.loads[l];
        if load.parent.None? && load.root < |s.roots| && s.roots[load.root].phase == Loading
        then SetPhase(s', load.root, Firing) else s'
  }

  function Run(s: State, ops: seq<Op>): State
    decreases |ops|
  {
    if ops == [] then s else Run(Apply(s, ops[0]), ops[1..])
  }

  // ---------- One root load at a time, in call order ----------

  /** A root load has been started only if all called before it are finished; the rest is bookkeeping. */
  ghost predicate InOrder(s: State) {
    && (forall j, k :: 0 <= j < k < |s.roots| && s.roots[k].phase != Waiting ==> s.roots[j].phase == Finished)
    && (forall k :: 0 <= k < |s.roots| ==> s.roots[k].waitsFor == if k == 0 then None else Some(k - 1))
    && (s.calls == [] || s.calls == [|s.roots| - 1])
    && |s.calls| <= |s.roots|
    && (var current := |s.roots| - |s.calls|; s.contentLoadDfd == if current == 0 then None else Some(current - 1))
  }

  /** `loadDfd` belongs to the root load that is loading or firing. */
  ghost predicate Owned(s: State) {
    && (forall k :: 0 <= k < |s.roots| && s.roots[k].phase == Loading ==> s.loadDfd == Some(k) && s.roots[k].content.Some?)
    && (forall k :: 0 <= k < |s.roots| && s.roots[k].phase == Firing && s.roots[k].content.Some? ==> s.loadDfd == Some(k))
    && (forall k :: 0 <= k < |s.roots| && (s.roots[k].phase == Waiting || s.roots[k].phase == Started) ==> s.roots[k].content.None?)
    && (s.loadDfd.Some? ==>
          var k := s.loadDfd.value;
          k < |s.roots| && s.roots[k].content.Some? && (s.roots[k].phase == Loading || s.roots[k].phase == Firing))
  }

  /** The one misuse: `contentLoad` called by the very script that a call of it is running. */
  predicate CallsInside(s: State, op: Op) {
    op.Call? && s.calls != []
  }

  lemma {:induction false} InOrderKeeps(s: State, op: Op)
    requires InOrder(s) && !CallsInside(s, op) && Enabled(s, op)
    ensures InOrder(Apply(s, op))
  {
    if op.StartWaiting? {
      StartInOrder(s, op.k);
    } else if op.LoadNested? || op.Insert? || op.AfterLoad? {
      assert Apply(s, op).roots == s.roots && Apply(s, op).calls == s.calls;
    } else if op.Call? || op.Return? {
      CallInOrder(s, op);
    } else {
      PhaseInOrder(s, op);
    }
  }

  lemma {:induction false} CallInOrder(s: State, op: Op)
    requires InOrder(s) && !CallsInside(s, op) && Enabled(s, op) && (op.Call? || op.Return?)
    ensures InOrder(Apply(s, op))
  {
  }

  lemma {:induction false} PhaseInOrder(s: State, op: Op)
    requires InOrder(s) && Enabled(s, op) && (op.LoadRoot? || op.ResolveDirectly? || op.Finish? || op.Resolve?)
    ensures InOrder(Apply(s, op))
  {
  }

  lemma {:induction false} StartInOrder(s: State, k: nat)
    requires InOrder(s) && Enabled(s, StartWaiting(k))
    ensures InOrder(Apply(s, StartWaiting(k)))
  {
  }

  /** All root loads but `k` are waiting or finished. */
  ghost predicate OthersIdle(s: State, k: nat) {
    forall j :: 0 <= j < |s.roots| && j != k ==> s.roots[j].phase == Waiting || s.roots[j].phase == Finished
  }

  lemma {:induction false} OnlyOneBusy(s: State, k: nat)
    requires InOrder(s) && k < |s.roots| && s.roots[k].phase != Waiting && s.roots[k].phase != Finished
    ensures OthersIdle(s, k)
  {
    forall j | 0 <= j < |s.roots| && j != k ensures s.roots[j].phase == Waiting || s.roots[j].phase == Finished {
      if j < k { assert s.roots[k].phase != Waiting; }
    }
  }

  lemma {:induction false} LoadRootOwned(s: State, k: nat)
    requires OthersIdle(s, k) && Owned(s) && Enabled(s, LoadRoot(k))
    ensures Owned(Apply(s, LoadRoot(k)))
  {
  }

  lemma {:induction false} FinishOwned(s: State, k: nat)
    requires OthersIdle(s, k) && Owned(s) && Enabled(s, Finish(k))
    ensures Owned(Apply(s, Finish(k)))
  {
  }

  lemma {:induction false} ResolveOwned(s: State, l: nat)
    requires Owned(s) && Enabled(s, Resolve(l))
    ensures Owned(Apply(s, Resolve(l)))
  {
  }

  lemma {:induction false} StartOwned(s: State, op: Op)
    requires Owned(s) && Enabled(s, op) && (op.Call? || op.Return? || op.StartWaiting? || op.ResolveDirectly?)
    ensures Owned(Apply(s, op))
  {
  }

  lemma {:induction false} NestedOwned(s: State, op: Op)
    requires Owned(s) && Enabled(s, op) && (op.LoadNested? || op.Insert? || op.AfterLoad?)
    ensures Owned(Apply(s, op))
  {
    assert Apply(s, op).roots == s.roots && Apply(s, op).loadDfd == s.loadDfd;
  }

  lemma {:induction false} OwnedKeeps(s: State, op: Op)
    requires InOrder(s) && Owned(s) && Enabled(s, op)
    ensures Owned(Apply(s, op))
  {
    if op.LoadRoot? {
      OnlyOneBusy(s, op.k);
      LoadRootOwned(s, op.k);
    } else if op.Finish? {
      OnlyOneBusy(s, op.k);
      FinishOwned(s, op.k);
    } else if op.Resolve? {
      ResolveOwned(s, op.l);
    } else if op.LoadNested? || op.Insert? || op.AfterLoad? {
      NestedOwned(s, op);
    } else {
      StartOwned(s, op);
    }
  }

  predicate NoCallsInside(s: State, ops: seq<Op>)
    decreases |ops|
  {
    ops == [] || (!CallsInside(s, ops[0]) && NoCallsInside(Apply(s, ops[0]), ops[1..]))
  }

  lemma {:induction false} InOrderRun(s: State, ops: seq<Op>)
    requires InOrder(s) && Owned(s) && NoCallsInside(s, ops)
    ensures InOrder(Run(s, ops)) && Owned(Run(s, ops))
    decreases |ops|
  {
    if ops != [] {
      if Enabled(s, ops[0]) {
        InOrderKeeps(s, ops[0]);
        OwnedKeeps(s, ops[0]);
      }
      InOrderRun(Apply(s, ops[0]), ops[1..]);
    }
  }

  /** Root loads `j` and `k` run at the same time. */
  predicate Overlap(s: State, j: nat, k: nat) {
    j < k < |s.roots| && s.roots[j].phase != Finished && s.roots[k].phase != Waiting
  }

  /**
    Unless a call is made from inside another call, root loads run one at a time and in call order, and only the
    running one owns `loadDfd`.
  */
  lemma OneAtATime(ops: seq<Op>, j: nat, k: nat)
    requires NoCallsInside(Init(), ops) && j < k < |Run(Init(), ops).roots|
    ensures !Overlap(Run(Init(), ops), j, k)
    ensures var s := Run(Init(), ops);
            s.loadDfd.Some? ==> s.loadDfd.value < |s.roots| && s.roots[s.loadDfd.value].phase in {Loading, Firing}
                                && (j == s.loadDfd.value ==> s.roots[k].phase == Waiting)
                                && (k == s.loadDfd.value ==> s.roots[j].phase == Finished)
  {
    InOrderRun(Init(), ops);
  }

  /** Root loads overlap at once, or after some further steps without another call inside a call. */
  ghost predicate LeadsToOverlap(s: State) {
    exists ops: seq<Op>, j: nat, k: nat :: NoCallsInside(s, ops) && Overlap(Run(s, ops), j, k)
  }

  lemma {:induction false} CallInsideStarts(s: State)
    requires InOrder(s) && Enabled(s, Call) && s.calls != []
    ensures StartsNow(s) && s.calls == [|s.roots| - 1] && s.roots[|s.roots| - 1].phase != Waiting
  {
  }

  /** After a call made inside another one, either both loads run or the next call from outside overlaps the inner one. */
  lemma {:induction false} CallInsideLeads(s: State)
    requires InOrder(s) && Enabled(s, Call) && s.calls != []
    ensures LeadsToOverlap(Apply(s, Call))
  {
    CallInsideStarts(s);
    var n := |s.roots|;
    var s1 := Apply(s, Call);
    if s.roots[n - 1].phase != Finished {
      assert Run(s1, []) == s1 && NoCallsInside(s1, []) && Overlap(s1, n - 1, n);
    } else {
      var s2 := Apply(s1, Return);
      var s3 := Apply(s2, Return);
      var s4 := Apply(s3, Call);
      assert s3.calls == [] && s3.contentLoadDfd == Some(n - 1);
      assert Overlap(s4, n, n + 1);
      assert Run(s4, []) == s4 && NoCallsInside(s4, []);
      assert Run(s3, [Call]) == s4 && NoCallsInside(s3, [Call]);
      assert [Return, Call][1..] == [Call];
      assert Run(s2, [Return, Call]) == s4 && NoCallsInside(s2, [Return, Call]);
      assert [Return, Return, Call][1..] == [Return, Call];
      assert Run(s1, [Return, Return, Call]) == s4 && NoCallsInside(s1, [Return, Return, Call]);
    }
  }

  lemma {:induction false} CallOutsideIsSafe(s: State)
    requires InOrder(s) && Owned(s) && Enabled(s, Call) && s.calls == []
    ensures !LeadsToOverlap(Apply(s, Call))
  {
    InOrderKeeps(s, Call);
    OwnedKeeps(s, Call);
    forall ops: seq<Op>, j: nat, k: nat | NoCallsInside(Apply(s, Call), ops) ensures !Overlap(Run(Apply(s, Call), ops), j, k) {
      InOrderRun(Apply(s, Call), ops);
    }
  }

  /**
    The guard a caller can check.  As long as no call was made inside another one, the next call brings two loads to
    run at the same time, now or through a later call from outside, exactly when another call has not returned yet.
  */
  lemma CallOverlaps(earlier: seq<Op>)
    requires NoCallsInside(Init(), earlier) && Enabled(Run(Init(), earlier), Call)
    ensures LeadsToOverlap(Apply(Run(Init(), earlier), Call)) <==> Run(Init(), earlier).calls != []
  {
    InOrderRun(Init(), earlier);
    var s := Run(Init(), earlier);
    if s.calls == [] { CallOutsideIsSafe(s); } else { CallInsideLeads(s); }
  }

  /** A load started by a call made while another call is starting one: both load at once. */
  lemma CallInsideExample()
    ensures var s := Run(Init(), [Call, Call, LoadRoot(1), LoadRoot(0)]);
            Overlap(s, 0, 1) && s.roots[0].phase == s.roots[1].phase == Loading && s.loadDfd == Some(0)
  {
    var s1 := Apply(Init(), Call);
    var s2 := Apply(s1, Call);
    var s3 := Apply(s2, LoadRoot(1));
    var s4 := Apply(s3, LoadRoot(0));
    assert Run(s4, []) == s4;
    assert Run(s3, [LoadRoot(0)]) == s4;
    assert Run(s2, [LoadRoot(1), LoadRoot(0)]) == Run(s3, [LoadRoot(0)]);
    assert Run(s1, [Call, LoadRoot(1), LoadRoot(0)]) == Run(s2, [LoadRoot(1), LoadRoot(0)]);
  }

  /**
    An inner call leaves the outer load as the current one, so a call from outside no longer waits for the inner load:
    load 2, called when no other call is going on, runs together with load 1.
  */
  lemma LaterOverlapExample()
    ensures var s := Run(Init(), [Call, Call, Return] + [Return, ResolveDirectly(0), Finish(0)]);
            s.calls == [] && Overlap(Apply(s, Call), 1, 2)
  {
    InnerCallReturns();
    OuterCallEnds();
    RunSplits(Init(), [Call, Call, Return], [Return, ResolveDirectly(0), Finish(0)]);
  }

  /** Two loads that both started at once, the second of them still going on. */
  function TwoRoots(phase: Phase, current: Option<nat>, calls: seq<nat>): State {
    State([Root(phase, None, None), Root(Started, None, None)], current, calls, None, [])
  }

  lemma {:induction false} OuterCallEnds()
    ensures Run(TwoRoots(Started, Some(1), [0]), [Return, ResolveDirectly(0), Finish(0)]) == TwoRoots(Finished, Some(0), [])
  {
    var s4, s5, s6 := TwoRoots(Started, Some(0), []), TwoRoots(Firing, Some(0), []), TwoRoots(Finished, Some(0), []);
    assert Apply(TwoRoots(Started, Some(1), [0]), Return) == s4;
    assert Apply(s4, ResolveDirectly(0)) == s5 && Apply(s5, Finish(0)) == s6;
    assert Run(s5, [Finish(0)]) == Run(s6, []);
    assert Run(s4, [ResolveDirectly(0), Finish(0)]) == Run(s5, [Finish(0)]);
  }

  lemma {:induction false} InnerCallReturns()
    ensures Run(Init(), [Call, Call, Return]) == TwoRoots(Started, Some(1), [0])
  {
    var s1 := Apply(Init(), Call);
    var s2 := Apply(s1, Call);
    assert s2 == TwoRoots(Started, None, [0, 1]);
    assert Run(s2, [Return]) == Run(Apply(s2, Return), []);
    assert Run(s1, [Call, Return]) == Run(s2, [Return]);
  }

  // ---------- A root load waits for everything nested in it ----------

  /** Load `p` has run its after-load script and found the container of load `c`. */
  predicate WaitsFor(s: State, p: nat, c: nat) {
    p < |s.loads| && (s.loads[p].stage.Awaiting? || s.loads[p].stage.Resolved?) && c in s.loads[p].stage.others
  }

  /** A load comes after its parent, and waits for existing later loads only; once resolved, it has waited for them all. */
  ghost predicate Settling(s: State) {
    && (forall c :: 0 <= c < |s.loads| && s.loads[c].parent.Some? ==> s.loads[c].parent.value < c)
    && (forall p: nat, c: nat :: WaitsFor(s, p, c) ==> p < c < |s.loads| && (Done(s, p) ==> Done(s, c)))
  }

  /** Each root load has one container, and its Deferred is resolved only with that container's load. */
  ghost predicate Rooted(s: State) {
    && (forall c :: 0 <= c < |s.loads| && s.loads[c].parent.Some? ==>
          s.loads[c].parent.value < |s.loads| && s.loads[c].root == s.loads[s.loads[c].parent.value].root)
    && (forall l :: 0 <= l < |s.loads| && s.loads[l].parent.None? ==>
          && s.loads[l].root < |s.roots|
          && s.roots[s.loads[l].root].content == Some(l)
          && (s.roots[s.loads[l].root].phase == Loading <==> !s.loads[l].stage.Resolved?))
    && (forall k :: 0 <= k < |s.roots| && (s.roots[k].phase == Waiting || s.roots[k].phase == Started) ==> s.roots[k].content.None?)
  }

  lemma {:induction false} AroundLater(loads: seq<Load>, a: nat, l: nat)
    requires Around(loads, a, l)
    ensures a < l
    decreases l
  {
    if loads[l].parent.value != a { AroundLater(loads, a, loads[l].parent.value); }
  }

  /** What is around a load that is around another one is around that one too. */
  lemma {:induction false} AroundTransitive(loads: seq<Load>, a: nat, b: nat, l: nat)
    requires Around(loads, a, b) && Around(loads, b, l)
    ensures Around(loads, a, l)
    decreases l
  {
    if loads[l].parent.value != b { AroundTransitive(loads, a, b, loads[l].parent.value); }
  }

  lemma {:induction false} SettlingKeeps(s: State, op: Op)
    requires Settling(s)
    ensures Settling(Apply(s, op))
  {
    if Enabled(s, op) {
      var s' := Apply(s, op);
      assert forall m :: Done(s, m) ==> Done(s', m);
      if op.AfterLoad? {
        assert forall p: nat, c: nat :: WaitsFor(s', p, c) && p != op.l ==> WaitsFor(s, p, c);
        forall c: nat | Around(s.loads, op.l, c) ensures op.l < c { AroundLater(s.loads, op.l, c); }
      } else if op.Resolve? {
        assert forall p: nat, c: nat :: WaitsFor(s', p, c) ==> WaitsFor(s, p, c);
      } else {
        assert forall p: nat, c: nat :: WaitsFor(s', p, c) ==> WaitsFor(s, p, c) && (Done(s', p) ==> Done(s, p));
      }
    }
  }

  lemma {:induction false} ResolveRooted(s: State, l: nat)
    requires Rooted(s) && Enabled(s, Resolve(l))
    ensures Rooted(Apply(s, Resolve(l)))
  {
  }

  lemma {:induction false} LoadRootRooted(s: State, k: nat)
    requires Rooted(s) && Enabled(s, LoadRoot(k))
    ensures Rooted(Apply(s, LoadRoot(k)))
  {
  }

  lemma {:induction false} NestedRooted(s: State, op: Op)
    requires Rooted(s) && Enabled(s, op) && (op.LoadNested? || op.Insert? || op.AfterLoad?)
    ensures Rooted(Apply(s, op))
  {
    assert Apply(s, op).roots == s.roots;
  }

  lemma {:induction false} PhaseRooted(s: State, op: Op)
    requires Rooted(s) && Enabled(s, op)
    requires op.Call? || op.Return? || op.StartWaiting? || op.ResolveDirectly? || op.Finish?
    ensures Rooted(Apply(s, op))
  {
    assert Apply(s, op).loads == s.loads;
  }

  lemma {:induction false} RootedKeeps(s: State, op: Op)
    requires Rooted(s)
    ensures Rooted(Apply(s, op))
  {
    if Enabled(s, op) {
      if op.Resolve? {
        ResolveRooted(s, op.l);
      } else if op.LoadRoot? {
        LoadRootRooted(s, op.k);
      } else if op.LoadNested? || op.Insert? || op.AfterLoad? {
        NestedRooted(s, op);
      } else {
        PhaseRooted(s, op);
      }
    }
  }

  lemma {:induction false} NestedRun(s: State, ops: seq<Op>)
    requires Settling(s) && Rooted(s)
    ensures Settling(Run(s, ops)) && Rooted(Run(s, ops))
    decreases |ops|
  {
    if ops != [] {
      SettlingKeeps(s, ops[0]);
      RootedKeeps(s, ops[0]);
      NestedRun(Apply(s, ops[0]), ops[1..]);
    }
  }

  /** Load `p` is resolved without having waited for its child `c`, which is not. */
  predicate Missed(s: State, p: nat, c: nat) {
    c < |s.loads| && s.loads[c].parent == Some(p) && Done(s, p) && !WaitsFor(s, p, c) && !Done(s, c)
  }

  /** An unresolved load below a resolved one is missed itself, or stands below a load that is. */
  lemma {:induction false} MissedBelow(s: State, l: nat, m: nat) returns (p: nat, c: nat)
    requires Settling(s) && Around(s.loads, l, m) && Done(s, l) && !Done(s, m)
    ensures Missed(s, p, c) && (p == l || Around(s.loads, l, p))
    decreases m
  {
    p, c := s.loads[m].parent.value, m;
    if !Done(s, p) { p, c := MissedBelow(s, l, p); }
  }

  /**
    In every run a resolved load has an unresolved one somewhere below it if and only if it, or a load below it, was
    resolved without waiting for a child that is still unresolved.
  */
  lemma UndoneBelow(ops: seq<Op>, l: nat)
    requires Done(Run(Init(), ops), l)
    ensures var s := Run(Init(), ops);
            (exists m: nat :: Around(s.loads, l, m) && !Done(s, m))
            <==> (exists p: nat, c: nat :: Missed(s, p, c) && (p == l || Around(s.loads, l, p)))
  {
    NestedRun(Init(), ops);
    var s := Run(Init(), ops);
    if m: nat :| Around(s.loads, l, m) && !Done(s, m) {
      var p, c := MissedBelow(s, l, m);
    }
    if p: nat, c: nat :| Missed(s, p, c) && (p == l || Around(s.loads, l, p)) {
      assert Around(s.loads, l, c) && !Done(s, c);
    }
  }

  /** The Deferred of root load `k` has been resolved. */
  predicate RootResolved(s: State, k: nat) {
    k < |s.roots| && (s.roots[k].phase == Firing || s.roots[k].phase == Finished)
  }

  lemma {:induction false} MissedInRoot(s: State, m: nat) returns (p: nat, c: nat)
    requires Settling(s) && Rooted(s) && m < |s.loads| && RootResolved(s, s.loads[m].root) && !Done(s, m)
    ensures Missed(s, p, c) && s.loads[c].root == s.loads[m].root
    decreases m
  {
    p, c := s.loads[m].parent.value, m;
    if !Done(s, p) { p, c := MissedInRoot(s, p); }
  }

  /** The same for a root load, whose Deferred is resolved with the load of its own container. */
  lemma RootUndone(ops: seq<Op>, k: nat)
    requires RootResolved(Run(Init(), ops), k)
    ensures var s := Run(Init(), ops);
            (exists m: nat :: m < |s.loads| && s.loads[m].root == k && !Done(s, m))
            <==> (exists p: nat, c: nat :: Missed(s, p, c) && s.loads[c].root == k)
  {
    NestedRun(Init(), ops);
    var s := Run(Init(), ops);
    if m: nat :| m < |s.loads| && s.loads[m].root == k && !Done(s, m) {
      var p, c := MissedInRoot(s, m);
    }
  }

  /** Loads keep their place, and what a load waits for is fixed by its after-load script. */
  lemma {:induction false} WaitsForKept(s: State, op: Op, p: nat, c: nat)
    requires p < |s.loads| && (s.loads[p].stage.Awaiting? || s.loads[p].stage.Resolved?)
    ensures |s.loads| <= |Apply(s, op).loads|
    ensures Apply(s, op).loads[p].stage.Awaiting? || Apply(s, op).loads[p].stage.Resolved?
    ensures WaitsFor(Apply(s, op), p, c) <==> WaitsFor(s, p, c)
    ensures c < |s.loads| ==> Apply(s, op).loads[c].parent == s.loads[c].parent
  {
  }

  lemma {:induction false} WaitsForRun(s: State, ops: seq<Op>, p: nat, c: nat)
    requires p < |s.loads| && (s.loads[p].stage.Awaiting? || s.loads[p].stage.Resolved?)
    ensures |s.loads| <= |Run(s, ops).loads|
    ensures WaitsFor(Run(s, ops), p, c) <==> WaitsFor(s, p, c)
    ensures c < |s.loads| ==> Run(s, ops).loads[c].parent == s.loads[c].parent
    decreases |ops|
  {
    if ops != [] {
      WaitsForKept(s, ops[0], p, c);
      WaitsForRun(Apply(s, ops[0]), ops[1..], p, c);
    }
  }

  /** What a registering script can check: a child is waited for exactly when it existed before the after-load script. */
  lemma RegisteredInTime(before: seq<Op>, p: nat, after: seq<Op>, c: nat)
    requires Enabled(Run(Init(), before), AfterLoad(p))
    requires var s := Run(Init(), before + [AfterLoad(p)] + after); c < |s.loads| && s.loads[c].parent == Some(p)
    ensures WaitsFor(Run(Init(), before + [AfterLoad(p)] + after), p, c) <==> c < |Run(Init(), before).loads|
  {
    var s0 := Run(Init(), before);
    var s1 := Apply(s0, AfterLoad(p));
    NestedRun(Init(), before);
    RunSplits(Init(), before + [AfterLoad(p)], after);
    RunSplits(Init(), before, [AfterLoad(p)]);
    assert Run(s0, [AfterLoad(p)]) == Run(s1, []);
    WaitsForRun(s1, after, p, c);
    if c < |s0.loads| { assert Around(s0.loads, p, c); }
  }

  /** A nested load is registered while the scripts of its parent's HTML run, before the parent's after-load script. */
  predicate Timely(s: State, op: Op) {
    op.LoadNested? && op.parent < |s.loads| ==> s.loads[op.parent].stage.Inserted?
  }

  predicate TimelyRun(s: State, ops: seq<Op>)
    decreases |ops|
  {
    ops == [] || (Timely(s, ops[0]) && TimelyRun(Apply(s, ops[0]), ops[1..]))
  }

  /** A load that has run its after-load script waits for all its children. */
  ghost predicate Registered(s: State) {
    forall c: nat :: c < |s.loads| && s.loads[c].parent.Some? && s.loads[c].parent.value < c ==>
      var p := s.loads[c].parent.value;
      s.loads[p].stage.Awaiting? || s.loads[p].stage.Resolved? ==> WaitsFor(s, p, c)
  }

  lemma {:induction false} AfterLoadRegisters(s: State, l: nat)
    requires Registered(s) && Enabled(s, AfterLoad(l))
    ensures Registered(Apply(s, AfterLoad(l)))
  {
    var s' := Apply(s, AfterLoad(l));
    forall c: nat | c < |s.loads| && s.loads[c].parent == Some(l) && l < c ensures WaitsFor(s', l, c) {
      assert Around(s.loads, l, c);
    }
    assert forall p: nat, c: nat :: WaitsFor(s, p, c) ==> WaitsFor(s', p, c);
  }

  lemma {:induction false} RegisteredKeeps(s: State, op: Op)
    requires Registered(s) && Timely(s, op)
    ensures Registered(Apply(s, op))
  {
    if Enabled(s, op) {
      if op.AfterLoad? {
        AfterLoadRegisters(s, op.l);
      } else {
        assert forall p: nat, c: nat :: WaitsFor(s, p, c) ==> WaitsFor(Apply(s, op), p, c);
      }
    }
  }

  lemma {:induction false} RegisteredRun(s: State, ops: seq<Op>)
    requires Registered(s) && TimelyRun(s, ops)
    ensures Registered(Run(s, ops))
    decreases |ops|
  {
    if ops != [] {
      RegisteredKeeps(s, ops[0]);
      RegisteredRun(Apply(s, ops[0]), ops[1..]);
    }
  }

  lemma {:induction false} NoneMissed(s: State, p: nat, c: nat)
    requires Settling(s) && Registered(s)
    ensures !Missed(s, p, c)
  {
  }

  /** A load around which another one is resolved is resolved itself, at any depth. */
  lemma {:induction false} AroundDone(s: State, l: nat, m: nat)
    requires Settling(s) && Registered(s) && Around(s.loads, l, m) && Done(s, l)
    ensures Done(s, m)
  {
    if !Done(s, m) {
      var p, c := MissedBelow(s, l, m);
      NoneMissed(s, p, c);
      assert false;
    }
  }

  lemma {:induction false} RootDone(s: State, m: nat)
    requires Settling(s) && Registered(s) && Rooted(s) && m < |s.loads| && RootResolved(s, s.loads[m].root)
    ensures Done(s, m)
  {
    if !Done(s, m) {
      var p, c := MissedInRoot(s, m);
      NoneMissed(s, p, c);
      assert false;
    }
  }

  /**
    When nested loads are registered in time, then in every run a resolved load has only resolved loads below it,
    and the Deferred of a root load is resolved only once all loads nested in its subtree are.
  */
  lemma RootWaitsForNested(ops: seq<Op>, m: nat)
    requires TimelyRun(Init(), ops) && m < |Run(Init(), ops).loads|
    ensures var s := Run(Init(), ops);
            && s.loads[m].root < |s.roots|
            && (RootResolved(s, s.loads[m].root) ==> Done(s, m))
            && (forall l: nat :: Around(s.loads, l, m) && Done(s, l) ==> Done(s, m))
  {
    NestedRun(Init(), ops);
    RegisteredRun(Init(), ops);
    var s := Run(Init(), ops);
    RootKnown(s, m);
    if RootResolved(s, s.loads[m].root) { RootDone(s, m); }
    forall l: nat | Around(s.loads, l, m) && Done(s, l) ensures Done(s, m) {
      AroundDone(s, l, m);
    }
  }

  lemma {:induction false} RootKnown(s: State, m: nat)
    requires Settling(s) && Rooted(s) && m < |s.loads|
    ensures s.loads[m].root < |s.roots|
    decreases m
  {
    if s.loads[m].parent.Some? { RootKnown(s, s.loads[m].parent.value); }
  }

  /** A state in which root load 0 loads, its load having reached the given stage. */
  function LoadingState(loads: seq<Load>): State {
    State([Root(Loading, None, Some(0))], None, [0], Some(0), loads)
  }

  /** A load registered after its parent's after-load script is not waited for. */
  lemma LateLoadExample()
    ensures var s := Run(Init(), [Call, LoadRoot(0), Insert(0)] + [AfterLoad(0), LoadNested(0), Resolve(0)]);
            |s.roots| == 1 && s.roots[0].phase == Firing && Around(s.loads, 0, 1) && !Done(s, 1)
  {
    var s3 := LoadingState([Load(None, 0, Inserted)]);
    LateLoadBegin();
    assert Below(s3.loads, 0) == {};
    var s4 := Apply(s3, AfterLoad(0));
    assert s4 == LoadingState([Load(None, 0, Awaiting({}))]);
    var s5 := Apply(s4, LoadNested(0));
    assert s5 == LoadingState([Load(None, 0, Awaiting({})), Load(Some(0), 0, Requested)]);
    var s6 := Apply(s5, Resolve(0));
    assert Run(s5, [Resolve(0)]) == Run(s6, []);
    assert Run(s4, [LoadNested(0), Resolve(0)]) == Run(s5, [Resolve(0)]);
    RunSplits(Init(), [Call, LoadRoot(0), Insert(0)], [AfterLoad(0), LoadNested(0), Resolve(0)]);
  }

  lemma {:induction false} LateLoadBegin()
    ensures Run(Init(), [Call, LoadRoot(0), Insert(0)]) == LoadingState([Load(None, 0, Inserted)])
  {
    var s1 := Apply(Init(), Call);
    var s2 := Apply(s1, LoadRoot(0));
    assert s2 == LoadingState([Load(None, 0, Requested)]);
    assert Run(s2, [Insert(0)]) == Run(Apply(s2, Insert(0)), []);
    assert Run(s1, [LoadRoot(0), Insert(0)]) == Run(s2, [Insert(0)]);
  }

  lemma {:induction false} RunSplits(s: State, ops: seq<Op>, more: seq<Op>)
    ensures Run(s, ops + more) == Run(Run(s, ops), more)
    decreases |ops|
  {
    if ops == [] {
      assert ops + more == more;
    } else {
      RunSplits(Apply(s, ops[0]), ops[1..], more);
      assert (ops + more)[1..] == ops[1..] + more;
    }
  }

  // ---------- What a script may rely on after its step ----------

  /** A run with one more step, and whether it is still one without calls inside calls and without late loads. */
  lemma {:induction false} RunExtends(s: State, ops: seq<Op>, op: Op)
    ensures Run(s, ops + [op]) == Apply(Run(s, ops), op)
    ensures NoCallsInside(s, ops + [op]) <==> NoCallsInside(s, ops) && !CallsInside(Run(s, ops), op)
    ensures TimelyRun(s, ops + [op]) <==> TimelyRun(s, ops) && Timely(Run(s, ops), op)
    decreases |ops|
  {
    if ops == [] {
      assert ops + [op] == [op];
      assert Run(s, [op]) == Run(Apply(s, op), []);
    } else {
      RunExtends(Apply(s, ops[0]), ops[1..], op);
      assert (ops + [op])[1..] == ops[1..] + [op];
    }
  }

  lemma {:induction false} OutsideCallChains(s: State)
    requires InOrder(s) && s.calls == []
    ensures if StartsNow(s) then FinishedBefore(s, |s.roots|)
            else |s.roots| > 0 && Apply(s, Call).roots == s.roots + [Root(Waiting, Some(|s.roots| - 1), None)]
  {
  }

  /** A load called from outside starts at once only if all earlier ones are finished, and else waits for the last one. */
  lemma CallChains(ops: seq<Op>)
    requires NoCallsInside(Init(), ops) && Run(Init(), ops).calls == []
    ensures var s := Run(Init(), ops);
            if StartsNow(s) then FinishedBefore(s, |s.roots|)
            else |s.roots| > 0 && Apply(s, Call).roots == s.roots + [Root(Waiting, Some(|s.roots| - 1), None)]
  {
    InOrderRun(Init(), ops);
    OutsideCallChains(Run(Init(), ops));
  }

  /** No call is going on, and the next one will wait for the load that was called last. */
  predicate LatestIsCurrent(s: State) {
    s.calls == [] && s.roots != [] && s.contentLoadDfd.Some? && s.contentLoadDfd.value == |s.roots| - 1
  }

  lemma {:induction false} OnlyCallReturns(s: State)
    requires InOrder(s) && s.calls != []
    ensures LatestIsCurrent(Apply(s, Return))
  {
  }

  lemma ReturnSetsLatest(ops: seq<Op>)
    requires NoCallsInside(Init(), ops) && Run(Init(), ops).calls != []
    ensures LatestIsCurrent(Apply(Run(Init(), ops), Return))
  {
    InOrderRun(Init(), ops);
    OnlyCallReturns(Run(Init(), ops));
  }

  /** All root loads before number `k` are finished, and all from there on are waiting. */
  ghost predicate FinishedBefore(s: State, k: nat) {
    forall j :: 0 <= j < |s.roots| ==> s.roots[j].phase == if j < k then Finished else Waiting
  }

  lemma {:induction false} NextStarts(s: State, k: nat)
    requires InOrder(s) && Enabled(s, StartWaiting(k))
    ensures FinishedBefore(s, k)
  {
  }

  /** A load that waited is started when all before it are finished, and before any after it. */
  lemma WaitingIsNext(ops: seq<Op>, k: nat)
    requires NoCallsInside(Init(), ops) && Enabled(Run(Init(), ops), StartWaiting(k))
    ensures FinishedBefore(Run(Init(), ops), k)
  {
    InOrderRun(Init(), ops);
    NextStarts(Run(Init(), ops), k);
  }

  /** No other load is going on while one is started, and none holds `loadDfd`. */
  lemma StartedIsAlone(ops: seq<Op>, k: nat)
    requires NoCallsInside(Init(), ops) && k < |Run(Init(), ops).roots| && Run(Init(), ops).roots[k].phase == Started
    ensures Run(Init(), ops).loadDfd == None && OthersIdle(Run(Init(), ops), k)
  {
    InOrderRun(Init(), ops);
    OnlyOneBusy(Run(Init(), ops), k);
  }

  lemma {:induction false} LastCallbackFrees(s: State, k: nat)
    requires InOrder(s) && Owned(s) && Enabled(s, Finish(k))
    ensures FinishedBefore(Apply(s, Finish(k)), k + 1) && Apply(s, Finish(k)).loadDfd == None
  {
    OnlyOneBusy(s, k);
    InTurn(s, k);
    FinishTurns(s, k);
    FreedByLast(s, k);
  }

  lemma {:induction false} InTurn(s: State, k: nat)
    requires InOrder(s) && OthersIdle(s, k) && k < |s.roots| && s.roots[k].phase != Waiting && s.roots[k].phase != Finished
    ensures forall j :: 0 <= j < |s.roots| && j != k ==> s.roots[j].phase == if j < k then Finished else Waiting
  {
  }

  lemma {:induction false} FinishTurns(s: State, k: nat)
    requires Enabled(s, Finish(k))
    requires forall j :: 0 <= j < |s.roots| && j != k ==> s.roots[j].phase == if j < k then Finished else Waiting
    ensures FinishedBefore(Apply(s, Finish(k)), k + 1)
  {
  }

  lemma {:induction false} FreedByLast(s: State, k: nat)
    requires Owned(s) && OthersIdle(s, k) && Enabled(s, Finish(k))
    ensures Apply(s, Finish(k)).loadDfd == None
  {
  }

  /** When the running load ends, no other one has started, and `loadDfd` is free. */
  lemma FinishFrees(ops: seq<Op>, k: nat)
    requires NoCallsInside(Init(), ops) && Enabled(Run(Init(), ops), Finish(k))
    ensures var s' := Apply(Run(Init(), ops), Finish(k)); FinishedBefore(s', k + 1) && s'.loadDfd == None
  {
    InOrderRun(Init(), ops);
    LastCallbackFrees(Run(Init(), ops), k);
  }

  /** A load registered just now is not waited for by a parent that has already run its after-load script. */
  lemma NewIsNotWaitedFor(ops: seq<Op>, p: nat)
    ensures !WaitsFor(Run(Init(), ops), p, |Run(Init(), ops).loads|)
  {
    NestedRun(Init(), ops);
  }

  /** When all loads were registered in time, everything below a resolved load is resolved. */
  lemma ResolvedAll(ops: seq<Op>, l: nat)
    requires TimelyRun(Init(), ops) && Done(Run(Init(), ops), l)
    ensures forall m: nat :: Around(Run(Init(), ops).loads, l, m) ==> Done(Run(Init(), ops), m)
  {
    NestedRun(Init(), ops);
    RegisteredRun(Init(), ops);
    forall m: nat | Around(Run(Init(), ops).loads, l, m) ensures Done(Run(Init(), ops), m) {
      AroundDone(Run(Init(), ops), l, m);
    }
  }

  /** The Deferred of a root load is resolved with the load of its container. */
  lemma RootWithContainer(ops: seq<Op>, l: nat)
    requires Done(Run(Init(), ops), l) && Run(Init(), ops).loads[l].parent.None?
    ensures RootResolved(Run(Init(), ops), Run(Init(), ops).loads[l].root)
  {
    NestedRun(Init(), ops);
  }
}
