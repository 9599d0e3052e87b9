/** What becomes of a Deferred over whole runs: its final state, its progress values, and that its loops end. */
module DeferredRuns {
  import opened Common
  import opened Deferreds
  import Cb = Callbacks

  // ---------- The final state ----------

  /** The first call of `resolve` (1) or `reject` (2) that the run makes. */
  function FirstSettling(d: Deferred, ops: seq<Op>): Option<(nat, Value)>
    requires |d.lists| == 6
    decreases |ops|
  {
    if ops == [] then None
    else if ops[0].Send? && (ops[0].kind == 1 || ops[0].kind == 2) && UserMayCall(d) then Some((ops[0].kind, ops[0].value))
    else
      ApplySize(d, ops[0]);
      FirstSettling(Apply(d, ops[0]), ops[1..])
  }

  lemma {:induction false} FirstOfStep(d: Deferred, op: Op)
    requires |d.lists| == 6 && d.first.None?
    ensures Apply(d, op).first ==
            if op.Send? && (op.kind == 1 || op.kind == 2) && UserMayCall(d) then Some((op.kind, op.value)) else None
  {
  }

  lemma {:induction false} FirstOfRun(d: Deferred, ops: seq<Op>)
    requires |d.lists| == 6 && d.first.None?
    ensures Run(d, ops).first == FirstSettling(d, ops)
    decreases |ops|
  {
    if ops != [] {
      ApplySize(d, ops[0]);
      FirstOfStep(d, ops[0]);
      if Apply(d, ops[0]).first.None? {
        FirstOfRun(Apply(d, ops[0]), ops[1..]);
      } else {
        FirstStays(Apply(d, ops[0]), ops[1..]);
      }
    }
  }

  lemma {:induction false} StateAtRest(d: Deferred)
    requires Inv(d) && d.stack == []
    ensures d.state == Resolved <==> d.first.Some? && d.first.value.0 == 1
    ensures d.state == Rejected <==> d.first.Some? && d.first.value.0 == 2
    ensures d.state == Pending <==> d.first.None?
  {
  }

  /** When all is quiet, the first settling call of the run has decided the state; without one it is pending. */
  lemma FinalState(ops: seq<Op>)
    requires Run(Init(), ops).stack == []
    ensures var state, first := Run(Init(), ops).state, FirstSettling(Init(), ops);
            && (state == Resolved <==> first.Some? && first.value.0 == 1)
            && (state == Rejected <==> first.Some? && first.value.0 == 2)
            && (state == Pending <==> first.None?)
  {
    ReachedInv(ops);
    FirstOfRun(Init(), ops);
    StateAtRest(Run(Init(), ops));
  }

  /** A user's callback that has been called finds the state set to its kind, also while the loops are still running. */
  lemma CalledInState(ops: seq<Op>, i: nat, t: nat)
    requires i < 6 && IsUser(Run(Init(), ops), i, t) && CallsOf(Run(Init(), ops), i, t) != []
    ensures var state := Run(Init(), ops).state;
            (i == 1 || i == 4 ==> state == Resolved) && (i == 2 || i == 5 ==> state == Rejected)
  {
    ReachedInv(ops);
    CalledIn(Run(Init(), ops), i, t);
  }

  lemma {:induction false} CalledIn(d: Deferred, i: nat, t: nat)
    requires Inv(d) && i < 6 && IsUser(d, i, t) && CallsOf(d, i, t) != []
    ensures (i == 1 || i == 4 ==> d.state == Resolved) && (i == 2 || i == 5 ==> d.state == Rejected)
  {
    if i == 1 || i == 4 {
      assert i % 3 == 1;
      StateBeforeCallbacks(d, i, t);
    } else if i == 2 || i == 5 {
      assert i % 3 == 2;
      StateBeforeCallbacks(d, i, t);
    }
  }

  // ---------- The loops end ----------

  function Work(d: Deferred, from: nat): nat
    requires |d.lists| == 6 && from <= 3
  {
    Cb.TurnsLeft(d.lists[from]) + Cb.TurnsLeft(d.lists[from + 1]) + Cb.TurnsLeft(d.lists[from + 2])
  }

  /** The callbacks of the first three lists may fire one of the last three; those fire no other list. */
  ghost predicate Less(d: Deferred, before: Deferred)
    requires |d.lists| == |before.lists| == 6
  {
    Work(d, 0) < Work(before, 0) || (Work(d, 0) == Work(before, 0) && Work(d, 3) < Work(before, 3))
  }

  lemma {:induction false} ReplaceWork(d: Deferred, list: Cb.State<Action, Value>, user: bool)
    requires |d.lists| == 6 && d.stack != [] && d.stack[|d.stack| - 1].list < 6
    requires Cb.TurnsLeft(list) == Cb.TurnsLeft(d.lists[d.stack[|d.stack| - 1].list]) - 1
    ensures Less(Replace(d, list, user), d)
    ensures d.stack[|d.stack| - 1].list < 3 ==> Work(Replace(d, list, user), 0) < Work(d, 0)
  {
  }

  lemma {:induction false} UpdateWork(d: Deferred, j: nat, list: Cb.State<Action, Value>)
    requires |d.lists| == 6 && j < 6 && (j < 3 ==> Cb.TurnsLeft(list) <= Cb.TurnsLeft(d.lists[j]))
    ensures Work(Update(d, j, list), 0) <= Work(d, 0)
  {
  }

  lemma {:induction false} ShutWork(s: Cb.State<Action, Value>)
    ensures Cb.TurnsLeft(Cb.DoDisable(s)) <= Cb.TurnsLeft(s) && Cb.TurnsLeft(Cb.DoLock(s)) <= Cb.TurnsLeft(s)
  {
  }

  lemma {:induction false} PerformWork(d: Deferred, kind: nat, action: Action, value: Value)
    requires |d.lists| == 6 && (action.FireHandlers? ==> action.list >= 3)
    ensures Work(Perform(d, kind, action, value), 0) <= Work(d, 0)
  {
    match action
    case DisableList(j) => if j < 6 { ShutWork(d.lists[j]); UpdateWork(d, j, Cb.DoDisable(d.lists[j])); }
    case LockList(j) => if j < 6 { ShutWork(d.lists[j]); UpdateWork(d, j, Cb.DoLock(d.lists[j])); }
    case FireHandlers(j) => if j < 6 { UpdateWork(d, j, Cb.DoFireWith(d.lists[j], value)); }
    case _ =>
  }

  /** What the innermost loop calls: a user callback, or one of the first three lists its own. */
  lemma {:induction false} TopTurn(d: Deferred)
    requires Inv(d) && d.stack != []
    ensures var i := d.stack[|d.stack| - 1].list;
            var s := d.lists[i];
            && i < 6 && Cb.Inv(s) && s.firing
            && (Cb.Calls(s).Some? && !Cb.Calls(s).value.callback.User? ==>
                  i < 3 && (Cb.Calls(s).value.callback.FireHandlers? ==> Cb.Calls(s).value.callback.list >= 3))
  {
    var i := d.stack[|d.stack| - 1].list;
    PartAt(d.lists, d.first, d.begun, 6, i);
    if d.first.Some? && d.begun < 6 {
      OwnReady(d, d.first.value.0, d.first.value.1);
    } else {
      QuietTurn(d, i);
    }
  }

  lemma {:induction false} CalledMayCall(d: Deferred, i: nat)
    requires |d.lists| == 6 && d.stack != [] && d.stack[|d.stack| - 1].list == i < 6
    requires Cb.Calls(d.lists[i]).Some? && Cb.Calls(d.lists[i]).value.callback.User?
    ensures UserMayCall(DoStep(d))
  {
    assert Cb.DoNext(d.lists[i]).firing;
    StepIs(d, i);
  }

  /** A running user callback may itself call the Deferred. */
  lemma {:induction false} CallbackMayCall(d: Deferred)
    requires Inv(d) && d.stack != []
    requires var called := Cb.Calls(d.lists[d.stack[|d.stack| - 1].list]); called.Some? && called.value.callback.User?
    ensures UserMayCall(DoStep(d))
  {
    TopTurn(d);
    CalledMayCall(d, d.stack[|d.stack| - 1].list);
  }

  /** A turn that calls nothing, or a user callback. */
  lemma {:induction false} PlainLess(d: Deferred, list: Cb.State<Action, Value>, user: bool)
    requires |d.lists| == 6 && d.stack != [] && d.stack[|d.stack| - 1].list < 6
    requires Cb.TurnsLeft(list) == Cb.TurnsLeft(d.lists[d.stack[|d.stack| - 1].list]) - 1
    ensures |Replace(d, list, user).lists| == 6 && Less(Replace(d, list, user), d)
  {
    ReplaceWork(d, list, user);
  }

  /** A turn that calls one of the Deferred's own callbacks. */
  lemma {:induction false} OwnLess(d: Deferred, list: Cb.State<Action, Value>, begun: nat, action: Action, value: Value)
    requires |d.lists| == 6 && d.stack != [] && d.stack[|d.stack| - 1].list < 3
    requires Cb.TurnsLeft(list) == Cb.TurnsLeft(d.lists[d.stack[|d.stack| - 1].list]) - 1
    requires action.FireHandlers? ==> action.list >= 3
    ensures var d' := Perform(Replace(d, list, false).(begun := begun), d.stack[|d.stack| - 1].list, action, value);
            |d'.lists| == 6 && Less(d', d)
  {
    ReplaceWork(d, list, false);
    PerformWork(Replace(d, list, false).(begun := begun), d.stack[|d.stack| - 1].list, action, value);
  }

  lemma {:induction false} StepLess(d: Deferred)
    requires Inv(d) && d.stack != []
    ensures |DoStep(d).lists| == 6 && Less(DoStep(d), d)
  {
    var i := d.stack[|d.stack| - 1].list;
    TopTurn(d);
    Cb.TurnCounts(d.lists[i]);
    StepLessOf(d, i);
  }

  lemma {:induction false} StepLessOf(d: Deferred, i: nat)
    requires |d.lists| == 6 && d.stack != [] && d.stack[|d.stack| - 1].list == i < 6
    requires Cb.TurnsLeft(Cb.DoNext(d.lists[i])) == Cb.TurnsLeft(d.lists[i]) - 1
    requires var called := Cb.Calls(d.lists[i]);
             called.Some? && !called.value.callback.User? ==>
               i < 3 && (called.value.callback.FireHandlers? ==> called.value.callback.list >= 3)
    ensures |DoStep(d).lists| == 6 && Less(DoStep(d), d)
  {
    var called, list := Cb.Calls(d.lists[i]), Cb.DoNext(d.lists[i]);
    StepIs(d, i);
    if called.Some? && !called.value.callback.User? {
      OwnLess(d, list, if i % 3 != 0 then d.begun + 1 else d.begun, called.value.callback, d.lists[i].memory.value);
    } else {
      PlainLess(d, list, called.Some?);
    }
  }

  function Steps(n: nat): seq<Op> {
    if n == 0 then [] else [Step] + Steps(n - 1)
  }

  lemma {:induction false} StepsMore(d: Deferred, n: nat)
    requires |d.lists| == 6
    ensures |DoStep(d).lists| == 6 && Run(d, Steps(n + 1)) == Run(DoStep(d), Steps(n))
  {
    ApplySize(d, Step);
    assert Steps(n + 1)[1..] == Steps(n);
  }

  lemma {:induction false} StepOn(d: Deferred)
    requires Inv(d) && d.stack != []
    ensures |d.lists| == 6 && |DoStep(d).lists| == 6 && Less(DoStep(d), d) && Inv(DoStep(d))
  {
    StepLess(d);
    ApplyKeeps(d, Step);
  }

  /** From every reachable state the loops in progress come to an end, if the user's callbacks make no further calls. */
  lemma {:induction false} ComesToRest(d: Deferred) returns (n: nat)
    requires Inv(d)
    ensures Run(d, Steps(n)).stack == []
    decreases Work(d, 0), Work(d, 3)
  {
    n := 0;
    if d.stack != [] {
      StepOn(d);
      n := ComesToRest(DoStep(d));
      StepsMore(d, n);
      n := n + 1;
    }
  }

  // ---------- Progress ----------

  type Callbacks = Cb.State<Action, Value>

  function NotifyOf(d: Deferred, op: Op): seq<Value> {
    if op.Send? && op.kind == 0 && UserMayCall(d) then [op.value] else []
  }

  /** The values that the run notifies, in order. */
  function Notifies(d: Deferred, ops: seq<Op>): seq<Value>
    requires |d.lists| == 6
    decreases |ops|
  {
    if ops == [] then []
    else
      ApplySize(d, ops[0]);
      NotifyOf(d, ops[0]) + Notifies(Apply(d, ops[0]), ops[1..])
  }

  /** Registration 0 of the progress list fires the handlers, and no other one does. */
  ghost predicate FirstFires(s: Callbacks) {
    s.list.Some? ==> forall k :: 0 <= k < |s.list.value| ==>
      (s.list.value[k].callback == FireHandlers(3) <==> s.list.value[k].ticket == 0)
  }

  /** The progress list: what it was sent, and what its first callback was called with. */
  ghost predicate Source(s: Callbacks, values: seq<Value>, passed: seq<Value>) {
    && Cb.Inv(s) && !s.locked && !s.options.once && s.history.sent == values
    && FirstFires(s) && Cb.NoneLost(s)
    && s.history.seen != [] && s.history.seen[0] == passed && s.history.start != [] && s.history.start[0] == 0
  }

  /** The list of the progress handlers, and what it was sent. */
  ghost predicate Sink(s: Callbacks, passed: seq<Value>) {
    !s.locked && !s.options.once && s.history.sent == passed
  }

  ghost predicate Passing(d: Deferred, values: seq<Value>, passed: seq<Value>) {
    |d.lists| == 6 && d.first.None? && Source(d.lists[0], values, passed) && Sink(d.lists[3], passed)
  }

  lemma {:induction false} SourceListens(s: Callbacks, values: seq<Value>, passed: seq<Value>, id: nat)
    requires Source(s, values, passed)
    ensures Source(Cb.DoAdd(s, [User(id)]), values, passed)
  {
    Cb.AddKeeps(s, [User(id)]);
    Cb.NoneLostKeeps(s, Cb.Add([User(id)]));
  }

  lemma {:induction false} SourceFires(s: Callbacks, values: seq<Value>, passed: seq<Value>, v: Value)
    requires Source(s, values, passed)
    ensures Source(Cb.DoFireWith(s, v), values + [v], passed)
  {
    Cb.FireWithKeeps(s, v);
    Cb.NoneLostKeeps(s, Cb.FireWith(v));
  }

  lemma {:induction false} SourceTurns(s: Callbacks, values: seq<Value>, passed: seq<Value>)
    requires Source(s, values, passed) && s.firing
    ensures var called := Cb.Calls(s);
            Source(Cb.DoNext(s), values,
                   if called.Some? && called.value.callback == FireHandlers(3) then passed + [s.memory.value] else passed)
  {
    Cb.ApplyKeeps(s, Cb.Next);
    Cb.NoneLostKeeps(s, Cb.Next);
  }

  lemma {:induction false} SinkListens(s: Callbacks, passed: seq<Value>, id: nat)
    requires Sink(s, passed)
    ensures Sink(Cb.DoAdd(s, [User(id)]), passed)
  {
  }

  lemma {:induction false} SinkFires(s: Callbacks, passed: seq<Value>, v: Value)
    requires Sink(s, passed)
    ensures Sink(Cb.DoFireWith(s, v), passed + [v])
  {
  }

  lemma {:induction false} SinkTurns(s: Callbacks, passed: seq<Value>)
    requires Sink(s, passed)
    ensures Sink(Cb.DoNext(s), passed)
  {
  }

  lemma {:induction false} ListenPasses(d: Deferred, values: seq<Value>, passed: seq<Value>, i: nat, id: nat)
    requires Passing(d, values, passed) && i < 6
    ensures Passing(Update(d, i, Cb.DoAdd(d.lists[i], [User(id)])), values, passed)
  {
    SourceListens(d.lists[0], values, passed, id);
    SinkListens(d.lists[3], passed, id);
  }

  lemma {:induction false} NotifyPasses(d: Deferred, values: seq<Value>, passed: seq<Value>, v: Value)
    requires Passing(d, values, passed)
    ensures Passing(Update(d, 0, Cb.DoFireWith(d.lists[0], v)), values + [v], passed)
  {
    SourceFires(d.lists[0], values, passed, v);
  }

  lemma {:induction false} TurnPasses(d: Deferred, values: seq<Value>, passed: seq<Value>, i: nat, user: bool)
    requires Passing(d, values, passed) && d.stack != [] && d.stack[|d.stack| - 1].list == i < 6
    requires i == 0 ==> d.lists[0].firing && !(Cb.Calls(d.lists[0]).Some? && Cb.Calls(d.lists[0]).value.callback == FireHandlers(3))
    ensures Passing(Replace(d, Cb.DoNext(d.lists[i]), user), values, passed)
  {
    if i == 0 { SourceTurns(d.lists[0], values, passed); }
    SinkTurns(d.lists[3], passed);
  }

  /** The first callback of the progress list hands its value on to the handlers. */
  lemma {:induction false} HandOver(d: Deferred, values: seq<Value>, passed: seq<Value>)
    requires Passing(d, values, passed) && d.stack != [] && d.stack[|d.stack| - 1].list == 0 && d.lists[0].firing
    requires Cb.Calls(d.lists[0]).Some? && Cb.Calls(d.lists[0]).value.callback == FireHandlers(3)
    ensures var d', v := Replace(d, Cb.DoNext(d.lists[0]), false), d.lists[0].memory.value;
            |d'.lists| == 6 && Passing(Update(d', 3, Cb.DoFireWith(d'.lists[3], v)), values, passed + [v])
  {
    SourceTurns(d.lists[0], values, passed);
    SinkFires(d.lists[3], passed, d.lists[0].memory.value);
  }

  lemma {:induction false} StepPasses(d: Deferred, values: seq<Value>, passed: seq<Value>) returns (passed': seq<Value>)
    requires Inv(d) && Passing(d, values, passed)
    ensures Passing(DoStep(d), values, passed')
  {
    passed' := passed;
    if d.stack != [] {
      var i := d.stack[|d.stack| - 1].list;
      QuietTurn(d, i);
      QuietStep(d, i);
      var called := Cb.Calls(d.lists[i]);
      if called.Some? && !called.value.callback.User? {
        HandOver(d, values, passed);
        passed' := passed + [d.lists[0].memory.value];
      } else {
        TurnPasses(d, values, passed, i, called.Some?);
      }
    }
  }

  lemma {:induction false} OpPasses(d: Deferred, op: Op, values: seq<Value>, passed: seq<Value>) returns (passed': seq<Value>)
    requires Inv(d) && Passing(d, values, passed) && Apply(d, op).first.None?
    ensures Passing(Apply(d, op), values + NotifyOf(d, op), passed')
  {
    passed' := passed;
    assert values + [] == values;
    match op
    case Listen(i, id) => if i < 6 && UserMayCall(d) { ListenPasses(d, values, passed, i, id); }
    case Send(kind, v) => if kind == 0 && UserMayCall(d) { NotifyPasses(d, values, passed, v); }
    case Step => passed' := StepPasses(d, values, passed);
  }

  lemma {:induction false} StillUnsettled(d: Deferred, ops: seq<Op>)
    requires |d.lists| == 6 && Run(d, ops).first.None?
    ensures d.first.None?
  {
    if d.first.Some? { FirstStays(d, ops); }
  }

  lemma Joins(a: seq<Value>, b: seq<Value>, c: seq<Value>)
    ensures a + b + c == a + (b + c)
  {
  }

  /** A state of the run, with the values notified so far and those handed on. */
  ghost predicate Underway(d: Deferred, values: seq<Value>, passed: seq<Value>) {
    Inv(d) && Passing(d, values, passed)
  }

  lemma {:induction false} OpUnderway(d: Deferred, op: Op, values: seq<Value>, passed: seq<Value>) returns (passed': seq<Value>)
    requires Underway(d, values, passed) && Apply(d, op).first.None?
    ensures Underway(Apply(d, op), values + NotifyOf(d, op), passed')
  {
    ApplyKeeps(d, op);
    passed' := OpPasses(d, op, values, passed);
  }

  lemma {:induction false} RunPasses(d: Deferred, ops: seq<Op>, values: seq<Value>, passed: seq<Value>)
      returns (passed': seq<Value>)
    requires |d.lists| == 6 && Underway(d, values, passed) && Run(d, ops).first.None?
    ensures Underway(Run(d, ops), values + Notifies(d, ops), passed')
    decreases |ops|
  {
    passed' := passed;
    if ops == [] {
      assert values + [] == values;
    } else {
      ApplySize(d, ops[0]);
      StillUnsettled(Apply(d, ops[0]), ops[1..]);
      passed' := OpUnderway(d, ops[0], values, passed);
      passed' := RunPasses(Apply(d, ops[0]), ops[1..], values + NotifyOf(d, ops[0]), passed');
      Joins(values, NotifyOf(d, ops[0]), Notifies(Apply(d, ops[0]), ops[1..]));
    }
  }

  lemma {:induction false} FreshSource()
    ensures Source(Fresh(0), [], []) && Sink(Fresh(3), [])
  {
    FreshPlays(0);
    assert Fresh(0).list.value[0].ticket == 0;
    assert Cb.LiveTicket(Fresh(0), 0);
  }

  lemma {:induction false} InitPasses()
    ensures Underway(Init(), [], [])
  {
    InitInv();
    FreshSource();
  }

  lemma {:induction false} PassedAtRest(d: Deferred, values: seq<Value>, passed: seq<Value>)
    requires Underway(d, values, passed) && d.stack == []
    ensures d.lists[0].history.fired == values && d.lists[3].history.fired == values
  {
    PartAt(d.lists, d.first, d.begun, 6, 3);
    assert !d.lists[0].firing && !d.lists[3].firing;
    Cb.NoneLostSeen(d.lists[0], 0);
  }

  /**
    As long as the Deferred is not settled, when all is quiet both the progress callbacks and the progress handlers of
    `then` have been fired with exactly the values notified, in order; see the law of the list for what each one saw.
  */
  lemma ProgressLaw(ops: seq<Op>)
    requires Run(Init(), ops).stack == [] && FirstSettling(Init(), ops).None?
    ensures var d, values := Run(Init(), ops), Notifies(Init(), ops);
            d.lists[0].history.fired == values && d.lists[3].history.fired == values
  {
    InitPasses();
    FirstOfRun(Init(), ops);
    var passed := RunPasses(Init(), ops, [], []);
    assert [] + Notifies(Init(), ops) == Notifies(Init(), ops);
    PassedAtRest(Run(Init(), ops), Notifies(Init(), ops), passed);
  }

  /** Once the Deferred's own callbacks have got that far, the two progress lists are locked. */
  ghost predicate Shut(d: Deferred) {
    && |d.lists| == 6
    && (d.first.Some? && d.begun >= 4 ==> Cb.Closed(d.lists[0]))
    && (d.first.Some? && d.begun >= 5 ==> Cb.Closed(d.lists[3]))
  }

  lemma {:induction false} StaysClosed(d: Deferred, op: Op, i: nat)
    requires |d.lists| == 6 && i < 6 && Cb.Closed(d.lists[i])
    ensures |Apply(d, op).lists| == 6 && Cb.Closed(Apply(d, op).lists[i])
    ensures Apply(d, op).lists[i].history.fired == d.lists[i].history.fired
  {
    ApplySize(d, op);
    var listOps := OpLists(d, op, i);
    Cb.LockedForGood(d.lists[i], listOps);
  }

  lemma {:induction false} OwnShuts(d: Deferred, kind: nat, v: Value)
    requires Inv(d) && d.first == Some((kind, v)) && (d.begun == 3 || d.begun == 4)
    ensures |DoStep(d).lists| == 6 && DoStep(d).begun == d.begun + 1
    ensures Cb.Closed(DoStep(d).lists[if d.begun == 3 then 0 else 3])
  {
    OwnStepActs(d, kind, v);
    ActedCloses(OwnBegun(d, Cb.DoNext(d.lists[kind])), d.lists[Acted(kind, d.begun)], Acted(kind, d.begun), d.begun, v);
  }

  lemma {:induction false} OwnStepActs(d: Deferred, kind: nat, v: Value)
    requires Inv(d) && d.first == Some((kind, v)) && (d.begun == 3 || d.begun == 4)
    ensures d.stack != [] && d.stack[|d.stack| - 1].list < |d.lists| == 6 && 0 < kind < 3
    ensures var j, began := Acted(kind, d.begun), OwnBegun(d, Cb.DoNext(d.lists[kind]));
            && |began.lists| == 6 && began.begun == d.begun + 1
            && DoStep(d) == Update(began, j, ActedList(d.lists[j], d.begun, v))
  {
    OwnReady(d, kind, v);
    OwnTurn(d, kind, v);
    OwnActs(d, kind, v, Cb.DoNext(d.lists[kind]));
  }

  lemma {:induction false} ActedCloses(began: Deferred, s: Callbacks, j: nat, begun: nat, v: Value)
    requires |began.lists| == 6 && j < 6 && (begun == 3 || begun == 4)
    ensures var d' := Update(began, j, ActedList(s, begun, v));
            |d'.lists| == 6 && d'.begun == began.begun && Cb.Closed(d'.lists[j])
  {
  }

  lemma {:induction false} BegunStep(d: Deferred, op: Op)
    requires |d.lists| == 6
    ensures Apply(d, op).begun <= d.begun + 1 && (Apply(d, op).begun != d.begun ==> op == Step)
  {
  }

  lemma {:induction false} ShutKeeps(d: Deferred, op: Op)
    requires Inv(d) && Shut(d)
    ensures Shut(Apply(d, op))
  {
    ApplySize(d, op);
    BegunStep(d, op);
    if Cb.Closed(d.lists[0]) { StaysClosed(d, op, 0); }
    if Cb.Closed(d.lists[3]) { StaysClosed(d, op, 3); }
    if d.first.Some? {
      if op == Step && (d.begun == 3 || d.begun == 4) { OwnShuts(d, d.first.value.0, d.first.value.1); }
    } else {
      UnsettledBegun(d, op);
    }
  }

  lemma {:induction false} UnsettledBegun(d: Deferred, op: Op)
    requires Inv(d) && d.first.None?
    ensures Apply(d, op).first.None? || Apply(d, op).begun == 0
  {
    NoneBegun(d);
    SendKeepsBegun(d, op);
  }

  lemma {:induction false} NoneBegun(d: Deferred)
    requires Stage(d) && d.first.None?
    ensures d.begun == 0
  {
  }

  lemma {:induction false} SendKeepsBegun(d: Deferred, op: Op)
    requires |d.lists| == 6 && d.first.None? && d.begun == 0
    ensures Apply(d, op).first.None? || Apply(d, op).begun == 0
  {
    BegunStep(d, op);
    if op == Step { FirstOfStep(d, op); }
  }

  lemma {:induction false} RunShut(d: Deferred, ops: seq<Op>)
    requires Inv(d) && Shut(d)
    ensures Inv(Run(d, ops)) && Shut(Run(d, ops))
    decreases |ops|
  {
    if ops != [] {
      ApplyKeeps(d, ops[0]);
      ShutKeeps(d, ops[0]);
      RunShut(Apply(d, ops[0]), ops[1..]);
    }
  }

  lemma {:induction false} ClosedRun(d: Deferred, ops: seq<Op>, i: nat)
    requires |d.lists| == 6 && i < 6 && Cb.Closed(d.lists[i])
    ensures Run(d, ops).lists[i].history.fired == d.lists[i].history.fired
    decreases |ops|
  {
    if ops != [] {
      StaysClosed(d, ops[0], i);
      ClosedRun(Apply(d, ops[0]), ops[1..], i);
    }
  }

  lemma {:induction false} SettledShut(d: Deferred)
    requires Inv(d) && Shut(d) && d.first.Some? && UserMayCall(d)
    ensures Cb.Closed(d.lists[0]) && Cb.Closed(d.lists[3])
  {
  }

  /** From the first moment after settlement at which user code runs, `notify` is without effect for good. */
  lemma NoProgressAfterwards(ops: seq<Op>, later: seq<Op>)
    requires FirstSettling(Init(), ops).Some? && UserMayCall(Run(Init(), ops))
    ensures var d := Run(Init(), ops);
            && Run(d, later).lists[0].history.fired == d.lists[0].history.fired
            && Run(d, later).lists[3].history.fired == d.lists[3].history.fired
  {
    InitInv();
    FirstOfRun(Init(), ops);
    RunShut(Init(), ops);
    SettledShut(Run(Init(), ops));
    ClosedRun(Run(Init(), ops), later, 0);
    ClosedRun(Run(Init(), ops), later, 3);
  }
}
