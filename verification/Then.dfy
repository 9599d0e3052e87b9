/**
  The promise made by `then`: closures numbered by depth feed it, and `maxDepth` decides which of them still
  counts.  Its reference is the resolution procedure of Promises/A+ (sections 2.3.3.3.1 to 2.3.3.3.4), where
  each adopted thenable carries a flag that says whether one of its two functions has been called.

  A closure first checks its depth, then runs foreign code (its handler, and a getter named `then`), and takes effect
  afterwards; the `then` method of an adopted thenable is called last.  Further calls may be made in between, so a
  state holds the stack of the calls in progress.
*/
module Then {
  import opened Common

  type Value = int

  /** The reason used when a handler returns the very promise it feeds. */
  const SELF_RESOLUTION: Value := -1

  /** What a handler returned: an ordinary value, the promise itself, a thenable, or an object whose `then` throws. */
  datatype Returned = Plain(v: Value) | Self | Thenable(id: nat) | BadThen(e: Value)

  datatype Result = Return(x: Returned) | Throw(e: Value)

  datatype Outcome = Fulfilled(v: Value) | Rejected(e: Value)

  /**
    `Begin` is a call of the resolve or reject closure made at a depth, up to its check; `End` says what its handler
    did, and the closure takes effect; `ThenEnds` is the end of the `then` method it has called, if it has called one,
    with the exception thrown.  `Notify` is a progress closure.
  */
  datatype Op = Begin(depth: nat) | End(result: Result) | ThenEnds(exception: Option<Value>) | Notify(depth: nat, result: Result)

  /** A call in progress, before its effect or calling a `then` method; without a number it has failed its check. */
  datatype Frame = Checking(number: Option<nat>) | Calling(number: Option<nat>)

  datatype State = State(
    maxDepth: nat,
    outcome: Option<Outcome>,
    stack: seq<Frame>,
    // not variables of the source: whether the original promise has called back, as it does once; whose `then` was
    // called; and the values passed to `notifyWith`
    started: bool,
    called: seq<nat>,
    notified: seq<Value>)

  function Init(): State {
    State(0, None, [], false, [], [])
  }

  /** `resolveWith` or `rejectWith` of the new Deferred, which keeps its first outcome. */
  function Settle(s: State, o: Outcome): State {
    if s.outcome.None? then s.(outcome := Some(o)) else s
  }

  /** The `catch` of `process`. */
  function Caught(s: State, depth: nat, e: Value): State {
    if depth + 1 >= s.maxDepth then Settle(s, Rejected(e)) else s
  }

  predicate Adopts(result: Result) {
    result.Return? && result.x.Thenable?
  }

  function Push(s: State, frame: Frame): State {
    s.(stack := s.stack + [frame])
  }

  function DoBegin(s: State, depth: nat): State {
    Push(s, Checking(if depth < s.maxDepth then None else Some(depth))).(started := true)
  }

  /** The effect of a closure that has passed its check. */
  function Effect(s: State, depth: nat, result: Result): State {
    match result
    case Throw(e) => Caught(s, depth, e)
    case Return(Self) => Caught(s, depth, SELF_RESOLUTION)
    case Return(BadThen(e)) => Caught(s, depth, e)
    case Return(Thenable(id)) => Push(s.(maxDepth := s.maxDepth + 1, called := s.called + [id]), Calling(Some(depth)))
    case Return(Plain(v)) => Settle(s, Fulfilled(v))
  }

  function DoEnd(s: State, result: Result): State {
    if s.stack == [] then s
    else
      var below := s.(stack := s.stack[..|s.stack| - 1]);
      match s.stack[|s.stack| - 1]
      case Checking(Some(depth)) => Effect(below, depth, result)
      case Checking(None) => if Adopts(result) then Push(below, Calling(None)) else below
      case Calling(_) => s
  }

  function DoThenEnds(s: State, exception: Option<Value>): State {
    if s.stack == [] then s
    else
      var below := s.(stack := s.stack[..|s.stack| - 1]);
      match s.stack[|s.stack| - 1]
      case Calling(Some(depth)) => if exception.Some? then Caught(below, depth, exception.value) else below
      case Calling(None) => below
      case Checking(_) => s
  }

  function DoNotify(s: State, depth: nat, result: Result): State {
    if depth < s.maxDepth || s.outcome.Some? then s
    else
      match result
      case Return(Plain(v)) => s.(notified := s.notified + [v])
      case _ => s
  }

  /** Closures exist for the depths up to `maxDepth`; the original promise calls one of those at depth 0, once. */
  predicate Possible(s: State, op: Op) {
    match op
    case Begin(depth) => depth <= s.maxDepth && (depth == 0 ==> !s.started)
    case End(_) => s.stack != [] && s.stack[|s.stack| - 1].Checking?
    case ThenEnds(_) => s.stack != [] && s.stack[|s.stack| - 1].Calling?
    case Notify(depth, _) => depth <= s.maxDepth
  }

  function Apply(s: State, op: Op): State {
    match op
    case Begin(depth) => DoBegin(s, depth)
    case End(result) => DoEnd(s, result)
    case ThenEnds(exception) => DoThenEnds(s, exception)
    case Notify(depth, result) => DoNotify(s, depth, result)
  }

  function Run(s: State, ops: seq<Op>): State
    decreases |ops|
  {
    if ops == [] then s else Run(Apply(s, ops[0]), ops[1..])
  }

  /** A closure that has passed its check and not yet taken effect. */
  predicate Open(frame: Frame) {
    frame.Checking? && frame.number.Some?
  }

  predicate HasOpen(stack: seq<Frame>) {
    stack != [] && (Open(stack[|stack| - 1]) || HasOpen(stack[..|stack| - 1]))
  }

  /** The call passes its check although another one, still without effect, has passed it before. */
  predicate Interrupts(s: State, op: Op) {
    op.Begin? && op.depth >= s.maxDepth && s.outcome.None? && HasOpen(s.stack)
  }

  /** A possible run in which no closure passes its check between the check of another one and its effect. */
  predicate Uninterrupted(s: State, ops: seq<Op>)
    decreases |ops|
  {
    ops == [] || (Possible(s, ops[0]) && !Interrupts(s, ops[0]) && Uninterrupted(Apply(s, ops[0]), ops[1..]))
  }

  // ---------- The resolution procedure of Promises/A+ ----------

  /**
    One flag per source of a resolution: the original promise, then each adopted thenable in turn.  The standard does
    not know of progress; here a value counts when the newest source reports it before the promise is settled.
  */
  datatype Reference = Reference(used: seq<bool>, outcome: Option<Outcome>, stack: seq<Frame>, notified: seq<Value>)

  /** The first call of source `k` takes precedence, and any further calls are ignored. */
  function ReferenceBegin(r: Reference, k: nat): Reference {
    if k < |r.used| && !r.used[k] then r.(used := r.used[k := true], stack := r.stack + [Checking(Some(k))])
    else r.(stack := r.stack + [Checking(None)])
  }

  function ReferenceEnd(r: Reference, result: Result): Reference {
    if r.stack == [] then r
    else
      var below := r.(stack := r.stack[..|r.stack| - 1]);
      match r.stack[|r.stack| - 1]
      case Checking(Some(_)) =>
        (match result
         case Throw(e) => below.(outcome := Some(Rejected(e)))
         case Return(Self) => below.(outcome := Some(Rejected(SELF_RESOLUTION)))
         case Return(BadThen(e)) => below.(outcome := Some(Rejected(e)))
         case Return(Thenable(_)) => below.(used := r.used + [false], stack := below.stack + [Calling(Some(|r.used|))])
         case Return(Plain(v)) => below.(outcome := Some(Fulfilled(v))))
      case Checking(None) => if Adopts(result) then below.(stack := below.stack + [Calling(None)]) else below
      case Calling(_) => r
  }

  /** An exception of a thenable's `then` rejects unless one of the thenable's two functions has been called. */
  function ReferenceThenEnds(r: Reference, exception: Option<Value>): Reference {
    if r.stack == [] then r
    else
      var below := r.(stack := r.stack[..|r.stack| - 1]);
      match r.stack[|r.stack| - 1]
      case Calling(Some(k)) =>
        if exception.Some? && k < |r.used| && !r.used[k]
        then below.(used := r.used[k := true], outcome := Some(Rejected(exception.value))) else below
      case Calling(None) => below
      case Checking(_) => r
  }

  function ApplyReference(r: Reference, op: Op): Reference {
    match op
    case Begin(depth) => ReferenceBegin(r, depth)
    case End(result) => ReferenceEnd(r, result)
    case ThenEnds(exception) => ReferenceThenEnds(r, exception)
    case Notify(depth, result) =>
      if r.outcome.None? && depth + 1 == |r.used| && result.Return? && result.x.Plain?
      then r.(notified := r.notified + [result.x.v]) else r
  }

  function RunReference(r: Reference, ops: seq<Op>): Reference
    decreases |ops|
  {
    if ops == [] then r else RunReference(ApplyReference(r, ops[0]), ops[1..])
  }

  function InitReference(): Reference {
    Reference([false], None, [], [])
  }

  /**
    While the promise is pending the calls in progress agree: depth `d` is source `d`, and the thenable adopted at depth
    `d` is source `d + 1`.  At most one closure has passed its check, at the current depth, and none above it counts.
  */
  ghost predicate Paired(stack: seq<Frame>, other: seq<Frame>, maxDepth: nat, open: bool) {
    if stack == [] || other == [] then stack == other && !open
    else
      var f, g := stack[|stack| - 1], other[|other| - 1];
      var below, below' := stack[..|stack| - 1], other[..|other| - 1];
      if f.number.None? then f == g && Paired(below, below', maxDepth, open)
      else if f.Checking? then open && f == g == Checking(Some(maxDepth)) && Paired(below, below', maxDepth, false)
      else
        !open && f.number.value < maxDepth && g == Calling(Some(f.number.value + 1)) && Paired(below, below', maxDepth, false)
  }

  /** Once it is settled they are of the same kind, and none counts for the standard. */
  ghost predicate Idle(stack: seq<Frame>, other: seq<Frame>) {
    if stack == [] || other == [] then stack == other
    else
      var f, g := stack[|stack| - 1], other[|other| - 1];
      (f.Checking? <==> g.Checking?) && !Open(g) && Idle(stack[..|stack| - 1], other[..|other| - 1])
  }

  /** While the promise is pending both count the same depth; once it is settled every source is used. */
  ghost predicate InStep(s: State, r: Reference) {
    && s.outcome == r.outcome && s.notified == r.notified
    && (if s.outcome.None? then
          && |r.used| == s.maxDepth + 1
          && (forall k :: 0 <= k < s.maxDepth ==> r.used[k])
          && Paired(s.stack, r.stack, s.maxDepth, r.used[s.maxDepth])
        else
          (forall k :: 0 <= k < |r.used| ==> r.used[k]) && Idle(s.stack, r.stack))
  }

  lemma {:induction false} PairedOpen(stack: seq<Frame>, other: seq<Frame>, maxDepth: nat, open: bool)
    requires Paired(stack, other, maxDepth, open)
    ensures open <==> HasOpen(stack)
    decreases |stack|
  {
    if stack != [] {
      var f := stack[|stack| - 1];
      PairedOpen(stack[..|stack| - 1], other[..|other| - 1], maxDepth, open && f.number.None?);
    }
  }

  lemma {:induction false} PairedDeeper(stack: seq<Frame>, other: seq<Frame>, maxDepth: nat)
    requires Paired(stack, other, maxDepth, false)
    ensures Paired(stack, other, maxDepth + 1, false)
    decreases |stack|
  {
    if stack != [] { PairedDeeper(stack[..|stack| - 1], other[..|other| - 1], maxDepth); }
  }

  lemma {:induction false} PairedIdle(stack: seq<Frame>, other: seq<Frame>, maxDepth: nat)
    requires Paired(stack, other, maxDepth, false)
    ensures Idle(stack, other)
    decreases |stack|
  {
    if stack != [] { PairedIdle(stack[..|stack| - 1], other[..|other| - 1], maxDepth); }
  }

  lemma {:induction false} Pops(stack: seq<Frame>, f: Frame)
    ensures (stack + [f])[..|stack|] == stack && (stack + [f])[|stack|] == f
  {
  }

  /** A call without effect on either side. */
  lemma {:induction false} PushInStep(s: State, r: Reference, f: Frame, g: Frame)
    requires InStep(s, r) && (f.Checking? <==> g.Checking?) && !Open(g)
    requires s.outcome.None? ==> f == g && f.number.None?
    ensures InStep(Push(s, f), r.(stack := r.stack + [g]))
  {
    Pops(s.stack, f);
    Pops(r.stack, g);
  }

  lemma {:induction false} BeginInStep(s: State, r: Reference, depth: nat)
    requires InStep(s, r) && Possible(s, Begin(depth)) && !Interrupts(s, Begin(depth))
    ensures InStep(DoBegin(s, depth), ReferenceBegin(r, depth))
  {
    if s.outcome.None? && depth == s.maxDepth {
      PairedOpen(s.stack, r.stack, s.maxDepth, r.used[s.maxDepth]);
      Pops(s.stack, Checking(Some(depth)));
      Pops(r.stack, Checking(Some(depth)));
    } else {
      PushInStep(s.(started := true), r, Checking(if depth < s.maxDepth then None else Some(depth)), Checking(None));
    }
  }

  /** Both stacks lose their top, which did not count. */
  lemma {:induction false} PopInStep(s: State, r: Reference)
    requires InStep(s, r) && s.stack != [] && (s.outcome.None? ==> s.stack[|s.stack| - 1].number.None?)
    ensures r.stack != [] && InStep(s.(stack := s.stack[..|s.stack| - 1]), r.(stack := r.stack[..|r.stack| - 1]))
    ensures s.stack[|s.stack| - 1].Checking? <==> r.stack[|r.stack| - 1].Checking?
    ensures !Open(r.stack[|r.stack| - 1])
    ensures s.outcome.None? ==> s.stack[|s.stack| - 1] == r.stack[|r.stack| - 1]
  {
  }

  lemma {:induction false} FailedEnds(s: State, r: Reference, result: Result)
    requires InStep(s, r) && Possible(s, End(result)) && s.outcome.None? && !Open(s.stack[|s.stack| - 1])
    ensures InStep(DoEnd(s, result), ReferenceEnd(r, result))
  {
    PopInStep(s, r);
    if Adopts(result) {
      PushInStep(s.(stack := s.stack[..|s.stack| - 1]), r.(stack := r.stack[..|r.stack| - 1]), Calling(None), Calling(None));
    }
  }

  /** After the settlement it does not matter how a call ends. */
  lemma {:induction false} SettledEnds(s: State, r: Reference, result: Result)
    requires InStep(s, r) && Possible(s, End(result)) && s.outcome.Some?
    ensures InStep(DoEnd(s, result), ReferenceEnd(r, result))
  {
    PopInStep(s, r);
    if Adopts(result) {
      var s', r' := s.(stack := s.stack[..|s.stack| - 1]), r.(stack := r.stack[..|r.stack| - 1]);
      PushInStep(s', r', Calling(s.stack[|s.stack| - 1].number), Calling(None));
    }
  }

  /** The closure that has passed its check adopts a thenable, which becomes the newest source. */
  lemma {:induction false} AdoptionEnds(s: State, r: Reference, id: nat)
    requires InStep(s, r) && Possible(s, End(Return(Thenable(id)))) && s.outcome.None? && Open(s.stack[|s.stack| - 1])
    ensures InStep(DoEnd(s, Return(Thenable(id))), ReferenceEnd(r, Return(Thenable(id))))
  {
    var below, below' := s.stack[..|s.stack| - 1], r.stack[..|r.stack| - 1];
    PairedDeeper(below, below', s.maxDepth);
    Pops(below, Calling(Some(s.maxDepth)));
    Pops(below', Calling(Some(s.maxDepth + 1)));
  }

  lemma {:induction false} SettlementEnds(s: State, r: Reference, result: Result)
    requires InStep(s, r) && Possible(s, End(result)) && s.outcome.None? && Open(s.stack[|s.stack| - 1]) && !Adopts(result)
    ensures InStep(DoEnd(s, result), ReferenceEnd(r, result))
  {
    PairedIdle(s.stack[..|s.stack| - 1], r.stack[..|r.stack| - 1], s.maxDepth);
  }

  lemma {:induction false} EndInStep(s: State, r: Reference, result: Result)
    requires InStep(s, r) && Possible(s, End(result))
    ensures InStep(DoEnd(s, result), ReferenceEnd(r, result))
  {
    if s.outcome.Some? {
      SettledEnds(s, r, result);
    } else if !Open(s.stack[|s.stack| - 1]) {
      FailedEnds(s, r, result);
    } else if Adopts(result) {
      AdoptionEnds(s, r, result.x.id);
    } else {
      SettlementEnds(s, r, result);
    }
  }

  /** An exception counts on both sides or on neither: no closure has passed its check since `then` was called. */
  lemma {:induction false} ThenThrows(s: State, r: Reference, e: Value)
    requires InStep(s, r) && Possible(s, ThenEnds(Some(e))) && s.outcome.None? && s.stack[|s.stack| - 1].number.Some?
    ensures InStep(DoThenEnds(s, Some(e)), ReferenceThenEnds(r, Some(e)))
  {
    PairedIdle(s.stack[..|s.stack| - 1], r.stack[..|r.stack| - 1], s.maxDepth);
  }

  lemma {:induction false} ThenEndsInStep(s: State, r: Reference, exception: Option<Value>)
    requires InStep(s, r) && Possible(s, ThenEnds(exception))
    ensures InStep(DoThenEnds(s, exception), ReferenceThenEnds(r, exception))
  {
    if s.outcome.None? && s.stack[|s.stack| - 1].number.Some? {
      if exception.Some? { ThenThrows(s, r, exception.value); }
    } else {
      PopInStep(s, r);
    }
  }

  lemma {:induction false} StepInStep(s: State, r: Reference, op: Op)
    requires InStep(s, r) && Possible(s, op) && !Interrupts(s, op)
    ensures InStep(Apply(s, op), ApplyReference(r, op))
  {
    match op
    case Begin(depth) => BeginInStep(s, r, depth);
    case End(result) => EndInStep(s, r, result);
    case ThenEnds(exception) => ThenEndsInStep(s, r, exception);
    case Notify(depth, result) => assert Apply(s, op) == s.(notified := Apply(s, op).notified);
  }

  lemma {:induction false} RunInStep(s: State, r: Reference, ops: seq<Op>)
    requires InStep(s, r) && Uninterrupted(s, ops)
    ensures InStep(Run(s, ops), RunReference(r, ops))
    decreases |ops|
  {
    if ops != [] {
      StepInStep(s, r, ops[0]);
      RunInStep(Apply(s, ops[0]), ApplyReference(r, ops[0]), ops[1..]);
    }
  }

  /**
    For every order of calls and exceptions in which no closure passes its check between the check of another one and
    its effect, the depth counter gives the outcome the standard prescribes, and notifies what the newest source reports.
  */
  lemma FollowsStandard(ops: seq<Op>)
    requires Uninterrupted(Init(), ops)
    ensures Run(Init(), ops).outcome == RunReference(InitReference(), ops).outcome
    ensures Run(Init(), ops).notified == RunReference(InitReference(), ops).notified
  {
    RunInStep(Init(), InitReference(), ops);
  }

  lemma {:induction false} OneStep(s: State, r: Reference, op: Op)
    ensures Run(s, [op]) == Apply(s, op) && RunReference(r, [op]) == ApplyReference(r, op)
    ensures Uninterrupted(s, [op]) <==> Possible(s, op) && !Interrupts(s, op)
  {
    assert [op][1..] == [];
  }

  lemma {:induction false} TwoSteps(s: State, r: Reference, op: Op, next: Op)
    ensures Run(s, [op, next]) == Apply(Apply(s, op), next)
    ensures RunReference(r, [op, next]) == ApplyReference(ApplyReference(r, op), next)
  {
    assert [op, next][1..] == [next];
    OneStep(Apply(s, op), ApplyReference(r, op), next);
  }

  /** The interrupting call settles the promise with its own value, while the standard ignores it. */
  lemma {:induction false} InterruptedSettles(s: State, r: Reference, depth: nat, v: Value)
    requires InStep(s, r) && Possible(s, Begin(depth)) && Interrupts(s, Begin(depth))
    ensures var s', r', end := Apply(s, Begin(depth)), ApplyReference(r, Begin(depth)), End(Return(Plain(v)));
            && Uninterrupted(s', [end])
            && Run(s', [end]).outcome == Some(Fulfilled(v)) && RunReference(r', [end]).outcome == None
  {
    PairedOpen(s.stack, r.stack, s.maxDepth, r.used[s.maxDepth]);
    OneStep(Apply(s, Begin(depth)), ApplyReference(r, Begin(depth)), End(Return(Plain(v))));
  }

  /** Some continuation without another interruption ends with an outcome that is not the standard's. */
  ghost predicate MayDiverge(s: State, r: Reference) {
    exists ops: seq<Op> :: Uninterrupted(s, ops) && Run(s, ops).outcome != RunReference(r, ops).outcome
  }

  /**
    And for no other order: as long as there was no interruption, the next call puts the outcome at risk if and only if
    it passes its check while a closure that has passed the same check is still running its handler or getter.
  */
  lemma InterruptionDecides(earlier: seq<Op>, depth: nat)
    requires Uninterrupted(Init(), earlier) && Possible(Run(Init(), earlier), Begin(depth))
    ensures var s, r := Run(Init(), earlier), RunReference(InitReference(), earlier);
            MayDiverge(Apply(s, Begin(depth)), ApplyReference(r, Begin(depth))) <==> Interrupts(s, Begin(depth))
  {
    RunInStep(Init(), InitReference(), earlier);
    var s, r := Run(Init(), earlier), RunReference(InitReference(), earlier);
    var s', r' := Apply(s, Begin(depth)), ApplyReference(r, Begin(depth));
    if Interrupts(s, Begin(depth)) {
      InterruptedSettles(s, r, depth, 0);
    } else {
      StepInStep(s, r, Begin(depth));
      forall ops: seq<Op> | Uninterrupted(s', ops) ensures Run(s', ops).outcome == RunReference(r', ops).outcome {
        RunInStep(s', r', ops);
      }
    }
  }

  /**
    An adopted thenable passes thenable 9, whose `then` is a getter that calls the same function with 7: the promise is
    fulfilled with 7, where the standard has it follow thenable 9 as the next source, because that call came first.
  */
  lemma InterruptedExample()
    ensures var ops := [Begin(1), Begin(1), End(Return(Plain(7))), End(Return(Thenable(9)))];
            && Run(Adopted(), ops).outcome == Some(Fulfilled(7))
            && RunReference(Reference([true, false], None, [], []), ops) == Reference([true, true, false], None, [Calling(Some(2))], [])
  {
    InterruptedCode();
    InterruptedReference();
  }

  lemma {:induction false} InterruptedCode()
    ensures Run(Adopted(), [Begin(1), Begin(1), End(Return(Plain(7))), End(Return(Thenable(9)))]).outcome == Some(Fulfilled(7))
  {
    var ops := [Begin(1), Begin(1), End(Return(Plain(7))), End(Return(Thenable(9)))];
    var s2 := Adopted().(stack := [Checking(Some(1)), Checking(Some(1))]);
    var s3 := Adopted().(stack := [Checking(Some(1))], outcome := Some(Fulfilled(7)));
    assert Apply(Apply(Adopted(), ops[0]), ops[1]) == s2 && Apply(s2, ops[2]) == s3;
    assert Run(Adopted(), ops) == Run(Apply(Adopted(), ops[0]), ops[1..]) == Run(s2, ops[1..][1..]);
    assert ops[1..][1..] == [ops[2], ops[3]];
    SettledForGood(s3, [ops[3]]);
    assert [ops[2], ops[3]][1..] == [ops[3]];
  }

  lemma {:induction false} InterruptedReference()
    ensures RunReference(Reference([true, false], None, [], []),
                         [Begin(1), Begin(1), End(Return(Plain(7))), End(Return(Thenable(9)))])
            == Reference([true, true, false], None, [Calling(Some(2))], [])
  {
    var ops := [Begin(1), Begin(1), End(Return(Plain(7))), End(Return(Thenable(9)))];
    var r0 := Reference([true, false], None, [], []);
    assert ops[1..][1..] == [ops[2], ops[3]];
    assert RunReference(r0, ops) == RunReference(ApplyReference(ApplyReference(r0, ops[0]), ops[1]), [ops[2], ops[3]]);
    TwoSteps(Init(), ApplyReference(ApplyReference(r0, ops[0]), ops[1]), ops[2], ops[3]);
    ReferenceTwice();
    ReferenceFollows();
  }

  lemma {:induction false} ReferenceTwice()
    ensures ApplyReference(ApplyReference(Reference([true, false], None, [], []), Begin(1)), Begin(1))
            == Reference([true, true], None, [Checking(Some(1)), Checking(None)], [])
  {
    assert [true, false][1 := true] == [true, true];
    assert [] + [Checking(Some(1))] == [Checking(Some(1))];
    assert [Checking(Some(1))] + [Checking(None)] == [Checking(Some(1)), Checking(None)];
    assert ReferenceBegin(Reference([true, false], None, [], []), 1) == Reference([true, true], None, [Checking(Some(1))], []);
  }

  lemma {:induction false} ReferenceFollows()
    ensures ReferenceEnd(ReferenceEnd(Reference([true, true], None, [Checking(Some(1)), Checking(None)], []), Return(Plain(7))),
                         Return(Thenable(9)))
            == Reference([true, true, false], None, [Calling(Some(2))], [])
  {
    var r2, r3 := Reference([true, true], None, [Checking(Some(1)), Checking(None)], []),
                  Reference([true, true], None, [Checking(Some(1))], []);
    assert r2.stack[..1] == r3.stack && r3.stack[..0] == [];
    assert ReferenceEnd(r2, Return(Plain(7))) == r3;
    assert [] + [Calling(Some(2))] == [Calling(Some(2))] && r3.used + [false] == [true, true, false];
  }

  /** The state after the original promise called back, its handler returned thenable 5, and that one's `then` returned. */
  function Adopted(): State {
    State(1, None, [], true, [5], [])
  }

  lemma AdoptedIsReached()
    ensures var ops := [Begin(0), End(Return(Thenable(5))), ThenEnds(None)];
            Run(Init(), ops) == Adopted() && RunReference(InitReference(), ops) == Reference([true, false], None, [], [])
  {
    var end, last := End(Return(Thenable(5))), ThenEnds(None);
    assert [Begin(0), end, last][1..] == [end, last];
    TwoSteps(Apply(Init(), Begin(0)), ApplyReference(InitReference(), Begin(0)), end, last);
    AdoptionSteps();
    AdoptionReference();
  }

  /** The handler of the original promise has not returned yet. */
  function Asked(): State {
    State(0, None, [Checking(Some(0))], true, [], [])
  }

  /** It has returned thenable 5, whose `then` is running. */
  function ThenCalled(): State {
    State(1, None, [Calling(Some(0))], true, [5], [])
  }

  lemma {:induction false} HandlerReturns()
    ensures DoEnd(Asked(), Return(Thenable(5))) == ThenCalled()
  {
    assert Asked().stack[..0] == [] && [] + [Calling(Some(0))] == ThenCalled().stack;
    assert Asked().called + [5] == ThenCalled().called;
  }

  lemma {:induction false} AdoptionSteps()
    ensures Apply(Apply(Apply(Init(), Begin(0)), End(Return(Thenable(5)))), ThenEnds(None)) == Adopted()
  {
    assert Init().stack + [Checking(Some(0))] == Asked().stack;
    assert Apply(Init(), Begin(0)) == Asked();
    HandlerReturns();
    assert DoThenEnds(ThenCalled(), None) == Adopted();
  }

  lemma {:induction false} AdoptionReference()
    ensures ApplyReference(ApplyReference(ApplyReference(InitReference(), Begin(0)), End(Return(Thenable(5)))), ThenEnds(None))
            == Reference([true, false], None, [], [])
  {
    var r1 := Reference([true], None, [Checking(Some(0))], []);
    var r2 := Reference([true, false], None, [Calling(Some(1))], []);
    assert r1.stack[..0] == [] && r2.stack[..0] == [];
    assert [false][0 := true] == r1.used && r1.used + [false] == r2.used;
    assert [] + [Checking(Some(0))] == r1.stack && r1.stack[..0] + [Calling(Some(1))] == r2.stack;
    assert ReferenceBegin(InitReference(), 0) == r1 && ReferenceEnd(r1, Return(Thenable(5))) == r2;
    assert ReferenceThenEnds(r2, None) == Reference([true, false], None, [], []);
  }

  /** What the handler of the original promise does settles the new one, unless it returns a thenable. */
  lemma HandlerSettles(v: Value)
    ensures Run(Init(), [Begin(0), End(Return(Plain(v)))]).outcome == Some(Fulfilled(v))
    ensures Run(Init(), [Begin(0), End(Throw(v))]).outcome == Some(Rejected(v))
    ensures Run(Init(), [Begin(0), End(Return(BadThen(v)))]).outcome == Some(Rejected(v))
    ensures Run(Init(), [Begin(0), End(Return(Self))]).outcome == Some(Rejected(SELF_RESOLUTION))
  {
    TwoSteps(Init(), InitReference(), Begin(0), End(Return(Plain(v))));
    TwoSteps(Init(), InitReference(), Begin(0), End(Throw(v)));
    TwoSteps(Init(), InitReference(), Begin(0), End(Return(BadThen(v))));
    TwoSteps(Init(), InitReference(), Begin(0), End(Return(Self)));
  }

  lemma {:induction false} ThenableEnds(result: Result)
    requires !Adopts(result)
    ensures Run(Adopted(), [Begin(1), End(result)]) == Effect(Adopted().(started := true), 1, result)
  {
    var s1 := Adopted().(stack := [Checking(Some(1))]);
    assert Apply(Adopted(), Begin(1)) == s1 && s1.stack[..0] == [];
    TwoSteps(Adopted(), InitReference(), Begin(1), End(result));
  }

  /** An adopted thenable settles the promise with what it passes to its first or its second function, or throws. */
  lemma ThenableSettles(v: Value)
    ensures Run(Adopted(), [Begin(1), End(Return(Plain(v)))]).outcome == Some(Fulfilled(v))
    ensures Run(Adopted(), [Begin(1), End(Throw(v))]).outcome == Some(Rejected(v))
    ensures Run(ThenCalled(), [ThenEnds(Some(v))]).outcome == Some(Rejected(v))
  {
    ThenableEnds(Return(Plain(v)));
    ThenableEnds(Throw(v));
    OneStep(ThenCalled(), InitReference(), ThenEnds(Some(v)));
  }

  // ---------- What stays without effect ----------

  /** Once settled, the promise keeps its outcome through any further calls, throws and notifications. */
  lemma {:induction false} SettledForGood(s: State, ops: seq<Op>)
    requires s.outcome.Some?
    ensures Run(s, ops).outcome == s.outcome && Run(s, ops).notified == s.notified
    decreases |ops|
  {
    if ops != [] { SettledForGood(Apply(s, ops[0]), ops[1..]); }
  }

  predicate OnlyUpTo(ops: seq<Op>, k: nat) {
    forall i :: 0 <= i < |ops| && ops[i].Begin? ==> ops[i].depth <= k
  }

  /** Closures below the current depth, called while nothing that counts is in progress, are ignored altogether. */
  lemma {:induction false} OlderAreIgnored(s: State, k: nat, ops: seq<Op>)
    requires k < s.maxDepth && OnlyUpTo(ops, k)
    requires forall i :: 0 <= i < |s.stack| ==> s.stack[i].number.None?
    ensures Run(s, ops).outcome == s.outcome && Run(s, ops).called == s.called && Run(s, ops).maxDepth == s.maxDepth
    decreases |ops|
  {
    if ops != [] { OlderAreIgnored(Apply(s, ops[0]), k, ops[1..]); }
  }

  /**
    Once a source has been used and its call is over, nothing that it and older sources do in any further run changes
    the outcome; while the promise is pending they do not even get a `then` method called.
  */
  lemma FirstResolutionCounts(ops: seq<Op>, k: nat, later: seq<Op>)
    requires Uninterrupted(Init(), ops) && Run(Init(), ops).stack == []
    requires var used := RunReference(InitReference(), ops).used; k < |used| && used[k]
    requires OnlyUpTo(later, k)
    ensures var s := Run(Init(), ops);
            && Run(s, later).outcome == s.outcome
            && (s.outcome.None? ==> Run(s, later).called == s.called)
  {
    RunInStep(Init(), InitReference(), ops);
    var s := Run(Init(), ops);
    if s.outcome.Some? { SettledForGood(s, later); } else { OlderAreIgnored(s, k, later); }
  }

  /**
    The standard ignores a further call of a used source altogether.  This code does so if and only if a newer
    thenable has been adopted since; otherwise it still calls the `then` of the thenable passed in, in vain.
  */
  lemma RepeatedCallIsInert(ops: seq<Op>, k: nat, id: nat)
    requires Uninterrupted(Init(), ops) && Run(Init(), ops).stack == []
    requires var used := RunReference(InitReference(), ops).used; k < |used| && used[k]
    ensures var s := Run(Init(), ops);
            Run(s, [Begin(k), End(Return(Thenable(id)))]).called == s.called <==> k < s.maxDepth
  {
    TwoSteps(Run(Init(), ops), InitReference(), Begin(k), End(Return(Thenable(id))));
  }

  /** A thenable that resolves with 7 and then with thenable 9: the second `then` is called all the same. */
  lemma RepeatedCallExample()
    ensures var s := Run(Run(Adopted(), [Begin(1), End(Return(Plain(7)))]), [Begin(1), End(Return(Thenable(9)))]);
            s.called == [5, 9] && s.outcome == Some(Fulfilled(7))
  {
    var s1 := Apply(Adopted(), Begin(1));
    var s2 := Apply(s1, End(Return(Plain(7))));
    assert s2.stack == [];
    assert Run(s1, [End(Return(Plain(7)))]) == Run(s2, []);
    var s3 := Apply(s2, Begin(1));
    assert Run(s3, [End(Return(Thenable(9)))]) == Run(Apply(s3, End(Return(Thenable(9)))), []);
  }

  // ---------- The closure's variables, updated in place ----------

  lemma {:induction false} RunExtends(s: State, r: Reference, ops: seq<Op>, op: Op)
    ensures Run(s, ops + [op]) == Apply(Run(s, ops), op)
    ensures RunReference(r, ops + [op]) == ApplyReference(RunReference(r, ops), op)
    ensures Uninterrupted(s, ops + [op])
            <==> Uninterrupted(s, ops) && Possible(Run(s, ops), op) && !Interrupts(Run(s, ops), op)
    decreases |ops|
  {
    if ops == [] {
      assert ops + [op] == [op];
      OneStep(s, r, op);
    } else {
      RunExtends(Apply(s, ops[0]), ApplyReference(r, ops[0]), ops[1..], op);
      assert (ops + [op])[1..] == ops[1..] + [op];
    }
  }

  /** The state is always that of a run, kept as history; `Standard` is the outcome prescribed for that run. */
  class ThenPromise {
    var maxDepth: nat
    var outcome: Option<Outcome>
    // not variables of the source: the calls in progress, and what the specification records
    var stack: seq<Frame>
    var started: bool
    var called: seq<nat>
    var notified: seq<Value>
    ghost var history: seq<Op>

    function Value(): State
      reads this`maxDepth, this`outcome, this`stack, this`started, this`called, this`notified
    {
      State(maxDepth, outcome, stack, started, called, notified)
    }

    ghost predicate Valid()
      reads this
    {
      Value() == Run(Init(), history)
    }

    ghost predicate Undisturbed()
      reads this`history
    {
      Uninterrupted(Init(), history)
    }

    ghost function Standard(): Option<Outcome>
      reads this`history
    {
      RunReference(InitReference(), history).outcome
    }

    constructor ()
      ensures Valid() && history == [] && outcome == None
    {
      maxDepth, outcome, stack, started, called, notified := 0, None, [], false, [], [];
      history := [];
    }

    /** A closure is called: without effect yet; it is disturbing only if it passes while another one has passed. */
    method Enter(depth: nat)
      requires Valid() && Possible(Value(), Begin(depth))
      modifies this`stack, this`started, this`history
      ensures Valid() && history == old(history) + [Begin(depth)]
      ensures Undisturbed() <==> old(Undisturbed()) && !old(Interrupts(Value(), Begin(depth)))
      ensures Undisturbed() ==> outcome == Standard()
    {
      RunExtends(Init(), InitReference(), history, Begin(depth));
      stack := stack + [Checking(if depth < maxDepth then None else Some(depth))];
      started := true;
      history := history + [Begin(depth)];
      if Undisturbed() { FollowsStandard(history); }
    }

    method SettleWith(o: Outcome)
      modifies this`outcome
      ensures Value() == Settle(old(Value()), o)
    {
      if outcome.None? {
        outcome := Some(o);
      }
    }

    /** `mightThrow` from the end of the handler on: the exception it ends with, if any. */
    method MightThrow(depth: nat, result: Result) returns (exception: Option<Value>)
      modifies this`maxDepth, this`outcome, this`stack, this`called
      ensures exception.None? ==> Value() == Effect(old(Value()), depth, result)
      ensures exception.Some? ==> Value() == old(Value())
                                  && Caught(old(Value()), depth, exception.value) == Effect(old(Value()), depth, result)
    {
      exception := None;
      match result
      case Throw(e) => exception := Some(e);
      case Return(x) =>
        match x
        case Self => exception := Some(SELF_RESOLUTION);
        case BadThen(e) => exception := Some(e);
        case Thenable(id) =>
          maxDepth := maxDepth + 1;
          called := called + [id];
          stack := stack + [Calling(Some(depth))];
        case Plain(v) => SettleWith(Fulfilled(v));
    }

    method Catch(depth: nat, e: Value)
      modifies this`outcome
      ensures Value() == Caught(old(Value()), depth, e)
    {
      if depth + 1 >= maxDepth {
        SettleWith(Rejected(e));
      }
    }

    /** The rest of `process`, with its `catch`. */
    method TakeEffect(result: Result)
      requires Possible(Value(), End(result))
      modifies this`maxDepth, this`outcome, this`stack, this`called
      ensures Value() == DoEnd(old(Value()), result)
    {
      var frame := stack[|stack| - 1];
      stack := stack[..|stack| - 1];
      if frame.number.Some? {
        var exception := MightThrow(frame.number.value, result);
        if exception.Some? {
          Catch(frame.number.value, exception.value);
        }
      } else if Adopts(result) {
        stack := stack + [Calling(None)];
      }
    }

    /**
      The handler of the innermost closure has ended, and the closure takes effect: in an undisturbed run the promise is
      as the standard has it.
    */
    method Process(result: Result)
      requires Valid() && Possible(Value(), End(result))
      modifies this`maxDepth, this`outcome, this`stack, this`called, this`history
      ensures Valid() && history == old(history) + [End(result)] && (Undisturbed() <==> old(Undisturbed()))
      ensures Undisturbed() ==> outcome == Standard()
      ensures old(outcome).Some? ==> outcome == old(outcome)
    {
      RunExtends(Init(), InitReference(), history, End(result));
      TakeEffect(result);
      history := history + [End(result)];
      if Undisturbed() { FollowsStandard(history); }
    }

    /** The `then` method called by a closure ends, with an exception or without. */
    method ThenEnded(exception: Option<Value>)
      requires Valid() && Possible(Value(), ThenEnds(exception))
      modifies this`outcome, this`stack, this`history
      ensures Valid() && history == old(history) + [ThenEnds(exception)] && (Undisturbed() <==> old(Undisturbed()))
      ensures Undisturbed() ==> outcome == Standard()
      ensures old(outcome).Some? ==> outcome == old(outcome)
    {
      RunExtends(Init(), InitReference(), history, ThenEnds(exception));
      var frame := stack[|stack| - 1];
      stack := stack[..|stack| - 1];
      if frame.number.Some? && exception.Some? {
        Catch(frame.number.value, exception.value);
      }
      history := history + [ThenEnds(exception)];
      if Undisturbed() { FollowsStandard(history); }
    }

    /** A progress closure: a settled promise notifies no more, and no closure changes the outcome. */
    method NotifyAt(depth: nat, result: Result)
      requires Valid() && Possible(Value(), Notify(depth, result))
      modifies this`notified, this`history
      ensures Valid() && history == old(history) + [Notify(depth, result)] && (Undisturbed() <==> old(Undisturbed()))
      ensures Undisturbed() ==> outcome == Standard()
      ensures outcome.Some? || depth < maxDepth ==> notified == old(notified)
      ensures Undisturbed() ==> notified == RunReference(InitReference(), history).notified
    {
      RunExtends(Init(), InitReference(), history, Notify(depth, result));
      if depth >= maxDepth && outcome.None? && result.Return? && result.x.Plain? {
        notified := notified + [result.x.v];
      }
      history := history + [Notify(depth, result)];
      if Undisturbed() { FollowsStandard(history); }
    }
  }
}
