/**
  `jQuery.when` for two or more arguments: a countdown of the subordinates not yet resolved, and a master
  Deferred resolved with the values, in argument order, when it reaches zero.
*/
module When {
  import opened Common

  /** A value or the reason of a rejection. */
  type Reason = int

  /** An entry of `resolveValues`: still the argument itself, or the value it was resolved with. */
  datatype Slot = Argument | Resolved(v: Reason)

  datatype Outcome = Fulfilled(values: seq<Slot>) | Rejected(e: Reason)

  /** What is known of an argument when `when` is called: a value or a resolved promise, a rejected one, or neither. */
  datatype Subordinate = Ready(v: Reason) | Failed(e: Reason) | Waiting

  /** A call of the update function of argument `i`, or of `master.reject` by it. */
  datatype Call = Update(i: nat, v: Reason) | Reject(i: nat, e: Reason)

  datatype State = State(remaining: int, resolveValues: seq<Slot>, master: Option<Outcome>)

  function Init(n: nat): State {
    State(n, seq(n, _ => Argument), None)
  }

  /** The master is a Deferred: its first outcome stands. */
  function Settle(s: State, o: Outcome): State {
    if s.master.None? then s.(master := Some(o)) else s
  }

  function Apply(s: State, call: Call): State {
    match call
    case Reject(_, e) => Settle(s, Rejected(e))
    case Update(i, v) =>
      if i >= |s.resolveValues| then s
      else
        var s' := s.(resolveValues := s.resolveValues[i := Resolved(v)], remaining := s.remaining - 1);
        if s'.remaining == 0 then Settle(s', Fulfilled(s'.resolveValues)) else s'
  }

  function Run(n: nat, calls: seq<Call>): State {
    if calls == [] then Init(n) else Apply(Run(n, calls[..|calls| - 1]), calls[|calls| - 1])
  }

  /** What adopting argument `i` adds to the calls. */
  function AdoptionCalls(i: nat, arg: Subordinate): seq<Call> {
    match arg
    case Ready(v) => [Update(i, v)]
    case Failed(e) => [Reject(i, e)]
    case Waiting => []
  }

  /** The calls made by the loop of `when` itself, which goes from the last argument down to number `from`. */
  function InitialCalls(args: seq<Subordinate>, from: nat): seq<Call>
    requires from <= |args|
    decreases |args| - from
  {
    if from == |args| then []
    else
      InitialCalls(args, from + 1) + AdoptionCalls(from, args[from])
  }

  // ---------- What the calls say, whatever their order ----------

  predicate Updated(calls: seq<Call>, i: nat) {
    exists k :: 0 <= k < |calls| && calls[k].Update? && calls[k].i == i
  }

  /** The arguments among the first `n` not resolved by any of the calls. */
  function Unresolved(n: nat, calls: seq<Call>): set<nat> {
    set i: nat | i < n && !Updated(calls, i)
  }

  predicate InRange(n: nat, calls: seq<Call>) {
    forall k :: 0 <= k < |calls| ==> calls[k].i < n
  }

  predicate NoneUpdatedTwice(calls: seq<Call>) {
    forall j, k :: 0 <= j < k < |calls| && calls[j].Update? && calls[k].Update? ==> calls[j].i != calls[k].i
  }

  /** Subordinates that settle at most once each, as the promises of Deferreds do. */
  predicate SettleOnce(calls: seq<Call>) {
    forall j, k :: 0 <= j < k < |calls| ==> calls[j].i != calls[k].i
  }

  function Updates(calls: seq<Call>): nat {
    if calls == [] then 0 else Updates(calls[..|calls| - 1]) + if calls[|calls| - 1].Update? then 1 else 0
  }

  /** The reason of the earliest rejection. */
  function FirstRejection(calls: seq<Call>): Option<Reason> {
    if calls == [] then None
    else
      var earlier := FirstRejection(calls[..|calls| - 1]);
      if earlier.Some? then earlier
      else if calls[|calls| - 1].Reject? then Some(calls[|calls| - 1].e) else None
  }

  lemma {:induction false} UpdatedSplits(calls: seq<Call>, i: nat)
    requires calls != []
    ensures var n := |calls| - 1; Updated(calls, i) <==> Updated(calls[..n], i) || (calls[n].Update? && calls[n].i == i)
  {
    var n := |calls| - 1;
    if Updated(calls[..n], i) {
      var k :| 0 <= k < n && calls[..n][k].Update? && calls[..n][k].i == i;
      assert calls[k].Update? && calls[k].i == i;
    }
    if Updated(calls, i) && !(calls[n].Update? && calls[n].i == i) {
      var k :| 0 <= k < |calls| && calls[k].Update? && calls[k].i == i;
      assert calls[..n][k].Update? && calls[..n][k].i == i;
    }
  }

  lemma {:induction false} UnresolvedStep(n: nat, calls: seq<Call>)
    requires calls != []
    ensures var last, before := calls[|calls| - 1], Unresolved(n, calls[..|calls| - 1]);
            Unresolved(n, calls) == if last.Update? then before - {last.i} else before
  {
    forall i: nat | i < n ensures Updated(calls, i) <==>
      Updated(calls[..|calls| - 1], i) || (calls[|calls| - 1].Update? && calls[|calls| - 1].i == i)
    {
      UpdatedSplits(calls, i);
    }
  }

  lemma {:induction false} AllUnresolved(n: nat)
    ensures |Unresolved(n, [])| == n
  {
    if n > 0 {
      AllUnresolved(n - 1);
      assert !Updated([], n - 1);
      assert Unresolved(n, []) == Unresolved(n - 1, []) + {n - 1};
    }
  }

  /** In every run `remaining` counts down the calls of the update functions. */
  lemma {:induction false} RemainingCountsCalls(n: nat, calls: seq<Call>)
    requires InRange(n, calls)
    ensures Run(n, calls).remaining == n - Updates(calls)
    ensures |Run(n, calls).resolveValues| == n
  {
    if calls != [] { RemainingCountsCalls(n, calls[..|calls| - 1]); }
  }

  lemma {:induction false} UpdatesBound(n: nat, calls: seq<Call>)
    requires InRange(n, calls)
    ensures n - Updates(calls) <= |Unresolved(n, calls)|
    ensures n - Updates(calls) == |Unresolved(n, calls)| <==> NoneUpdatedTwice(calls)
  {
    if calls == [] {
      AllUnresolved(n);
    } else {
      var m := |calls| - 1;
      var before := calls[..m];
      UpdatesBound(n, before);
      UnresolvedStep(n, calls);
      if calls[m].Update? {
        var i := calls[m].i;
        if Updated(before, i) {
          var k :| 0 <= k < m && before[k].Update? && before[k].i == i;
          assert calls[k].Update? && calls[k].i == calls[m].i;
        } else {
          assert i in Unresolved(n, before);
          forall j | 0 <= j < m && calls[j].Update? ensures calls[j].i != i {
            assert before[j] == calls[j];
          }
        }
      }
      assert NoneUpdatedTwice(calls) ==> NoneUpdatedTwice(before) by {
        if NoneUpdatedTwice(calls) {
          assert forall j, k :: 0 <= j < k < m ==> before[j] == calls[j] && before[k] == calls[k];
        }
      }
    }
  }

  /**
    `remaining` is the number of arguments not yet resolved if and only if no subordinate has called its update
    function twice; a thenable that does makes it too small.
  */
  lemma RemainingIsUnresolved(n: nat, calls: seq<Call>)
    requires InRange(n, calls)
    ensures Run(n, calls).remaining == |Unresolved(n, calls)| <==> NoneUpdatedTwice(calls)
    ensures Run(n, calls).remaining <= |Unresolved(n, calls)|
  {
    RemainingCountsCalls(n, calls);
    UpdatesBound(n, calls);
  }

  /** A thenable that resolves twice resolves the master although the other argument is still waiting. */
  lemma DoubleResolveExample()
    ensures Run(2, [Update(0, 1), Update(0, 2)]).master == Some(Fulfilled([Resolved(2), Argument]))
  {
    var calls := [Update(0, 1), Update(0, 2)];
    assert calls[..1] == [Update(0, 1)] && calls[..1][..0] == [];
    var s1 := Apply(Init(2), Update(0, 1));
    assert s1.resolveValues == [Resolved(1), Argument];
    assert Run(2, calls[..1]) == s1;
    assert Apply(s1, Update(0, 2)).resolveValues == [Resolved(2), Argument];
  }

  // ---------- The outcome, for subordinates that settle at most once ----------

  /** Each argument's slot holds the value it was resolved with. */
  ghost predicate SlotsRight(n: nat, calls: seq<Call>, slots: seq<Slot>) {
    && |slots| == n
    && (forall k :: 0 <= k < |calls| && calls[k].Update? && calls[k].i < n ==> slots[calls[k].i] == Resolved(calls[k].v))
    && (forall i :: 0 <= i < n && !Updated(calls, i) ==> slots[i] == Argument)
  }

  ghost predicate OutcomeRight(n: nat, calls: seq<Call>, s: State) {
    if s.master.None? then FirstRejection(calls).None? && Unresolved(n, calls) != {}
    else if s.master.value.Rejected? then FirstRejection(calls) == Some(s.master.value.e)
    else FirstRejection(calls).None? && Unresolved(n, calls) == {} && SlotsRight(n, calls, s.master.value.values)
  }

  lemma {:induction false} RejectedStaysUnresolved(n: nat, calls: seq<Call>)
    requires InRange(n, calls) && SettleOnce(calls) && FirstRejection(calls).Some?
    ensures Unresolved(n, calls) != {}
  {
    var m := |calls| - 1;
    UnresolvedStep(n, calls);
    if FirstRejection(calls[..m]).Some? {
      RejectedStaysUnresolved(n, calls[..m]);
      var k := RejectionAt(calls[..m]);
      assert calls[k].i != calls[m].i;
      RejectedIsUnresolved(n, calls, k);
      assert calls[k].i in Unresolved(n, calls);
    } else {
      RejectedIsUnresolved(n, calls, m);
      assert calls[m].i in Unresolved(n, calls);
    }
  }

  lemma {:induction false} RejectionAt(calls: seq<Call>) returns (k: nat)
    requires FirstRejection(calls).Some?
    ensures k < |calls| && calls[k].Reject?
  {
    if FirstRejection(calls[..|calls| - 1]).Some? { k := RejectionAt(calls[..|calls| - 1]); } else { k := |calls| - 1; }
  }

  lemma {:induction false} RejectedIsUnresolved(n: nat, calls: seq<Call>, k: nat)
    requires InRange(n, calls) && SettleOnce(calls) && k < |calls| && calls[k].Reject?
    ensures !Updated(calls, calls[k].i)
  {
    forall j | 0 <= j < |calls| && calls[j].Update? ensures calls[j].i != calls[k].i {
      if j < k { assert calls[j].i != calls[k].i; } else { assert j != k; }
    }
  }

  lemma {:induction false} OnceImpliesNoneTwice(calls: seq<Call>)
    requires SettleOnce(calls)
    ensures NoneUpdatedTwice(calls) && (calls != [] ==> SettleOnce(calls[..|calls| - 1]))
  {
    if calls != [] {
      var before := calls[..|calls| - 1];
      assert forall j, k :: 0 <= j < k < |before| ==> before[j] == calls[j] && before[k] == calls[k];
    }
  }

  lemma {:induction false} SlotsStep(n: nat, calls: seq<Call>, slots: seq<Slot>)
    requires calls != [] && InRange(n, calls) && SettleOnce(calls) && SlotsRight(n, calls[..|calls| - 1], slots)
    ensures var last := calls[|calls| - 1];
            SlotsRight(n, calls, if last.Update? then slots[last.i := Resolved(last.v)] else slots)
  {
    var m := |calls| - 1;
    var last := calls[m];
    var slots' := if last.Update? then slots[last.i := Resolved(last.v)] else slots;
    forall k | 0 <= k < |calls| && calls[k].Update? && calls[k].i < n ensures slots'[calls[k].i] == Resolved(calls[k].v) {
      if k < m { assert calls[..m][k] == calls[k]; }
    }
    forall i: nat | i < n && !Updated(calls, i) ensures slots'[i] == Argument {
      UpdatedSplits(calls, i);
    }
  }

  lemma {:induction false} RunOutcome(n: nat, calls: seq<Call>)
    requires n > 0 && InRange(n, calls) && SettleOnce(calls)
    ensures OutcomeRight(n, calls, Run(n, calls)) && SlotsRight(n, calls, Run(n, calls).resolveValues)
  {
    if calls == [] {
      AllUnresolved(n);
    } else {
      var m := |calls| - 1;
      OnceImpliesNoneTwice(calls);
      RunOutcome(n, calls[..m]);
      SlotsStep(n, calls, Run(n, calls[..m]).resolveValues);
      UnresolvedStep(n, calls);
      RemainingIsUnresolved(n, calls);
      LastWasUnresolved(n, calls);
    }
  }

  /** While any further call is made, the argument it is made for is unresolved. */
  lemma {:induction false} LastWasUnresolved(n: nat, calls: seq<Call>)
    requires calls != [] && InRange(n, calls) && SettleOnce(calls)
    ensures calls[|calls| - 1].i in Unresolved(n, calls[..|calls| - 1])
  {
    var m := |calls| - 1;
    forall k | 0 <= k < m ensures calls[..m][k].i != calls[m].i {
      assert calls[..m][k] == calls[k];
    }
  }

  /**
    The law of `when`: for two or more arguments, whatever the order of completion, the master is resolved exactly
    when every argument is, with the values in argument order, and rejected with the first rejection.
  */
  lemma WhenLaw(n: nat, calls: seq<Call>)
    requires n >= 2 && InRange(n, calls) && SettleOnce(calls)
    ensures var s := Run(n, calls);
            && s.remaining == |Unresolved(n, calls)|
            && (Unresolved(n, calls) == {} <==> s.master.Some? && s.master.value.Fulfilled?)
            && (FirstRejection(calls).Some? <==> s.master.Some? && s.master.value.Rejected?)
            && (s.master.Some? && s.master.value.Fulfilled? ==> SlotsRight(n, calls, s.master.value.values))
            && (s.master.Some? && s.master.value.Rejected? ==> FirstRejection(calls) == Some(s.master.value.e))
  {
    RunOutcome(n, calls);
    OnceImpliesNoneTwice(calls);
    RemainingIsUnresolved(n, calls);
    if FirstRejection(calls).Some? { RejectedStaysUnresolved(n, calls); }
  }

  /** Two orders of completion that resolve the arguments with the same values give the same result. */
  lemma OrderDoesNotMatter(n: nat, calls: seq<Call>, others: seq<Call>)
    requires n >= 2 && InRange(n, calls) && SettleOnce(calls) && InRange(n, others) && SettleOnce(others)
    requires Unresolved(n, calls) == {} && forall call :: call in calls ==> call in others
    ensures Run(n, calls).master == Run(n, others).master
  {
    forall i: nat | i < n ensures Updated(others, i) {
      assert i !in Unresolved(n, calls);
      var k :| 0 <= k < |calls| && calls[k].Update? && calls[k].i == i;
      assert calls[k] in calls;
      var j :| 0 <= j < |others| && others[j] == calls[k];
    }
    WhenLaw(n, calls);
    WhenLaw(n, others);
    var values, values' := Run(n, calls).master.value.values, Run(n, others).master.value.values;
    forall i | 0 <= i < n ensures values[i] == values'[i] {
      assert i !in Unresolved(n, calls);
      var k :| 0 <= k < |calls| && calls[k].Update? && calls[k].i == i;
      assert calls[k] in calls;
      var j :| 0 <= j < |others| && others[j] == calls[k];
    }
    assert values == values';
  }

  // ---------- The outcome, for subordinates that may call back as often as they like ----------

  /** What slot `i` holds: the value of the last call of its update function. */
  function LastUpdate(calls: seq<Call>, i: nat): Slot {
    if calls == [] then Argument
    else
      var last := calls[|calls| - 1];
      if last.Update? && last.i == i then Resolved(last.v) else LastUpdate(calls[..|calls| - 1], i)
  }

  /** Call `j` rejects, or is the `n`-th call of an update function. */
  predicate Decides(n: nat, calls: seq<Call>, j: nat) {
    j < |calls| && (calls[j].Reject? || Updates(calls[..j + 1]) == n)
  }

  predicate Undecided(n: nat, calls: seq<Call>) {
    forall j: nat :: j < |calls| ==> !Decides(n, calls, j)
  }

  /** What a deciding call makes of the master. */
  function Verdict(n: nat, calls: seq<Call>, j: nat): Outcome
    requires j < |calls|
  {
    if calls[j].Reject? then Rejected(calls[j].e) else Fulfilled(seq(n, i requires 0 <= i < n => LastUpdate(calls[..j + 1], i)))
  }

  lemma {:induction false} SlotsHoldLast(n: nat, calls: seq<Call>)
    requires InRange(n, calls)
    ensures Run(n, calls).resolveValues == seq(n, i requires 0 <= i < n => LastUpdate(calls, i))
  {
    if calls != [] { SlotsHoldLast(n, calls[..|calls| - 1]); }
  }

  lemma {:induction false} DecidesEarlier(n: nat, calls: seq<Call>, m: nat, j: nat)
    requires j < m <= |calls|
    ensures Decides(n, calls[..m], j) <==> Decides(n, calls, j)
    ensures Verdict(n, calls[..m], j) == Verdict(n, calls, j)
  {
    assert calls[..m][..j + 1] == calls[..j + 1];
  }

  lemma {:induction false} LastCallDecides(n: nat, calls: seq<Call>)
    requires calls != [] && InRange(n, calls) && Run(n, calls[..|calls| - 1]).master.None?
    ensures var j := |calls| - 1;
            Run(n, calls).master == if Decides(n, calls, j) then Some(Verdict(n, calls, j)) else None
  {
    assert calls[..|calls|] == calls;
    RemainingCountsCalls(n, calls);
    SlotsHoldLast(n, calls);
  }

  lemma {:induction false} UndecidedRun(n: nat, calls: seq<Call>)
    requires n > 0 && InRange(n, calls) && Undecided(n, calls)
    ensures Run(n, calls).master == None
  {
    if calls != [] {
      var m := |calls| - 1;
      forall j: nat | j < m ensures !Decides(n, calls[..m], j) {
        DecidesEarlier(n, calls, m, j);
      }
      UndecidedRun(n, calls[..m]);
      LastCallDecides(n, calls);
    }
  }

  lemma {:induction false} DecidedStays(n: nat, calls: seq<Call>, m: nat)
    requires m <= |calls| && Run(n, calls[..m]).master.Some?
    ensures Run(n, calls).master == Run(n, calls[..m]).master
  {
    if m == |calls| {
      assert calls[..m] == calls;
    } else {
      assert calls[..|calls| - 1][..m] == calls[..m];
      DecidedStays(n, calls[..|calls| - 1], m);
    }
  }

  /**
    Whatever the subordinates do, also after they have called back before: the first call that rejects, or is the
    `n`-th call of an update function, decides, and each slot then holds the last value it was given.
  */
  lemma FirstDecides(n: nat, calls: seq<Call>, j: nat)
    requires n > 0 && InRange(n, calls)
    requires Decides(n, calls, j) && forall i: nat :: i < j ==> !Decides(n, calls, i)
    ensures Run(n, calls).master == Some(Verdict(n, calls, j))
  {
    forall i: nat | i < j ensures !Decides(n, calls[..j], i) {
      DecidesEarlier(n, calls, j, i);
    }
    UndecidedRun(n, calls[..j]);
    assert calls[..j + 1][..j] == calls[..j];
    DecidesEarlier(n, calls, j + 1, j);
    LastCallDecides(n, calls[..j + 1]);
    DecidedStays(n, calls, j + 1);
  }

  /** And as long as there is no such call the master is pending. */
  lemma PendingUntilDecided(n: nat, calls: seq<Call>)
    requires n > 0 && InRange(n, calls)
    ensures Run(n, calls).master == None <==> Undecided(n, calls)
  {
    if Undecided(n, calls) {
      UndecidedRun(n, calls);
    } else {
      var j := FirstDecision(n, calls);
      FirstDecides(n, calls, j);
    }
  }

  lemma {:induction false} FirstDecision(n: nat, calls: seq<Call>) returns (j: nat)
    requires !Undecided(n, calls)
    ensures Decides(n, calls, j) && forall i: nat :: i < j ==> !Decides(n, calls, i)
  {
    j := 0;
    while !Decides(n, calls, j)
      invariant j <= |calls| && forall i: nat :: i < j ==> !Decides(n, calls, i)
      decreases |calls| - j
    {
      j := j + 1;
    }
  }

  /** A thenable that resolves and then throws rejects the master, although every argument gets resolved. */
  lemma ThrowAfterResolveExample()
    ensures var calls := [Update(0, 1), Reject(0, 9), Update(1, 2)];
            Unresolved(2, calls) == {} && Run(2, calls).master == Some(Rejected(9))
  {
    var calls := [Update(0, 1), Reject(0, 9), Update(1, 2)];
    assert calls[0].Update? && calls[2].Update?;
    assert Updated(calls, 0) && Updated(calls, 1);
    assert calls[..1] == [Update(0, 1)] && calls[..1][..0] == [];
    assert Updates(calls[..1]) == 1;
    assert Decides(2, calls, 1) && !Decides(2, calls, 0);
    FirstDecides(2, calls, 1);
  }

  // ---------- The closure's variables, updated in place ----------

  lemma {:induction false} RunExtends(n: nat, calls: seq<Call>, call: Call)
    requires InRange(n, calls) && call.i < n
    ensures Run(n, calls + [call]) == Apply(Run(n, calls), call) && InRange(n, calls + [call])
  {
    RunMore(n, calls, call);
  }

  lemma {:induction false} CallsTell(n: nat, calls: seq<Call>)
    requires n > 0 && InRange(n, calls)
    ensures Run(n, calls).remaining == n - Updates(calls) <= |Unresolved(n, calls)|
    ensures SettleOnce(calls) ==> Run(n, calls).remaining == |Unresolved(n, calls)| && OutcomeRight(n, calls, Run(n, calls))
  {
    RemainingCountsCalls(n, calls);
    RemainingIsUnresolved(n, calls);
    if SettleOnce(calls) {
      OnceImpliesNoneTwice(calls);
      RunOutcome(n, calls);
    }
  }

  /** The loop of `when` itself settles each argument at most once. */
  lemma {:induction false} InitialCallsOnce(args: seq<Subordinate>, from: nat)
    requires from <= |args|
    ensures InRange(|args|, InitialCalls(args, from)) && SettleOnce(InitialCalls(args, from))
    ensures forall k :: 0 <= k < |InitialCalls(args, from)| ==> from <= InitialCalls(args, from)[k].i
    decreases |args| - from
  {
    if from < |args| { InitialCallsOnce(args, from + 1); }
  }

  // ---------- The arguments ----------

  function NotReady(args: seq<Subordinate>, from: nat): set<nat> {
    set i: nat | from <= i < |args| && !args[i].Ready?
  }

  predicate NoneFailed(args: seq<Subordinate>, from: nat) {
    forall i :: from <= i < |args| ==> !args[i].Failed?
  }

  /** What the loop has made of the arguments from number `from` on. */
  ghost predicate AdoptedFrom(args: seq<Subordinate>, from: nat, s: State) {
    && |s.resolveValues| == |args|
    && (forall i :: 0 <= i < |args| ==>
          s.resolveValues[i] == if i >= from && args[i].Ready? then Resolved(args[i].v) else Argument)
    && s.remaining == |NotReady(args, from)| + from
    && (forall i :: from <= i < |args| && args[i].Failed? && NoneFailed(args, i + 1) ==> s.master == Some(Rejected(args[i].e)))
    && (NoneFailed(args, from) ==> s.master == if s.remaining == 0 then Some(Fulfilled(s.resolveValues)) else None)
  }

  lemma {:induction false} NotReadyStep(args: seq<Subordinate>, from: nat)
    requires from < |args|
    ensures |NotReady(args, from)| == |NotReady(args, from + 1)| + if args[from].Ready? then 0 else 1
  {
    assert NotReady(args, from) == if args[from].Ready? then NotReady(args, from + 1) else NotReady(args, from + 1) + {from};
  }

  lemma {:induction false} ReadyStep(args: seq<Subordinate>, from: nat, s: State)
    requires from < |args| && AdoptedFrom(args, from + 1, s) && args[from].Ready?
    ensures AdoptedFrom(args, from, Apply(s, Update(from, args[from].v)))
  {
    NotReadyStep(args, from);
    assert NoneFailed(args, from) <==> NoneFailed(args, from + 1);
    FailedMaster(args, from + 1, s);
  }

  lemma {:induction false} FailedStep(args: seq<Subordinate>, from: nat, s: State)
    requires from < |args| && AdoptedFrom(args, from + 1, s) && args[from].Failed?
    ensures AdoptedFrom(args, from, Apply(s, Reject(from, args[from].e)))
  {
    NotReadyStep(args, from);
    FailedMaster(args, from + 1, s);
  }

  lemma {:induction false} WaitingStep(args: seq<Subordinate>, from: nat, s: State)
    requires from < |args| && AdoptedFrom(args, from + 1, s) && args[from].Waiting?
    ensures AdoptedFrom(args, from, s)
  {
    NotReadyStep(args, from);
    assert NoneFailed(args, from) <==> NoneFailed(args, from + 1);
  }

  lemma {:induction false} FailedMaster(args: seq<Subordinate>, from: nat, s: State)
    requires AdoptedFrom(args, from, s) && from > 0
    ensures NoneFailed(args, from) <==> s.master.None?
  {
    if !NoneFailed(args, from) { var i := LastFailed(args, from); }
  }

  lemma {:induction false} LastFailed(args: seq<Subordinate>, from: nat) returns (i: nat)
    requires !NoneFailed(args, from)
    ensures from <= i < |args| && args[i].Failed? && NoneFailed(args, i + 1)
    decreases |args| - from
  {
    if from < |args| && !NoneFailed(args, from + 1) { i := LastFailed(args, from + 1); } else { i := from; }
  }

  lemma {:induction false} InitialAdopts(args: seq<Subordinate>, from: nat)
    requires |args| > 0 && from <= |args|
    ensures AdoptedFrom(args, from, Run(|args|, InitialCalls(args, from)))
    decreases |args| - from
  {
    if from == |args| {
      assert NotReady(args, from) == {};
    } else {
      var earlier := InitialCalls(args, from + 1);
      InitialAdopts(args, from + 1);
      match args[from]
      case Ready(v) =>
        RunMore(|args|, earlier, Update(from, v));
        ReadyStep(args, from, Run(|args|, earlier));
      case Failed(e) =>
        RunMore(|args|, earlier, Reject(from, e));
        FailedStep(args, from, Run(|args|, earlier));
      case Waiting =>
        assert earlier + [] == earlier;
        WaitingStep(args, from, Run(|args|, earlier));
    }
  }

  lemma {:induction false} RunMore(n: nat, calls: seq<Call>, call: Call)
    ensures Run(n, calls + [call]) == Apply(Run(n, calls), call)
  {
    assert (calls + [call])[..|calls|] == calls;
  }

  /**
    What the call of `when` does at once.  Values and resolved promises are in their places, and `remaining` is the
    number of the other arguments.  If there are no others the master is resolved with all the values; otherwise it is
    rejected with the reason of the last rejected argument, or pending if there is none.
  */
  lemma AdoptedAtOnce(args: seq<Subordinate>)
    requires |args| >= 2
    ensures var s := Run(|args|, InitialCalls(args, 0));
            && |s.resolveValues| == |args|
            && (forall i :: 0 <= i < |args| ==> s.resolveValues[i] == if args[i].Ready? then Resolved(args[i].v) else Argument)
            && s.remaining == |set i: nat | i < |args| && !args[i].Ready?|
            && ((forall i :: 0 <= i < |args| ==> args[i].Ready?) ==> s.master == Some(Fulfilled(s.resolveValues)))
            && (forall i :: 0 <= i < |args| && args[i].Failed? && (forall j :: i < j < |args| ==> !args[j].Failed?) ==>
                  s.master == Some(Rejected(args[i].e)))
            && ((exists i :: 0 <= i < |args| && args[i].Waiting?) && (forall i :: 0 <= i < |args| ==> !args[i].Failed?) ==>
                  s.master == None)
  {
    InitialAdopts(args, 0);
    var s := Run(|args|, InitialCalls(args, 0));
    assert NotReady(args, 0) == set i: nat | i < |args| && !args[i].Ready?;
    forall i: nat | i < |args| && !args[i].Ready? ensures s.remaining != 0 {
      assert i in NotReady(args, 0);
    }
    forall i | 0 <= i < |args| && args[i].Failed? && (forall j :: i < j < |args| ==> !args[j].Failed?)
      ensures s.master == Some(Rejected(args[i].e))
    {
      assert NoneFailed(args, i + 1);
    }
    if forall i :: 0 <= i < |args| ==> args[i].Ready? { assert NotReady(args, 0) == {}; }
  }

  /** The object's state is that after the calls made so far, in their order. */
  class Aggregation {
    var remaining: int
    var resolveValues: seq<Slot>
    var master: Option<Outcome>
    const n: nat
    ghost var calls: seq<Call>

    function Value(): State
      reads this`remaining, this`resolveValues, this`master
    {
      State(remaining, resolveValues, master)
    }

    ghost predicate Valid()
      reads this
    {
      Value() == Run(n, calls) && InRange(n, calls)
    }

    /** The call of `when`: the arguments are adopted from the last to the first. */
    constructor (args: seq<Subordinate>)
      ensures Valid() && n == |args| && calls == InitialCalls(args, 0) && SettleOnce(calls)
      ensures |args| >= 2 ==> OutcomeRight(n, calls, Value()) && AdoptedFrom(args, 0, Value())
    {
      remaining, resolveValues, master := |args|, seq(|args|, _ => Argument), None;
      n, calls := |args|, [];
      new;
      var i := |args|;
      while i > 0
        invariant 0 <= i <= |args| && Valid() && calls == InitialCalls(args, i)
      {
        i := i - 1;
        AdoptValue(i, args[i]);
      }
      InitialCallsOnce(args, 0);
      if |args| >= 2 {
        RunOutcome(n, calls);
        InitialAdopts(args, 0);
      }
    }

    method AdoptValue(i: nat, arg: Subordinate)
      requires Valid() && i < n
      modifies this
      ensures Valid() && calls == old(calls) + AdoptionCalls(i, arg)
    {
      match arg
      case Ready(v) => UpdateFunc(i, v);
      case Failed(e) => RejectWith(i, e);
      case Waiting =>
    }

    /**
      `remaining` counts the calls still missing; as long as no argument has called back twice, the master is resolved
      just when none is left.
    */
    method UpdateFunc(i: nat, value: Reason)
      requires Valid() && i < n
      modifies this
      ensures Valid() && calls == old(calls) + [Update(i, value)]
      ensures remaining == n - Updates(calls) <= |Unresolved(n, calls)|
      ensures SettleOnce(calls) ==> remaining == |Unresolved(n, calls)| && OutcomeRight(n, calls, Value())
      ensures old(master).Some? ==> master == old(master)
    {
      RunExtends(n, calls, Update(i, value));
      RemainingCountsCalls(n, calls);
      calls := calls + [Update(i, value)];
      CallsTell(n, calls);
      resolveValues := resolveValues[i := Resolved(value)];
      remaining := remaining - 1;
      if remaining == 0 && master.None? {
        master := Some(Fulfilled(resolveValues));
      }
    }

    /** Only the first rejection counts, and only if the master is not resolved yet. */
    method RejectWith(i: nat, e: Reason)
      requires Valid() && i < n
      modifies this`master, this`calls
      ensures Valid() && calls == old(calls) + [Reject(i, e)]
      ensures master == if old(master).Some? then old(master) else Some(Rejected(e))
      ensures SettleOnce(calls) ==> OutcomeRight(n, calls, Value())
    {
      RunExtends(n, calls, Reject(i, e));
      calls := calls + [Reject(i, e)];
      if master.None? {
        master := Some(Rejected(e));
      }
      if SettleOnce(calls) { RunOutcome(n, calls); }
    }
  }
}
