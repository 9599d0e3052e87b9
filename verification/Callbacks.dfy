/**
  The callback list of jQuery (`jQuery.Callbacks`): a list that may be added to, removed from and fired
  again while it is being fired.

  One `Next` is one turn of the loop inside `fire`: it starts one callback, or goes on to the next queued
  value, or ends the firing.  Whatever a running callback does to the list is the operations that come
  before the following `Next`, so the runs of this machine include the runs of every set of callbacks.
*/
module Callbacks {
  import opened Common

  /** The two options used by the project's Deferred objects. */
  datatype Options = Options(once: bool, memory: bool)

  /** A registered callback; the ticket tells registrations of the same callback apart. */
  datatype Entry<C> = Entry(callback: C, ticket: nat)

  /**
    What the list was sent and what its callbacks were called with.  `sent` holds the values accepted by
    `fireWith`, `fired` those of them already taken from the queue; registration `t` was made when `start[t]`
    was the position of its first value, and was called with `seen[t]`.
  */
  datatype History<V> = History(sent: seq<V>, fired: seq<V>, start: seq<nat>, seen: seq<seq<V>>)

  /** The closure's variables; `list` is `None` once the list is spent. */
  datatype State<C, V> = State(
    options: Options,
    firing: bool,
    memory: Option<V>,
    locked: bool,
    list: Option<seq<Entry<C>>>,
    queue: seq<V>,
    firingIndex: int,
    history: History<V>)

  datatype Op<C, V> =
    | Add(callbacks: seq<C>)
    | Remove(callback: C)
    | FireWith(value: V)
    | Lock
    | Disable
    | Next

  function Init<C, V>(options: Options): State<C, V> {
    State(options, false, None, false, Some([]), [], -1, History([], [], [], []))
  }

  // ---------- The operations, as functions from state to state ----------

  /** The value position a callback registered now has to start from. */
  function StartOf<C, V>(s: State<C, V>): nat {
    if s.memory.Some? && s.history.fired != [] then |s.history.fired| - 1 else |s.history.fired|
  }

  /** `list.push` of every callback, each under a new ticket. */
  function Register<C, V>(s: State<C, V>, callbacks: seq<C>): State<C, V>
    requires s.list.Some?
  {
    var h, n, start := s.history, |callbacks|, StartOf(s);
    s.(list := Some(s.list.value + seq(n, i requires 0 <= i < n => Entry(callbacks[i], |h.seen| + i))),
       history := h.(start := h.start + seq(n, _ => start), seen := h.seen + seq(n, _ => [])))
  }

  /** The start of `fire`: lock a `once` list and take the first value from the queue. */
  function BeginFire<C, V>(s: State<C, V>): State<C, V>
    requires s.queue != []
  {
    s.(locked := s.locked || s.options.once, firing := true, memory := Some(s.queue[0]), queue := s.queue[1..])
  }

  function DoAdd<C, V>(s: State<C, V>, callbacks: seq<C>): State<C, V> {
    if s.list.None? then s
    else if s.memory.Some? && !s.firing then
      BeginFire(Register(s, callbacks).(firingIndex := |s.list.value| - 1, queue := s.queue + [s.memory.value]))
    else Register(s, callbacks)
  }

  function Without<C(==)>(list: seq<Entry<C>>, callback: C): seq<Entry<C>> {
    if list == [] then []
    else if list[0].callback == callback then Without(list[1..], callback)
    else [list[0]] + Without(list[1..], callback)
  }

  /** `remove` cuts out every entry of the callback; the firing index stays on the entry it stood on, or before. */
  function DoRemove<C(==), V>(s: State<C, V>, callback: C): State<C, V> {
    if s.list.None? then s
    else
      var list := s.list.value;
      s.(list := Some(Without(list, callback)),
         firingIndex := if -1 <= s.firingIndex < |list| then |Without(list[..s.firingIndex + 1], callback)| - 1
                        else s.firingIndex)
  }

  function DoFireWith<C, V>(s: State<C, V>, value: V): State<C, V> {
    if s.locked then s
    else
      var queued := s.(queue := s.queue + [value], history := s.history.(sent := s.history.sent + [value]));
      if s.firing then queued
      else BeginFire(queued.(history := queued.history.(fired := s.history.fired + [queued.queue[0]])))
  }

  function DoLock<C, V>(s: State<C, V>): State<C, V> {
    if s.memory.None? && !s.firing then s.(locked := true, queue := [], list := None)
    else s.(locked := true, queue := [])
  }

  function DoDisable<C, V>(s: State<C, V>): State<C, V> {
    s.(locked := true, queue := [], list := None, memory := None)
  }

  /** The registration the next turn of the loop calls, if it calls one. */
  function Calls<C, V>(s: State<C, V>): Option<Entry<C>> {
    if s.firing && s.memory.Some? && s.list.Some? && 0 <= s.firingIndex + 1 < |s.list.value|
    then Some(s.list.value[s.firingIndex + 1]) else None
  }

  function Finish<C, V>(s: State<C, V>): State<C, V> {
    var memory := if s.options.memory then s.memory else None;
    s.(firingIndex := -1, memory := memory, firing := false,
       list := if s.locked then if memory.Some? then Some([]) else None else s.list)
  }

  function DoNext<C, V>(s: State<C, V>): State<C, V> {
    if !s.firing then s
    else
      var call := Calls(s);
      if call.Some? then
        var h := s.history;
        var t := call.value.ticket;
        s.(firingIndex := s.firingIndex + 1,
           history := if t < |h.seen| then h.(seen := h.seen[t := h.seen[t] + [s.memory.value]]) else h)
      else if s.queue != [] then
        s.(firingIndex := -1, memory := Some(s.queue[0]), queue := s.queue[1..],
           history := s.history.(fired := s.history.fired + [s.queue[0]]))
      else Finish(s)
  }

  function Apply<C(==), V>(s: State<C, V>, op: Op<C, V>): State<C, V> {
    match op
    case Add(callbacks) => DoAdd(s, callbacks)
    case Remove(callback) => DoRemove(s, callback)
    case FireWith(value) => DoFireWith(s, value)
    case Lock => DoLock(s)
    case Disable => DoDisable(s)
    case Next => DoNext(s)
  }

  function Run<C(==), V>(s: State<C, V>, ops: seq<Op<C, V>>): State<C, V>
    decreases |ops|
  {
    if ops == [] then s else Run(Apply(s, ops[0]), ops[1..])
  }

  // ---------- The invariant ----------

  ghost predicate Distinct<C>(list: seq<Entry<C>>, bound: nat) {
    && (forall i :: 0 <= i < |list| ==> list[i].ticket < bound)
    && (forall i, j :: 0 <= i < j < |list| ==> list[i].ticket < list[j].ticket)
  }

  /** The values are a stretch of the others, from the given position on. */
  ghost predicate Stretch<V>(values: seq<V>, all: seq<V>, from: nat) {
    from + |values| <= |all| && forall k: nat :: k < |values| ==> values[k] == all[from + k]
  }

  /** Registration `t` was called with consecutive fired values from its start on. */
  ghost predicate Consecutive<V>(h: History<V>, t: nat)
    requires t < |h.start| == |h.seen|
  {
    Stretch(h.seen[t], h.fired, h.start[t])
  }

  /** Registration `t` has been called with every value fired since its start, but for the last `owed`. */
  ghost predicate SeenAllBut<V>(h: History<V>, t: nat, owed: nat)
    requires t < |h.start| == |h.seen|
  {
    h.start[t] + |h.seen[t]| + owed == |h.fired| && Stretch(h.seen[t], h.fired, h.start[t])
  }

  /** What the list owes the entry at position `i`: the value being fired, if the loop has not reached it yet. */
  function Owed<C, V>(s: State<C, V>, i: nat): nat {
    if s.firing && i > s.firingIndex then 1 else 0
  }

  /** The control variables agree with each other and with the history. */
  ghost predicate Control<C(!new), V(!new)>(s: State<C, V>) {
    var h := s.history;
    && (!s.firing ==> s.queue == [] && s.firingIndex == -1)
    && -1 <= s.firingIndex
    && (s.memory.Some? ==> h.fired != [] && s.memory.value == h.fired[|h.fired| - 1])
    && h.fired <= h.sent
    && (!s.locked ==> h.fired + s.queue == h.sent)
    && (s.locked ==> s.queue == [])
    && (s.options.once ==> |h.fired| <= 1 && (h.sent != [] ==> s.locked))
    && (s.list.None? ==> s.locked)
    && (s.list.Some? ==> s.firingIndex < |s.list.value| && (s.firing ==> s.memory.Some?))
    && (s.options.memory && s.list.Some? && h.fired != [] ==> s.memory.Some?)
  }

  ghost predicate Entries<C(!new), V(!new)>(s: State<C, V>) {
    var h := s.history;
    && |h.start| == |h.seen|
    && (forall t: nat :: t < |h.seen| ==> Consecutive(h, t))
    && (s.list.Some? ==>
          && Distinct(s.list.value, |h.seen|)
          && forall i: nat :: i < |s.list.value| ==> SeenAllBut(h, s.list.value[i].ticket, Owed(s, i)))
  }

  ghost predicate Inv<C(!new), V(!new)>(s: State<C, V>) {
    Control(s) && Entries(s)
  }

  // ---------- Every operation keeps the invariant ----------

  lemma {:induction false} InitInv<C(!new), V(!new)>(options: Options)
    ensures Inv(Init<C, V>(options))
  {
  }

  lemma {:induction false} AddKeeps<C(!new), V(!new)>(s: State<C, V>, callbacks: seq<C>)
    requires Inv(s)
    ensures Inv(DoAdd(s, callbacks))
  {
    if s.list.Some? {
      var r, s' := Register(s, callbacks), DoAdd(s, callbacks);
      var h, h', list, list' := s.history, r.history, s.list.value, r.list.value;
      assert s'.list == r.list && s'.history == h';
      assert Control(s');
      forall t: nat | t < |h'.seen| ensures Consecutive(h', t) {
        if t < |h.seen| { assert Consecutive(h, t); }
      }
      forall i: nat | i < |list'| ensures SeenAllBut(h', list'[i].ticket, Owed(s', i)) {
        if i < |list| {
          assert SeenAllBut(h, list[i].ticket, Owed(s, i));
        } else {
          assert list'[i].ticket == |h.seen| + (i - |list|);
        }
      }
    }
  }

  /** Removing a callback keeps the order of the other entries and splits at any position. */
  lemma {:induction false} WithoutSplits<C>(list: seq<Entry<C>>, callback: C, k: nat)
    requires k <= |list|
    ensures Without(list, callback) == Without(list[..k], callback) + Without(list[k..], callback)
  {
    if k > 0 {
      WithoutSplits(list[1..], callback, k - 1);
      assert list[..k][1..] == list[1..][..k - 1] && list[1..][k - 1..] == list[k..];
    } else {
      assert list[..0] == [] && list[0..] == list;
    }
  }

  /** Every entry left by a removal was in the list, with a callback other than the removed one. */
  lemma {:induction false} WithoutOrigin<C>(list: seq<Entry<C>>, callback: C, i: nat) returns (k: nat)
    requires i < |Without(list, callback)|
    ensures k < |list| && list[k] == Without(list, callback)[i] && list[k].callback != callback
  {
    if list[0].callback == callback {
      k := WithoutOrigin(list[1..], callback, i);
      k := k + 1;
    } else if i == 0 {
      k := 0;
    } else {
      k := WithoutOrigin(list[1..], callback, i - 1);
      k := k + 1;
    }
  }

  lemma {:induction false} WithoutDistinct<C>(list: seq<Entry<C>>, callback: C, bound: nat)
    requires Distinct(list, bound)
    ensures Distinct(Without(list, callback), bound)
    ensures |Without(list, callback)| <= |list|
  {
    if list != [] {
      var rest := Without(list[1..], callback);
      WithoutDistinct(list[1..], callback, bound);
      forall i | 0 <= i < |rest| ensures list[0].ticket < rest[i].ticket {
        var k := WithoutOrigin(list[1..], callback, i);
      }
    }
  }

  /** The loop of `fire` owes the same to an entry before and after a removal. */
  lemma {:induction false} RemoveOwes<C(!new), V(!new)>(s: State<C, V>, callback: C, i: nat)
    requires Inv(s) && s.list.Some?
    requires i < |DoRemove(s, callback).list.value|
    ensures DoRemove(s, callback).list.value[i].ticket < |s.history.seen|
    ensures SeenAllBut(s.history, DoRemove(s, callback).list.value[i].ticket, Owed(DoRemove(s, callback), i))
  {
    var list, called := s.list.value, s.firingIndex + 1;
    WithoutSplits(list, callback, called);
    var before := |Without(list[..called], callback)|;
    if i < before {
      var k := WithoutOrigin(list[..called], callback, i);
      assert SeenAllBut(s.history, list[k].ticket, Owed(s, k));
    } else {
      var k := WithoutOrigin(list[called..], callback, i - before);
      assert SeenAllBut(s.history, list[called + k].ticket, Owed(s, called + k));
    }
  }

  lemma {:induction false} RemoveKeeps<C(!new), V(!new)>(s: State<C, V>, callback: C)
    requires Inv(s)
    ensures Inv(DoRemove(s, callback))
  {
    if s.list.Some? {
      var s' := DoRemove(s, callback);
      var list, called := s.list.value, s.firingIndex + 1;
      WithoutSplits(list, callback, called);
      WithoutDistinct(list, callback, |s.history.seen|);
      WithoutDistinct(list[..called], callback, |s.history.seen|);
      forall i: nat | i < |s'.list.value|
        ensures SeenAllBut(s.history, s'.list.value[i].ticket, Owed(s', i))
      {
        RemoveOwes(s, callback, i);
      }
    }
  }

  /** A new value taken from the queue is owed to every entry. */
  lemma {:induction false} FiredGrows<V>(h: History<V>, v: V, t: nat)
    requires t < |h.start| == |h.seen| && Consecutive(h, t)
    ensures Consecutive(h.(fired := h.fired + [v]), t)
    ensures SeenAllBut(h, t, 0) ==> SeenAllBut(h.(fired := h.fired + [v]), t, 1)
  {
    assert h.fired[h.start[t]..] <= (h.fired + [v])[h.start[t]..];
  }

  lemma {:induction false} FireWithKeeps<C(!new), V(!new)>(s: State<C, V>, value: V)
    requires Inv(s)
    ensures Inv(DoFireWith(s, value))
  {
    var h := s.history;
    if !s.locked && !s.firing {
      var s' := DoFireWith(s, value);
      forall t: nat | t < |h.seen| ensures Consecutive(s'.history, t) {
        FiredGrows(h, value, t);
        assert Consecutive(h.(fired := h.fired + [value]), t);
      }
      forall i: nat | i < |s.list.value| ensures SeenAllBut(s'.history, s.list.value[i].ticket, Owed(s', i)) {
        assert SeenAllBut(h, s.list.value[i].ticket, Owed(s, i));
        FiredGrows(h, value, s.list.value[i].ticket);
        assert SeenAllBut(h.(fired := h.fired + [value]), s.list.value[i].ticket, 1);
      }
    } else if !s.locked {
      var s' := DoFireWith(s, value);
      assert forall t: nat :: t < |h.seen| && Consecutive(h, t) ==> Consecutive(s'.history, t);
    }
  }

  lemma {:induction false} CallKeeps<C(!new), V(!new)>(s: State<C, V>)
    requires Inv(s) && Calls(s).Some?
    ensures Inv(DoNext(s))
  {
    var s', h, list, k := DoNext(s), s.history, s.list.value, s.firingIndex + 1;
    var h', t := s'.history, list[k].ticket;
    assert SeenAllBut(h, t, Owed(s, k));
    assert h'.seen == h.seen[t := h.seen[t] + [h.fired[|h.fired| - 1]]];
    assert h'.seen[t] == h.fired[h.start[t]..];
    forall u: nat | u < |h.seen| ensures Consecutive(h', u) {
      assert Consecutive(h, u);
    }
    forall i: nat | i < |list| ensures SeenAllBut(h', list[i].ticket, Owed(s', i)) {
      assert SeenAllBut(h, list[i].ticket, Owed(s, i));
    }
  }

  lemma {:induction false} DequeueKeeps<C(!new), V(!new)>(s: State<C, V>)
    requires Inv(s) && s.firing && Calls(s).None? && s.queue != []
    ensures Inv(DoNext(s))
  {
    var s', h, v := DoNext(s), s.history, s.queue[0];
    forall t: nat | t < |h.seen| ensures Consecutive(s'.history, t) {
      FiredGrows(h, v, t);
    }
    if s.list.Some? {
      var list := s.list.value;
      forall i: nat | i < |list| ensures SeenAllBut(s'.history, list[i].ticket, Owed(s', i)) {
        assert SeenAllBut(h, list[i].ticket, Owed(s, i));
        FiredGrows(h, v, list[i].ticket);
      }
    }
  }

  lemma {:induction false} FinishKeeps<C(!new), V(!new)>(s: State<C, V>)
    requires Inv(s) && s.firing && Calls(s).None? && s.queue == []
    ensures Inv(DoNext(s))
  {
    var s', h := DoNext(s), s.history;
    if s'.list.Some? {
      var list := s'.list.value;
      forall i: nat | i < |list| ensures SeenAllBut(h, list[i].ticket, Owed(s', i)) {
        assert SeenAllBut(h, s.list.value[i].ticket, Owed(s, i));
      }
    }
  }

  lemma {:induction false} ApplyKeeps<C(!new), V(!new)>(s: State<C, V>, op: Op<C, V>)
    requires Inv(s)
    ensures Inv(Apply(s, op))
  {
    match op
    case Add(callbacks) => AddKeeps(s, callbacks);
    case Remove(callback) => RemoveKeeps(s, callback);
    case FireWith(value) => FireWithKeeps(s, value);
    case Lock =>
    case Disable =>
    case Next =>
      if s.firing {
        if Calls(s).Some? { CallKeeps(s); } else if s.queue != [] { DequeueKeeps(s); } else { FinishKeeps(s); }
      }
  }

  lemma {:induction false} RunInv<C(!new), V(!new)>(s: State<C, V>, ops: seq<Op<C, V>>)
    requires Inv(s)
    ensures Inv(Run(s, ops)) && Run(s, ops).options == s.options
    decreases |ops|
  {
    if ops != [] {
      ApplyKeeps(s, ops[0]);
      ApplyOptions(s, ops[0]);
      RunInv(Apply(s, ops[0]), ops[1..]);
    }
  }

  lemma {:induction false} ApplyOptions<C, V>(s: State<C, V>, op: Op<C, V>)
    ensures Apply(s, op).options == s.options
  {
  }

  // ---------- What a registration sees ----------

  ghost predicate Live<C(!new), V>(s: State<C, V>, t: nat, c: C) {
    s.list.Some? && exists i: nat :: i < |s.list.value| && s.list.value[i] == Entry(c, t)
  }

  /** Registration `t` of callback `c` is still in the list, or has seen all the list will ever fire. */
  ghost predicate Tracked<C(!new), V(!new)>(s: State<C, V>, t: nat, c: C) {
    && t < |s.history.start| == |s.history.seen|
    && (Live(s, t, c) || (s.locked && SeenAllBut(s.history, t, 0)))
  }

  lemma {:induction false} WithoutKeepsOthers<C>(list: seq<Entry<C>>, callback: C, k: nat) returns (i: nat)
    requires k < |list| && list[k].callback != callback
    ensures i < |Without(list, callback)| && Without(list, callback)[i] == list[k]
  {
    if k == 0 {
      i := 0;
    } else {
      i := WithoutKeepsOthers(list[1..], callback, k - 1);
      i := if list[0].callback == callback then i else i + 1;
    }
  }

  /** An entry stays in the list, unless it is removed or the list is done for good. */
  lemma {:induction false} LiveKeeps<C(!new), V(!new)>(s: State<C, V>, op: Op<C, V>, t: nat, c: C, i: nat)
    requires Inv(s) && s.list.Some? && i < |s.list.value| && s.list.value[i] == Entry(c, t)
    requires op != Remove(c) && op != Disable
    ensures Tracked(Apply(s, op), t, c)
  {
    var s' := Apply(s, op);
    assert SeenAllBut(s.history, s.list.value[i].ticket, Owed(s, i));
    match op
    case Remove(callback) =>
      var i' := WithoutKeepsOthers(s.list.value, callback, i);
      assert s'.list.value[i'] == Entry(c, t);
    case Add(callbacks) =>
      assert s'.list.value[i] == Entry(c, t);
    case FireWith(value) =>
      assert s'.list.value[i] == Entry(c, t);
    case Lock =>
      if s'.list == s.list { assert s'.list.value[i] == Entry(c, t); }
    case Next =>
      if s'.list == s.list { assert s'.list.value[i] == Entry(c, t); }
  }

  lemma {:induction false} TrackedKeeps<C(!new), V(!new)>(s: State<C, V>, op: Op<C, V>, t: nat, c: C)
    requires Inv(s) && Tracked(s, t, c)
    requires op != Remove(c) && op != Disable
    ensures Tracked(Apply(s, op), t, c)
  {
    if Live(s, t, c) {
      var i: nat :| i < |s.list.value| && s.list.value[i] == Entry(c, t);
      LiveKeeps(s, op, t, c, i);
    } else if op.Next? && Calls(s).Some? {
      var called := Calls(s).value;
      assert called == s.list.value[s.firingIndex + 1];
      assert SeenAllBut(s.history, called.ticket, Owed(s, s.firingIndex + 1));
    }
  }

  lemma {:induction false} StartKept<C, V>(s: State<C, V>, op: Op<C, V>, t: nat)
    requires t < |s.history.start|
    ensures t < |Apply(s, op).history.start| && Apply(s, op).history.start[t] == s.history.start[t]
  {
  }

  lemma {:induction false} AddTracks<C(!new), V(!new)>(s: State<C, V>, callbacks: seq<C>, j: nat)
    requires Inv(s) && s.list.Some? && j < |callbacks|
    ensures Tracked(DoAdd(s, callbacks), |s.history.seen| + j, callbacks[j])
    ensures DoAdd(s, callbacks).history.start[|s.history.seen| + j] == StartOf(s)
  {
    var s' := DoAdd(s, callbacks);
    assert s'.list.value[|s.list.value| + j] == Entry(callbacks[j], |s.history.seen| + j);
  }

  /** What a run owes a registration that it never removed: nothing at rest, at most the value being fired. */
  lemma {:induction false} TrackedSees<C(!new), V(!new)>(s: State<C, V>, t: nat, c: C)
    requires Inv(s) && Tracked(s, t, c)
    ensures SeenAllBut(s.history, t, 0) || (s.firing && SeenAllBut(s.history, t, 1))
  {
    if Live(s, t, c) {
      var i: nat :| i < |s.list.value| && s.list.value[i] == Entry(c, t);
      assert SeenAllBut(s.history, s.list.value[i].ticket, Owed(s, i));
    }
  }

  lemma {:induction false} TrackedRun<C(!new), V(!new)>(s: State<C, V>, ops: seq<Op<C, V>>, t: nat, c: C)
    requires Inv(s) && Tracked(s, t, c)
    requires forall m :: 0 <= m < |ops| ==> ops[m] != Remove(c) && ops[m] != Disable
    ensures Tracked(Run(s, ops), t, c) && Run(s, ops).history.start[t] == s.history.start[t]
    decreases |ops|
  {
    if ops != [] {
      ApplyKeeps(s, ops[0]);
      TrackedKeeps(s, ops[0], t, c);
      StartKept(s, ops[0], t);
      TrackedRun(Apply(s, ops[0]), ops[1..], t, c);
    }
  }

  /**
    At rest registration `t` has been called with exactly the fired values from position `first` on; while the
    list is firing the value being fired may be still to come.
  */
  ghost predicate SeesFrom<C, V>(s: State<C, V>, t: nat, first: nat) {
    var h := s.history;
    && t < |h.seen| && first <= |h.fired|
    && (!s.firing ==> h.seen[t] == h.fired[first..])
    && (s.firing ==> h.seen[t] == h.fired[first..]
                     || (first < |h.fired| && h.seen[t] == h.fired[first..|h.fired| - 1]))
  }

  /** The position of the value being fired or last fired, and of the first value if there is none yet. */
  function CurrentPosition<V>(h: History<V>): nat {
    if h.fired == [] then 0 else |h.fired| - 1
  }

  /**
    The law of the memory list: after any run, a callback registered then and not removed by the operations that
    follow is called with exactly the consecutive fired values from the current one on.
  */
  lemma {:induction false} RegisteredSeesEveryValue<C(!new), V(!new)>(once: bool, earlier: seq<Op<C, V>>, callbacks: seq<C>, j: nat,
                                                   later: seq<Op<C, V>>)
    requires j < |callbacks|
    requires Run(Init(Options(once, true)), earlier).list.Some?
    requires forall m :: 0 <= m < |later| ==> later[m] != Remove(callbacks[j]) && later[m] != Disable
    ensures var before := Run(Init(Options(once, true)), earlier);
            SeesFrom(Run(DoAdd(before, callbacks), later), |before.history.seen| + j, CurrentPosition(before.history))
  {
    RunInv(Init<C, V>(Options(once, true)), earlier);
    RegistrationSees(Run(Init(Options(once, true)), earlier), callbacks, j, later);
  }

  lemma {:induction false} RegistrationSees<C(!new), V(!new)>(before: State<C, V>, callbacks: seq<C>, j: nat, later: seq<Op<C, V>>)
    requires Inv(before) && before.options.memory && before.list.Some?
    requires j < |callbacks|
    requires forall m :: 0 <= m < |later| ==> later[m] != Remove(callbacks[j]) && later[m] != Disable
    ensures SeesFrom(Run(DoAdd(before, callbacks), later), |before.history.seen| + j, CurrentPosition(before.history))
  {
    AddKeeps(before, callbacks);
    AddTracks(before, callbacks, j);
    assert StartOf(before) == CurrentPosition(before.history);
    LaterSees(DoAdd(before, callbacks), later, |before.history.seen| + j, callbacks[j]);
  }

  lemma {:induction false} LaterSees<C(!new), V(!new)>(s: State<C, V>, later: seq<Op<C, V>>, t: nat, c: C)
    requires Inv(s) && Tracked(s, t, c)
    requires forall m :: 0 <= m < |later| ==> later[m] != Remove(c) && later[m] != Disable
    ensures SeesFrom(Run(s, later), t, s.history.start[t])
  {
    RunInv(s, later);
    TrackedRun(s, later, t, c);
    TrackedSees(Run(s, later), t, c);
  }

  lemma {:induction false} ForgetsStep<C(!new), V(!new)>(s: State<C, V>, op: Op<C, V>)
    requires !s.options.memory && (!s.firing ==> s.memory.None?)
    ensures !Apply(s, op).options.memory && (!Apply(s, op).firing ==> Apply(s, op).memory.None?)
  {
  }

  lemma {:induction false} Forgets<C(!new), V(!new)>(s: State<C, V>, ops: seq<Op<C, V>>)
    requires !s.options.memory && (!s.firing ==> s.memory.None?)
    ensures !Run(s, ops).firing ==> Run(s, ops).memory.None?
    decreases |ops|
  {
    if ops != [] {
      ForgetsStep(s, ops[0]);
      Forgets(Apply(s, ops[0]), ops[1..]);
    }
  }

  lemma {:induction false} RestForgets<C(!new), V(!new)>(once: bool, ops: seq<Op<C, V>>)
    ensures Inv(Run(Init<C, V>(Options(once, false)), ops))
    ensures !Run(Init<C, V>(Options(once, false)), ops).firing ==> Run(Init<C, V>(Options(once, false)), ops).memory.None?
  {
    RunInv(Init<C, V>(Options(once, false)), ops);
    Forgets(Init<C, V>(Options(once, false)), ops);
  }

  /** The law of the list without memory: a callback registered at rest is called with the values fired later, and no other. */
  lemma RegisteredSeesLater<C(!new), V(!new)>(once: bool, earlier: seq<Op<C, V>>, callbacks: seq<C>, j: nat, later: seq<Op<C, V>>)
    requires j < |callbacks|
    requires var before := Run(Init<C, V>(Options(once, false)), earlier); before.list.Some? && !before.firing
    requires forall m :: 0 <= m < |later| ==> later[m] != Remove(callbacks[j]) && later[m] != Disable
    ensures var before := Run(Init<C, V>(Options(once, false)), earlier);
            SeesFrom(Run(DoAdd(before, callbacks), later), |before.history.seen| + j, |before.history.fired|)
  {
    RestForgets<C, V>(once, earlier);
    FreshSees(Run(Init<C, V>(Options(once, false)), earlier), callbacks, j, later);
  }

  lemma {:induction false} FreshSees<C(!new), V(!new)>(before: State<C, V>, callbacks: seq<C>, j: nat, later: seq<Op<C, V>>)
    requires Inv(before) && before.memory.None? && before.list.Some? && j < |callbacks|
    requires forall m :: 0 <= m < |later| ==> later[m] != Remove(callbacks[j]) && later[m] != Disable
    ensures SeesFrom(Run(DoAdd(before, callbacks), later), |before.history.seen| + j, |before.history.fired|)
  {
    AddKeeps(before, callbacks);
    AddTracks(before, callbacks, j);
    LaterSees(DoAdd(before, callbacks), later, |before.history.seen| + j, callbacks[j]);
  }

  ghost predicate LiveTicket<C, V>(s: State<C, V>, t: nat) {
    s.list.Some? && exists i: nat :: i < |s.list.value| && s.list.value[i].ticket == t
  }

  /** Every registration ever made is still in the list, or has seen all the list will ever fire. */
  ghost predicate NoneLost<C, V>(s: State<C, V>) {
    && |s.history.start| == |s.history.seen|
    && forall t: nat :: t < |s.history.seen| ==> LiveTicket(s, t) || (s.locked && SeenAllBut(s.history, t, 0))
  }

  lemma {:induction false} NoneLostKeeps<C(!new), V(!new)>(s: State<C, V>, op: Op<C, V>)
    requires Inv(s) && NoneLost(s) && !op.Remove? && !op.Disable?
    ensures NoneLost(Apply(s, op))
  {
    var s' := Apply(s, op);
    forall t: nat | t < |s'.history.seen|
      ensures LiveTicket(s', t) || (s'.locked && SeenAllBut(s'.history, t, 0))
    {
      if t >= |s.history.seen| {
        var i := |s.list.value| + (t - |s.history.seen|);
        assert s'.list.value[i].ticket == t;
      } else if LiveTicket(s, t) {
        var i: nat :| i < |s.list.value| && s.list.value[i].ticket == t;
        LiveKeeps(s, op, t, s.list.value[i].callback, i);
        assert Tracked(s', t, s.list.value[i].callback);
      } else if op.Next? && Calls(s).Some? {
        assert s.list.value[s.firingIndex + 1].ticket != t;
      }
    }
  }

  /** At rest a list that lost no registration has called each with all the fired values from its start on. */
  lemma {:induction false} NoneLostSeen<C(!new), V(!new)>(s: State<C, V>, t: nat)
    requires Inv(s) && NoneLost(s) && t < |s.history.seen| && !s.firing
    ensures SeenAllBut(s.history, t, 0)
  {
    if LiveTicket(s, t) {
      var i: nat :| i < |s.list.value| && s.list.value[i].ticket == t;
      assert SeenAllBut(s.history, s.list.value[i].ticket, Owed(s, i));
    }
  }

  lemma {:induction false} NoneLostRun<C(!new), V(!new)>(s: State<C, V>, ops: seq<Op<C, V>>)
    requires Inv(s) && NoneLost(s)
    requires forall m :: 0 <= m < |ops| ==> !ops[m].Remove? && !ops[m].Disable?
    ensures Inv(Run(s, ops)) && NoneLost(Run(s, ops))
    decreases |ops|
  {
    if ops != [] {
      ApplyKeeps(s, ops[0]);
      NoneLostKeeps(s, ops[0]);
      NoneLostRun(Apply(s, ops[0]), ops[1..]);
    }
  }

  /**
    In every run that removes and disables nothing, each registration ever made has, when the list is at rest, been
    called with all the values fired since it was made.
  */
  lemma AllSeen<C(!new), V(!new)>(options: Options, ops: seq<Op<C, V>>, t: nat)
    requires forall m :: 0 <= m < |ops| ==> !ops[m].Remove? && !ops[m].Disable?
    requires var s := Run(Init(options), ops); !s.firing && t < |s.history.seen|
    ensures var h := Run(Init<C, V>(options), ops).history;
            t < |h.start| && h.start[t] <= |h.fired| && h.seen[t] == h.fired[h.start[t]..]
  {
    NoneLostRun(Init<C, V>(options), ops);
    NoneLostSeen(Run(Init<C, V>(options), ops), t);
  }

  /** No entry of the list carries the number. */
  ghost predicate Gone<C, V>(s: State<C, V>, t: nat) {
    s.list.Some? ==> forall i: nat :: i < |s.list.value| ==> s.list.value[i].ticket != t
  }

  lemma {:induction false} GoneFromRest<C(!new), V(!new)>(s: State<C, V>, callback: C, t: nat)
    requires Gone(s, t)
    ensures Gone(DoRemove(s, callback), t)
  {
    if s.list.Some? {
      forall i: nat | i < |Without(s.list.value, callback)| ensures Without(s.list.value, callback)[i].ticket != t {
        var k := WithoutOrigin(s.list.value, callback, i);
      }
    }
  }

  /** A registration that is no longer in the list is never called again, whatever follows. */
  lemma {:induction false} RemovedSeesNoMore<C(!new), V(!new)>(s: State<C, V>, ops: seq<Op<C, V>>, t: nat)
    requires t < |s.history.seen| && Gone(s, t)
    ensures t < |Run(s, ops).history.seen| && Gone(Run(s, ops), t)
    ensures Run(s, ops).history.seen[t] == s.history.seen[t]
    decreases |ops|
  {
    if ops != [] {
      GoneStays(s, ops[0], t);
      RemovedSeesNoMore(Apply(s, ops[0]), ops[1..], t);
    }
  }

  lemma {:induction false} GoneStays<C(!new), V(!new)>(s: State<C, V>, op: Op<C, V>, t: nat)
    requires t < |s.history.seen| && Gone(s, t)
    ensures t < |Apply(s, op).history.seen| && Gone(Apply(s, op), t)
    ensures Apply(s, op).history.seen[t] == s.history.seen[t]
  {
    match op
    case Remove(callback) => GoneFromRest(s, callback, t);
    case Next => if Calls(s).Some? { assert s.list.value[s.firingIndex + 1].ticket != t; }
    case _ =>
  }

  lemma {:induction false} RemoveEnds<C(!new), V(!new)>(s: State<C, V>, callback: C, t: nat)
    requires Inv(s) && Live(s, t, callback)
    ensures Gone(DoRemove(s, callback), t)
  {
    var list := s.list.value;
    var j: nat :| j < |list| && list[j] == Entry(callback, t);
    forall i: nat | i < |Without(list, callback)| ensures Without(list, callback)[i].ticket != t {
      var k := WithoutOrigin(list, callback, i);
      assert k < j || k > j;
    }
  }

  /** After `remove` a registration of the callback is never called again, also while the list is being fired. */
  lemma RemovedForGood<C(!new), V(!new)>(options: Options, earlier: seq<Op<C, V>>, callback: C, t: nat, later: seq<Op<C, V>>)
    requires Live(Run(Init(options), earlier), t, callback)
    ensures var s := Run(Init<C, V>(options), earlier);
            var h' := Run(DoRemove(s, callback), later).history;
            t < |s.history.seen| && t < |h'.seen| && h'.seen[t] == s.history.seen[t]
  {
    RunInv(Init<C, V>(options), earlier);
    var s := Run(Init<C, V>(options), earlier);
    RemoveEnds(s, callback, t);
    RemovedSeesNoMore(DoRemove(s, callback), later, t);
  }

  /** Whatever carries number `t` in the list is a registration of the callback. */
  ghost predicate Named<C(!new), V>(s: State<C, V>, t: nat, c: C) {
    s.list.Some? ==> forall i: nat :: i < |s.list.value| && s.list.value[i].ticket == t ==> s.list.value[i].callback == c
  }

  lemma {:induction false} NamedStays<C(!new), V(!new)>(s: State<C, V>, op: Op<C, V>, t: nat, c: C)
    requires t < |s.history.seen| && Named(s, t, c) && !op.Remove?
    ensures t < |Apply(s, op).history.seen| && Named(Apply(s, op), t, c)
  {
  }

  lemma {:induction false} NamedRun<C(!new), V(!new)>(s: State<C, V>, ops: seq<Op<C, V>>, t: nat, c: C)
    requires t < |s.history.seen| && Named(s, t, c)
    requires forall m :: 0 <= m < |ops| ==> !ops[m].Remove?
    ensures t < |Run(s, ops).history.seen| && Named(Run(s, ops), t, c)
    decreases |ops|
  {
    if ops != [] {
      NamedStays(s, ops[0], t, c);
      NamedRun(Apply(s, ops[0]), ops[1..], t, c);
    }
  }

  // ---------- What is fired ----------

  function SendOf<C, V>(op: Op<C, V>): seq<V> {
    if op.FireWith? then [op.value] else []
  }

  /** The values that the operations fire, in order. */
  function Sends<C, V>(ops: seq<Op<C, V>>): seq<V> {
    if ops == [] then [] else SendOf(ops[0]) + Sends(ops[1..])
  }

  predicate NeverClosed<C, V>(ops: seq<Op<C, V>>) {
    forall m :: 0 <= m < |ops| ==> !ops[m].Lock? && !ops[m].Disable?
  }

  /** A list without `once` accepts every value and starts to fire it, unless it is firing already. */
  lemma {:induction false} SentStep<C(!new), V(!new)>(s: State<C, V>, op: Op<C, V>)
    requires !s.options.once && !s.locked && !op.Lock? && !op.Disable?
    ensures !Apply(s, op).options.once && !Apply(s, op).locked
    ensures Apply(s, op).history.sent == s.history.sent + SendOf(op) && (op.FireWith? ==> Apply(s, op).firing)
  {
  }

  lemma {:induction false} AllSent<C(!new), V(!new)>(s: State<C, V>, ops: seq<Op<C, V>>)
    requires !s.options.once && !s.locked && NeverClosed(ops)
    ensures !Run(s, ops).locked && Run(s, ops).history.sent == s.history.sent + Sends(ops)
    decreases |ops|
  {
    if ops != [] {
      SentStep(s, ops[0]);
      AllSent(Apply(s, ops[0]), ops[1..]);
      assert s.history.sent + SendOf(ops[0]) + Sends(ops[1..]) == s.history.sent + (SendOf(ops[0]) + Sends(ops[1..]));
    }
  }

  /**
    Nothing fired is lost: in every run without `lock` and `disable`, a list without `once` that has come to rest has
    fired exactly the values it was sent, in order, also those sent by running callbacks.
  */
  lemma EverySendFires<C(!new), V(!new)>(memory: bool, ops: seq<Op<C, V>>)
    requires NeverClosed(ops)
    ensures var s := Run(Init<C, V>(Options(false, memory)), ops);
            s.history.fired <= Sends(ops) && (!s.firing ==> s.history.fired == Sends(ops))
  {
    InitInv<C, V>(Options(false, memory));
    SendsFire(Init<C, V>(Options(false, memory)), ops);
    assert [] + Sends(ops) == Sends(ops);
  }

  lemma {:induction false} FiredOfSent<C(!new), V(!new)>(s: State<C, V>)
    requires Control(s)
    ensures s.history.fired <= s.history.sent && (!s.locked && !s.firing ==> s.history.fired == s.history.sent)
  {
  }

  lemma {:induction false} SendsFire<C(!new), V(!new)>(s: State<C, V>, ops: seq<Op<C, V>>)
    requires Inv(s) && !s.options.once && !s.locked && NeverClosed(ops)
    ensures Run(s, ops).history.fired <= s.history.sent + Sends(ops)
    ensures !Run(s, ops).firing ==> Run(s, ops).history.fired == s.history.sent + Sends(ops)
  {
    RunInv(s, ops);
    AllSent(s, ops);
    FiredOfSent(Run(s, ops));
  }

  lemma {:induction false} AddedSent<C(!new), V(!new)>(earlier: seq<Op<C, V>>, callbacks: seq<C>)
    requires NeverClosed(earlier)
    ensures var before := Run(Init<C, V>(Options(false, true)), earlier);
            && before.list.Some? && Inv(DoAdd(before, callbacks))
            && !DoAdd(before, callbacks).options.once && !DoAdd(before, callbacks).locked
            && DoAdd(before, callbacks).history.sent == Sends(earlier)
  {
    RunInv(Init<C, V>(Options(false, true)), earlier);
    AllSent(Init<C, V>(Options(false, true)), earlier);
    var before := Run(Init<C, V>(Options(false, true)), earlier);
    AddKeeps(before, callbacks);
    SentStep(before, Op<C, V>.Add(callbacks));
  }

  /**
    The law of a list with memory and without `once`, in terms of the operations alone: when all is quiet, a callback has
    been called with every value sent to the list from the one current at its registration on, in order.
  */
  lemma EveryValueReaches<C(!new), V(!new)>(earlier: seq<Op<C, V>>, callbacks: seq<C>, j: nat, later: seq<Op<C, V>>)
    requires NeverClosed(earlier) && NeverClosed(later) && j < |callbacks|
    requires forall m :: 0 <= m < |later| ==> later[m] != Remove(callbacks[j])
    requires !Run(DoAdd(Run(Init<C, V>(Options(false, true)), earlier), callbacks), later).firing
    ensures var before := Run(Init<C, V>(Options(false, true)), earlier);
            var values, t := Sends(earlier) + Sends(later), |before.history.seen| + j;
            var seen, from := Run(DoAdd(before, callbacks), later).history.seen, CurrentPosition(before.history);
            t < |seen| && from <= |values| && seen[t] == values[from..]
  {
    var before := Run(Init<C, V>(Options(false, true)), earlier);
    AddedSent(earlier, callbacks);
    NeverDisabled(later);
    RegisteredSeesEveryValue(false, earlier, callbacks, j, later);
    SendsReach(before, callbacks, |before.history.seen| + j, later, Sends(earlier));
  }

  lemma {:induction false} NeverDisabled<C(!new), V(!new)>(ops: seq<Op<C, V>>)
    requires NeverClosed(ops)
    ensures forall m :: 0 <= m < |ops| ==> ops[m] != Disable
  {
  }

  lemma {:induction false} SendsReach<C(!new), V(!new)>(before: State<C, V>, callbacks: seq<C>, t: nat, later: seq<Op<C, V>>,
                                                       sent: seq<V>)
    requires var s := DoAdd(before, callbacks);
             Inv(s) && !s.options.once && !s.locked && s.history.sent == sent && NeverClosed(later) && !Run(s, later).firing
    requires SeesFrom(Run(DoAdd(before, callbacks), later), t, CurrentPosition(before.history))
    ensures var values, from := sent + Sends(later), CurrentPosition(before.history);
            var seen := Run(DoAdd(before, callbacks), later).history.seen;
            t < |seen| && from <= |values| && seen[t] == values[from..]
  {
    SendsFire(DoAdd(before, callbacks), later);
  }

  ghost predicate Unused<C, V>(s: State<C, V>) {
    !s.locked && !s.firing && s.memory.None? && s.queue == [] && s.history.fired == []
  }

  lemma {:induction false} UnusedStep<C(!new), V(!new)>(s: State<C, V>, op: Op<C, V>)
    requires s.options.once && Unused(s)
    ensures Apply(s, op).options.once
    ensures if op.FireWith? then Closed(Apply(s, op)) && Apply(s, op).history.fired == [op.value]
            else if op.Lock? || op.Disable? then Closed(Apply(s, op)) && Apply(s, op).history.fired == []
            else Unused(Apply(s, op))
  {
  }

  lemma {:induction false} OnceSent<C(!new), V(!new)>(s: State<C, V>, ops: seq<Op<C, V>>)
    requires s.options.once && Unused(s)
    ensures var fired, sends := Run(s, ops).history.fired, Sends(ops);
            && (fired == [] || (sends != [] && fired == [sends[0]]))
            && (NeverClosed(ops) && sends != [] ==> fired == [sends[0]])
    decreases |ops|
  {
    if ops != [] {
      UnusedStep(s, ops[0]);
      if ops[0].FireWith? || ops[0].Lock? || ops[0].Disable? {
        LockedForGood(Apply(s, ops[0]), ops[1..]);
      } else {
        OnceSent(Apply(s, ops[0]), ops[1..]);
      }
    }
  }

  ghost predicate Closed<C, V>(s: State<C, V>) {
    s.locked && s.queue == []
  }

  /** A locked list fires no further value, whatever follows. */
  lemma {:induction false} LockedForGood<C(!new), V(!new)>(s: State<C, V>, ops: seq<Op<C, V>>)
    requires Closed(s)
    ensures Closed(Run(s, ops)) && Run(s, ops).history.fired == s.history.fired
    decreases |ops|
  {
    if ops != [] {
      ClosedStep(s, ops[0]);
      LockedForGood(Apply(s, ops[0]), ops[1..]);
    }
  }

  lemma {:induction false} ClosedStep<C(!new), V(!new)>(s: State<C, V>, op: Op<C, V>)
    requires Closed(s)
    ensures Closed(Apply(s, op)) && Apply(s, op).history.fired == s.history.fired
  {
  }

  /** A list with the option `once` fires the first value it is sent and no other; without `lock` and `disable` it does. */
  lemma OnceFiresFirst<C(!new), V(!new)>(memory: bool, ops: seq<Op<C, V>>)
    ensures var fired, sends := Run(Init<C, V>(Options(true, memory)), ops).history.fired, Sends(ops);
            && (fired == [] || (sends != [] && fired == [sends[0]]))
            && (NeverClosed(ops) && sends != [] ==> fired == [sends[0]])
  {
    OnceSent(Init<C, V>(Options(true, memory)), ops);
  }

  /** After `lock` nothing more is fired, and the values still queued are dropped. */
  lemma LockEnds<C(!new), V(!new)>(s: State<C, V>, later: seq<Op<C, V>>)
    ensures Run(DoLock(s), later).history.fired == s.history.fired
  {
    LockedForGood(DoLock(s), later);
  }

  ghost predicate Spent<C, V>(s: State<C, V>) {
    s.list.None? && s.locked && s.memory.None? && s.queue == []
  }

  lemma {:induction false} SpentStep<C(!new), V(!new)>(s: State<C, V>, op: Op<C, V>)
    requires Spent(s)
    ensures Spent(Apply(s, op)) && Apply(s, op).history == s.history
  {
  }

  /** A spent list never changes its records again: it takes no callback, fires nothing and calls nothing. */
  lemma {:induction false} SpentForGood<C(!new), V(!new)>(s: State<C, V>, ops: seq<Op<C, V>>)
    requires Spent(s)
    ensures Spent(Run(s, ops)) && Run(s, ops).history == s.history
    decreases |ops|
  {
    if ops != [] {
      SpentStep(s, ops[0]);
      SpentForGood(Apply(s, ops[0]), ops[1..]);
    }
  }

  /** After `disable`, also while the list is being fired, no callback is registered or called any more. */
  lemma DisableEnds<C(!new), V(!new)>(s: State<C, V>, later: seq<Op<C, V>>)
    ensures Run(DoDisable(s), later).history == s.history
  {
    SpentForGood(DoDisable(s), later);
  }

  lemma {:induction false} ListeningStep<C(!new), V(!new)>(s: State<C, V>, op: Op<C, V>)
    requires s.options.memory && s.list.Some? && s.memory.Some? && op != Disable
    ensures Apply(s, op).list.Some? && Apply(s, op).memory.Some? && Apply(s, op).options.memory
  {
  }

  lemma {:induction false} StillListening<C(!new), V(!new)>(s: State<C, V>, ops: seq<Op<C, V>>)
    requires s.options.memory && s.list.Some? && s.memory.Some?
    requires forall m :: 0 <= m < |ops| ==> ops[m] != Disable
    ensures Run(s, ops).list.Some?
    decreases |ops|
  {
    if ops != [] {
      ListeningStep(s, ops[0]);
      StillListening(Apply(s, ops[0]), ops[1..]);
    }
  }

  lemma {:induction false} LockListening<C(!new), V(!new)>(s: State<C, V>)
    requires Inv(s) && s.options.memory && s.list.Some?
    ensures DoLock(s).options.memory
    ensures if s.history.fired != [] then DoLock(s).list.Some? && DoLock(s).memory.Some? else Spent(DoLock(s))
  {
  }

  /**
    A memory list that is locked after it has fired goes on to take callbacks, until it is disabled; one that is locked
    before it has fired is spent.
  */
  lemma LockedListens<C(!new), V(!new)>(once: bool, earlier: seq<Op<C, V>>, later: seq<Op<C, V>>)
    requires forall m :: 0 <= m < |later| ==> later[m] != Disable
    requires Run(Init<C, V>(Options(once, true)), earlier).list.Some?
    ensures var s := Run(Init<C, V>(Options(once, true)), earlier);
            Run(DoLock(s), later).list.Some? <==> s.history.fired != []
  {
    RunInv(Init<C, V>(Options(once, true)), earlier);
    var s := Run(Init<C, V>(Options(once, true)), earlier);
    LockListening(s);
    if s.history.fired != [] {
      StillListening(DoLock(s), later);
    } else {
      SpentForGood(DoLock(s), later);
    }
  }

  // ---------- The loop ends ----------

  /** The turns left until the list is at rest, if the callbacks leave it alone. */
  function TurnsLeft<C, V>(s: State<C, V>): nat {
    if !s.firing then 0
    else
      var n := if s.list.Some? then |s.list.value| else 0;
      1 + |s.queue| * (n + 1) + if 0 <= s.firingIndex + 1 < n then n - s.firingIndex - 1 else 0
  }

  lemma {:induction false} TurnCounts<C(!new), V(!new)>(s: State<C, V>)
    requires Inv(s) && s.firing
    ensures TurnsLeft(DoNext(s)) == TurnsLeft(s) - 1
  {
    var n := if s.list.Some? then |s.list.value| else 0;
    if Calls(s).None? && s.queue != [] {
      var q := |s.queue|;
      assert q * (n + 1) == (q - 1) * (n + 1) + (n + 1);
    }
  }

  function Turns<C, V>(n: nat): (ops: seq<Op<C, V>>) {
    if n == 0 then [] else [Next] + Turns(n - 1)
  }

  /** The loop of `fire` comes to rest after exactly the turns left. */
  lemma {:induction false} ComesToRest<C(!new), V(!new)>(s: State<C, V>)
    requires Inv(s)
    ensures !Run(s, Turns(TurnsLeft(s))).firing
    ensures forall n: nat :: n < TurnsLeft(s) ==> Run(s, Turns(n)).firing
    decreases TurnsLeft(s)
  {
    if s.firing {
      TurnCounts(s);
      ApplyKeeps(s, Op<C, V>.Next);
      ComesToRest(DoNext(s));
      assert Turns<C, V>(TurnsLeft(s))[1..] == Turns(TurnsLeft(s) - 1);
      forall n: nat | n < TurnsLeft(s) ensures Run(s, Turns(n)).firing {
        if n > 0 { assert Turns<C, V>(n)[1..] == Turns(n - 1); }
      }
    }
  }
}
