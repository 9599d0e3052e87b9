/**
  `jQuery.Deferred`: a state and six callback lists.  The first callbacks of the `done` and `fail` lists are
  the Deferred's own; they set the state, shut the other lists and fire the `then` handlers.

  The stack holds the lists whose firing is in progress, innermost last.  A user operation is possible when no
  list is firing or while a user callback runs; a `Step` is one turn of the innermost firing loop.
*/
module Deferreds {
  import opened Common
  import Cb = Callbacks

  /** What a list calls: one of the Deferred's own callbacks, naming the list it acts on, or a user callback. */
  datatype Action = SetState | DisableList(list: nat) | LockList(list: nat) | FireHandlers(list: nat) | User(id: nat)

  datatype Status = Pending | Resolved | Rejected

  /** A context and arguments, as passed to `resolveWith` and the like. */
  type Value = nat

  type Callbacks = Cb.State<Action, Value>

  datatype Frame = Frame(list: nat, user: bool)

  /** Lists 0, 1, 2 are progress, done and fail; 3, 4, 5 hold the `then` handlers of the three kinds. */
  datatype Deferred = Deferred(
    state: Status,
    lists: seq<Callbacks>,
    stack: seq<Frame>,
    // not variables of the source: the first settling call, and how many own callbacks of that list have begun
    first: Option<(nat, Value)>,
    begun: nat)

  datatype Op =
    | Listen(list: nat, id: nat)
    | Send(kind: nat, value: Value)
    | Step

  const DONE := 1
  const FAIL := 2

  function StatusOf(kind: nat): Status {
    if kind == DONE then Resolved else Rejected
  }

  /** The Deferred's own callbacks in the list of the given kind, in order. */
  function Own(kind: nat): (own: seq<Action>)
    requires kind <= 2
    ensures kind == 0 ==> |own| == 1
    ensures kind != 0 ==> |own| == 6
  {
    if kind == 0 then [FireHandlers(3)]
    else [SetState, DisableList(3 - kind), DisableList(6 - kind), LockList(0), LockList(3), FireHandlers(kind + 3)]
  }

  function Fresh(kind: nat): Callbacks
    requires kind < 6
  {
    var list := Cb.Init(Cb.Options(kind % 3 != 0, true));
    if kind < 3 then Cb.DoAdd(list, Own(kind)) else list
  }

  function Init(): Deferred {
    Deferred(Pending, seq(6, i requires 0 <= i < 6 => Fresh(i)), [], None, 0)
  }

  /** Put a list back; if that set it firing, its loop is now the innermost one. */
  function Update(d: Deferred, i: nat, list: Callbacks): Deferred
    requires i < |d.lists|
  {
    var d' := d.(lists := d.lists[i := list]);
    if !d.lists[i].firing && list.firing then d'.(stack := d.stack + [Frame(i, false)]) else d'
  }

  function Perform(d: Deferred, kind: nat, action: Action, value: Value): Deferred
    requires |d.lists| == 6
  {
    match action
    case SetState => d.(state := StatusOf(kind))
    case DisableList(j) => if j < 6 then Update(d, j, Cb.DoDisable(d.lists[j])) else d
    case LockList(j) => if j < 6 then Update(d, j, Cb.DoLock(d.lists[j])) else d
    case FireHandlers(j) => if j < 6 then Update(d, j, Cb.DoFireWith(d.lists[j], value)) else d
    case User(_) => d
  }

  /** Replace the innermost list; if it has stopped firing, its loop is over. */
  function Replace(d: Deferred, list: Callbacks, user: bool): Deferred
    requires d.stack != [] && d.stack[|d.stack| - 1].list < |d.lists|
  {
    var below, i := d.stack[..|d.stack| - 1], d.stack[|d.stack| - 1].list;
    d.(lists := d.lists[i := list], stack := if list.firing then below + [Frame(i, user)] else below)
  }

  /** One turn of the innermost loop. */
  function DoStep(d: Deferred): Deferred
    requires |d.lists| == 6
  {
    if d.stack == [] || d.stack[|d.stack| - 1].list >= 6 then d
    else
      var i := d.stack[|d.stack| - 1].list;
      var called := Cb.Calls(d.lists[i]);
      if called.None? then Replace(d, Cb.DoNext(d.lists[i]), false)
      else
        var action := called.value.callback;
        var d' := Replace(d, Cb.DoNext(d.lists[i]), action.User?);
        var own := i % 3 != 0 && !action.User?;
        Perform(if own then d'.(begun := d.begun + 1) else d', i, action, d.lists[i].memory.value)
  }

  lemma {:induction false} StepIs(d: Deferred, i: nat)
    requires |d.lists| == 6 && d.stack != [] && d.stack[|d.stack| - 1].list == i < 6
    ensures var called, list := Cb.Calls(d.lists[i]), Cb.DoNext(d.lists[i]);
            DoStep(d) ==
              if called.None? then Replace(d, list, false)
              else if called.value.callback.User? then Replace(d, list, true)
              else
                var begun := if i % 3 != 0 then d.begun + 1 else d.begun;
                Perform(Replace(d, list, false).(begun := begun), i, called.value.callback, d.lists[i].memory.value)
  {
    var list := Cb.DoNext(d.lists[i]);
    assert Replace(d, list, false).(begun := d.begun) == Replace(d, list, false);
  }

  predicate UserMayCall(d: Deferred) {
    d.stack == [] || d.stack[|d.stack| - 1].user
  }

  function Apply(d: Deferred, op: Op): Deferred
    requires |d.lists| == 6
  {
    match op
    case Step => DoStep(d)
    case Listen(i, id) =>
      if UserMayCall(d) && i < 6 then Update(d, i, Cb.DoAdd(d.lists[i], [User(id)])) else d
    case Send(kind, value) =>
      if UserMayCall(d) && kind < 3 then
        var d' := Update(d, kind, Cb.DoFireWith(d.lists[kind], value));
        if kind != 0 && d.first.None? then d'.(first := Some((kind, value))) else d'
      else d
  }

  lemma ApplySize(d: Deferred, op: Op)
    requires |d.lists| == 6
    ensures |Apply(d, op).lists| == 6
  {
  }

  // ---------- The invariant ----------

  /** A list is firing exactly when its loop is on the stack. */
  ghost predicate StackOk(lists: seq<Callbacks>, stack: seq<Frame>) {
    && |lists| == 6
    && (forall k :: 0 <= k < |stack| ==> stack[k].list < 6 && lists[stack[k].list].firing)
    && (forall j, k :: 0 <= j < k < |stack| ==> stack[j].list != stack[k].list)
    && (forall i :: 0 <= i < 6 && lists[i].firing ==> OnStack(stack, i))
  }

  ghost predicate OnStack(stack: seq<Frame>, i: nat) {
    exists k :: 0 <= k < |stack| && stack[k].list == i
  }

  lemma {:induction false} UpdateOnStack(d: Deferred, i: nat, list: Callbacks, j: nat)
    requires StackOk(d.lists, d.stack) && i < 6 && j < 6 && Update(d, i, list).lists[j].firing
    ensures OnStack(Update(d, i, list).stack, j)
  {
    var stack' := Update(d, i, list).stack;
    if d.lists[j].firing {
      var k :| 0 <= k < |d.stack| && d.stack[k].list == j;
      assert stack'[k].list == j;
    } else {
      assert stack'[|d.stack|].list == j;
    }
  }

  lemma {:induction false} NotOnStack(d: Deferred, i: nat)
    requires StackOk(d.lists, d.stack) && i < 6 && !d.lists[i].firing
    ensures forall k :: 0 <= k < |d.stack| ==> d.stack[k].list != i
  {
  }

  lemma {:induction false} UpdateStack(d: Deferred, i: nat, list: Callbacks)
    requires StackOk(d.lists, d.stack) && i < 6
    requires d.lists[i].firing ==> list.firing
    ensures StackOk(Update(d, i, list).lists, Update(d, i, list).stack)
  {
    var d' := Update(d, i, list);
    forall j: nat | j < 6 && d'.lists[j].firing ensures OnStack(d'.stack, j) {
      UpdateOnStack(d, i, list, j);
    }
    if !d.lists[i].firing { NotOnStack(d, i); }
  }

  lemma {:induction false} ReplaceStack(d: Deferred, list: Callbacks, user: bool)
    requires StackOk(d.lists, d.stack) && d.stack != []
    ensures StackOk(Replace(d, list, user).lists, Replace(d, list, user).stack)
  {
    var d', below, i := Replace(d, list, user), d.stack[..|d.stack| - 1], d.stack[|d.stack| - 1].list;
    forall j | 0 <= j < 6 && d'.lists[j].firing ensures OnStack(d'.stack, j) {
      if j == i {
        assert d'.stack[|below|].list == j;
      } else {
        var k :| 0 <= k < |d.stack| && d.stack[k].list == j;
        assert d'.stack[k].list == j;
      }
    }
  }

  // ---------- The part a list plays ----------

  /**
    What a list is in, at a stage of the Deferred's life: a progress list; not fired yet, with its own callbacks
    first; calling its own callbacks, of which `begun` have been started; fired for good with a value; shut.
  */
  datatype Role = Progress(own: seq<Action>) | Untouched(own: seq<Action>) | Critical(own: seq<Action>, v: Value, begun: nat)
                | Fired(v: Value) | Dead

  ghost predicate CallsOnly(s: Callbacks, from: int, own: seq<Action>) {
    s.list.Some? ==> forall i :: 0 <= i < |s.list.value| && from <= i ==>
      s.list.value[i].callback.User? || s.list.value[i].callback in own
  }

  /** Nothing removed: the own callbacks come first, then the user's, in order of registration. */
  ghost predicate Ordered(s: Callbacks, own: seq<Action>) {
    && s.list.Some? && |own| <= |s.list.value| == |s.history.seen|
    && (forall i :: 0 <= i < |own| ==> s.list.value[i].callback == own[i])
    && CallsOnly(s, |own|, [])
    && (forall i :: 0 <= i < |s.list.value| ==> s.list.value[i].ticket == i)
  }

  ghost predicate FromFirst(s: Callbacks) {
    forall t :: 0 <= t < |s.history.start| ==> s.history.start[t] == 0
  }

  ghost predicate Plays(s: Callbacks, role: Role) {
    && Cb.Inv(s)
    && s.options == Cb.Options(!role.Progress?, true)
    && match role
       case Progress(own) => CallsOnly(s, 0, own)
       case Untouched(own) =>
         Ordered(s, own) && FromFirst(s) && !s.firing && !s.locked && s.memory.None? && s.history.sent == []
       case Critical(own, v, begun) =>
         && Ordered(s, own) && FromFirst(s) && s.firing && s.locked && s.memory == Some(v)
         && s.history.sent == s.history.fired == [v] && s.firingIndex == begun - 1 && begun < |own|
       case Fired(v) =>
         && s.locked && s.list.Some? && s.memory == Some(v) && s.history.sent == s.history.fired == [v]
         && CallsOnly(s, s.firingIndex + 1, []) && Cb.NoneLost(s) && FromFirst(s)
       case Dead =>
         s.list.None? && s.locked && !s.firing && s.memory.None? && s.history.fired == []
  }

  lemma {:induction false} RoleListens(s: Callbacks, role: Role, id: nat)
    requires Plays(s, role) && !role.Critical?
    ensures Plays(Cb.DoAdd(s, [User(id)]), role) && (s.firing ==> Cb.DoAdd(s, [User(id)]).firing)
  {
    Cb.AddKeeps(s, [User(id)]);
    match role
    case Fired(v) => FiredListens(s, v, id);
    case Untouched(own) => UntouchedListens(s, own, id);
    case Progress(own) =>
    case Dead =>
  }

  lemma {:induction false} FiredListens(s: Callbacks, v: Value, id: nat)
    requires Plays(s, Fired(v))
    ensures Plays(Cb.DoAdd(s, [User(id)]), Fired(v))
  {
    Cb.AddKeeps(s, [User(id)]);
    Cb.NoneLostKeeps(s, Cb.Add([User(id)]));
  }

  lemma {:induction false} UntouchedListens(s: Callbacks, own: seq<Action>, id: nat)
    requires Plays(s, Untouched(own))
    ensures Plays(Cb.DoAdd(s, [User(id)]), Untouched(own))
  {
    Cb.AddKeeps(s, [User(id)]);
    assert Cb.DoAdd(s, [User(id)]) == Cb.Register(s, [User(id)]);
  }

  lemma {:induction false} AllLive(s: Callbacks, own: seq<Action>)
    requires Ordered(s, own) && |s.history.start| == |s.history.seen|
    ensures Cb.NoneLost(s)
  {
    forall t: nat | t < |s.history.seen| ensures Cb.LiveTicket(s, t) {
      assert s.list.value[t].ticket == t;
    }
  }

  /** Firing an untouched list starts its own callbacks; firing it again, or a shut list, does nothing. */
  lemma {:induction false} RoleFires(s: Callbacks, role: Role, v: Value)
    requires Plays(s, role) && !role.Critical?
    ensures var role' := if !role.Untouched? then role else if role.own != [] then Critical(role.own, v, 0) else Fired(v);
            Plays(Cb.DoFireWith(s, v), role')
    ensures role.Untouched? ==> !s.firing
    ensures role.Untouched? || s.firing ==> Cb.DoFireWith(s, v).firing
    ensures role.Fired? || role.Dead? ==> Cb.DoFireWith(s, v) == s
  {
    Cb.FireWithKeeps(s, v);
    if role.Untouched? {
      var s' := Cb.DoFireWith(s, v);
      assert s'.history.fired == [v];
      AllLive(s', role.own);
    }
  }

  lemma {:induction false} RoleDies(s: Callbacks, own: seq<Action>)
    requires Plays(s, Untouched(own))
    ensures Plays(Cb.DoDisable(s), Dead) && !s.firing
  {
  }

  lemma {:induction false} RoleLocks(s: Callbacks, own: seq<Action>)
    requires Plays(s, Progress(own))
    ensures Plays(Cb.DoLock(s), Progress(own)) && Cb.DoLock(s).firing == s.firing
  {
  }

  /** The next of the own callbacks is called; after the last one the list has been fired for good. */
  lemma {:induction false} CriticalTurns(s: Callbacks, own: seq<Action>, v: Value, begun: nat)
    requires Plays(s, Critical(own, v, begun))
    ensures Cb.Calls(s).Some? && Cb.Calls(s).value.callback == own[begun]
    ensures Cb.DoNext(s).firing && s.memory == Some(v)
    ensures Plays(Cb.DoNext(s), if begun + 1 < |own| then Critical(own, v, begun + 1) else Fired(v))
  {
    Cb.ApplyKeeps(s, Cb.Next);
    AllLive(Cb.DoNext(s), own);
  }

  lemma {:induction false} RoleTurns(s: Callbacks, role: Role)
    requires Plays(s, role) && !role.Critical? && s.firing
    ensures Plays(Cb.DoNext(s), role)
    ensures Cb.Calls(s).Some? ==> s.memory.Some? && Cb.DoNext(s).firing
    ensures Cb.Calls(s).Some? ==> Cb.Calls(s).value.callback.User? || (role.Progress? && Cb.Calls(s).value.callback in role.own)
  {
    Cb.ApplyKeeps(s, Cb.Next);
    if role.Fired? { Cb.NoneLostKeeps(s, Cb.Next); }
  }

  // ---------- What every operation keeps ----------

  /** The part of list `j`, once the given own callbacks of the list that settles the Deferred have begun. */
  ghost function RoleOf(first: Option<(nat, Value)>, begun: nat, j: nat): Role
    requires j < 6
  {
    if j % 3 == 0 then Progress(if j == 0 then Own(0) else [])
    else if first.None? || first.value.0 > 2 then Untouched(if j < 3 then Own(j) else [])
    else
      var (kind, v) := first.value;
      if j == kind then if begun < 6 then Critical(Own(kind), v, begun) else Fired(v)
      else if j == 3 + kind then if begun < 6 then Untouched([]) else Fired(v)
      else if j < 3 then if begun < 2 then Untouched(Own(j)) else Dead
      else if begun < 3 then Untouched([]) else Dead
  }

  /** The first `n` lists play their parts. */
  ghost predicate Parts(lists: seq<Callbacks>, first: Option<(nat, Value)>, begun: nat, n: nat)
    requires |lists| == 6 && n <= 6
  {
    n == 0 || (Plays(lists[n - 1], RoleOf(first, begun, n - 1)) && Parts(lists, first, begun, n - 1))
  }

  lemma {:induction false} PartAt(lists: seq<Callbacks>, first: Option<(nat, Value)>, begun: nat, n: nat, i: nat)
    requires |lists| == 6 && i < n <= 6 && Parts(lists, first, begun, n)
    ensures Plays(lists[i], RoleOf(first, begun, i))
  {
    if i < n - 1 { PartAt(lists, first, begun, n - 1, i); }
  }

  /** Lists `i` and `j` are replaced by lists that play their next parts; the others keep theirs. */
  lemma {:induction false} PartsUpdate(lists: seq<Callbacks>, first: Option<(nat, Value)>, begun: nat, n: nat,
                                       i: nat, j: nat, lists': seq<Callbacks>, first': Option<(nat, Value)>, begun': nat)
    requires |lists| == |lists'| == 6 && n <= 6 && Parts(lists, first, begun, n)
    requires i < 6 && Plays(lists'[i], RoleOf(first', begun', i))
    requires j < 6 && Plays(lists'[j], RoleOf(first', begun', j))
    requires forall k :: 0 <= k < 6 && k != i && k != j ==>
               lists'[k] == lists[k] && RoleOf(first', begun', k) == RoleOf(first, begun, k)
    ensures Parts(lists', first', begun', n)
  {
    if n > 0 { PartsUpdate(lists, first, begun, n - 1, i, j, lists', first', begun'); }
  }

  /**
    The state agrees with how far the settling list has come; while its own callbacks run it is innermost and no
    user operation is possible.
  */
  ghost predicate Stage(d: Deferred) {
    match d.first
    case None => d.begun == 0 && d.state == Pending
    case Some((kind, _)) =>
      && (kind == DONE || kind == FAIL)
      && d.state == (if d.begun == 0 then Pending else StatusOf(kind))
      && (d.begun < 6 ==> d.stack != [] && d.stack[|d.stack| - 1] == Frame(kind, false))
  }

  ghost predicate Inv(d: Deferred) {
    StackOk(d.lists, d.stack) && Stage(d) && Parts(d.lists, d.first, d.begun, 6)
  }

  lemma {:induction false} FreshPlays(kind: nat)
    requires kind < 6
    ensures Plays(Fresh(kind), RoleOf(None, 0, kind)) && !Fresh(kind).firing
  {
    if kind < 3 {
      var empty := Cb.Init<Action, Value>(Cb.Options(kind != 0, true));
      Cb.AddKeeps(empty, Own(kind));
      assert Fresh(kind) == Cb.Register(empty, Own(kind));
    }
  }

  lemma {:induction false} FreshParts(n: nat)
    requires n <= 6
    ensures Parts(Init().lists, None, 0, n)
    ensures forall i :: 0 <= i < n ==> !Init().lists[i].firing
  {
    if n > 0 {
      FreshParts(n - 1);
      FreshPlays(n - 1);
    }
  }

  lemma {:induction false} InitInv()
    ensures Inv(Init())
  {
    FreshParts(6);
  }

  /** Any change of one list that keeps its part keeps the invariant. */
  lemma {:induction false} UpdateKeeps(d: Deferred, i: nat, list: Callbacks)
    requires Inv(d) && i < 6
    requires Plays(list, RoleOf(d.first, d.begun, i)) && (d.lists[i].firing ==> list.firing)
    requires d.first.None? || d.begun >= 6
    ensures Inv(Update(d, i, list))
  {
    UpdateStack(d, i, list);
    PartsUpdate(d.lists, d.first, d.begun, 6, i, i, d.lists[i := list], d.first, d.begun);
  }

  lemma {:induction false} ListenKeeps(d: Deferred, i: nat, id: nat)
    requires Inv(d) && i < 6 && UserMayCall(d)
    ensures Inv(Update(d, i, Cb.DoAdd(d.lists[i], [User(id)])))
  {
    PartAt(d.lists, d.first, d.begun, 6, i);
    RoleListens(d.lists[i], RoleOf(d.first, d.begun, i), id);
    UpdateKeeps(d, i, Cb.DoAdd(d.lists[i], [User(id)]));
  }

  lemma {:induction false} RolesAtFirst(kind: nat, v: Value, k: nat)
    requires 0 < kind < 3 && k < 6 && k != kind
    ensures RoleOf(Some((kind, v)), 0, k) == RoleOf(None, 0, k)
  {
  }

  lemma {:induction false} FirstSendPlays(s: Callbacks, kind: nat, value: Value)
    requires (kind == DONE || kind == FAIL) && Plays(s, RoleOf(None, 0, kind))
    ensures Plays(Cb.DoFireWith(s, value), RoleOf(Some((kind, value)), 0, kind))
    ensures !s.firing && Cb.DoFireWith(s, value).firing
  {
    RoleFires(s, Untouched(Own(kind)), value);
  }

  lemma {:induction false} FirstSendParts(d: Deferred, kind: nat, value: Value, list: Callbacks)
    requires Inv(d) && (kind == DONE || kind == FAIL) && d.first.None?
    requires Plays(list, RoleOf(Some((kind, value)), 0, kind))
    ensures Parts(d.lists[kind := list], Some((kind, value)), 0, 6)
  {
    forall k: nat | k < 6 && k != kind ensures RoleOf(Some((kind, value)), 0, k) == RoleOf(None, 0, k) {
      RolesAtFirst(kind, value, k);
    }
    PartsUpdate(d.lists, None, 0, 6, kind, kind, d.lists[kind := list], Some((kind, value)), 0);
  }

  /** The first `resolve` or `reject` sets the Deferred's own callbacks going. */
  lemma {:induction false} FirstSendKeeps(d: Deferred, kind: nat, value: Value)
    requires Inv(d) && (kind == DONE || kind == FAIL) && d.first.None?
    ensures Inv(Update(d, kind, Cb.DoFireWith(d.lists[kind], value)).(first := Some((kind, value))))
  {
    var list := Cb.DoFireWith(d.lists[kind], value);
    PartAt(d.lists, d.first, d.begun, 6, kind);
    FirstSendPlays(d.lists[kind], kind, value);
    UpdateStack(d, kind, list);
    FirstSendParts(d, kind, value, list);
  }

  /** Later on the lists of the user's calls play no parts that a call could end. */
  lemma {:induction false} LaterRole(first: Option<(nat, Value)>, begun: nat, kind: nat)
    requires kind < 3 && (first.None? ==> kind == 0)
    requires first.Some? ==> begun >= 6 && (first.value.0 == DONE || first.value.0 == FAIL)
    ensures var role := RoleOf(first, begun, kind); role.Progress? || role.Fired? || role.Dead?
  {
  }

  lemma {:induction false} LaterSendPlays(s: Callbacks, role: Role, value: Value)
    requires Plays(s, role) && (role.Progress? || role.Fired? || role.Dead?)
    ensures Plays(Cb.DoFireWith(s, value), role) && (s.firing ==> Cb.DoFireWith(s, value).firing)
  {
    RoleFires(s, role, value);
  }

  lemma {:induction false} LaterSendKeeps(d: Deferred, kind: nat, value: Value)
    requires Inv(d) && kind < 3 && (d.first.None? ==> kind == 0) && (d.first.Some? ==> d.begun >= 6)
    ensures Inv(Update(d, kind, Cb.DoFireWith(d.lists[kind], value)))
  {
    PartAt(d.lists, d.first, d.begun, 6, kind);
    LaterRole(d.first, d.begun, kind);
    LaterSendPlays(d.lists[kind], RoleOf(d.first, d.begun, kind), value);
    UpdateKeeps(d, kind, Cb.DoFireWith(d.lists[kind], value));
  }

  lemma {:induction false} SendKeeps(d: Deferred, kind: nat, value: Value)
    requires Inv(d) && kind < 3 && UserMayCall(d)
    ensures Inv(Apply(d, Send(kind, value)))
  {
    if kind != 0 && d.first.None? {
      FirstSendKeeps(d, kind, value);
    } else {
      LaterSendKeeps(d, kind, value);
    }
  }

  /** The state after the settling list has started its next own callback, which has not yet done anything. */
  function OwnBegun(d: Deferred, list: Callbacks): Deferred
    requires |d.lists| == 6 && d.stack != [] && d.stack[|d.stack| - 1].list < 6
  {
    Replace(d, list, false).(begun := d.begun + 1)
  }

  /** The list the next own callback acts on, once the state has been set. */
  function Acted(kind: nat, begun: nat): (j: nat)
    requires 0 < kind < 3 && 0 < begun < 6
    ensures j < 6 && j != kind
  {
    match begun
    case 1 => 3 - kind
    case 2 => 6 - kind
    case 3 => 0
    case 4 => 3
    case _ => 3 + kind
  }

  lemma {:induction false} RolesElsewhere(kind: nat, v: Value, begun: nat, k: nat)
    requires 0 < kind < 3 && 0 < begun < 6 && k < 6 && k != kind && k != Acted(kind, begun)
    ensures RoleOf(Some((kind, v)), begun + 1, k) == RoleOf(Some((kind, v)), begun, k)
  {
  }

  /** The own callback changes one other list: both lists must take their next parts. */
  lemma {:induction false} OwnUpdateKeeps(d: Deferred, kind: nat, v: Value, list: Callbacks, j: nat, other: Callbacks)
    requires Inv(d) && d.first == Some((kind, v)) && 0 < d.begun < 6 && j == Acted(kind, d.begun)
    requires list.firing && (d.lists[j].firing ==> other.firing)
    requires d.begun < 5 ==> other.firing == d.lists[j].firing
    requires Plays(list, RoleOf(d.first, d.begun + 1, kind)) && Plays(other, RoleOf(d.first, d.begun + 1, j))
    ensures Inv(Update(OwnBegun(d, list), j, other))
  {
    ReplaceStack(d, list, false);
    UpdateStack(OwnBegun(d, list), j, other);
    forall k: nat | k < 6 && k != kind && k != j
      ensures RoleOf(d.first, d.begun + 1, k) == RoleOf(d.first, d.begun, k)
    {
      RolesElsewhere(kind, v, d.begun, k);
    }
    PartsUpdate(d.lists, d.first, d.begun, 6, kind, j, d.lists[kind := list][j := other], d.first, d.begun + 1);
  }

  /** What the next own callback does, once it has been started. */
  function OwnPerformed(d: Deferred, kind: nat, list: Callbacks, v: Value): Deferred
    requires |d.lists| == 6 && d.stack != [] && d.stack[|d.stack| - 1].list < 6 && 0 < kind < 3 && d.begun < 6
  {
    Perform(OwnBegun(d, list), kind, Own(kind)[d.begun], v)
  }

  lemma {:induction false} OwnStateKeeps(d: Deferred, kind: nat, v: Value, list: Callbacks)
    requires Inv(d) && d.first == Some((kind, v)) && d.begun == 0
    requires list.firing && Plays(list, RoleOf(d.first, 1, kind))
    ensures Inv(OwnPerformed(d, kind, list, v))
  {
    ReplaceStack(d, list, false);
    PartsUpdate(d.lists, d.first, 0, 6, kind, kind, d.lists[kind := list], d.first, 1);
  }

  /** What an own callback makes of the list it acts on: shut, locked, or fired. */
  function ActedList(s: Callbacks, begun: nat, v: Value): Callbacks {
    if begun < 3 then Cb.DoDisable(s) else if begun < 5 then Cb.DoLock(s) else Cb.DoFireWith(s, v)
  }

  lemma {:induction false} OwnActs(d: Deferred, kind: nat, v: Value, list: Callbacks)
    requires |d.lists| == 6 && d.stack != [] && d.stack[|d.stack| - 1].list == kind && 0 < kind < 3 && 0 < d.begun < 6
    ensures var j := Acted(kind, d.begun);
            OwnPerformed(d, kind, list, v) == Update(OwnBegun(d, list), j, ActedList(d.lists[j], d.begun, v))
  {
  }

  /** The part of that list afterwards. */
  function NextPart(role: Role, begun: nat, v: Value): Role {
    if begun < 3 then Dead else if begun < 5 then role else Fired(v)
  }

  lemma {:induction false} ActedParts(kind: nat, v: Value, begun: nat)
    requires 0 < kind < 3 && 0 < begun < 6
    ensures var part := RoleOf(Some((kind, v)), begun, Acted(kind, begun));
            && (if 3 <= begun < 5 then part.Progress? else part.Untouched?) && (begun == 5 ==> part.own == [])
            && RoleOf(Some((kind, v)), begun + 1, Acted(kind, begun)) == NextPart(part, begun, v)
  {
  }

  lemma {:induction false} OwnActsPart(s: Callbacks, role: Role, v: Value, begun: nat)
    requires Plays(s, role) && (if 3 <= begun < 5 then role.Progress? else role.Untouched?) && (begun >= 5 ==> role.own == [])
    ensures Plays(ActedList(s, begun, v), NextPart(role, begun, v))
    ensures s.firing ==> ActedList(s, begun, v).firing
    ensures begun < 5 ==> ActedList(s, begun, v).firing == s.firing
  {
    if begun < 3 {
      RoleDies(s, role.own);
    } else if begun < 5 {
      RoleLocks(s, role.own);
    } else {
      RoleFires(s, role, v);
    }
  }

  lemma {:induction false} OwnActKeeps(d: Deferred, kind: nat, v: Value, list: Callbacks)
    requires Inv(d) && d.first == Some((kind, v)) && 0 < d.begun < 6
    requires list.firing && Plays(list, RoleOf(d.first, d.begun + 1, kind))
    ensures Inv(OwnPerformed(d, kind, list, v))
  {
    var j := Acted(kind, d.begun);
    PartAt(d.lists, d.first, d.begun, 6, j);
    ActedParts(kind, v, d.begun);
    OwnActsPart(d.lists[j], RoleOf(d.first, d.begun, j), v, d.begun);
    OwnUpdateKeeps(d, kind, v, list, j, ActedList(d.lists[j], d.begun, v));
    OwnActs(d, kind, v, list);
  }

  /** The turn of the settling list that starts its next own callback. */
  lemma {:induction false} OwnTurn(d: Deferred, kind: nat, v: Value)
    requires |d.lists| == 6 && 0 < kind < 3 && d.begun < 6
    requires d.stack != [] && d.stack[|d.stack| - 1] == Frame(kind, false)
    requires Cb.Calls(d.lists[kind]).Some? && Cb.Calls(d.lists[kind]).value.callback == Own(kind)[d.begun]
    requires d.lists[kind].memory == Some(v)
    ensures DoStep(d) == OwnPerformed(d, kind, Cb.DoNext(d.lists[kind]), v)
  {
  }

  lemma {:induction false} OwnReady(d: Deferred, kind: nat, v: Value)
    requires Inv(d) && d.first == Some((kind, v)) && d.begun < 6
    ensures var s := d.lists[kind];
            && Cb.Calls(s).Some? && Cb.Calls(s).value.callback == Own(kind)[d.begun] && s.memory == Some(v)
            && Cb.DoNext(s).firing && Plays(Cb.DoNext(s), RoleOf(d.first, d.begun + 1, kind))
  {
    PartAt(d.lists, d.first, d.begun, 6, kind);
    assert RoleOf(d.first, d.begun, kind) == Critical(Own(kind), v, d.begun);
    CriticalTurns(d.lists[kind], Own(kind), v, d.begun);
  }

  lemma {:induction false} OwnStepKeeps(d: Deferred, kind: nat, v: Value)
    requires Inv(d) && d.first == Some((kind, v)) && d.begun < 6
    ensures Inv(DoStep(d))
  {
    OwnReady(d, kind, v);
    OwnTurn(d, kind, v);
    if d.begun == 0 {
      OwnStateKeeps(d, kind, v, Cb.DoNext(d.lists[kind]));
    } else {
      OwnActKeeps(d, kind, v, Cb.DoNext(d.lists[kind]));
    }
  }

  lemma {:induction false} QuietTurnKeeps(d: Deferred, i: nat, list: Callbacks, user: bool)
    requires Inv(d) && d.stack != [] && d.stack[|d.stack| - 1].list == i
    requires Plays(list, RoleOf(d.first, d.begun, i))
    requires d.first.None? || d.begun >= 6
    ensures Inv(Replace(d, list, user))
  {
    ReplaceStack(d, list, user);
    PartsUpdate(d.lists, d.first, d.begun, 6, i, i, d.lists[i := list], d.first, d.begun);
  }

  lemma {:induction false} FireProgressKeeps(d: Deferred, v: Value)
    requires Inv(d) && (d.first.None? || d.begun >= 6)
    ensures Inv(Update(d, 3, Cb.DoFireWith(d.lists[3], v)))
  {
    PartAt(d.lists, d.first, d.begun, 6, 3);
    RoleFires(d.lists[3], Progress([]), v);
    UpdateKeeps(d, 3, Cb.DoFireWith(d.lists[3], v));
  }

  /** What a list that is not settling the Deferred may do at its turn. */
  lemma {:induction false} QuietTurn(d: Deferred, i: nat)
    requires Inv(d) && d.stack != [] && d.stack[|d.stack| - 1].list == i
    requires d.first.None? || d.begun >= 6
    ensures Plays(Cb.DoNext(d.lists[i]), RoleOf(d.first, d.begun, i))
    ensures Cb.Calls(d.lists[i]).Some? && !Cb.Calls(d.lists[i]).value.callback.User? ==>
              Cb.Calls(d.lists[i]).value.callback == FireHandlers(3) && i == 0 && d.lists[i].memory.Some?
  {
    PartAt(d.lists, d.first, d.begun, 6, i);
    RoleTurns(d.lists[i], RoleOf(d.first, d.begun, i));
  }

  lemma {:induction false} QuietStep(d: Deferred, i: nat)
    requires |d.lists| == 6 && d.stack != [] && d.stack[|d.stack| - 1].list == i < 6
    requires var called := Cb.Calls(d.lists[i]);
             called.Some? && !called.value.callback.User? ==>
               called.value.callback == FireHandlers(3) && i == 0 && d.lists[i].memory.Some?
    ensures var called, list := Cb.Calls(d.lists[i]), Cb.DoNext(d.lists[i]);
            DoStep(d) == if called.None? then Replace(d, list, false)
                         else if called.value.callback.User? then Replace(d, list, true)
                         else
                           var d' := Replace(d, list, false);
                           Update(d', 3, Cb.DoFireWith(d'.lists[3], d.lists[i].memory.value))
  {
  }

  lemma {:induction false} QuietStepKeeps(d: Deferred, i: nat)
    requires Inv(d) && d.stack != [] && d.stack[|d.stack| - 1].list == i
    requires d.first.None? || d.begun >= 6
    ensures Inv(DoStep(d))
  {
    var called, list := Cb.Calls(d.lists[i]), Cb.DoNext(d.lists[i]);
    QuietTurn(d, i);
    QuietStep(d, i);
    QuietTurnKeeps(d, i, list, called.Some? && called.value.callback.User?);
    if called.Some? && !called.value.callback.User? {
      FireProgressKeeps(Replace(d, list, false), d.lists[i].memory.value);
    }
  }

  lemma {:induction false} ApplyKeeps(d: Deferred, op: Op)
    requires Inv(d)
    ensures Inv(Apply(d, op))
  {
    match op
    case Listen(i, id) =>
      if i < 6 && UserMayCall(d) { ListenKeeps(d, i, id); }
    case Send(kind, value) =>
      if kind < 3 && UserMayCall(d) { SendKeeps(d, kind, value); }
    case Step =>
      if d.first.Some? && d.begun < 6 {
        OwnStepKeeps(d, d.first.value.0, d.first.value.1);
      } else if d.stack != [] {
        QuietStepKeeps(d, d.stack[|d.stack| - 1].list);
      }
  }

  function Run(d: Deferred, ops: seq<Op>): (d': Deferred)
    requires |d.lists| == 6
    ensures |d'.lists| == 6
    decreases |ops|
  {
    if ops == [] then d
    else
      ApplySize(d, ops[0]);
      Run(Apply(d, ops[0]), ops[1..])
  }

  lemma {:induction false} RunInv(d: Deferred, ops: seq<Op>)
    requires Inv(d)
    ensures Inv(Run(d, ops))
    decreases |ops|
  {
    if ops != [] {
      ApplyKeeps(d, ops[0]);
      RunInv(Apply(d, ops[0]), ops[1..]);
    }
  }

  // ---------- The promises ----------

  /** How often, and with what, the callback registered as number `t` of list `i` was called. */
  function CallsOf(d: Deferred, i: nat, t: nat): seq<Value>
    requires i < |d.lists| && t < |d.lists[i].history.seen|
  {
    d.lists[i].history.seen[t]
  }

  /** The registration numbers of the user's callbacks in list `i`: the own callbacks come first. */
  predicate IsUser(d: Deferred, i: nat, t: nat)
    requires i < |d.lists|
  {
    (if i < 3 then |Own(i)| else 0) <= t < |d.lists[i].history.seen|
  }

  /** A settled Deferred keeps its state, and the call that settled it stays the first. */
  lemma {:induction false} SettlesOnce(d: Deferred, op: Op)
    requires Inv(d)
    ensures d.state != Pending ==> Apply(d, op).state == d.state
    ensures d.first.Some? ==> Apply(d, op).first == d.first
  {
    ApplyKeeps(d, op);
    BegunGrows(d, op);
  }

  lemma {:induction false} BegunGrows(d: Deferred, op: Op)
    requires |d.lists| == 6
    ensures d.begun <= Apply(d, op).begun && (d.first.Some? ==> Apply(d, op).first == d.first)
  {
  }

  lemma {:induction false} UncalledBefore(s: Callbacks, role: Role, t: nat)
    requires Plays(s, role) && !role.Progress? && !role.Fired? && t < |s.history.seen|
    requires role.Critical? ==> |role.own| <= t
    ensures s.history.seen[t] == []
  {
    assert Cb.Consecutive(s.history, t);
    if role.Critical? {
      assert s.list.value[t].ticket == t;
      assert Cb.SeenAllBut(s.history, s.list.value[t].ticket, 1);
    }
  }

  /**
    In every reachable state a user's `done` or `fail` callback, or `then` handler, has been called only if the
    Deferred is already in the state of its kind.
  */
  lemma {:induction false} StateBeforeCallbacks(d: Deferred, i: nat, t: nat)
    requires Inv(d) && i < 6 && i % 3 != 0 && IsUser(d, i, t)
    requires CallsOf(d, i, t) != []
    ensures d.state == (if i % 3 == 1 then Resolved else Rejected) && d.first.Some? && d.first.value.0 == i % 3
  {
    var role := RoleOf(d.first, d.begun, i);
    PartAt(d.lists, d.first, d.begun, 6, i);
    if !role.Fired? { UncalledBefore(d.lists[i], role, t); }
  }

  /** Callbacks of the two kinds are never both called. */
  lemma {:induction false} NeverBoth(d: Deferred, t: nat, u: nat)
    requires Inv(d) && IsUser(d, DONE, t) && IsUser(d, FAIL, u)
    ensures CallsOf(d, DONE, t) == [] || CallsOf(d, FAIL, u) == []
  {
    if CallsOf(d, DONE, t) != [] { StateBeforeCallbacks(d, DONE, t); }
    if CallsOf(d, FAIL, u) != [] { StateBeforeCallbacks(d, FAIL, u); }
  }

  /**
    Once nothing is running, a Deferred that was sent a value has called each callback of the kind of the first
    call exactly once, with the value of that call, and none of the other kind.
  */
  lemma {:induction false} EachRunsOnce(d: Deferred, kind: nat, v: Value, i: nat, t: nat)
    requires Inv(d) && d.stack == [] && d.first == Some((kind, v))
    requires i < 6 && i % 3 != 0 && IsUser(d, i, t)
    ensures d.state == if kind == 1 then Resolved else Rejected
    ensures CallsOf(d, i, t) == if i % 3 == kind then [v] else []
  {
    var role := RoleOf(d.first, d.begun, i);
    PartAt(d.lists, d.first, d.begun, 6, i);
    if role.Fired? {
      Cb.NoneLostSeen(d.lists[i], t);
    } else {
      UncalledBefore(d.lists[i], role, t);
    }
  }

  // ---------- The lists see nothing but list operations ----------

  type ListOp = Cb.Op<Action, Value>

  predicate RemovesNothing(ops: seq<ListOp>) {
    forall m :: 0 <= m < |ops| ==> !ops[m].Remove?
  }

  lemma {:induction false} UpdateLists(d: Deferred, j: nat, op: ListOp, i: nat) returns (ops: seq<ListOp>)
    requires |d.lists| == 6 && i < 6 && j < 6 && !op.Remove?
    ensures Update(d, j, Cb.Apply(d.lists[j], op)).lists[i] == Cb.Run(d.lists[i], ops) && RemovesNothing(ops)
  {
    ops := if i == j then [op] else [];
    assert i == j ==> Cb.Run(d.lists[i], [op]) == Cb.Run(Cb.Apply(d.lists[i], op), []);
  }

  lemma {:induction false} PerformLists(d: Deferred, kind: nat, action: Action, value: Value, i: nat) returns (ops: seq<ListOp>)
    requires |d.lists| == 6 && i < 6
    ensures Perform(d, kind, action, value).lists[i] == Cb.Run(d.lists[i], ops) && RemovesNothing(ops)
  {
    ops := [];
    match action
    case DisableList(j) => if j < 6 { ops := UpdateLists(d, j, Cb.Disable, i); }
    case LockList(j) => if j < 6 { ops := UpdateLists(d, j, Cb.Lock, i); }
    case FireHandlers(j) => if j < 6 { ops := UpdateLists(d, j, Cb.FireWith(value), i); }
    case _ =>
  }

  lemma {:induction false} StepLists(d: Deferred, i: nat) returns (ops: seq<ListOp>)
    requires |d.lists| == 6 && i < 6
    ensures DoStep(d).lists[i] == Cb.Run(d.lists[i], ops) && RemovesNothing(ops)
  {
    ops := [];
    if d.stack != [] && d.stack[|d.stack| - 1].list < 6 {
      var top := d.stack[|d.stack| - 1].list;
      var called, list := Cb.Calls(d.lists[top]), Cb.DoNext(d.lists[top]);
      if called.Some? {
        var action := called.value.callback;
        var d' := Replace(d, list, action.User?);
        d' := if top % 3 != 0 && !action.User? then d'.(begun := d'.begun + 1) else d';
        ops := PerformLists(d', top, action, d.lists[top].memory.value, i);
      }
      if i == top {
        var performed := ops;
        ops := [Cb.Next] + performed;
        assert ops[1..] == performed;
      }
    }
  }

  /** Whatever happens to the Deferred, each of its lists goes through operations of a callback list, and no removal. */
  lemma {:induction false} OpLists(d: Deferred, op: Op, i: nat) returns (ops: seq<ListOp>)
    requires |d.lists| == 6 && i < 6
    ensures Apply(d, op).lists[i] == Cb.Run(d.lists[i], ops) && RemovesNothing(ops)
  {
    ops := [];
    match op
    case Listen(j, id) => if UserMayCall(d) && j < 6 { ops := UpdateLists(d, j, Cb.Add([User(id)]), i); }
    case Send(kind, value) => if UserMayCall(d) && kind < 3 { ops := UpdateLists(d, kind, Cb.FireWith(value), i); }
    case Step => ops := StepLists(d, i);
  }

  /** A registration number keeps its callback for ever. */
  lemma {:induction false} RunNamed(d: Deferred, ops: seq<Op>, i: nat, t: nat, action: Action)
    requires |d.lists| == 6 && i < 6 && t < |d.lists[i].history.seen| && Cb.Named(d.lists[i], t, action)
    ensures t < |Run(d, ops).lists[i].history.seen| && Cb.Named(Run(d, ops).lists[i], t, action)
    decreases |ops|
  {
    if ops != [] {
      ApplySize(d, ops[0]);
      var listOps := OpLists(d, ops[0], i);
      Cb.NamedRun(d.lists[i], listOps, t, action);
      RunNamed(Apply(d, ops[0]), ops[1..], i, t, action);
    }
  }

  lemma {:induction false} OwnNamed(i: nat)
    requires i < 3
    ensures |Own(i)| > 0 && Init().lists[i].history.seen == seq(|Own(i)|, _ => [])
    ensures Cb.Named(Init().lists[i], |Own(i)| - 1, FireHandlers(i + 3))
  {
  }

  /** The numbers of the Deferred's own callbacks are taken from the start. */
  lemma {:induction false} OwnComeFirst(ops: seq<Op>, i: nat)
    requires i < 3
    ensures |Own(i)| <= |Run(Init(), ops).lists[i].history.seen|
  {
    OwnNamed(i);
    RunNamed(Init(), ops, i, |Own(i)| - 1, FireHandlers(i + 3));
  }

  // ---------- The law of the Deferred ----------

  lemma {:induction false} ListRegisters(s: Callbacks, id: nat)
    requires Cb.Inv(s)
    ensures var s', t := Cb.DoAdd(s, [User(id)]), |s.history.seen|;
            && |s'.history.seen| == (if s.list.Some? then t + 1 else t)
            && Cb.Named(s', t, User(id)) && (s.list.Some? ==> Cb.Live(s', t, User(id)))
  {
    if s.list.Some? {
      Cb.AddTracks(s, [User(id)], 0);
      var s' := Cb.DoAdd(s, [User(id)]);
      assert s'.list.value[|s.list.value|] == Cb.Entry(User(id), |s.history.seen|);
    }
  }

  lemma {:induction false} RoleHasList(s: Callbacks, role: Role)
    requires Plays(s, role) && !role.Progress?
    ensures s.list.Some? <==> !role.Dead?
  {
  }

  /** The list of a kind is spent exactly when the Deferred is settled in the other way. */
  lemma {:induction false} KindHasList(d: Deferred, i: nat)
    requires Inv(d) && UserMayCall(d) && i < 6 && i % 3 != 0
    ensures Cb.Inv(d.lists[i]) && (d.lists[i].list.Some? <==> d.first.None? || d.first.value.0 == i % 3)
  {
    PartAt(d.lists, d.first, d.begun, 6, i);
    RoleHasList(d.lists[i], RoleOf(d.first, d.begun, i));
  }

  lemma {:induction false} ListenList(d: Deferred, i: nat, id: nat)
    requires |d.lists| == 6 && UserMayCall(d) && i < 6
    ensures Apply(d, Listen(i, id)).lists[i] == Cb.DoAdd(d.lists[i], [User(id)])
  {
  }

  /** Adding a callback registers it under one new number, unless the Deferred is settled in the other way. */
  lemma {:induction false} ListenRegisters(d: Deferred, i: nat, id: nat)
    requires Inv(d) && UserMayCall(d) && i < 6 && i % 3 != 0
    ensures var s', t := Apply(d, Listen(i, id)).lists[i], |d.lists[i].history.seen|;
            && Cb.Named(s', t, User(id))
            && if d.first.None? || d.first.value.0 == i % 3 then |s'.history.seen| == t + 1 && Cb.Live(s', t, User(id))
               else |s'.history.seen| == t
  {
    KindHasList(d, i);
    ListRegisters(d.lists[i], id);
    ListenList(d, i, id);
  }

  lemma {:induction false} FirstStays(d: Deferred, ops: seq<Op>)
    requires |d.lists| == 6 && d.first.Some?
    ensures Run(d, ops).first == d.first
    decreases |ops|
  {
    if ops != [] {
      BegunGrows(d, ops[0]);
      ApplySize(d, ops[0]);
      FirstStays(Apply(d, ops[0]), ops[1..]);
    }
  }

  /** A number that is not of the settled kind was never called. */
  lemma {:induction false} NotCalled(d: Deferred, i: nat, t: nat)
    requires Inv(d) && i < 6 && i % 3 != 0 && IsUser(d, i, t) && (d.first.None? || d.first.value.0 != i % 3)
    ensures CallsOf(d, i, t) == []
  {
    if CallsOf(d, i, t) != [] { StateBeforeCallbacks(d, i, t); }
  }

  /** What the promise says of the callback registered as number `t` of list `i`, if it got that number. */
  ghost predicate CalledByLaw(d: Deferred, i: nat, t: nat, id: nat)
    requires |d.lists| == 6 && i < 6
  {
    if d.first.Some? && d.first.value.0 == i % 3 then
      && t < |d.lists[i].history.seen| && Cb.Named(d.lists[i], t, User(id))
      && (CallsOf(d, i, t) != [] ==> d.state == if i % 3 == 1 then Resolved else Rejected)
      && (d.stack == [] ==> d.state == (if i % 3 == 1 then Resolved else Rejected) && CallsOf(d, i, t) == [d.first.value.1])
    else t >= |d.lists[i].history.seen| || CallsOf(d, i, t) == []
  }

  lemma {:induction false} RegisteredLaw(d: Deferred, i: nat, t: nat, id: nat)
    requires Inv(d) && i < 6 && i % 3 != 0 && (i < 3 ==> |Own(i)| <= t)
    requires d.first.Some? && d.first.value.0 == i % 3 ==>
               t < |d.lists[i].history.seen| && Cb.Named(d.lists[i], t, User(id))
    ensures CalledByLaw(d, i, t, id)
  {
    if d.first.Some? && d.first.value.0 == i % 3 {
      if CallsOf(d, i, t) != [] { StateBeforeCallbacks(d, i, t); }
      if d.stack == [] { EachRunsOnce(d, d.first.value.0, d.first.value.1, i, t); }
    } else if t < |d.lists[i].history.seen| {
      NotCalled(d, i, t);
    }
  }

  lemma {:induction false} RegisteredStays(d: Deferred, i: nat, id: nat, later: seq<Op>)
    requires Inv(d) && UserMayCall(d) && i < 6 && i % 3 != 0
    ensures var d', t := Run(Apply(d, Listen(i, id)), later), |d.lists[i].history.seen|;
            && Inv(d')
            && (d'.first.Some? && d'.first.value.0 == i % 3 ==>
                  t < |d'.lists[i].history.seen| && Cb.Named(d'.lists[i], t, User(id)))
  {
    ListenRegisters(d, i, id);
    ApplyKeeps(d, Listen(i, id));
    RunInv(Apply(d, Listen(i, id)), later);
    if d.first.Some? {
      BegunGrows(d, Listen(i, id));
      FirstStays(Apply(d, Listen(i, id)), later);
    }
    if d.first.None? || d.first.value.0 == i % 3 {
      RunNamed(Apply(d, Listen(i, id)), later, i, |d.lists[i].history.seen|, User(id));
    }
  }

  lemma {:induction false} LawAfter(d: Deferred, i: nat, id: nat, later: seq<Op>)
    requires Inv(d) && UserMayCall(d) && i < 6 && i % 3 != 0 && (i < 3 ==> |Own(i)| <= |d.lists[i].history.seen|)
    ensures CalledByLaw(Run(Apply(d, Listen(i, id)), later), i, |d.lists[i].history.seen|, id)
  {
    RegisteredStays(d, i, id, later);
    RegisteredLaw(Run(Apply(d, Listen(i, id)), later), i, |d.lists[i].history.seen|, id);
  }

  lemma {:induction false} ReachedInv(ops: seq<Op>)
    ensures Inv(Run(Init(), ops))
  {
    InitInv();
    RunInv(Init(), ops);
  }

  /**
    The law of the Deferred, for every callback added to it in any run of user calls and turns of the loops, before,
    during or after settlement.  It is called only in the state of its kind.  Once nothing is running, if the first
    settling call was of its kind, it has been called exactly once, with the value of that call, and else never.
  */
  lemma DeferredLaw(earlier: seq<Op>, i: nat, id: nat, later: seq<Op>)
    requires i < 6 && i % 3 != 0 && UserMayCall(Run(Init(), earlier))
    ensures var before := Run(Init(), earlier);
            CalledByLaw(Run(Apply(before, Listen(i, id)), later), i, |before.lists[i].history.seen|, id)
  {
    ReachedInv(earlier);
    if i < 3 { OwnComeFirst(earlier, i); }
    LawAfter(Run(Init(), earlier), i, id, later);
  }
}
