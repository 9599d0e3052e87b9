/** The Deferred as an object: its six callback lists are objects of their own, updated in place. */
module DeferredObjects {
  import opened Common
  import Cb = Callbacks
  import opened CallbackLists
  import opened Deferreds

  type List = CallbackList<Action, Value>

  class DeferredObject {
    var state: Status
    const tuples: seq<List>
    // the loops in progress, and the record kept by the model
    var stack: seq<Frame>
    var first: Option<(nat, Value)>
    var begun: nat

    function Value(): Deferred
      reads this, tuples
    {
      Deferred(state, seq(|tuples|, i requires 0 <= i < |tuples| reads this, tuples => tuples[i].Value()), stack, first, begun)
    }

    ghost predicate Separate() {
      |tuples| == 6 && forall i, j :: 0 <= i < j < 6 ==> tuples[i] != tuples[j]
    }

    ghost predicate Valid()
      reads this, tuples
    {
      Separate() && Inv(Value())
    }

    constructor ()
      ensures Valid() && Value() == Init() && fresh(tuples)
    {
      var lists := NewLists();
      state, stack, first, begun := Pending, [], None, 0;
      tuples := lists;
      new;
      assert Value().lists == Init().lists;
      InitInv();
    }

    static method NewLists() returns (lists: seq<List>)
      ensures |lists| == 6 && forall j :: 0 <= j < 6 ==> fresh(lists[j]) && lists[j].Value() == Fresh(j)
      ensures forall j, k :: 0 <= j < k < 6 ==> lists[j] != lists[k]
    {
      lists := [];
      for i := 0 to 6
        invariant |lists| == i && forall j :: 0 <= j < i ==> fresh(lists[j]) && lists[j].Value() == Fresh(j)
        invariant forall j, k :: 0 <= j < k < i ==> lists[j] != lists[k]
      {
        var list := NewList(i);
        lists := lists + [list];
      }
    }

    static method NewList(kind: nat) returns (list: List)
      requires kind < 6
      ensures fresh(list) && list.Value() == Fresh(kind)
    {
      list := new CallbackList<Action, Value>(Cb.Options(kind % 3 != 0, true));
      if kind < 3 {
        list.Add(Own(kind));
      }
    }

    ghost predicate ListsValid()
      reads this, tuples
    {
      Separate() && forall i :: 0 <= i < 6 ==> tuples[i].Valid()
    }

    lemma ValidLists()
      requires Valid()
      ensures ListsValid()
    {
      forall i: nat | i < 6 ensures tuples[i].Valid() {
        PartAt(Value().lists, first, begun, 6, i);
        assert Value().lists[i] == tuples[i].Value();
      }
    }

    /** List `i` has been changed: when that set it firing, its loop becomes the innermost one. */
    method Changed(i: nat, wasFiring: bool, ghost d: Deferred)
      requires Separate() && i < 6 && |d.lists| == 6
      requires d.state == state && d.stack == stack && d.first == first && d.begun == begun
      requires wasFiring == d.lists[i].firing
      requires forall j :: 0 <= j < 6 && j != i ==> tuples[j].Value() == d.lists[j]
      modifies this`stack
      ensures Value() == Update(d, i, tuples[i].Value())
    {
      assert Value().lists == d.lists[i := tuples[i].Value()];
      if !wasFiring && tuples[i].firing {
        stack := stack + [Frame(i, false)];
      }
    }

    method AddTo(i: nat, id: nat)
      requires ListsValid() && i < 6
      modifies this`stack, tuples[i]
      ensures Value() == Update(old(Value()), i, Cb.DoAdd(old(Value()).lists[i], [User(id)]))
    {
      ghost var d := Value();
      var wasFiring := tuples[i].firing;
      tuples[i].Add([User(id)]);
      Changed(i, wasFiring, d);
    }

    method FireOn(i: nat, value: Value)
      requires ListsValid() && i < 6
      modifies this`stack, tuples[i]
      ensures Value() == Update(old(Value()), i, Cb.DoFireWith(old(Value()).lists[i], value))
    {
      ghost var d := Value();
      var wasFiring := tuples[i].firing;
      tuples[i].FireWith(value);
      Changed(i, wasFiring, d);
    }

    method DisableOn(i: nat)
      requires ListsValid() && i < 6
      modifies this`stack, tuples[i]
      ensures Value() == Update(old(Value()), i, Cb.DoDisable(old(Value()).lists[i]))
    {
      ghost var d := Value();
      var wasFiring := tuples[i].firing;
      tuples[i].Disable();
      Changed(i, wasFiring, d);
    }

    method LockOn(i: nat)
      requires ListsValid() && i < 6
      modifies this`stack, tuples[i]
      ensures Value() == Update(old(Value()), i, Cb.DoLock(old(Value()).lists[i]))
    {
      ghost var d := Value();
      var wasFiring := tuples[i].firing;
      tuples[i].Lock();
      Changed(i, wasFiring, d);
    }

    /** `done`, `fail` and `progress` (lists 0 to 2), and the three registrations made by `then` (3 to 5). */
    method Listen(i: nat, id: nat)
      requires Valid() && i < 6 && UserMayCall(Value())
      modifies this, tuples
      ensures Valid() && Value() == Apply(old(Value()), Op.Listen(i, id))
    {
      ValidLists();
      ApplyKeeps(Value(), Op.Listen(i, id));
      AddTo(i, id);
    }

    /** `notifyWith`, `resolveWith` and `rejectWith`. */
    method Send(kind: nat, value: Value)
      requires Valid() && kind < 3 && UserMayCall(Value())
      modifies this, tuples
      ensures Valid() && Value() == Apply(old(Value()), Op.Send(kind, value))
    {
      ValidLists();
      ApplyKeeps(Value(), Op.Send(kind, value));
      SendTo(kind, value);
    }

    method SendTo(kind: nat, value: Value)
      requires ListsValid() && kind < 3 && UserMayCall(Value())
      modifies this, tuples
      ensures Value() == Apply(old(Value()), Op.Send(kind, value))
    {
      FireOn(kind, value);
      if kind != 0 && first.None? {
        first := Some((kind, value));
      }
    }

    /** Run one of the Deferred's own callbacks. */
    method PerformOwn(kind: nat, action: Action, value: Value)
      requires ListsValid()
      modifies this`state, this`stack, tuples
      ensures Value() == Perform(old(Value()), kind, action, value)
      ensures action.SetState? ==> state == if kind == 1 then Resolved else Rejected
    {
      match action
      case SetState => state := StatusOf(kind);
      case DisableList(j) => if j < 6 { DisableOn(j); }
      case LockList(j) => if j < 6 { LockOn(j); }
      case FireHandlers(j) => if j < 6 { FireOn(j, value); }
      case User(_) =>
    }

    /** The innermost loop goes on to its next callback, which it does not run yet, or to a further value, or ends. */
    method Advance(i: nat) returns (called: Option<Action>)
      requires ListsValid() && i < 6 && stack != [] && stack[|stack| - 1].list == i && tuples[i].firing
      modifies this`stack, tuples[i]
      ensures ListsValid()
      ensures var s := old(Value()).lists[i];
              && called == (if Cb.Calls(s).Some? then Some(Cb.Calls(s).value.callback) else None)
              && Value() == Replace(old(Value()), Cb.DoNext(s), called.Some? && called.value.User?)
    {
      ghost var d := Value();
      var below := stack[..|stack| - 1];
      called := tuples[i].Next();
      stack := if tuples[i].firing then below + [Frame(i, called.Some? && called.value.User?)] else below;
      assert Value().lists == d.lists[i := tuples[i].Value()];
    }

    /** Keep the record of the own callbacks begun. */
    method Begin(i: nat, action: Action)
      modifies this`begun
      ensures Value() == if i % 3 != 0 && !action.User? then old(Value()).(begun := old(begun) + 1) else old(Value())
    {
      if i % 3 != 0 && !action.User? {
        begun := begun + 1;
      }
    }

    /** One turn of the innermost loop: it goes on to the next callback, and runs it if it is the Deferred's own. */
    method Turn()
      requires Valid() && stack != []
      modifies this, tuples
      ensures Valid() && Value() == Apply(old(Value()), Op.Step)
    {
      ValidLists();
      ApplyKeeps(Value(), Op.Step);
      assert Value().lists[stack[|stack| - 1].list] == tuples[stack[|stack| - 1].list].Value();
      TurnOf(stack[|stack| - 1].list);
    }

    method TurnOf(i: nat)
      requires ListsValid() && i < 6 && stack != [] && stack[|stack| - 1].list == i && tuples[i].firing
      modifies this, tuples
      ensures Value() == DoStep(old(Value()))
    {
      var memory := tuples[i].memory;
      assert Value().lists[i] == tuples[i].Value();
      StepIs(Value(), i);
      var called := Advance(i);
      if called.Some? {
        CallIt(i, called.value, memory.value);
      }
    }

    /** Run the callback if it is the Deferred's own; a user's is run by whoever makes the next calls. */
    method CallIt(i: nat, action: Action, value: Value)
      requires ListsValid()
      modifies this`begun, this`state, this`stack, tuples
      ensures var d, own := old(Value()), i % 3 != 0 && !action.User?;
              Value() == Perform(if own then d.(begun := d.begun + 1) else d, i, action, value)
    {
      Begin(i, action);
      PerformOwn(i, action, value);
    }
  }
}
