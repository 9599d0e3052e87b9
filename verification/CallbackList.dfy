/** The callback list as an object: the closure's variables, and the methods that update them in place. */
module CallbackLists {
  import opened Common
  import opened Callbacks

  /** `jQuery.inArray`: the first position from `from` on that holds the callback, or -1. */
  function InArray<C(==)>(callback: C, list: seq<Entry<C>>, from: nat): (index: int)
    ensures index == -1 ==> forall i :: from <= i < |list| ==> list[i].callback != callback
    ensures index != -1 ==> from <= index < |list| && list[index].callback == callback
    ensures index != -1 ==> forall i :: from <= i < index ==> list[i].callback != callback
    decreases |list| - from
  {
    if from >= |list| then -1
    else if list[from].callback == callback then from
    else InArray(callback, list, from + 1)
  }

  /** Entries before the first one that holds the callback pass through a removal unchanged. */
  lemma {:induction false} WithoutSkips<C>(list: seq<Entry<C>>, callback: C, n: nat)
    requires n <= |list|
    requires forall i :: 0 <= i < n ==> list[i].callback != callback
    ensures Without(list, callback) == list[..n] + Without(list[n..], callback)
  {
    if n > 0 {
      WithoutSkips(list[1..], callback, n - 1);
      assert list[1..][n - 1..] == list[n..];
      assert list[..n] == [list[0]] + list[1..][..n - 1];
    }
  }

  /** What the list becomes once the removal has gone through it from position `from` on. */
  ghost function ListAfter<C>(list: seq<Entry<C>>, callback: C, from: nat): seq<Entry<C>>
    requires from <= |list|
  {
    list[..from] + Without(list[from..], callback)
  }

  /** What the firing index becomes by then. */
  ghost function IndexAfter<C>(list: seq<Entry<C>>, callback: C, from: nat, index: int): int
    requires from <= |list| && index < |list|
  {
    if index < from then index else from + |Without(list[from..index + 1], callback)| - 1
  }

  lemma {:induction false} RemovalList<C>(list: seq<Entry<C>>, callback: C, from: nat, found: nat)
    requires from <= |list| && found == InArray(callback, list, from)
    ensures ListAfter(list, callback, from) == ListAfter(list[..found] + list[found + 1..], callback, found)
  {
    var cut := list[..found] + list[found + 1..];
    WithoutSkips(list[from..], callback, found - from);
    assert list[from..][found - from..] == list[found..] && cut[found..] == list[found + 1..];
  }

  lemma {:induction false} RemovalBefore<C>(list: seq<Entry<C>>, callback: C, from: nat, firing: nat, found: nat)
    requires from <= found <= firing < |list| && found == InArray(callback, list, from)
    ensures var cut := list[..found] + list[found + 1..];
            IndexAfter(list, callback, from, firing) == IndexAfter(cut, callback, found, firing - 1)
  {
    var cut, called, more := list[..found] + list[found + 1..], list[from..firing + 1], list[found + 1..];
    WithoutSkips(called, callback, found - from);
    assert called[found - from..] == list[found..firing + 1];
    assert cut[found..] == more;
    assert list[found..firing + 1][1..] == more[..firing - found] == cut[found..firing];
    assert |Without(called, callback)| == found - from + |Without(cut[found..firing], callback)|;
  }

  lemma {:induction false} RemovalBehind<C>(list: seq<Entry<C>>, callback: C, from: nat, firing: nat, found: nat)
    requires from <= firing < found < |list| && found == InArray(callback, list, from)
    ensures IndexAfter(list, callback, from, firing) == firing
  {
    var called := list[from..firing + 1];
    WithoutSkips(called, callback, |called|);
    assert Without(called[|called|..], callback) == [];
  }

  /** Cutting out the first entry found changes neither outcome, once the firing index has been stepped back. */
  lemma {:induction false} RemovalTurn<C>(list: seq<Entry<C>>, callback: C, from: nat, firing: int, found: nat)
    requires from <= |list| && firing < |list|
    requires found == InArray(callback, list, from)
    ensures var cut := list[..found] + list[found + 1..];
            var firing' := if found <= firing then firing - 1 else firing;
            && firing' < |cut|
            && ListAfter(list, callback, from) == ListAfter(cut, callback, found)
            && IndexAfter(list, callback, from, firing) == IndexAfter(cut, callback, found, firing')
  {
    RemovalList(list, callback, from, found);
    if from <= firing {
      if found <= firing {
        RemovalBefore(list, callback, from, firing, found);
      } else {
        RemovalBehind(list, callback, from, firing, found);
      }
    }
  }

  lemma {:induction false} RemovalEnd<C>(list: seq<Entry<C>>, callback: C, from: nat, firing: int)
    requires from <= |list| && firing < |list|
    requires InArray(callback, list, from) == -1
    ensures ListAfter(list, callback, from) == list && IndexAfter(list, callback, from, firing) == firing
  {
    WithoutSkips(list[from..], callback, |list| - from);
    if firing >= from {
      WithoutSkips(list[from..firing + 1], callback, firing + 1 - from);
    }
  }

  lemma {:induction false} SplicedIsRemoved<C, V>(s: State<C, V>, callback: C)
    requires s.list.Some? && -1 <= s.firingIndex < |s.list.value|
    ensures DoRemove(s, callback).list == Some(ListAfter(s.list.value, callback, 0))
    ensures DoRemove(s, callback).firingIndex == IndexAfter(s.list.value, callback, 0, s.firingIndex)
  {
    var list := s.list.value;
    assert list[0..] == list && list[..0] + Without(list, callback) == Without(list, callback);
    assert s.list.value[0..s.firingIndex + 1] == s.list.value[..s.firingIndex + 1];
  }

  lemma {:induction false} RegisterNone<C, V>(s: State<C, V>)
    requires s.list.Some?
    ensures Register(s, []) == s
  {
    assert Register(s, []).list.value == s.list.value;
    assert Register(s, []).history == s.history;
  }

  /** Registering one callback more pushes one entry and one history record. */
  lemma {:induction false} RegisterNext<C, V>(s: State<C, V>, callbacks: seq<C>, i: nat)
    requires s.list.Some? && i < |callbacks|
    ensures var r, r' := Register(s, callbacks[..i]), Register(s, callbacks[..i + 1]);
            && r'.list == Some(r.list.value + [Entry(callbacks[i], |r.history.seen|)])
            && r'.history == r.history.(start := r.history.start + [StartOf(s)], seen := r.history.seen + [[]])
  {
    var r, r' := Register(s, callbacks[..i]), Register(s, callbacks[..i + 1]);
    assert r'.list.value == r.list.value + [Entry(callbacks[i], |r.history.seen|)];
    assert r'.history.start == r.history.start + [StartOf(s)];
    assert r'.history.seen == r.history.seen + [[]];
  }

  class CallbackList<C(==, !new), V(!new)> {
    const options: Options
    var firing: bool
    var memory: Option<V>
    var locked: bool
    var list: Option<seq<Entry<C>>>
    var queue: seq<V>
    var firingIndex: int
    // not a variable of the source: the record of what was sent and called
    var history: History<V>

    function Value(): State<C, V>
      reads this
    {
      State(options, firing, memory, locked, list, queue, firingIndex, history)
    }

    ghost predicate Valid()
      reads this
    {
      Inv(Value())
    }

    constructor (options: Options)
      ensures Valid() && Value() == Init(options)
    {
      this.options := options;
      firing, memory, locked, list, queue, firingIndex := false, None, false, Some([]), [], -1;
      history := History([], [], [], []);
    }

    method Add(callbacks: seq<C>)
      requires Valid()
      modifies this
      ensures Valid() && Value() == Apply(old(Value()), Op.Add(callbacks))
    {
      ghost var s := Value();
      if list.Some? {
        var refire := memory.Some? && !firing;
        if refire {
          firingIndex := |list.value| - 1;
          queue := queue + [memory.value];
        }
        Push(callbacks);
        if refire {
          Fire();
        }
      }
      AddKeeps(s, callbacks);
    }

    /** The loop of `add`. */
    method Push(callbacks: seq<C>)
      requires list.Some?
      modifies this`list, this`history
      ensures list == Register(old(Value()), callbacks).list && history == Register(old(Value()), callbacks).history
    {
      ghost var s := Value();
      var start := StartOf(Value());
      RegisterNone(s);
      assert callbacks[..0] == [];
      for i := 0 to |callbacks|
        invariant list == Register(s, callbacks[..i]).list && history == Register(s, callbacks[..i]).history
      {
        RegisterNext(s, callbacks, i);
        list := Some(list.value + [Entry(callbacks[i], |history.seen|)]);
        history := history.(start := history.start + [start], seen := history.seen + [[]]);
      }
      assert callbacks[..|callbacks|] == callbacks;
    }

    method Remove(callback: C)
      requires Valid()
      modifies this
      ensures Valid() && Value() == Apply(old(Value()), Op.Remove(callback))
    {
      ghost var s := Value();
      if list.Some? {
        SplicedIsRemoved(s, callback);
        Splice(callback);
      }
      RemoveKeeps(s, callback);
    }

    /** The loop of `remove`: cut out every entry that holds the callback, and keep the firing index in step. */
    method Splice(callback: C)
      requires list.Some? && -1 <= firingIndex < |list.value|
      modifies this`list, this`firingIndex
      ensures list == Some(ListAfter(old(list.value), callback, 0))
      ensures firingIndex == IndexAfter(old(list.value), callback, 0, old(firingIndex))
    {
      ghost var from: nat := 0;
      var index := InArray(callback, list.value, 0);
      while index > -1
        invariant list.Some? && from <= |list.value| && firingIndex < |list.value|
        invariant ListAfter(list.value, callback, from) == ListAfter(old(list.value), callback, 0)
        invariant IndexAfter(list.value, callback, from, firingIndex)
                  == IndexAfter(old(list.value), callback, 0, old(firingIndex))
        invariant index == InArray(callback, list.value, from)
        decreases |list.value|
      {
        RemovalTurn(list.value, callback, from, firingIndex, index);
        list := Some(list.value[..index] + list.value[index + 1..]);
        if index <= firingIndex {
          firingIndex := firingIndex - 1;
        }
        from := index;
        index := InArray(callback, list.value, index);
      }
      RemovalEnd(list.value, callback, from, firingIndex);
    }

    /** The start of `fire`, up to the first turn of its loop. */
    method Fire()
      requires queue != []
      modifies this
      ensures Value() == BeginFire(old(Value()))
    {
      locked := locked || options.once;
      firing := true;
      memory := Some(queue[0]);
      queue := queue[1..];
    }

    method FireWith(value: V)
      requires Valid()
      modifies this
      ensures Valid() && Value() == Apply(old(Value()), Op.FireWith(value))
      ensures !old(locked) ==> firing && history.sent == old(history.sent) + [value]
      ensures old(locked) ==> Value() == old(Value())
    {
      FireWithKeeps(Value(), value);
      if !locked {
        queue := queue + [value];
        history := history.(sent := history.sent + [value]);
        if !firing {
          history := history.(fired := history.fired + [queue[0]]);
          Fire();
        }
      }
    }

    method Lock()
      requires Valid()
      modifies this
      ensures Valid() && Value() == Apply(old(Value()), Op.Lock)
      ensures locked && queue == [] && (old(memory).Some? || old(firing) ==> list == old(list))
    {
      locked, queue := true, [];
      if memory.None? && !firing {
        list := None;
      }
    }

    method Disable()
      requires Valid()
      modifies this
      ensures Valid() && Value() == Apply(old(Value()), Op.Disable)
    {
      locked, queue := true, [];
      list, memory := None, None;
    }

    /** One turn of the loop of `fire`: the callback it starts, if it starts one. */
    method Next() returns (called: Option<C>)
      requires Valid() && firing
      modifies this
      ensures Valid() && Value() == Apply(old(Value()), Op.Next)
      ensures called == (if Calls(old(Value())).Some? then Some(Calls(old(Value())).value.callback) else None)
    {
      ApplyKeeps(Value(), Op.Next);
      called := None;
      firingIndex := firingIndex + 1;
      if list.Some? && firingIndex < |list.value| {
        var entry := list.value[firingIndex];
        called := Some(entry.callback);
        history := history.(seen := history.seen[entry.ticket := history.seen[entry.ticket] + [memory.value]]);
      } else {
        firingIndex := -1;
        if queue != [] {
          memory := Some(queue[0]);
          queue := queue[1..];
          history := history.(fired := history.fired + [memory.value]);
        } else {
          if !options.memory {
            memory := None;
          }
          firing := false;
          if locked {
            list := if memory.Some? then Some([]) else None;
          }
        }
      }
    }
  }
}
