/**
  The positional test of `:nth-child(an+b)` and `:nth-last-child(an+b)`, with the counters it caches on nodes.

  The children of a parent are known by which of them are elements.  A cached counter carries the number of the
  run of the engine it was made in; counters of other runs are ignored, whatever they hold.
*/
module NthChild {
  import opened Common

  /** How many of the children are elements. */
  function Count(children: seq<bool>): nat {
    if children == [] then 0 else Count(children[..|children| - 1]) + if children[|children| - 1] then 1 else 0
  }

  /** The 1-based position of child `i` among its element siblings. */
  function Position(children: seq<bool>, i: nat): nat
    requires i < |children|
  {
    Count(children[..i + 1])
  }

  /** The same, counted from the last sibling. */
  function LastPosition(children: seq<bool>, i: nat): nat
    requires i < |children|
  {
    Count(children[i..])
  }

  lemma {:induction false} CountSplits(a: seq<bool>, b: seq<bool>)
    ensures Count(a + b) == Count(a) + Count(b)
  {
    if b == [] {
      assert a + b == a;
    } else {
      CountSplits(a, b[..|b| - 1]);
      assert (a + b)[..|a + b| - 1] == a + b[..|b| - 1];
    }
  }

  lemma {:induction false} CountStep(children: seq<bool>, i: nat, j: nat)
    requires i < j <= |children|
    ensures Count(children[i..j]) == (if children[i] then 1 else 0) + Count(children[i + 1..j])
    ensures Count(children[i..j]) == Count(children[i..j - 1]) + (if children[j - 1] then 1 else 0)
  {
    CountSplits([children[i]], children[i + 1..j]);
    assert [children[i]] + children[i + 1..j] == children[i..j];
    assert [children[i]][..0] == [];
    assert children[i..j][..j - i - 1] == children[i..j - 1];
  }

  lemma {:induction false} CountIsSize(children: seq<bool>, i: nat)
    requires i <= |children|
    ensures Count(children[..i]) == |set j: nat | j < i && children[j]|
    decreases i
  {
    if i > 0 {
      CountIsSize(children, i - 1);
      assert children[..i][..i - 1] == children[..i - 1];
      var before, all := set j: nat | j < i - 1 && children[j], set j: nat | j < i && children[j];
      assert all == if children[i - 1] then before + {i - 1} else before;
    }
  }

  function ElementsFrom(children: seq<bool>, i: nat): set<nat> {
    set j: nat | i <= j < |children| && children[j]
  }

  lemma {:induction false} CountFromIsSize(children: seq<bool>, i: nat)
    requires i <= |children|
    ensures Count(children[i..]) == |ElementsFrom(children, i)|
    decreases |children| - i
  {
    if i < |children| {
      CountFromIsSize(children, i + 1);
      CountStep(children, i, |children|);
      assert children[i..|children|] == children[i..] && children[i + 1..|children|] == children[i + 1..];
      var behind := ElementsFrom(children, i + 1);
      assert ElementsFrom(children, i) == if children[i] then behind + {i} else behind;
    } else {
      assert ElementsFrom(children, i) == {};
    }
  }

  /** The positions are the numbers of element children up to the child, and from it on, the child included. */
  lemma PositionsCount(children: seq<bool>, i: nat)
    requires i < |children|
    ensures Position(children, i) == |set j: nat | j <= i && children[j]|
    ensures LastPosition(children, i) == |set j: nat | i <= j < |children| && children[j]|
  {
    CountIsSize(children, i + 1);
    CountFromIsSize(children, i);
    assert ElementsFrom(children, i) == set j: nat | i <= j < |children| && children[j];
    assert (set j: nat | j < i + 1 && children[j]) == set j: nat | j <= i && children[j];
  }

  // ---------- The formula an+b ----------

  /** JavaScript's remainder: it takes the sign of the dividend. */
  function Remainder(x: int, y: int): int
    requires y != 0
  {
    if x >= 0 then x % y else -((-x) % y)
  }

  /** `diff % first === 0 && diff / first >= 0` after `diff -= last`, or `diff === first`; `:nth-child(n)` is short-cut. */
  predicate Accepts(first: int, last: int, position: nat) {
    || (first == 1 && last == 0)
    || (var diff := position - last;
        || diff == first
        || (first != 0 && Remainder(diff, first) == 0 && (diff == 0 || (diff > 0 <==> first > 0))))
  }

  lemma {:induction false} Divides(x: int, y: int)
    requires y != 0
    ensures Remainder(x, y) == 0 <==> exists n :: x == y * n
  {
    if Remainder(x, y) == 0 {
      var q := if x >= 0 then x / y else -((-x) / y);
      assert x == y * q;
    }
    if exists n :: x == y * n {
      var n :| x == y * n;
      if x >= 0 { MultipleMod(y, n); } else { assert -x == y * -n; MultipleMod(y, -n); }
    }
  }

  lemma {:induction false} MultipleMod(y: int, n: int)
    requires y != 0
    ensures (y * n) % y == 0
  {
    var r, q := (y * n) % y, (y * n) / y;
    assert y * n == y * q + r;
    assert y * (n - q) == y * n - y * q;
    if n != q { BigMultiple(y, n - q); }
  }

  /** A multiple of `y` other than zero is at least as large as `y`. */
  lemma {:induction false} BigMultiple(y: int, k: int)
    requires y != 0 && k != 0
    ensures if y > 0 <==> k > 0 then y * k >= (if y > 0 then y else -y) else y * k <= if y > 0 then -y else y
    decreases if k > 0 then k else -k
  {
    if k > 1 {
      BigMultiple(y, k - 1);
      assert y * k == y * (k - 1) + y;
    } else if k < -1 {
      BigMultiple(y, k + 1);
      assert y * k == y * (k + 1) - y;
    }
  }

  /** A position is accepted exactly when it is a*n+b for some n >= 0 (section 6.6.5.2 of Selectors Level 3). */
  lemma {:induction false} AcceptsFormula(a: int, b: int, p: nat)
    requires p >= 1
    ensures Accepts(a, b, p) <==> exists n: nat :: p == a * n + b
  {
    var diff := p - b;
    if Accepts(a, b, p) {
      if a == 1 && b == 0 {
        assert p == a * p + b;
      } else if diff == a {
        assert p == a * 1 + b;
      } else {
        Divides(diff, a);
        var n :| diff == a * n;
        assert n >= 0 by { if n < 0 { BigMultiple(a, n); } }
        assert p == a * n + b;
      }
    }
    if exists n: nat :: p == a * n + b {
      var n: nat :| p == a * n + b;
      assert diff == a * n;
      if a != 0 {
        Divides(diff, a);
        if n > 0 { BigMultiple(a, n); }
      }
    }
  }

  // ---------- The counters cached on the nodes ----------

  datatype Mark = Mark(run: int, nodeIndex: nat, diff: nat)

  datatype LastMark = LastMark(run: int, diff: nat)

  /** What a search for the position from the end answers for child `i`, if child `f` was the first one sought. */
  function FoundFromEnd(children: seq<bool>, f: nat, i: nat): nat
    requires f < |children| && i < |children|
  {
    if f <= i then LastPosition(children, i) else Count(children[i..f])
  }

  class Parent {
    const children: seq<bool>
    // the cache entry `nth` of the parent, and the entries `nth-last` of its children
    var nth: Option<Mark>
    var nthLast: map<nat, LastMark>

    constructor (children: seq<bool>)
      ensures this.children == children && nth == None && nthLast == map[]
    {
      this.children, nth, nthLast := children, None, map[];
    }

    predicate IsElement(i: nat) {
      i < |children| && children[i]
    }

    /** A counter of this run is right. */
    ghost predicate NthOk(dirruns: int)
      reads this
    {
      nth.Some? && nth.value.run == dirruns ==>
        IsElement(nth.value.nodeIndex) && nth.value.diff == Position(children, nth.value.nodeIndex)
    }

    /** `:nth-child`: the search goes on from the child found last, and wraps around once. */
    method NthChild(dirruns: int, elem: nat) returns (position: nat)
      requires IsElement(elem) && NthOk(dirruns)
      modifies this`nth
      ensures position == Position(children, elem)
      ensures NthOk(dirruns) && nth.Some? && nth.value.run == dirruns && nth.value.nodeIndex == elem
    {
      var hit := nth.Some? && nth.value.run == dirruns;
      var nodeIndex: nat := if hit then nth.value.nodeIndex else 0;
      var diff: nat := if nodeIndex != 0 then nth.value.diff else 0;
      var node := if nodeIndex != 0 then nodeIndex else -1;  // -1: no node
      var start := true;                                     // the first child is still to be popped
      while true
        invariant -1 <= node < |children|
        invariant node >= 0 ==> nodeIndex == node && diff == Position(children, node)
        invariant !start ==> 0 <= node < elem
        decreases start, |children| - node
      {
        nodeIndex := nodeIndex + 1;
        if node >= 0 && node + 1 < |children| {
          node := node + 1;
        } else {
          diff, nodeIndex := 0, 0;
          node, start := 0, false;
        }
        CountPrefix(children, node);
        if children[node] {
          diff := diff + 1;
          if node == elem {
            nth := Some(Mark(dirruns, nodeIndex, diff));
            return diff;
          }
        }
      }
    }

    /** The counters of this run are what searches that began with child `f` leave behind. */
    ghost predicate NthLastOk(dirruns: int, f: Option<nat>)
      reads this
    {
      match f
      case None => forall i :: i in nthLast ==> nthLast[i].run != dirruns
      case Some(f) => IsElement(f) && forall i: nat :: IsElement(i) ==>
        i in nthLast && nthLast[i] == LastMark(dirruns, FoundFromEnd(children, f, i))
    }

    /**
      `:nth-last-child`: a child without a counter is sought from its own previous sibling back to the first one,
      and then from the last one, leaving a counter on every element passed.
    */
    method NthLastChild(dirruns: int, elem: nat, ghost f: Option<nat>) returns (position: nat)
      requires IsElement(elem) && NthLastOk(dirruns, f)
      modifies this`nthLast
      ensures var f' := if f.Some? then f.value else elem;
              NthLastOk(dirruns, Some(f')) && position == FoundFromEnd(children, f', elem)
    {
      if elem in nthLast && nthLast[elem].run == dirruns {
        return nthLast[elem].diff;
      }
      var node: int := elem;
      var nodeIndex, diff: nat := 0, 0;
      var start := true;
      while true
        invariant 0 <= node < |children| && if start then node <= elem else elem < node
        invariant diff == Count(children[node..if start then elem else |children|])
        invariant Passed(children, nthLast, dirruns, if start then node else 0, elem)
        invariant !start ==> Passed(children, nthLast, dirruns, node, |children|)
        decreases start, node
      {
        nodeIndex := nodeIndex + 1;
        if node > 0 {
          node := node - 1;
        } else {
          diff, nodeIndex := 0, 0;
          node, start := |children| - 1, false;
        }
        PassedMore(children, nthLast, dirruns, node, if start then elem else |children|);
        if children[node] {
          diff := diff + 1;
          nthLast := nthLast[node := LastMark(dirruns, diff)];
          if node == elem {
            AllPassed(children, nthLast, dirruns, elem);
            return diff;
          }
        }
      }
    }
  }

  /** From `from` on, every element child before `end` carries its position counted back from there. */
  ghost predicate Passed(children: seq<bool>, marks: map<nat, LastMark>, run: int, from: nat, end: nat) {
    end <= |children| && forall i: nat :: from <= i < end && children[i] ==>
      i in marks && marks[i] == LastMark(run, Count(children[i..end]))
  }

  lemma {:induction false} PassedMore(children: seq<bool>, marks: map<nat, LastMark>, run: int, from: nat, end: nat)
    requires from < end <= |children|
    ensures var diff := Count(children[from..end]);
            && diff == (if children[from] then 1 else 0) + Count(children[from + 1..end])
            && (Passed(children, marks, run, from + 1, end) ==>
                  Passed(children, if children[from] then marks[from := LastMark(run, diff)] else marks, run, from, end))
    ensures Count(children[end..end]) == 0 && Passed(children, marks, run, end, end)
  {
    CountStep(children, from, end);
  }

  lemma {:induction false} AllPassed(children: seq<bool>, marks: map<nat, LastMark>, run: int, f: nat)
    requires f < |children| && Passed(children, marks, run, 0, f) && Passed(children, marks, run, f, |children|)
    ensures forall i: nat :: i < |children| && children[i] ==>
      i in marks && marks[i] == LastMark(run, FoundFromEnd(children, f, i))
  {
    assert forall i :: 0 <= i < |children| ==> children[i..|children|] == children[i..];
  }

  /**
    A search from the end is right for the first child sought in a run and the siblings after it, and wrong for
    every sibling before it, whose counter was left by the search for the first.
  */
  lemma {:induction false} RightFromFirstOn(children: seq<bool>, f: nat, i: nat)
    requires f < |children| && i < |children| && children[f] && children[i]
    ensures FoundFromEnd(children, f, i) == LastPosition(children, i) <==> f <= i
  {
    if i < f {
      CountSplits(children[i..f], children[f..]);
      assert children[i..f] + children[f..] == children[i..];
      CountStep(children, f, |children|);
      assert children[f..|children|] == children[f..];
    }
  }

  /** Two element children, the second sought first: the first is then said to be the last child. */
  lemma MiscountExample()
    ensures FoundFromEnd([true, true], 1, 0) == 1 && LastPosition([true, true], 0) == 2
  {
    assert [true, true][0..1] == [true] && [true][..0] == [];
    assert [true, true][0..] == [true, true] && [true, true][..1] == [true];
  }

  /**
    Searches from the end in one run give the right positions if and only if none of them is for a child before the
    one sought first.
  */
  method NthLastChildren(parent: Parent, dirruns: int, elems: seq<nat>) returns (positions: seq<nat>)
    requires parent.NthLastOk(dirruns, None) && forall k :: 0 <= k < |elems| ==> parent.IsElement(elems[k])
    modifies parent`nthLast
    ensures |positions| == |elems|
    ensures (forall k :: 0 <= k < |elems| ==> parent.IsElement(elems[k]) && positions[k] == LastPosition(parent.children, elems[k]))
            <==> (forall k :: 0 <= k < |elems| ==> elems[0] <= elems[k])
  {
    positions := [];
    ghost var f: Option<nat> := None;
    for n := 0 to |elems|
      invariant |positions| == n && parent.NthLastOk(dirruns, f)
      invariant f == if n > 0 then Some(elems[0]) else None
      invariant forall k :: 0 <= k < n ==> positions[k] == FoundFromEnd(parent.children, elems[0], elems[k])
    {
      var position := parent.NthLastChild(dirruns, elems[n], f);
      if n == 0 { f := Some(elems[0]); }
      positions := positions + [position];
    }
    forall k | 0 <= k < |elems|
      ensures positions[k] == LastPosition(parent.children, elems[k]) <==> elems[0] <= elems[k]
    {
      RightFromFirstOn(parent.children, elems[0], elems[k]);
    }
  }

  lemma {:induction false} CountPrefix(children: seq<bool>, i: nat)
    requires i < |children|
    ensures Count(children[..i + 1]) == Count(children[..i]) + (if children[i] then 1 else 0)
    ensures Count(children[..0]) == 0
  {
    assert children[..i + 1][..i] == children[..i];
  }
}
