/** The check boxes and labels of the tree, set in place on every click. */
module CheckBoxes {
  import opened Common
  import opened Forests
  import opened CheckTrees

  class CheckTree {
    const f: Forest
    /** All boxes, in document order. */
    const boxes: seq<Id>
    var checked: set<Id>
    var full: set<Id>
    var empty: set<Id>
    var partial: set<Id>

    function M(): Marks
      reads this
    {
      Marks(checked, full, empty, partial)
    }

    constructor (f: Forest, boxes: seq<Id>, m: Marks)
      requires Wf(f) && Elements(boxes) == f.up.Keys
      ensures this.f == f && this.boxes == boxes && M() == m
    {
      this.f, this.boxes := f, boxes;
      checked, full, empty, partial := m.checked, m.full, m.empty, m.partial;
    }

    method SetLabelClass(box: Id)
      modifies `full, `empty, `partial
      ensures M() == Labelled(old(M()), box)
    {
      if box in checked {
        full := full + {box};
        empty := empty - {box};
      } else {
        empty := empty + {box};
        full := full - {box};
      }
      partial := partial - {box};
    }

    method CheckCheckbox(box: Id)
      requires Wf(f) && Elements(boxes) == f.up.Keys && box in f.up && AllRight(f, Toggled(M(), box))
      modifies this
      ensures AllRight(f, M())
      ensures forall x :: x in Branch(f, box) ==> Plain(M(), x, box in old(checked))
      ensures forall x :: x in f.up && x !in Branch(f, box) && x !in f.up[box] ==> SameMarks(old(M()), M(), x)
    {
      ghost var m := M();
      for i := 0 to |boxes|
        invariant GivenTo(f, m, M(), box, boxes, i) && (box in checked <==> box in m.checked)
      {
        ghost var k := M();
        if boxes[i] in Branch(f, box) {
          checked := if box in checked then checked + {boxes[i]} else checked - {boxes[i]};
          SetLabelClass(boxes[i]);
        }
        GivenNext(f, m, k, M(), box, boxes, i);
      }
      GivenAll(f, m, M(), box, boxes);
      ToggledRight(f, m, M(), box);
      ghost var k := M();
      CheckParentCheckboxes(box);
      forall x | x in Branch(f, box) ensures Plain(M(), x, box in m.checked) { ApartFromUp(f, box, x); }
    }

    method CheckParentCheckboxes(box: Id)
      requires Wf(f) && box in f.up && RightUpTo(f, M(), box)
      modifies this
      ensures AllRight(f, M())
      ensures forall x :: x !in f.up[box] ==> SameMarks(old(M()), M(), x)
      decreases f.up[box]
    {
      if box !in f.parent {
        assert Sits(f, box);
        return;
      }
      ghost var m := M();
      var parent := f.parent[box];
      CountParent(parent);
      ParentStep(f, m, parent, box);
      CheckParentCheckboxes(parent);
    }

    /** The parent's box and label after the boxes below it are counted. */
    method CountParent(parent: Id)
      modifies this
      ensures M() == Counted(f, old(M()), parent)
    {
      var all := BelowOf(f, parent);
      var checkedBoxes := all * checked;
      var allChecked := |all| == |checkedBoxes|;
      CountDecides(all, checked);
      checked := if allChecked then checked + {parent} else checked - {parent};
      if !allChecked && |checkedBoxes| > 0 {
        partial, full, empty := partial + {parent}, full - {parent}, empty - {parent};
      } else if allChecked {
        partial, empty, full := partial - {parent}, empty - {parent}, full + {parent};
      } else {
        partial, full, empty := partial - {parent}, full - {parent}, empty + {parent};
      }
    }

    /** A click toggles the box, and its handler does the rest. */
    method Click(box: Id)
      requires Wf(f) && Elements(boxes) == f.up.Keys && box in f.up && AllRight(f, M())
      modifies this
      ensures AllRight(f, M())
      ensures forall x :: x in Branch(f, box) ==> (x in checked <==> box !in old(checked))
      ensures forall x :: x in f.up && x !in Branch(f, box) && x !in f.up[box] ==> SameMarks(old(M()), M(), x)
    {
      ghost var m := M();
      checked := if box in checked then checked - {box} else checked + {box};
      ToggleTwice(m, box);
      CheckCheckbox(box);
      LabelledSame(f, M(), box, box !in m.checked);
      SetLabelClass(box);
    }

    /** The value 0, 1 or 2 of the node, with the boxes and labels of its branch marked accordingly. */
    method CheckNodeSelected(node: Id) returns (result: int)
      requires Wf(f) && node in f.children
      modifies this
      ensures result == NodeValue(f, old(checked), node)
      ensures M() == Marked(f, old(M()), Branch(f, node))
      ensures var leaves := Leaves(f, Branch(f, node));
              result == if leaves <= old(checked) then 2 else if leaves !! old(checked) then 0 else 1
      ensures AllMarked(f, old(M()), M(), Branch(f, node))
      decreases Branch(f, node), 1
    {
      ghost var m := M();
      var found := CheckSubNodes(node);
      SelectedTop(f, m, node);
      if f.children[node] == [] {
        result := if node in checked then 2 else 0;
      } else {
        result := found.value;
      }
      MarkNode(node, result);
      NodeValueIsLeaves(f, m.checked, node);
      MarkedTells(f, m, Branch(f, node));
    }

    method CheckSubNodes(node: Id) returns (found: Option<int>)
      requires Wf(f) && node in f.children
      modifies this
      ensures M() == Marked(f, old(M()), BelowOf(f, node))
      ensures found == Folded(f, old(checked), node, |f.children[node]|)
      decreases Branch(f, node), 0
    {
      ghost var m := M();
      found := None;
      MarkedNone(f, m);
      BelowToEnds(f, node);
      for i := 0 to |f.children[node]|
        invariant M() == Marked(f, m, BelowTo(f, node, i)) && found == Folded(f, m.checked, node, i)
      {
        SubNode(f, m, node, i);
        var sub := CheckNodeSelected(f.children[node][i]);
        if found.None? {
          found := Some(sub);
        } else {
          found := Some(if sub == found.value then found.value else 1);
        }
        assert found == Folded(f, m.checked, node, i + 1);
      }
    }

    method MarkNode(node: Id, value: int)
      modifies this
      ensures M() == MarkedAs(old(M()), node, value)
    {
      if value == 1 {
        partial, empty := partial + {node}, empty - {node};
      } else if value == 2 {
        full, empty := full + {node}, empty - {node};
        checked := checked + {node};
      }
    }
  }

  // ---------- A click ----------

  function Labelled(m: Marks, x: Id): Marks {
    if x in m.checked then m.(full := m.full + {x}, empty := m.empty - {x}, partial := m.partial - {x})
    else m.(full := m.full - {x}, empty := m.empty + {x}, partial := m.partial - {x})
  }

  function Toggled(m: Marks, x: Id): Marks {
    m.(checked := if x in m.checked then m.checked - {x} else m.checked + {x})
  }

  lemma {:induction false} ToggleTwice(m: Marks, x: Id)
    ensures Toggled(Toggled(m, x), x) == m
  {
    if x in m.checked {
      assert m.checked - {x} + {x} == m.checked;
    } else {
      assert m.checked + {x} - {x} == m.checked;
    }
  }

  lemma {:induction false} LabelledSame(f: Forest, m: Marks, x: Id, state: bool)
    requires x in f.up && forall y :: y in Branch(f, x) ==> Plain(m, y, state)
    ensures Labelled(m, x) == m && (x in m.checked <==> state)
  {
    assert x in Branch(f, x) && Plain(m, x, state);
    assert m.partial - {x} == m.partial;
    if state {
      assert m.full + {x} == m.full && m.empty - {x} == m.empty;
    } else {
      assert m.full - {x} == m.full && m.empty + {x} == m.empty;
    }
  }

  ghost predicate GivenTo(f: Forest, m: Marks, k: Marks, n: Id, boxes: seq<Id>, i: nat)
    requires i <= |boxes|
  {
    forall x :: x in f.up ==> if x in boxes[..i] && x in Branch(f, n) then Plain(k, x, n in m.checked) else SameMarks(m, k, x)
  }

  lemma {:induction false} GivenNext(f: Forest, m: Marks, k: Marks, l: Marks, n: Id, boxes: seq<Id>, i: nat)
    requires i < |boxes| && GivenTo(f, m, k, n, boxes, i) && (n in k.checked <==> n in m.checked)
    requires
      var b := boxes[i];
      var c := k.(checked := if n in k.checked then k.checked + {b} else k.checked - {b});
      l == if b in Branch(f, n) then Labelled(c, b) else k
    ensures GivenTo(f, m, l, n, boxes, i + 1) && (n in l.checked <==> n in m.checked)
  {
    forall x | x in f.up
      ensures if x in boxes[..i + 1] && x in Branch(f, n) then Plain(l, x, n in m.checked) else SameMarks(m, l, x)
    {
      assert x in boxes[..i + 1] <==> x in boxes[..i] || x == boxes[i];
    }
  }

  lemma {:induction false} GivenAll(f: Forest, m: Marks, k: Marks, n: Id, boxes: seq<Id>)
    requires Elements(boxes) == f.up.Keys && GivenTo(f, m, k, n, boxes, |boxes|)
    ensures Given(f, m, k, n, n in m.checked)
  {
    assert boxes[..|boxes|] == boxes;
    forall x | x in f.up ensures x in boxes { assert x in Elements(boxes); }
  }

  lemma {:induction false} ToggledRight(f: Forest, m: Marks, k: Marks, n: Id)
    requires Wf(f) && n in f.up && AllRight(f, Toggled(m, n)) && Given(f, m, k, n, n in m.checked)
    ensures RightUpTo(f, k, n)
  {
    assert n in Branch(f, n);
    forall x | x in f.up && x !in Branch(f, n) ensures SameMarks(Toggled(m, n), k, x) { assert SameMarks(m, k, x); }
    GivenRight(f, Toggled(m, n), k, n, n in m.checked);
  }

  lemma {:induction false} ApartFromUp(f: Forest, n: Id, x: Id)
    requires Acyclic(f) && n in f.up && x in Branch(f, n)
    ensures x !in f.up[n]
  {
    assert Sits(f, n);
    if x in f.up[n] { UpTransitive(f, x, n); }
  }

  /** Checked if all boxes below are, partial if only some are. */
  function Counted(f: Forest, m: Marks, p: Id): Marks {
    var below := BelowOf(f, p);
    if below <= m.checked then
      Marks(m.checked + {p}, m.full + {p}, m.empty - {p}, m.partial - {p})
    else if below * m.checked != {} then
      Marks(m.checked - {p}, m.full - {p}, m.empty - {p}, m.partial + {p})
    else
      Marks(m.checked - {p}, m.full - {p}, m.empty + {p}, m.partial - {p})
  }

  lemma {:induction false} CountedRight(f: Forest, m: Marks, p: Id)
    requires p in f.up && p !in f.up[p]
    ensures Right(f, Counted(f, m, p), p) && forall x :: x != p ==> SameMarks(m, Counted(f, m, p), x)
  {
    var k, below := Counted(f, m, p), BelowOf(f, p);
    assert p !in below;
    assert below * k.checked == below * m.checked && (below <= k.checked <==> below <= m.checked);
  }

  lemma {:induction false} ParentStep(f: Forest, m: Marks, p: Id, n: Id)
    requires Wf(f) && n in f.parent && f.parent[n] == p && RightUpTo(f, m, n)
    ensures p in f.up && f.up[p] < f.up[n] && RightUpTo(f, Counted(f, m, p), p)
    ensures forall x :: x != p ==> SameMarks(m, Counted(f, m, p), x)
  {
    UpStep(f, n);
    CountedRight(f, m, p);
    ParentRight(f, m, Counted(f, m, p), p, n);
  }

  lemma {:induction false} CountDecides(below: set<Id>, checked: set<Id>)
    ensures |below| == |below * checked| <==> below <= checked
    ensures |below * checked| > 0 <==> below * checked != {}
  {
    SubsetBySize(below * checked, below);
  }

  // ---------- The recursive check ----------

  function Joined(found: Option<int>, sub: int): int {
    if found.None? then sub else if sub == found.value then found.value else 1
  }

  /** The value of a node as the recursion computes it: its own box decides at a leaf, its children elsewhere. */
  ghost function NodeValue(f: Forest, checked: set<Id>, n: Id): int
    requires Wf(f) && n in f.children
    decreases Branch(f, n), 1, 0
  {
    if f.children[n] == [] then if n in checked then 2 else 0
    else Folded(f, checked, n, |f.children[n]|).value
  }

  ghost function Folded(f: Forest, checked: set<Id>, n: Id, i: nat): (found: Option<int>)
    requires Wf(f) && n in f.children && i <= |f.children[n]|
    ensures found.None? <==> i == 0
    decreases Branch(f, n), 0, i
  {
    if i == 0 then None
    else
      ChildSmaller(f, n, i - 1);
      Some(Joined(Folded(f, checked, n, i - 1), NodeValue(f, checked, f.children[n][i - 1])))
  }

  /** It is 0 when no leaf of the branch is checked, 2 when all are, and 1 otherwise. */
  lemma {:induction false} NodeValueIsLeaves(f: Forest, checked: set<Id>, n: Id)
    requires Wf(f) && n in f.children
    ensures NodeValue(f, checked, n) == Value(Leaves(f, Branch(f, n)), checked)
    decreases Branch(f, n), 1, 0
  {
    TopValue(f, n);
    BelowToEnds(f, n);
    if Inner(f, n) { FoldedIsLeaves(f, checked, n, |f.children[n]|); }
  }

  lemma {:induction false} FoldedIsLeaves(f: Forest, checked: set<Id>, n: Id, i: nat)
    requires Wf(f) && n in f.children && 0 < i <= |f.children[n]|
    ensures Folded(f, checked, n, i).value == Value(Leaves(f, BelowTo(f, n, i)), checked)
    decreases Branch(f, n), 0, i
  {
    var c := f.children[n][i - 1];
    var done, kid := BelowTo(f, n, i - 1), Branch(f, c);
    BelowToStep(f, n, i - 1);
    NodeValueIsLeaves(f, checked, c);
    LeavesJoin(f, done, kid);
    if i == 1 {
      BelowToEnds(f, n);
      assert done + kid == kid;
    } else {
      FoldedIsLeaves(f, checked, n, i - 1);
      FirstLeaf(f, n, i - 1);
      var leaf := HasLeaf(f, c);
      assert leaf in Leaves(f, kid);
      ValueJoins(Leaves(f, done), Leaves(f, kid), checked);
    }
  }

  lemma {:induction false} TopValue(f: Forest, n: Id)
    requires Wf(f) && n in f.children
    ensures Inner(f, n) ==> Leaves(f, Branch(f, n)) == Leaves(f, BelowOf(f, n))
    ensures !Inner(f, n) ==> Leaves(f, Branch(f, n)) == {n}
  {
    BranchSplits(f, n);
    InnerHasBelow(f, n);
  }

  lemma LeavesJoin(f: Forest, some: set<Id>, others: set<Id>)
    ensures Leaves(f, some + others) == Leaves(f, some) + Leaves(f, others)
  {
  }

  lemma {:induction false} FirstLeaf(f: Forest, n: Id, i: nat)
    requires Wf(f) && n in f.children && 0 < i <= |f.children[n]|
    ensures Leaves(f, BelowTo(f, n, i)) != {}
  {
    ChildOf(f, n, 0);
    ChildBranch(f, f.children[n][0]);
    var leaf := HasLeaf(f, f.children[n][0]);
    BranchesApart(f, n, 0, i);
    assert leaf in Leaves(f, BelowTo(f, n, i));
  }

  /** Boxes and labels of a part marked according to the leaves below them. */
  ghost function Marked(f: Forest, m: Marks, part: set<Id>): Marks
    requires Wf(f) && part <= f.children.Keys
  {
    var all := set x | x in part && NodeValue(f, m.checked, x) == 2;
    var some := set x | x in part && NodeValue(f, m.checked, x) == 1;
    Marks(m.checked + all, m.full + all, m.empty - all - some, m.partial + some)
  }

  /**
    What the marking does to a node that need not be right before: a box whose leaves are all checked is checked and
    labelled so, one with some of them is labelled partial, and nothing else is set or, but for `empty`, taken back.
  */
  ghost predicate MarkedByLeaves(f: Forest, m: Marks, k: Marks, x: Id, inside: bool) {
    var leaves := Leaves(f, Branch(f, x));
    var all, none := leaves <= m.checked, leaves !! m.checked;
    && (x in k.checked <==> x in m.checked || (inside && all))
    && (x in k.full <==> x in m.full || (inside && all))
    && (x in k.partial <==> x in m.partial || (inside && !all && !none))
    && (x in k.empty <==> x in m.empty && (inside ==> none))
  }

  ghost predicate AllMarked(f: Forest, m: Marks, k: Marks, part: set<Id>) {
    forall x :: x in f.up ==> MarkedByLeaves(f, m, k, x, x in part)
  }

  lemma {:induction false} MarkedTells(f: Forest, m: Marks, part: set<Id>)
    requires Wf(f) && part <= f.children.Keys
    ensures AllMarked(f, m, Marked(f, m, part), part)
  {
    forall x | x in f.up ensures MarkedByLeaves(f, m, Marked(f, m, part), x, x in part) {
      NodeValueIsLeaves(f, m.checked, x);
      var leaf := HasLeaf(f, x);
      assert leaf in Leaves(f, Branch(f, x));
    }
  }

  lemma {:induction false} MarkedNone(f: Forest, m: Marks)
    requires Wf(f)
    ensures Marked(f, m, {}) == m
  {
  }

  /** Marking changes no leaf, and so no value. */
  lemma {:induction false} SameValue(f: Forest, m: Marks, part: set<Id>, x: Id)
    requires Wf(f) && part <= f.children.Keys && x in f.children
    ensures NodeValue(f, Marked(f, m, part).checked, x) == NodeValue(f, m.checked, x)
  {
    var leaves, k := Leaves(f, Branch(f, x)), Marked(f, m, part);
    forall y | y in leaves ensures y in k.checked <==> y in m.checked {
      assert y in f.children && f.children[y] == [];
    }
    NodeValueIsLeaves(f, k.checked, x);
    NodeValueIsLeaves(f, m.checked, x);
  }

  lemma {:induction false} MarkedTwice(f: Forest, m: Marks, part: set<Id>, more: set<Id>)
    requires Wf(f) && part <= f.children.Keys && more <= f.children.Keys
    ensures Marked(f, Marked(f, m, part), more) == Marked(f, m, part + more)
  {
    forall x | x in f.children ensures NodeValue(f, Marked(f, m, part).checked, x) == NodeValue(f, m.checked, x) {
      SameValue(f, m, part, x);
    }
  }

  lemma {:induction false} SubNode(f: Forest, m: Marks, n: Id, i: nat)
    requires Wf(f) && n in f.children && i < |f.children[n]|
    ensures
      var c, k := f.children[n][i], Marked(f, m, BelowTo(f, n, i));
      && c in f.children && Branch(f, c) < Branch(f, n)
      && Marked(f, k, Branch(f, c)) == Marked(f, m, BelowTo(f, n, i + 1))
      && Folded(f, m.checked, n, i + 1) == Some(Joined(Folded(f, m.checked, n, i), NodeValue(f, k.checked, c)))
  {
    BelowToStep(f, n, i);
    MarkedTwice(f, m, BelowTo(f, n, i), Branch(f, f.children[n][i]));
    SameValue(f, m, BelowTo(f, n, i), f.children[n][i]);
  }

  function MarkedAs(m: Marks, n: Id, value: int): Marks {
    if value == 1 then m.(partial := m.partial + {n}, empty := m.empty - {n})
    else if value == 2 then m.(full := m.full + {n}, empty := m.empty - {n}, checked := m.checked + {n})
    else m
  }

  lemma {:induction false} MarkedOne(f: Forest, m: Marks, n: Id)
    requires Wf(f) && n in f.children
    ensures Marked(f, m, {n}) == MarkedAs(m, n, NodeValue(f, m.checked, n))
  {
  }

  lemma {:induction false} SelectedTop(f: Forest, m: Marks, n: Id)
    requires Wf(f) && n in f.children
    ensures Marked(f, m, Branch(f, n)) == MarkedAs(Marked(f, m, BelowOf(f, n)), n, NodeValue(f, m.checked, n))
    ensures f.children[n] == [] ==> (n in Marked(f, m, BelowOf(f, n)).checked <==> n in m.checked)
  {
    BranchSplits(f, n);
    SameValue(f, m, BelowOf(f, n), n);
    MarkedTwice(f, m, BelowOf(f, n), {n});
    MarkedOne(f, Marked(f, m, BelowOf(f, n)), n);
    assert BelowOf(f, n) + {n} == Branch(f, n);
  }

  /** With all boxes right, the labels show what the recursive check computes. */
  lemma {:induction false} LabelsTellValue(f: Forest, m: Marks, n: Id)
    requires Wf(f) && AllRight(f, m) && n in f.children
    ensures n in m.checked <==> NodeValue(f, m.checked, n) == 2
    ensures n in m.partial <==> NodeValue(f, m.checked, n) == 1
    ensures n in m.empty <==> NodeValue(f, m.checked, n) == 0
  {
    NodeValueIsLeaves(f, m.checked, n);
    LabelsTellLeaves(f, m, n);
  }

  /** With all boxes right there is nothing to mark: the recursive check leaves what the clicks have made. */
  lemma {:induction false} SelectedRight(f: Forest, m: Marks, part: set<Id>)
    requires Wf(f) && AllRight(f, m) && part <= f.up.Keys
    ensures Marked(f, m, part) == m
  {
    forall x | x in part
      ensures NodeValue(f, m.checked, x) == 2 ==> x in m.checked && x in m.full && x !in m.empty
      ensures NodeValue(f, m.checked, x) == 1 ==> x in m.partial && x !in m.empty
    {
      NodeValueIsLeaves(f, m.checked, x);
      LabelsTellLeaves(f, m, x);
      assert Right(f, m, x);
    }
  }
}
