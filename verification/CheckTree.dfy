/** A tree of check boxes: each inner box stands for all boxes below it, and each label shows none, some or all. */
module CheckTrees {
  import opened Common
  import opened Forests
  import opened Surgery

  /** The boxes that are checked, and the three classes of their labels. */
  datatype Marks = Marks(checked: set<Id>, full: set<Id>, empty: set<Id>, partial: set<Id>)

  predicate Inner(f: Forest, x: Id) {
    x in f.children && f.children[x] != []
  }

  /** An inner box is checked if and only if all boxes below it are; the label says checked, or that some boxes below
      are, or that none is. */
  predicate Right(f: Forest, m: Marks, x: Id) {
    && (Inner(f, x) ==> (x in m.checked <==> BelowOf(f, x) <= m.checked))
    && (x in m.full <==> x in m.checked)
    && (x in m.partial <==> x !in m.checked && BelowOf(f, x) * m.checked != {})
    && (x in m.empty <==> x !in m.checked && BelowOf(f, x) * m.checked == {})
  }

  ghost predicate AllRight(f: Forest, m: Marks) {
    forall x :: x in f.up ==> Right(f, m, x)
  }

  /** All boxes are right but for those above the node. */
  ghost predicate RightUpTo(f: Forest, m: Marks, n: Id)
    requires n in f.up
  {
    forall x :: x in f.up && x !in f.up[n] ==> Right(f, m, x)
  }

  ghost predicate SameMarks(m: Marks, k: Marks, x: Id) {
    && (x in m.checked <==> x in k.checked) && (x in m.full <==> x in k.full)
    && (x in m.empty <==> x in k.empty) && (x in m.partial <==> x in k.partial)
  }

  // ---------- None, some or all of the leaves ----------

  function Leaves(f: Forest, part: set<Id>): set<Id> {
    set x | x in part && !Inner(f, x)
  }

  /** 0 when none of the leaves is checked, 2 when all are, 1 otherwise. */
  function Value(leaves: set<Id>, checked: set<Id>): int {
    if leaves <= checked then 2 else if leaves !! checked then 0 else 1
  }

  lemma {:induction false} HasLeaf(f: Forest, n: Id) returns (leaf: Id)
    requires Wf(f) && n in f.children
    ensures leaf in Branch(f, n) && !Inner(f, leaf)
    decreases Branch(f, n)
  {
    if Inner(f, n) {
      ChildOf(f, n, 0);
      ChildBranch(f, f.children[n][0]);
      leaf := HasLeaf(f, f.children[n][0]);
    } else {
      leaf := n;
    }
  }

  lemma {:induction false} InnerHasBelow(f: Forest, n: Id)
    requires Wf(f) && n in f.children
    ensures Inner(f, n) <==> BelowOf(f, n) != {}
  {
    if Inner(f, n) {
      ChildOf(f, n, 0);
      ChildBranch(f, f.children[n][0]);
      assert f.children[n][0] in Branch(f, f.children[n][0]);
    } else {
      AllBranches(f, n);
    }
  }

  lemma {:induction false} BelowWithin(f: Forest, n: Id, x: Id)
    requires Acyclic(f) && x in BelowOf(f, n)
    ensures BelowOf(f, x) <= BelowOf(f, n)
  {
    forall y | y in BelowOf(f, x) ensures y in BelowOf(f, n) { UpTransitive(f, x, y); }
  }

  /** With all boxes right, an inner box is checked exactly when all leaves below are, and its label is partial exactly
      when some are but not all. */
  lemma {:induction false} LabelsTellLeaves(f: Forest, m: Marks, n: Id)
    requires Wf(f) && AllRight(f, m) && n in f.children
    ensures n in m.checked <==> Value(Leaves(f, Branch(f, n)), m.checked) == 2
    ensures n in m.partial <==> Value(Leaves(f, Branch(f, n)), m.checked) == 1
    ensures n in m.empty <==> Value(Leaves(f, Branch(f, n)), m.checked) == 0
    ensures var leaves := Leaves(f, Branch(f, n));
            && (n in m.checked <==> leaves <= m.checked) && (n in m.full <==> leaves <= m.checked)
            && (n in m.partial <==> !(leaves <= m.checked) && !(leaves !! m.checked))
            && (n in m.empty <==> leaves !! m.checked)
  {
    var leaves := Leaves(f, Branch(f, n));
    var leaf := HasLeaf(f, n);
    assert Right(f, m, n) && leaf in leaves;
    BranchSplits(f, n);
    LeavesDecide(f, m, n);
    if Inner(f, n) { SomeLeaf(f, m, n); } else { InnerHasBelow(f, n); }
  }

  lemma {:induction false} LeavesDecide(f: Forest, m: Marks, n: Id)
    requires Wf(f) && AllRight(f, m) && n in f.children
    ensures n in m.checked <==> Leaves(f, Branch(f, n)) <= m.checked
    decreases Branch(f, n)
  {
    InnerHasBelow(f, n);
    assert Right(f, m, n);
    if !Inner(f, n) {
      assert Leaves(f, Branch(f, n)) == {n};
    } else {
      if n in m.checked {
        assert Branch(f, n) <= m.checked;
      }
      if Leaves(f, Branch(f, n)) <= m.checked {
        forall x | x in BelowOf(f, n) ensures x in m.checked {
          BelowBranch(f, n, x);
          LeavesDecide(f, m, x);
        }
      }
    }
  }

  lemma {:induction false} BelowBranch(f: Forest, n: Id, x: Id)
    requires Acyclic(f) && x in BelowOf(f, n)
    ensures Branch(f, x) < Branch(f, n)
  {
    BelowWithin(f, n, x);
    BranchSplits(f, x);
    UpTransitive(f, n, x);
    assert Sits(f, n);
    assert n in Branch(f, n) && n !in Branch(f, x) by {
      if x in f.up[n] { assert false by { UpTransitive(f, x, n); } }
    }
  }

  lemma {:induction false} SomeLeaf(f: Forest, m: Marks, n: Id)
    requires Wf(f) && AllRight(f, m) && Inner(f, n)
    ensures BelowOf(f, n) * m.checked != {} <==> Leaves(f, Branch(f, n)) * m.checked != {}
  {
    if x :| x in BelowOf(f, n) * m.checked {
      LeavesDecide(f, m, x);
      var leaf := HasLeaf(f, x);
      BelowBranch(f, n, x);
      assert leaf in Leaves(f, Branch(f, x)) && leaf in Leaves(f, Branch(f, n)) * m.checked;
    }
    if leaf :| leaf in Leaves(f, Branch(f, n)) * m.checked {
      assert leaf in BelowOf(f, n) * m.checked;
    }
  }

  /** The value of two groups of leaves is their common value, or "some". */
  lemma {:induction false} ValueJoins(some: set<Id>, others: set<Id>, checked: set<Id>)
    requires some != {} && others != {}
    ensures Value(some + others, checked) ==
            if Value(some, checked) == Value(others, checked) then Value(some, checked) else 1
  {
    var a :| a in some;
    var b :| b in others;
    assert a in some + others && b in some + others;
    if some + others <= checked { assert some <= checked && others <= checked; }
  }

  // ---------- One click ----------

  lemma {:induction false} SubsetBySize(some: set<Id>, all: set<Id>)
    requires some <= all
    ensures |some| == |all| <==> all <= some
  {
    if |some| == |all| && exists x :: x in all && x !in some {
      var x :| x in all && x !in some;
      SizeGrows(some + {x}, all);
    }
    if all <= some { assert all == some; }
  }

  lemma {:induction false} SizeGrows(some: set<Id>, all: set<Id>)
    requires some <= all
    ensures |some| <= |all|
  {
    if some != {} {
      var x :| x in some;
      SizeGrows(some - {x}, all - {x});
    }
  }

  /** The parent's box and label made right do not disturb the boxes that are not above it. */
  lemma {:induction false} ParentRight(f: Forest, m: Marks, k: Marks, p: Id, n: Id)
    requires Acyclic(f) && n in f.parent && f.parent[n] == p && p in f.up && RightUpTo(f, m, n)
    requires Right(f, k, p) && forall x :: x in f.up && x != p ==> SameMarks(m, k, x)
    ensures RightUpTo(f, k, p)
  {
    UpStep(f, n);
    forall x | x in f.up && x !in f.up[p] && x != p ensures Right(f, k, x) {
      assert Right(f, m, x) && p !in BelowOf(f, x);
      SameBelow(f, m, k, x);
    }
  }

  lemma {:induction false} SameBelow(f: Forest, m: Marks, k: Marks, x: Id)
    requires Right(f, m, x) && SameMarks(m, k, x) && forall y :: y in BelowOf(f, x) ==> SameMarks(m, k, y)
    ensures Right(f, k, x)
  {
    assert BelowOf(f, x) * m.checked == BelowOf(f, x) * k.checked;
    assert BelowOf(f, x) <= m.checked <==> BelowOf(f, x) <= k.checked;
  }

  /** The box of a branch's top given to all of the branch: only the boxes above may be wrong now. */
  ghost predicate Given(f: Forest, m: Marks, k: Marks, n: Id, state: bool) {
    && (forall x :: x in f.up && x !in Branch(f, n) ==> SameMarks(m, k, x))
    && (forall x :: x in Branch(f, n) ==> Plain(k, x, state))
  }

  predicate Plain(k: Marks, x: Id, state: bool) {
    (x in k.checked <==> state) && (x in k.full <==> state) && (x in k.empty <==> !state) && x !in k.partial
  }

  lemma {:induction false} GivenRight(f: Forest, m: Marks, k: Marks, n: Id, state: bool)
    requires Wf(f) && AllRight(f, m) && n in f.up && Given(f, m, k, n, state)
    ensures RightUpTo(f, k, n)
  {
    forall x | x in f.up && x !in f.up[n] ensures Right(f, k, x) {
      if x in Branch(f, n) { GivenInside(f, m, k, n, state, x); } else { GivenOutside(f, m, k, n, state, x); }
    }
  }

  lemma {:induction false} GivenInside(f: Forest, m: Marks, k: Marks, n: Id, state: bool, x: Id)
    requires Wf(f) && n in f.up && Given(f, m, k, n, state) && x in Branch(f, n)
    ensures Right(f, k, x)
  {
    InnerHasBelow(f, x);
    assert BelowOf(f, x) <= Branch(f, n) by { if x != n { BelowWithin(f, n, x); } }
    forall y | y in BelowOf(f, x) ensures Plain(k, y, state) { assert y in Branch(f, n); }
    assert Plain(k, x, state);
    if !state { assert BelowOf(f, x) * k.checked == {}; }
  }

  lemma {:induction false} GivenOutside(f: Forest, m: Marks, k: Marks, n: Id, state: bool, x: Id)
    requires Wf(f) && AllRight(f, m) && n in f.up && Given(f, m, k, n, state)
    requires x in f.up && x !in Branch(f, n) && x !in f.up[n]
    ensures Right(f, k, x)
  {
    forall y | y in BelowOf(f, x) ensures SameMarks(m, k, y) {
      if y in Branch(f, n) { Comparable(f, n, x, y); }
    }
    assert Right(f, m, x);
    SameBelow(f, m, k, x);
  }
}
