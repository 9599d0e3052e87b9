/** The rows of a tree table kept in step with its forest. */
module TableRows {
  import opened Forests
  import opened Branches
  import opened Surgery

  /** The forest is sound, rows and nodes list its nodes once each, and every branch is one block headed by its own row. */
  ghost predicate InStep(f: Forest, nodes: seq<Id>, rows: seq<Id>) {
    Wf(f) && Lists(rows, f.up.Keys) && Lists(nodes, f.up.Keys) && Contiguous(f, rows)
  }

  /** The sequence lists the members of the set, each once. */
  predicate Lists(s: seq<Id>, members: set<Id>) {
    if s == [] then members == {}
    else s[0] in members && Lists(s[1..], members - {s[0]})
  }

  lemma {:induction false} ListsEach(s: seq<Id>, members: set<Id>)
    ensures Lists(s, members) <==> NoDuplicates(s) && Elements(s) == members
  {
    if s != [] {
      ListsEach(s[1..], members - {s[0]});
      assert s == [s[0]] + s[1..];
      assert Elements(s) == {s[0]} + Elements(s[1..]);
      assert NoDuplicates(s) <==> s[0] !in Elements(s[1..]) && NoDuplicates(s[1..]) by {
        DistinctApartOrNot([s[0]], s[1..]);
      }
    }
  }

  lemma {:induction false} DistinctApartOrNot(s: seq<Id>, t: seq<Id>)
    ensures NoDuplicates(s + t) <==> NoDuplicates(s) && NoDuplicates(t) && Elements(s) !! Elements(t)
  {
    if NoDuplicates(s + t) {
      DistinctApart(s, t);
    } else if NoDuplicates(s) && NoDuplicates(t) && Elements(s) !! Elements(t) {
      DistinctConcat(s, t);
    }
  }

  lemma {:induction false} WithoutLists(s: seq<Id>, members: set<Id>, cut: set<Id>)
    requires Lists(s, members)
    ensures Lists(Without(s, cut), members - cut)
  {
    ListsEach(s, members);
    WithoutElements(s, cut);
    ListsEach(Without(s, cut), members - cut);
  }

  // ---------- A move ----------

  ghost function MovedRows(f: Forest, rows: seq<Id>, n: Id, dest: Id): seq<Id>
    requires Wf(f) && n in f.children
  {
    After(Without(rows, Branch(f, n)), dest, Preorder(f, n))
  }

  lemma {:induction false} MovedMembers(g: Forest, rows: seq<Id>, n: Id, dest: Id)
    requires Wf(g) && n in g.children && Lists(rows, g.up.Keys) && dest in g.up && dest !in Branch(g, n)
    ensures Lists(MovedRows(g, rows, n, dest), g.up.Keys)
  {
    ListsEach(rows, g.up.Keys);
    ListsEach(MovedRows(g, rows, n, dest), g.up.Keys);
    var rest := Without(rows, Branch(g, n));
    WithoutElements(rows, Branch(g, n));
    PreorderElements(g, n);
    PreorderDistinct(g, n);
    assert dest in Elements(rest);
    AfterElements(rest, dest, Preorder(g, n));
    AfterDistinct(rest, dest, Preorder(g, n));
  }

  lemma {:induction false} MovedBlockInside(g: Forest, rows: seq<Id>, n: Id, dest: Id, m: Id)
    requires Wf(g) && n in g.children && m in Branch(g, n) && dest in rows && dest !in Branch(g, n)
    ensures Block(MovedRows(g, rows, n, dest), Branch(g, m), m)
  {
    var cut := Branch(g, n);
    WithoutElements(rows, cut);
    assert dest in Elements(Without(rows, cut));
    PreorderBlock(g, n, m);
    SubBranch(g, n, m);
    AfterOwnBlock(Without(rows, cut), dest, Preorder(g, n), Branch(g, m), m);
  }

  lemma {:induction false} MovedBlockOutside(g: Forest, rows: seq<Id>, n: Id, dest: Id, was: set<Id>, m: Id)
    requires Wf(g) && n in g.children && m !in Branch(g, n) && dest in rows && dest !in Branch(g, n)
    requires Block(rows, was, m)
    requires Branch(g, m) == was - Branch(g, n) + if dest in was then Branch(g, n) else {}
    ensures Block(MovedRows(g, rows, n, dest), Branch(g, m), m)
  {
    var cut := Branch(g, n);
    WithoutElements(rows, cut);
    assert dest in Elements(Without(rows, cut));
    PreorderElements(g, n);
    WithoutBlock(rows, was, m, cut);
    AfterBlock(Without(rows, cut), was - cut, m, dest, Preorder(g, n));
    assert Branch(g, m) == if dest in was - cut then was - cut + Elements(Preorder(g, n)) else was - cut;
  }

  lemma {:induction false} MovedBlock(f: Forest, g: Forest, rows: seq<Id>, n: Id, dest: Id, m: Id)
    requires Acyclic(f) && n in f.up && dest in f.up && m in f.up && dest !in Branch(f, n)
    requires g == Moved(f, n, dest) && Wf(g) && Elements(rows) == f.up.Keys && Block(rows, Branch(f, m), m)
    ensures Block(MovedRows(g, rows, n, dest), Branch(g, m), m)
  {
    MovedBranch(f, n, dest, n);
    MovedBranch(f, n, dest, m);
    assert dest in Elements(rows);
    if m in Branch(g, n) {
      MovedBlockInside(g, rows, n, dest, m);
    } else {
      MovedBlockOutside(g, rows, n, dest, Branch(f, m), m);
    }
  }

  lemma {:induction false} MovedContiguous(f: Forest, g: Forest, rows: seq<Id>, n: Id, dest: Id)
    requires Acyclic(f) && n in f.up && dest in f.up && dest !in Branch(f, n)
    requires g == Moved(f, n, dest) && Wf(g) && Lists(rows, f.up.Keys) && Contiguous(f, rows)
    ensures Contiguous(g, MovedRows(g, rows, n, dest))
  {
    ListsEach(rows, f.up.Keys);
    var after := MovedRows(g, rows, n, dest);
    forall m | m in g.up ensures Block(after, Branch(g, m), m) {
      MovedBlock(f, g, rows, n, dest, m);
    }
  }

  /** A move keeps rows and forest in step. */
  lemma {:induction false} MovedInStep(f: Forest, g: Forest, nodes: seq<Id>, rows: seq<Id>, n: Id, dest: Id)
    requires InStep(f, nodes, rows) && n in f.up && dest in f.up && dest !in Branch(f, n) && g == Moved(f, n, dest)
    ensures Wf(g) && InStep(g, nodes, MovedRows(g, rows, n, dest))
  {
    MovedWf(f, n, dest);
    MovedSame(f, n, dest);
    MovedMembers(g, rows, n, dest);
    MovedContiguous(f, g, rows, n, dest);
  }

  // ---------- A sort ----------

  ghost function SortedRows(f: Forest, rows: seq<Id>, n: Id): seq<Id>
    requires Wf(f) && n in f.children
  {
    After(Without(rows, BelowOf(f, n)), n, PreorderFrom(f, n, 0))
  }

  lemma {:induction false} SortedMembers(f: Forest, rows: seq<Id>, n: Id)
    requires Wf(f) && n in f.children && Lists(rows, f.up.Keys)
    ensures Lists(SortedRows(f, rows, n), f.up.Keys)
  {
    ListsEach(rows, f.up.Keys);
    ListsEach(SortedRows(f, rows, n), f.up.Keys);
    var rest, block := Without(rows, BelowOf(f, n)), PreorderFrom(f, n, 0);
    WithoutElements(rows, BelowOf(f, n));
    PreorderFromElements(f, n, 0);
    PreorderFromDistinct(f, n, 0);
    AllBranches(f, n);
    assert Sits(f, n);
    assert n in Elements(rest);
    AfterElements(rest, n, block);
    AfterDistinct(rest, n, block);
  }

  lemma {:induction false} SortedBlock(f: Forest, rows: seq<Id>, n: Id, m: Id)
    requires Wf(f) && n in f.children && m in f.up && Elements(rows) == f.up.Keys
    requires Block(rows, Branch(f, m), m)
    ensures Block(SortedRows(f, rows, n), Branch(f, m), m)
  {
    var cut, rest, block := BelowOf(f, n), Without(rows, BelowOf(f, n)), PreorderFrom(f, n, 0);
    PreorderFromElements(f, n, 0);
    AllBranches(f, n);
    WithoutElements(rows, cut);
    assert Sits(f, n);
    assert n in Elements(rest);
    if m in cut {
      PreorderFromBlock(f, n, 0, m);
      PreorderFromElements(f, n, 0);
      BelowHas(f, n, m);
      AfterOwnBlock(rest, n, block, Branch(f, m), m);
    } else {
      WithoutBlock(rows, Branch(f, m), m, cut);
      AfterBlock(rest, Branch(f, m) - cut, m, n, block);
      AboveOrApart(f, n, m);
    }
  }

  lemma {:induction false} BelowHas(f: Forest, n: Id, m: Id)
    requires Acyclic(f) && m in BelowOf(f, n)
    ensures Branch(f, m) <= BelowOf(f, n)
  {
    forall x | x in Branch(f, m) ensures n in f.up[x] {
      if x != m { UpTransitive(f, m, x); }
    }
  }

  lemma {:induction false} AboveOrApart(f: Forest, n: Id, m: Id)
    requires Acyclic(f) && n in f.up && m in f.up && m !in BelowOf(f, n)
    ensures if n in Branch(f, m) then Branch(f, m) - BelowOf(f, n) + BelowOf(f, n) == Branch(f, m)
            else Branch(f, m) - BelowOf(f, n) == Branch(f, m)
  {
    if n in Branch(f, m) {
      SubBranch(f, m, n);
      BranchSplits(f, n);
    } else {
      forall x | x in Branch(f, m) ensures x !in BelowOf(f, n) {
        if x in Branch(f, n) { Comparable(f, n, m, x); }
      }
    }
  }

  /** Sorting the children of a node, and bringing the rows into the new pre-order, keeps rows and forest in step. */
  lemma {:induction false} SortedInStep(f: Forest, nodes: seq<Id>, rows: seq<Id>, n: Id, kids: seq<Id>)
    requires InStep(f, nodes, rows) && n in f.children && multiset(kids) == multiset(f.children[n])
    ensures Wf(Sorted(f, n, kids)) && InStep(Sorted(f, n, kids), nodes, SortedRows(Sorted(f, n, kids), rows, n))
  {
    var g := Sorted(f, n, kids);
    SortedWf(f, n, kids);
    SortedMembers(g, rows, n);
    ListsEach(rows, f.up.Keys);
    forall m | m in g.up ensures Block(SortedRows(g, rows, n), Branch(g, m), m) {
      assert Branch(g, m) == Branch(f, m);
      SortedBlock(g, rows, n, m);
    }
  }

  // ---------- A cut ----------

  /** Cutting branches out of forest, nodes and rows keeps them in step. */
  lemma {:induction false} CutInStep(f: Forest, nodes: seq<Id>, rows: seq<Id>, cut: set<Id>)
    requires InStep(f, nodes, rows) && Closed(f, cut)
    ensures InStep(Cut(f, cut), Without(nodes, cut), Without(rows, cut))
  {
    var g := Cut(f, cut);
    CutAcyclic(f, cut);
    CutLinked(f, cut);
    WithoutLists(nodes, f.up.Keys, cut);
    WithoutLists(rows, f.up.Keys, cut);
    forall m | m in g.up ensures Block(Without(rows, cut), Branch(g, m), m) {
      CutBranch(f, cut, m);
      WithoutBlock(rows, Branch(f, m), m, cut);
    }
  }

  // ---------- Runs ----------

  datatype Table = Table(forest: Forest, nodes: seq<Id>, rows: seq<Id>)

  datatype Op = Move(node: Id, dest: Id) | Sort(node: Id, sorted: seq<Id>) | Remove(node: Id)

  ghost predicate TableInStep(t: Table) {
    InStep(t.forest, t.nodes, t.rows)
  }

  /** What an operation makes of the table; one that the table does not allow changes nothing. */
  ghost function Applied(t: Table, op: Op): Table
    requires TableInStep(t)
  {
    var f := t.forest;
    match op
    case Move(n, dest) =>
      if n !in f.up || dest !in f.up || dest in Branch(f, n) || (n in f.parent && f.parent[n] == dest) then t
      else
        MovedWf(f, n, dest);
        Table(Moved(f, n, dest), t.nodes, MovedRows(Moved(f, n, dest), t.rows, n, dest))
    case Sort(n, sorted) =>
      if n !in f.children || multiset(sorted) != multiset(f.children[n]) then t
      else
        SortedWf(f, n, sorted);
        Table(Sorted(f, n, sorted), t.nodes, SortedRows(Sorted(f, n, sorted), t.rows, n))
    case Remove(n) =>
      Table(Cut(f, Branch(f, n)), Without(t.nodes, Branch(f, n)), Without(t.rows, Branch(f, n)))
  }

  lemma {:induction false} AppliedInStep(t: Table, op: Op)
    requires TableInStep(t)
    ensures TableInStep(Applied(t, op))
  {
    var f := t.forest;
    match op
    case Move(n, dest) =>
      if n in f.up && dest in f.up && dest !in Branch(f, n) { MovedInStep(f, Moved(f, n, dest), t.nodes, t.rows, n, dest); }
    case Sort(n, sorted) =>
      if n in f.children && multiset(sorted) == multiset(f.children[n]) { SortedInStep(f, t.nodes, t.rows, n, sorted); }
    case Remove(n) =>
      BranchClosed(f, n);
      CutInStep(f, t.nodes, t.rows, Branch(f, n));
  }

  /** The table after each of the operations, in order. */
  ghost predicate Runs(t: Table, ops: seq<Op>, end: Table)
    requires TableInStep(t)
    decreases |ops|
  {
    if ops == [] then t == end
    else
      AppliedInStep(t, ops[0]);
      Runs(Applied(t, ops[0]), ops[1..], end)
  }

  /** Whatever operations are made, forest, nodes and rows stay in step. */
  lemma {:induction false} RunInStep(t: Table, ops: seq<Op>, end: Table)
    requires TableInStep(t) && Runs(t, ops, end)
    ensures TableInStep(end)
    decreases |ops|
  {
    if ops != [] {
      AppliedInStep(t, ops[0]);
      RunInStep(Applied(t, ops[0]), ops[1..], end);
    }
  }

  /** Moving and sorting lose no row and make none: the rows are listed in another order. */
  lemma {:induction false} RunKeepsRows(t: Table, ops: seq<Op>, end: Table)
    requires TableInStep(t) && Runs(t, ops, end) && forall k :: 0 <= k < |ops| ==> !ops[k].Remove?
    ensures end.forest.up.Keys == t.forest.up.Keys && end.nodes == t.nodes
    ensures Lists(end.rows, t.forest.up.Keys)
    decreases |ops|
  {
    if ops != [] {
      AppliedInStep(t, ops[0]);
      assert Applied(t, ops[0]).forest.up.Keys == t.forest.up.Keys;
      RunKeepsRows(Applied(t, ops[0]), ops[1..], end);
    }
  }

  // ---------- Moving row by row ----------

  /** Rows on the way: the branches of the children from number `i` on already stand behind `n`. */
  ghost function Underway(f: Forest, rows: seq<Id>, n: Id, i: nat): seq<Id>
    requires Wf(f) && n in f.children && i <= |f.children[n]|
  {
    After(Without(rows, BranchesFrom(f, n, i)), n, PreorderFrom(f, n, i))
  }

  lemma {:induction false} UnderwayStarts(f: Forest, rows: seq<Id>, n: Id)
    requires Wf(f) && n in f.children
    ensures Underway(f, rows, n, |f.children[n]|) == rows
  {
    WithoutElements(rows, {});
    AfterNothing(rows, n);
  }

  lemma {:induction false} UnderwayStep(f: Forest, rows: seq<Id>, n: Id, i: nat)
    requires Wf(f) && n in f.children && i < |f.children[n]| && f.children[n][i] in f.children
    ensures MovedRows(f, Underway(f, rows, n, i + 1), f.children[n][i], n) == Underway(f, rows, n, i)
  {
    var c := f.children[n][i];
    var more, block := BranchesFrom(f, n, i + 1), PreorderFrom(f, n, i + 1);
    ChildOf(f, n, i);
    ChildBranch(f, c);
    BranchesApart(f, n, i, i + 1);
    PreorderFromElements(f, n, i + 1);
    WithoutAfter(Without(rows, more), n, block, Branch(f, c));
    WithoutTwice(rows, more, Branch(f, c));
    assert more + Branch(f, c) == BranchesFrom(f, n, i);
    AfterSame(Without(rows, BranchesFrom(f, n, i)), n, block, Preorder(f, c));
  }

  lemma {:induction false} UnderwayLists(f: Forest, rows: seq<Id>, n: Id, i: nat)
    requires Wf(f) && n in f.children && i <= |f.children[n]| && Lists(rows, f.up.Keys)
    ensures Lists(Underway(f, rows, n, i), f.up.Keys)
  {
    ListsEach(rows, f.up.Keys);
    ListsEach(Underway(f, rows, n, i), f.up.Keys);
    var cut, block := BranchesFrom(f, n, i), PreorderFrom(f, n, i);
    WithoutElements(rows, cut);
    PreorderFromElements(f, n, i);
    PreorderFromDistinct(f, n, i);
    BranchesBelow(f, n, i);
    assert Sits(f, n);
    assert n in Elements(Without(rows, cut));
    AfterElements(Without(rows, cut), n, block);
    AfterDistinct(Without(rows, cut), n, block);
  }

  /** With all children behind a node that itself went behind `dest`, the branch stands there in pre-order. */
  lemma {:induction false} UnderwayEnds(f: Forest, rows: seq<Id>, n: Id, dest: Id)
    requires Wf(f) && n in f.children && dest !in Branch(f, n)
    ensures Underway(f, After(Without(rows, {n}), dest, [n]), n, 0) == MovedRows(f, rows, n, dest)
  {
    var below, alone := BelowOf(f, n), Without(rows, {n});
    AllBranches(f, n);
    BranchSplits(f, n);
    WithoutAfter(alone, dest, [n], below);
    WithoutTwice(rows, {n}, below);
    WithoutElements(rows, Branch(f, n));
    var rest := Without(rows, Branch(f, n));
    assert n !in Elements(rest);
    AfterAfter(rest, dest, n, [], PreorderFrom(f, n, 0));
    assert [n] + [] == [n];
    assert [n] + PreorderFrom(f, n, 0) + [] == Preorder(f, n);
  }

  lemma {:induction false} InsertedLists(f: Forest, rows: seq<Id>, n: Id, dest: Id)
    requires Lists(rows, f.up.Keys) && n in f.up && dest in f.up && n != dest
    ensures Lists(After(Without(rows, {n}), dest, [n]), f.up.Keys)
  {
    var rest := Without(rows, {n});
    ListsEach(rows, f.up.Keys);
    ListsEach(After(rest, dest, [n]), f.up.Keys);
    WithoutElements(rows, {n});
    assert dest in Elements(rest);
    AfterElements(rest, dest, [n]);
    AfterDistinct(rest, dest, [n]);
  }
}
