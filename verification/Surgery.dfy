/** Moving, sorting and cutting branches of the forest. */
module Surgery {
  import opened Forests
  import opened Branches

  // ---------- Hanging a branch under another node ----------

  function Detached(children: map<Id, seq<Id>>, parent: map<Id, Id>, n: Id): map<Id, seq<Id>> {
    if n in parent && parent[n] in children then children[parent[n] := Without(children[parent[n]], {n})] else children
  }

  function Attached(children: map<Id, seq<Id>>, n: Id, dest: Id): map<Id, seq<Id>>
    requires dest in children
  {
    children[dest := children[dest] + [n]]
  }

  /** The ancestors once the branch of `n` hangs under `dest`. */
  function Rehung(f: Forest, n: Id, dest: Id): map<Id, set<Id>>
    requires n in f.up && dest in f.up
  {
    map x | x in f.up :: if x in Branch(f, n) then (f.up[x] - f.up[n]) + {dest} + f.up[dest] else f.up[x]
  }

  function Moved(f: Forest, n: Id, dest: Id): Forest
    requires n in f.up && dest in f.up && dest in f.children
  {
    Forest(f.parent[n := dest], Attached(Detached(f.children, f.parent, n), n, dest), Rehung(f, n, dest))
  }

  /** Of two ancestors of a node one is above the other. */
  lemma {:induction false} Comparable(f: Forest, n: Id, m: Id, x: Id)
    requires Acyclic(f) && x in Branch(f, n) && x in Branch(f, m)
    ensures m in Branch(f, n) || n in Branch(f, m)
    decreases |f.up[x]|
  {
    if x != n && x != m {
      assert Sits(f, x);
      var p := f.parent[x];
      UpStep(f, x);
      Comparable(f, n, m, p);
    }
  }

  lemma {:induction false} MovedUp(f: Forest, n: Id, dest: Id, x: Id)
    requires Acyclic(f) && n in f.up && dest in f.up && dest !in Branch(f, n) && dest in f.children && x in f.parent
    ensures
      var g := Moved(f, n, dest);
      g.parent[x] in g.up && g.up[x] == {g.parent[x]} + g.up[g.parent[x]]
  {
    var g, p := Moved(f, n, dest), f.parent[x];
    UpStep(f, x);
    if x == n {
      assert g.up[n] == {dest} + f.up[dest];
    } else if x in Branch(f, n) {
      assert p in Branch(f, n);
      assert Sits(f, n);
      if p in f.up[n] { UpTransitive(f, p, n); }
    }
  }

  lemma {:induction false} MovedSits(f: Forest, n: Id, dest: Id, x: Id)
    requires Acyclic(f) && n in f.up && dest in f.up && dest !in Branch(f, n) && dest in f.children && x in f.up
    ensures Sits(Moved(f, n, dest), x)
  {
    assert Sits(f, x);
    if x in f.parent { MovedUp(f, n, dest, x); }
    if x in Branch(f, n) { MovedNotUnder(f, n, dest, x); }
  }

  lemma {:induction false} MovedAcyclic(f: Forest, n: Id, dest: Id)
    requires Acyclic(f) && n in f.up && dest in f.up && dest !in Branch(f, n)
    ensures Acyclic(Moved(f, n, dest))
  {
    var g := Moved(f, n, dest);
    forall x | x in g.up ensures Sits(g, x) { MovedSits(f, n, dest, x); }
  }

  lemma {:induction false} MovedNotUnder(f: Forest, n: Id, dest: Id, x: Id)
    requires Acyclic(f) && n in f.up && dest in f.up && dest !in Branch(f, n) && x in Branch(f, n)
    ensures x !in f.up[dest]
  {
    if x in f.up[dest] { UpTransitive(f, x, dest); }
  }

  lemma {:induction false} DetachedLinked(f: Forest, n: Id, p: Id)
    requires Linked(f) && p in f.children
    ensures
      var d := Detached(f.children, f.parent, n);
      p in d && NoDuplicates(d[p]) && n !in d[p] && forall c :: c in d[p] <==> c != n && c in f.parent && f.parent[c] == p
  {
    WithoutElements(f.children[p], {n});
    forall c ensures c in Without(f.children[p], {n}) <==> c != n && c in f.children[p] {
      assert c in Elements(Without(f.children[p], {n})) <==> c != n && c in Elements(f.children[p]);
    }
    assert n in f.children[p] ==> n in f.parent && f.parent[n] == p;
  }

  lemma {:induction false} MovedLinked(f: Forest, n: Id, dest: Id)
    requires Linked(f) && n in f.up && dest in f.up && dest in f.children
    ensures Linked(Moved(f, n, dest))
  {
    var g := Moved(f, n, dest);
    forall p | p in g.children
      ensures NoDuplicates(g.children[p]) && forall c :: c in g.children[p] <==> c in g.parent && g.parent[c] == p
    {
      DetachedLinked(f, n, p);
    }
  }

  lemma {:induction false} MovedWf(f: Forest, n: Id, dest: Id)
    requires Wf(f) && n in f.up && dest in f.up && dest !in Branch(f, n)
    ensures Wf(Moved(f, n, dest))
  {
    MovedAcyclic(f, n, dest);
    MovedLinked(f, n, dest);
  }

  lemma {:induction false} MovedSame(f: Forest, n: Id, dest: Id)
    requires Acyclic(f) && n in f.up && dest in f.up && dest !in Branch(f, n)
    ensures Moved(f, n, dest).up.Keys == f.up.Keys
    ensures Branch(Moved(f, n, dest), n) == Branch(f, n)
  {
    MovedBranch(f, n, dest, n);
    assert n in Branch(f, n);
  }

  /** The branches within the moved one stay as they are; every other branch gives it up, or gains it with `dest`. */
  lemma {:induction false} MovedBranch(f: Forest, n: Id, dest: Id, m: Id)
    requires Acyclic(f) && n in f.up && dest in f.up && m in f.up && dest !in Branch(f, n)
    ensures Branch(Moved(f, n, dest), m) ==
            if m in Branch(f, n) then Branch(f, m)
            else Branch(f, m) - Branch(f, n) + if dest in Branch(f, m) then Branch(f, n) else {}
  {
    var g := Moved(f, n, dest);
    forall x | x in f.up
      ensures x in Branch(g, m) <==>
              if m in Branch(f, n) then x in Branch(f, m)
              else if x in Branch(f, n) then dest in Branch(f, m) else x in Branch(f, m)
    {
      MovedBranchAt(f, n, dest, m, x);
    }
  }

  lemma {:induction false} MovedBranchAt(f: Forest, n: Id, dest: Id, m: Id, x: Id)
    requires Acyclic(f) && n in f.up && dest in f.up && m in f.up && dest !in Branch(f, n) && x in f.up
    ensures x in Branch(Moved(f, n, dest), m) <==>
              if m in Branch(f, n) then x in Branch(f, m)
              else if x in Branch(f, n) then dest in Branch(f, m) else x in Branch(f, m)
  {
    if m in Branch(f, n) {
      assert Sits(f, n);
      if m in f.up[n] { UpTransitive(f, m, n); }
      MovedNotUnder(f, n, dest, m);
      if x in Branch(f, m) { SubBranch(f, n, m); }
    } else if x in Branch(f, n) {
      if x in Branch(f, m) { Comparable(f, n, m, x); }
    }
  }

  // ---------- Sorting the children of a node ----------

  function Sorted(f: Forest, n: Id, kids: seq<Id>): Forest {
    f.(children := f.children[n := kids])
  }

  lemma {:induction false} SortedWf(f: Forest, n: Id, kids: seq<Id>)
    requires Wf(f) && n in f.children && multiset(kids) == multiset(f.children[n])
    ensures Wf(Sorted(f, n, kids))
    ensures forall m :: Branch(Sorted(f, n, kids), m) == Branch(f, m) && BelowOf(Sorted(f, n, kids), m) == BelowOf(f, m)
  {
    var was := f.children[n];
    forall c ensures c in kids <==> c in was {
      assert c in multiset(kids) <==> c in multiset(was);
    }
    DistinctByCount(was);
    DistinctFromCount(kids);
    forall x | x in f.up ensures Sits(Sorted(f, n, kids), x) { assert Sits(f, x); }
  }

  lemma {:induction false} DistinctByCount(s: seq<Id>)
    requires NoDuplicates(s)
    ensures forall x :: multiset(s)[x] <= 1
  {
    if s != [] {
      DistinctByCount(s[1..]);
      assert s == [s[0]] + s[1..];
      assert s[0] !in s[1..];
      assert multiset(s[1..])[s[0]] == 0;
    }
  }

  lemma {:induction false} DistinctFromCount(s: seq<Id>)
    requires forall x :: multiset(s)[x] <= 1
    ensures NoDuplicates(s)
  {
    if s != [] {
      assert s == [s[0]] + s[1..];
      assert forall x :: multiset(s[1..])[x] <= multiset(s)[x];
      DistinctFromCount(s[1..]);
      assert multiset(s)[s[0]] == 1 + multiset(s[1..])[s[0]];
      assert s[0] !in s[1..];
      forall i, j | 0 <= i < j < |s| ensures s[i] != s[j] {
        assert s[j] == s[1..][j - 1];
      }
    }
  }

  // ---------- Cutting branches out ----------

  /** With a node the set has everything below it. */
  ghost predicate Closed(f: Forest, cut: set<Id>) {
    forall x, a :: x in f.up && a in f.up[x] && a in cut ==> x in cut
  }

  function Cut(f: Forest, cut: set<Id>): Forest {
    Forest(f.parent - cut, map p | p in f.children && p !in cut :: Without(f.children[p], cut), f.up - cut)
  }

  lemma {:induction false} CutAcyclic(f: Forest, cut: set<Id>)
    requires Acyclic(f) && Closed(f, cut)
    ensures Acyclic(Cut(f, cut))
  {
    var g := Cut(f, cut);
    forall x | x in g.up ensures Sits(g, x) {
      assert Sits(f, x);
      if x in f.parent { assert f.parent[x] in f.up[x]; }
    }
  }

  lemma {:induction false} CutLinked(f: Forest, cut: set<Id>)
    requires Linked(f)
    ensures Linked(Cut(f, cut))
  {
    var g := Cut(f, cut);
    forall p | p in g.children ensures NoDuplicates(g.children[p]) && Elements(g.children[p]) == Elements(f.children[p]) - cut {
      WithoutElements(f.children[p], cut);
    }
    forall p, c | p in g.children ensures c in g.children[p] <==> c in g.parent && g.parent[c] == p {
      assert c in g.children[p] <==> c in Elements(g.children[p]);
      assert c in Elements(f.children[p]) <==> c in f.children[p];
    }
  }

  lemma {:induction false} CutBranch(f: Forest, cut: set<Id>, m: Id)
    ensures Branch(Cut(f, cut), m) == Branch(f, m) - cut
    ensures BelowOf(Cut(f, cut), m) == BelowOf(f, m) - cut
  {
  }

  lemma {:induction false} CutTwice(f: Forest, cut: set<Id>, more: set<Id>)
    ensures Cut(Cut(f, cut), more) == Cut(f, cut + more)
  {
    var g, h := Cut(Cut(f, cut), more), Cut(f, cut + more);
    assert g.children.Keys == h.children.Keys;
    forall p | p in h.children ensures g.children[p] == h.children[p] {
      WithoutTwice(f.children[p], cut, more);
    }
  }

  lemma {:induction false} UnderBranch(f: Forest, n: Id, x: Id, a: Id)
    requires Acyclic(f) && x in f.up && a in f.up[x]
    ensures a in Branch(f, n) ==> x in Branch(f, n) && x in BelowOf(f, n)
  {
    UpTransitive(f, a, x);
  }

  lemma {:induction false} BranchClosed(f: Forest, n: Id)
    requires Acyclic(f)
    ensures Closed(f, Branch(f, n))
  {
    var cut := Branch(f, n);
    forall x, a | x in f.up && a in f.up[x] && a in cut ensures x in cut { UnderBranch(f, n, x, a); }
  }

  // ---------- What the rows keep ----------

  lemma {:induction false} AfterDistinct(rows: seq<Id>, row: Id, block: seq<Id>)
    requires NoDuplicates(rows) && NoDuplicates(block) && Elements(rows) !! Elements(block)
    ensures NoDuplicates(After(rows, row, block))
  {
    AfterElements(rows, row, block);
    if row in rows {
      var a, z := AfterSplit(rows, row, block);
      var head := a + [row];
      assert forall i :: 0 <= i < |rows| ==> rows[i] in Elements(rows);
      assert forall i :: 0 <= i < |block| ==> block[i] in Elements(block);
      assert forall i :: 0 <= i < |head| ==> rows[i] == head[i];
      assert forall i :: 0 <= i < |z| ==> rows[|head| + i] == z[i];
      DistinctConcat(head, block);
      ElementsConcat(head, block);
      ElementsConcat(head, z);
      DistinctApart(head, z);
      DistinctConcat(head + block, z);
    } else {
      AfterMissing(rows, row, block);
    }
  }

  lemma {:induction false} AfterMissing(rows: seq<Id>, row: Id, block: seq<Id>)
    requires row !in rows
    ensures After(rows, row, block) == rows
  {
    if rows != [] { AfterMissing(rows[1..], row, block); }
  }

  lemma {:induction false} DistinctConcat(s: seq<Id>, t: seq<Id>)
    requires NoDuplicates(s) && NoDuplicates(t) && Elements(s) !! Elements(t)
    ensures NoDuplicates(s + t)
  {
    forall i, j | 0 <= i < j < |s + t| ensures (s + t)[i] != (s + t)[j] {
      if i < |s| <= j { assert s[i] in Elements(s) && t[j - |s|] in Elements(t); }
    }
  }

  lemma {:induction false} DistinctApart(s: seq<Id>, t: seq<Id>)
    requires NoDuplicates(s + t)
    ensures NoDuplicates(s) && NoDuplicates(t) && Elements(s) !! Elements(t)
  {
    assert forall i :: 0 <= i < |s| ==> (s + t)[i] == s[i];
    assert forall i :: 0 <= i < |t| ==> (s + t)[|s| + i] == t[i];
  }

  lemma {:induction false} PreorderDistinct(f: Forest, n: Id)
    requires Wf(f) && n in f.children
    ensures NoDuplicates(Preorder(f, n))
    decreases Branch(f, n), 1, 0
  {
    PreorderFromDistinct(f, n, 0);
    PreorderFromElements(f, n, 0);
    AllBranches(f, n);
    BranchSplits(f, n);
    DistinctConcat([n], PreorderFrom(f, n, 0));
  }

  lemma {:induction false} PreorderFromDistinct(f: Forest, n: Id, i: nat)
    requires Wf(f) && n in f.children && i <= |f.children[n]|
    ensures NoDuplicates(PreorderFrom(f, n, i))
    decreases Branch(f, n), 0, |f.children[n]| - i
  {
    if i < |f.children[n]| {
      var c := f.children[n][i];
      ChildOf(f, n, i);
      ChildBranch(f, c);
      PreorderDistinct(f, c);
      PreorderFromDistinct(f, n, i + 1);
      PreorderElements(f, c);
      PreorderFromElements(f, n, i + 1);
      BranchesApart(f, n, i, i + 1);
      DistinctConcat(Preorder(f, c), PreorderFrom(f, n, i + 1));
    }
  }
}
