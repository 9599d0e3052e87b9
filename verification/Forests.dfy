/** The linked forest behind a tree table, its branches, their pre-order, and lists of rows. */
module Forests {

  type Id = nat

  /** Parent ids and children arrays, as the nodes hold them; `up` is the set of proper ancestors of each node. */
  datatype Forest = Forest(parent: map<Id, Id>, children: map<Id, seq<Id>>, up: map<Id, set<Id>>)

  predicate NoDuplicates(s: seq<Id>) {
    forall i, j :: 0 <= i < j < |s| ==> s[i] != s[j]
  }

  function Elements(s: seq<Id>): set<Id> {
    set x | x in s
  }

  /** The ancestors of a node are its parent and that one's ancestors; no node is its own ancestor. */
  ghost predicate Sits(f: Forest, x: Id)
    requires x in f.up
  {
    && x !in f.up[x]
    && if x in f.parent then f.parent[x] in f.up && f.up[x] == {f.parent[x]} + f.up[f.parent[x]] else f.up[x] == {}
  }

  ghost predicate Acyclic(f: Forest) {
    && f.up.Keys == f.children.Keys && f.parent.Keys <= f.children.Keys
    && forall x {:trigger Sits(f, x)} :: x in f.up ==> Sits(f, x)
  }

  /** Parent ids and children arrays agree, and no child is listed twice. */
  ghost predicate Linked(f: Forest) {
    && (forall p, c {:trigger c in f.children[p]} {:trigger f.children[p], f.parent[c]} ::
          p in f.children ==> (c in f.children[p] <==> c in f.parent && f.parent[c] == p))
    && (forall p :: p in f.children ==> NoDuplicates(f.children[p]))
  }

  ghost predicate Wf(f: Forest) {
    Acyclic(f) && Linked(f)
  }

  /** A node and its descendants. */
  function Branch(f: Forest, n: Id): set<Id> {
    set x | x in f.up && (x == n || n in f.up[x])
  }

  function BelowOf(f: Forest, n: Id): set<Id> {
    set x | x in f.up && n in f.up[x]
  }

  lemma {:induction false} UpStep(f: Forest, x: Id)
    requires Acyclic(f) && x in f.parent
    ensures f.parent[x] in f.up && x in f.up && f.up[x] == {f.parent[x]} + f.up[f.parent[x]]
    ensures f.parent[x] !in f.up[f.parent[x]] && x !in f.up[x] && x != f.parent[x]
  {
    assert Sits(f, x) && Sits(f, f.parent[x]);
  }

  lemma {:induction false} UpKnown(f: Forest, x: Id)
    requires Acyclic(f) && x in f.up
    ensures f.up[x] <= f.up.Keys
    decreases |f.up[x]|
  {
    assert Sits(f, x);
    if x in f.parent {
      var p := f.parent[x];
      UpStep(f, x);
      UpKnown(f, p);
    }
  }

  /** Ancestors of ancestors are ancestors. */
  lemma {:induction false} UpTransitive(f: Forest, a: Id, x: Id)
    requires Acyclic(f) && x in f.up && a in f.up[x]
    ensures a in f.up && f.up[a] <= f.up[x]
    decreases |f.up[x]|
  {
    assert Sits(f, x);
    var p := f.parent[x];
    UpStep(f, x);
    if a != p { UpTransitive(f, a, p); }
  }

  /** The branch of a child is a smaller part of its parent's. */
  lemma {:induction false} ChildBranch(f: Forest, c: Id)
    requires Acyclic(f) && c in f.parent
    ensures Branch(f, c) <= BelowOf(f, f.parent[c])
    ensures f.parent[c] in Branch(f, f.parent[c]) && f.parent[c] !in Branch(f, c)
    ensures Branch(f, c) < Branch(f, f.parent[c])
  {
    var n := f.parent[c];
    UpStep(f, c);
    forall x | x in Branch(f, c) ensures n in f.up[x] {
      if x != c { UpTransitive(f, c, x); }
    }
    assert Sits(f, n);
  }

  /** A node below another lies in the branch of exactly one of its children. */
  lemma {:induction false} BelowIsUnderChild(f: Forest, n: Id, x: Id) returns (c: Id)
    requires Acyclic(f) && x in BelowOf(f, n)
    ensures c in f.parent && f.parent[c] == n && x in Branch(f, c)
    decreases |f.up[x]|
  {
    assert Sits(f, x);
    var p := f.parent[x];
    UpStep(f, x);
    if p == n { c := x; } else { c := BelowIsUnderChild(f, n, p); UnderParent(f, c, p, x); }
  }

  lemma {:induction false} UnderParent(f: Forest, c: Id, p: Id, x: Id)
    requires Acyclic(f) && x in f.parent && f.parent[x] == p && p in Branch(f, c)
    ensures x in Branch(f, c)
  {
    UpStep(f, x);
  }

  lemma {:induction false} SiblingsApart(f: Forest, c: Id, d: Id)
    requires Acyclic(f) && c in f.parent && d in f.parent && f.parent[c] == f.parent[d] && c != d
    ensures Branch(f, c) !! Branch(f, d)
  {
    forall x | x in Branch(f, c) && x in Branch(f, d) ensures false {
      ApartAt(f, c, d, x);
    }
  }

  lemma {:induction false} ApartAt(f: Forest, c: Id, d: Id, x: Id)
    requires Acyclic(f) && c in f.parent && d in f.parent && f.parent[c] == f.parent[d] && c != d
    requires x in f.up
    ensures !(x in Branch(f, c) && x in Branch(f, d))
    decreases |f.up[x]|
  {
    UpStep(f, c);
    UpStep(f, d);
    assert Sits(f, x);
    if x != c && x != d && x in f.parent {
      var p := f.parent[x];
      UpStep(f, x);
      ApartAt(f, c, d, p);
    }
  }

  /** A branch is its node with the branches of the children. */
  lemma {:induction false} BranchSplits(f: Forest, n: Id)
    requires Acyclic(f) && n in f.up
    ensures Branch(f, n) == {n} + BelowOf(f, n) && n !in BelowOf(f, n)
  {
    assert Sits(f, n);
  }

  // ---------- Pre-order ----------

  /** The branches of the children of `n` from number `i` on. */
  ghost function BranchesFrom(f: Forest, n: Id, i: nat): set<Id>
    requires Wf(f) && n in f.children && i <= |f.children[n]|
    decreases |f.children[n]| - i
  {
    if i == |f.children[n]| then {} else Branch(f, f.children[n][i]) + BranchesFrom(f, n, i + 1)
  }

  lemma {:induction false} BranchesFromMember(f: Forest, n: Id, i: nat, x: Id)
    requires Wf(f) && n in f.children && i <= |f.children[n]|
    ensures x in BranchesFrom(f, n, i) <==> exists j :: i <= j < |f.children[n]| && x in Branch(f, f.children[n][j])
    decreases |f.children[n]| - i
  {
    if i < |f.children[n]| { BranchesFromMember(f, n, i + 1, x); }
  }

  lemma {:induction false} ChildOf(f: Forest, n: Id, i: nat)
    requires Wf(f) && n in f.children && i < |f.children[n]|
    ensures f.children[n][i] in f.parent && f.parent[f.children[n][i]] == n
  {
    assert f.children[n][i] in f.children[n];
  }

  lemma {:induction false} AllBranches(f: Forest, n: Id)
    requires Wf(f) && n in f.children
    ensures BranchesFrom(f, n, 0) == BelowOf(f, n)
  {
    forall x ensures x in BranchesFrom(f, n, 0) <==> x in BelowOf(f, n) {
      BranchesFromMember(f, n, 0, x);
      if x in BelowOf(f, n) {
        var c := BelowIsUnderChild(f, n, x);
        assert c in f.children[n];
      }
      if j :| 0 <= j < |f.children[n]| && x in Branch(f, f.children[n][j]) {
        ChildOf(f, n, j);
        ChildBranch(f, f.children[n][j]);
      }
    }
  }

  lemma {:induction false} ChildSmaller(f: Forest, n: Id, i: nat)
    requires Wf(f) && n in f.children && i < |f.children[n]|
    ensures f.children[n][i] in f.children && Branch(f, f.children[n][i]) < Branch(f, n)
  {
    ChildOf(f, n, i);
    ChildBranch(f, f.children[n][i]);
  }

  lemma {:induction false} ChildrenApart(f: Forest, n: Id, i: nat, j: nat)
    requires Wf(f) && n in f.children && i < j < |f.children[n]|
    ensures Branch(f, f.children[n][i]) !! Branch(f, f.children[n][j])
  {
    ChildOf(f, n, i);
    ChildOf(f, n, j);
    assert NoDuplicates(f.children[n]);
    SiblingsApart(f, f.children[n][i], f.children[n][j]);
  }

  /** The branch of child `i` has nothing in common with those of the later children. */
  lemma {:induction false} BranchesApart(f: Forest, n: Id, i: nat, j: nat)
    requires Wf(f) && n in f.children && i < j <= |f.children[n]|
    ensures Branch(f, f.children[n][i]) !! BranchesFrom(f, n, j)
    decreases |f.children[n]| - j
  {
    if j < |f.children[n]| {
      BranchesApart(f, n, i, j + 1);
      ChildrenApart(f, n, i, j);
    }
  }

  lemma {:induction false} BranchesBelow(f: Forest, n: Id, i: nat)
    requires Wf(f) && n in f.children && i <= |f.children[n]|
    ensures BranchesFrom(f, n, i) <= BelowOf(f, n)
  {
    AllBranches(f, n);
    forall x | x in BranchesFrom(f, n, i) ensures x in BelowOf(f, n) {
      BranchesFromMember(f, n, i, x);
      BranchesFromMember(f, n, 0, x);
    }
  }

  /** What lies below `n` in the branches of the children before number `i`. */
  ghost function BelowTo(f: Forest, n: Id, i: nat): set<Id>
    requires Wf(f) && n in f.children && i <= |f.children[n]|
  {
    BelowOf(f, n) - BranchesFrom(f, n, i)
  }

  lemma {:induction false} BelowToEnds(f: Forest, n: Id)
    requires Wf(f) && n in f.children
    ensures BelowTo(f, n, 0) == {} && BelowTo(f, n, |f.children[n]|) == BelowOf(f, n)
  {
    AllBranches(f, n);
  }

  lemma {:induction false} BelowToStep(f: Forest, n: Id, i: nat)
    requires Wf(f) && n in f.children && i < |f.children[n]|
    ensures
      var c := f.children[n][i];
      && c in f.parent && f.parent[c] == n && c in f.children && Branch(f, c) < Branch(f, n)
      && c !in BelowTo(f, n, i) && BelowTo(f, n, i) !! Branch(f, c)
      && BelowTo(f, n, i) + Branch(f, c) == BelowTo(f, n, i + 1)
  {
    ChildOf(f, n, i);
    ChildBranch(f, f.children[n][i]);
    BranchesBelow(f, n, i);
    BranchesApart(f, n, i, i + 1);
    assert f.children[n][i] in Branch(f, f.children[n][i]);
  }

  /** The branch of a node in pre-order: the node, then its children's branches in the order of its array. */
  ghost function Preorder(f: Forest, n: Id): seq<Id>
    requires Wf(f) && n in f.children
    decreases Branch(f, n), 1, 0
  {
    [n] + PreorderFrom(f, n, 0)
  }

  ghost function PreorderFrom(f: Forest, n: Id, i: nat): seq<Id>
    requires Wf(f) && n in f.children && i <= |f.children[n]|
    decreases Branch(f, n), 0, |f.children[n]| - i
  {
    if i == |f.children[n]| then []
    else
      ChildSmaller(f, n, i);
      Preorder(f, f.children[n][i]) + PreorderFrom(f, n, i + 1)
  }

  lemma {:induction false} PreorderElements(f: Forest, n: Id)
    requires Wf(f) && n in f.children
    ensures Elements(Preorder(f, n)) == Branch(f, n)
    decreases Branch(f, n), 1, 0
  {
    PreorderFromElements(f, n, 0);
    AllBranches(f, n);
    BranchSplits(f, n);
  }

  lemma {:induction false} PreorderFromElements(f: Forest, n: Id, i: nat)
    requires Wf(f) && n in f.children && i <= |f.children[n]|
    ensures Elements(PreorderFrom(f, n, i)) == BranchesFrom(f, n, i)
    decreases Branch(f, n), 0, |f.children[n]| - i
  {
    if i < |f.children[n]| {
      var c := f.children[n][i];
      ChildOf(f, n, i);
      ChildBranch(f, c);
      PreorderElements(f, c);
      PreorderFromElements(f, n, i + 1);
      ElementsConcat(Preorder(f, c), PreorderFrom(f, n, i + 1));
    }
  }

  lemma {:induction false} ElementsConcat(s: seq<Id>, t: seq<Id>)
    ensures Elements(s + t) == Elements(s) + Elements(t)
  {
  }

  // ---------- Rows ----------

  /** The rows that are not in the set. */
  function Without(rows: seq<Id>, cut: set<Id>): seq<Id> {
    if rows == [] then []
    else if rows[0] in cut then Without(rows[1..], cut)
    else [rows[0]] + Without(rows[1..], cut)
  }

  /** The rows with a block put directly behind a row. */
  function After(rows: seq<Id>, row: Id, block: seq<Id>): seq<Id> {
    if rows == [] then []
    else if rows[0] == row then [row] + block + rows[1..]
    else [rows[0]] + After(rows[1..], row, block)
  }

  lemma {:induction false} WithoutConcat(s: seq<Id>, t: seq<Id>, cut: set<Id>)
    ensures Without(s + t, cut) == Without(s, cut) + Without(t, cut)
  {
    if s == [] {
      assert s + t == t;
    } else {
      assert (s + t)[1..] == s[1..] + t;
      WithoutConcat(s[1..], t, cut);
    }
  }

  lemma {:induction false} WithoutMember(s: seq<Id>, cut: set<Id>, x: Id)
    ensures x in Without(s, cut) <==> x in s && x !in cut
  {
    if s != [] {
      WithoutMember(s[1..], cut, x);
      assert x in s <==> x == s[0] || x in s[1..];
    }
  }

  lemma {:induction false} WithoutForeign(s: seq<Id>, cut: set<Id>)
    requires Elements(s) !! cut
    ensures Without(s, cut) == s
  {
    if s != [] {
      assert s[0] in Elements(s) && Elements(s[1..]) <= Elements(s);
      WithoutForeign(s[1..], cut);
    }
  }

  lemma {:induction false} WithoutDistinct(s: seq<Id>, cut: set<Id>)
    requires NoDuplicates(s)
    ensures NoDuplicates(Without(s, cut))
  {
    if s != [] {
      WithoutDistinct(s[1..], cut);
      if s[0] !in cut {
        assert s[0] !in s[1..];
        WithoutMember(s[1..], cut, s[0]);
      }
    }
  }

  lemma {:induction false} WithoutElements(s: seq<Id>, cut: set<Id>)
    ensures Elements(Without(s, cut)) == Elements(s) - cut
    ensures Elements(s) !! cut ==> Without(s, cut) == s
    ensures NoDuplicates(s) ==> NoDuplicates(Without(s, cut))
  {
    forall x ensures x in Without(s, cut) <==> x in s && x !in cut { WithoutMember(s, cut, x); }
    if Elements(s) !! cut { WithoutForeign(s, cut); }
    if NoDuplicates(s) { WithoutDistinct(s, cut); }
  }

  lemma {:induction false} WithoutTwice(s: seq<Id>, cut: set<Id>, more: set<Id>)
    ensures Without(Without(s, cut), more) == Without(s, cut + more)
  {
    if s != [] { WithoutTwice(s[1..], cut, more); }
  }

  /** Cutting rows elsewhere commutes with putting a block in. */
  lemma {:induction false} WithoutAfter(s: seq<Id>, row: Id, block: seq<Id>, cut: set<Id>)
    requires row !in cut && Elements(block) !! cut
    ensures Without(After(s, row, block), cut) == After(Without(s, cut), row, block)
  {
    if s != [] {
      if s[0] == row {
        WithoutConcat([row] + block, s[1..], cut);
        WithoutElements([row] + block, cut);
        assert Elements([row] + block) == {row} + Elements(block);
      } else {
        WithoutAfter(s[1..], row, block, cut);
        assert After(s, row, block)[1..] == After(s[1..], row, block);
      }
    }
  }

  lemma {:induction false} AfterHead(row: Id, rest: seq<Id>, block: seq<Id>)
    ensures After([row] + rest, row, block) == [row] + block + rest
  {
    assert ([row] + rest)[1..] == rest;
  }

  lemma {:induction false} AfterTail(head: Id, rest: seq<Id>, row: Id, block: seq<Id>)
    requires head != row
    ensures After([head] + rest, row, block) == [head] + After(rest, row, block)
  {
    assert ([head] + rest)[1..] == rest;
  }

  /** A block put behind a row that a first block brought in. */
  lemma {:induction false} AfterAfter(s: seq<Id>, row: Id, n: Id, first: seq<Id>, second: seq<Id>)
    requires n !in s && n != row
    ensures After(After(s, row, [n] + first), n, second) == After(s, row, [n] + second + first)
  {
    if s != [] {
      var rest := s[1..];
      assert s == [s[0]] + rest;
      if s[0] == row {
        AfterHead(row, rest, [n] + first);
        AfterHead(row, rest, [n] + second + first);
        assert [row] + ([n] + first) + rest == [row] + ([n] + (first + rest));
        AfterTail(row, [n] + (first + rest), n, second);
        AfterHead(n, first + rest, second);
        assert [row] + ([n] + second + (first + rest)) == [row] + ([n] + second + first) + rest;
      } else {
        AfterTail(s[0], rest, row, [n] + first);
        AfterTail(s[0], rest, row, [n] + second + first);
        AfterTail(s[0], After(rest, row, [n] + first), n, second);
        AfterAfter(rest, row, n, first, second);
      }
    }
  }

  /** A block put behind the same row as a first block comes before it. */
  lemma {:induction false} AfterSame(s: seq<Id>, row: Id, first: seq<Id>, second: seq<Id>)
    ensures After(After(s, row, first), row, second) == After(s, row, second + first)
  {
    if s != [] {
      var rest := s[1..];
      assert s == [s[0]] + rest;
      if s[0] == row {
        AfterHead(row, rest, first);
        AfterHead(row, rest, second + first);
        assert [row] + first + rest == [row] + (first + rest);
        AfterHead(row, first + rest, second);
        assert [row] + second + (first + rest) == [row] + (second + first) + rest;
      } else {
        AfterTail(s[0], rest, row, first);
        AfterTail(s[0], rest, row, second + first);
        AfterTail(s[0], After(rest, row, first), row, second);
        AfterSame(rest, row, first, second);
      }
    }
  }

  lemma {:induction false} AfterNothing(s: seq<Id>, row: Id)
    ensures After(s, row, []) == s
  {
    if s != [] { AfterNothing(s[1..], row); }
  }
}
