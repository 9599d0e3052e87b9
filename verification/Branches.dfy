/** Moving, sorting and cutting branches of a forest, and what this does to the rows of the table. */
module Branches {
  import opened Forests

  // ---------- Blocks of rows ----------

  ghost predicate Splits(rows: seq<Id>, members: set<Id>, head: Id, x: seq<Id>, y: seq<Id>, z: seq<Id>) {
    && rows == x + y + z && y != [] && y[0] == head
    && Elements(y) == members && Elements(x) !! members && Elements(z) !! members
  }

  /** The members are one contiguous block of rows, headed by the given one. */
  ghost predicate Block(rows: seq<Id>, members: set<Id>, head: Id) {
    exists x, y, z :: Splits(rows, members, head, x, y, z)
  }

  /** Every branch is one block headed by its own row. */
  ghost predicate Contiguous(f: Forest, rows: seq<Id>) {
    forall m :: m in f.up ==> Block(rows, Branch(f, m), m)
  }

  lemma {:induction false} WithoutBlock(rows: seq<Id>, members: set<Id>, head: Id, cut: set<Id>)
    requires Block(rows, members, head) && head !in cut
    ensures Block(Without(rows, cut), members - cut, head)
  {
    var x, y, z :| Splits(rows, members, head, x, y, z);
    WithoutConcat(x + y, z, cut);
    WithoutConcat(x, y, cut);
    WithoutElements(x, cut);
    WithoutElements(y, cut);
    WithoutElements(z, cut);
    assert Splits(Without(rows, cut), members - cut, head, Without(x, cut), Without(y, cut), Without(z, cut));
  }

  lemma {:induction false} AfterFirst(s: seq<Id>, t: seq<Id>, row: Id, block: seq<Id>)
    requires row in s
    ensures After(s + t, row, block) == After(s, row, block) + t
  {
    var rest := s[1..];
    assert s == [s[0]] + rest && s + t == [s[0]] + (rest + t);
    if s[0] == row {
      AfterHead(row, rest + t, block);
      AfterHead(row, rest, block);
      assert [row] + block + (rest + t) == [row] + block + rest + t;
    } else {
      AfterTail(s[0], rest + t, row, block);
      AfterTail(s[0], rest, row, block);
      AfterFirst(rest, t, row, block);
      assert [s[0]] + (After(rest, row, block) + t) == [s[0]] + After(rest, row, block) + t;
    }
  }

  lemma {:induction false} AfterSecond(s: seq<Id>, t: seq<Id>, row: Id, block: seq<Id>)
    requires row !in s
    ensures After(s + t, row, block) == s + After(t, row, block)
  {
    if s == [] {
      assert s + t == t;
    } else {
      var rest := s[1..];
      assert s == [s[0]] + rest && s + t == [s[0]] + (rest + t);
      AfterTail(s[0], rest + t, row, block);
      AfterSecond(rest, t, row, block);
      assert [s[0]] + (rest + After(t, row, block)) == s + After(t, row, block);
    }
  }

  lemma {:induction false} AfterConcat(s: seq<Id>, t: seq<Id>, row: Id, block: seq<Id>)
    ensures After(s + t, row, block) == if row in s then After(s, row, block) + t else s + After(t, row, block)
  {
    if row in s { AfterFirst(s, t, row, block); } else { AfterSecond(s, t, row, block); }
  }

  lemma {:induction false} AfterElements(s: seq<Id>, row: Id, block: seq<Id>)
    ensures Elements(After(s, row, block)) == if row in s then Elements(s) + Elements(block) else Elements(s)
    ensures s != [] ==> After(s, row, block) != [] && After(s, row, block)[0] == s[0]
  {
    if s != [] {
      AfterElements(s[1..], row, block);
      assert Elements(s) == {s[0]} + Elements(s[1..]);
      if s[0] == row {
        ElementsConcat([row] + block, s[1..]);
        ElementsConcat([row], block);
      } else {
        ElementsConcat([s[0]], After(s[1..], row, block));
      }
    }
  }

  /** A block put behind a row becomes part of every block that has the row, and stays out of the others. */
  lemma {:induction false} AfterBlock(rows: seq<Id>, members: set<Id>, head: Id, row: Id, block: seq<Id>)
    requires Block(rows, members, head) && row in rows && Elements(block) !! Elements(rows)
    ensures Block(After(rows, row, block), if row in members then members + Elements(block) else members, head)
  {
    var x, y, z :| Splits(rows, members, head, x, y, z);
    AfterConcat(x + y, z, row, block);
    AfterConcat(x, y, row, block);
    AfterElements(x, row, block);
    AfterElements(y, row, block);
    AfterElements(z, row, block);
    ElementsConcat(x + y, z);
    ElementsConcat(x, y);
    if row in members {
      assert row !in Elements(x) && row in Elements(y);
      assert Splits(After(rows, row, block), members + Elements(block), head, x, After(y, row, block), z);
    } else if row in x {
      assert Splits(After(rows, row, block), members, head, After(x, row, block), y, z);
    } else {
      assert row !in y by { assert row !in Elements(y); }
      assert After(x + y + z, row, block) == x + y + After(z, row, block);
      assert Splits(After(rows, row, block), members, head, x, y, After(z, row, block));
    }
  }

  lemma {:induction false} AfterSplit(rows: seq<Id>, row: Id, block: seq<Id>) returns (a: seq<Id>, z: seq<Id>)
    requires row in rows
    ensures rows == a + [row] + z && After(rows, row, block) == a + [row] + block + z
  {
    if rows[0] == row {
      a, z := [], rows[1..];
    } else {
      a, z := AfterSplit(rows[1..], row, block);
      a := [rows[0]] + a;
    }
  }

  /** The blocks within the block put in stay blocks. */
  lemma {:induction false} AfterOwnBlock(rows: seq<Id>, row: Id, block: seq<Id>, members: set<Id>, head: Id)
    requires row in rows && Block(block, members, head) && Elements(rows) !! members
    ensures Block(After(rows, row, block), members, head)
  {
    var a, b := AfterSplit(rows, row, block);
    var x, y, z :| Splits(block, members, head, x, y, z);
    ElementsConcat(a + [row], b);
    ElementsConcat(a + [row], x);
    ElementsConcat(z, b);
    assert After(rows, row, block) == (a + [row] + x) + y + (z + b);
    assert Splits(After(rows, row, block), members, head, a + [row] + x, y, z + b);
  }

  lemma {:induction false} BlockFirst(s: seq<Id>, t: seq<Id>, members: set<Id>, head: Id)
    requires Block(s, members, head) && Elements(t) !! members
    ensures Block(s + t, members, head)
  {
    var x, y, z :| Splits(s, members, head, x, y, z);
    ElementsConcat(z, t);
    assert s + t == x + y + (z + t);
    assert Splits(s + t, members, head, x, y, z + t);
  }

  lemma {:induction false} BlockLast(s: seq<Id>, t: seq<Id>, members: set<Id>, head: Id)
    requires Block(t, members, head) && Elements(s) !! members
    ensures Block(s + t, members, head)
  {
    var x, y, z :| Splits(t, members, head, x, y, z);
    ElementsConcat(s, x);
    assert s + t == (s + x) + y + z;
    assert Splits(s + t, members, head, s + x, y, z);
  }

  lemma {:induction false} SubBranch(f: Forest, n: Id, m: Id)
    requires Acyclic(f) && m in Branch(f, n)
    ensures Branch(f, m) <= Branch(f, n)
  {
    forall x | x in Branch(f, m) ensures x in Branch(f, n) {
      if x != m { UpTransitive(f, m, x); }
    }
  }

  /** In the pre-order of a branch every branch within it is a block. */
  lemma {:induction false} PreorderBlock(f: Forest, n: Id, m: Id)
    requires Wf(f) && n in f.children && m in Branch(f, n)
    ensures Block(Preorder(f, n), Branch(f, m), m)
    decreases Branch(f, n), 1, 0
  {
    PreorderElements(f, n);
    if m == n {
      assert Preorder(f, n) == [] + Preorder(f, n) + [];
      assert Splits(Preorder(f, n), Branch(f, n), n, [], Preorder(f, n), []);
    } else {
      AllBranches(f, n);
      BranchSplits(f, n);
      PreorderFromBlock(f, n, 0, m);
      var c := BelowIsUnderChild(f, n, m);
      SubBranch(f, c, m);
      ChildBranch(f, c);
      BlockLast([n], PreorderFrom(f, n, 0), Branch(f, m), m);
    }
  }

  lemma {:induction false} PreorderFromBlock(f: Forest, n: Id, i: nat, m: Id)
    requires Wf(f) && n in f.children && i <= |f.children[n]| && m in BranchesFrom(f, n, i)
    ensures Block(PreorderFrom(f, n, i), Branch(f, m), m)
    decreases Branch(f, n), 0, |f.children[n]| - i
  {
    var c := f.children[n][i];
    ChildOf(f, n, i);
    ChildBranch(f, c);
    if m in Branch(f, c) {
      PreorderBlock(f, c, m);
      FirstApart(f, n, i, m);
      BlockFirst(Preorder(f, c), PreorderFrom(f, n, i + 1), Branch(f, m), m);
    } else {
      PreorderFromBlock(f, n, i + 1, m);
      LaterApart(f, n, i, m);
      BlockLast(Preorder(f, c), PreorderFrom(f, n, i + 1), Branch(f, m), m);
    }
  }

  lemma {:induction false} FirstApart(f: Forest, n: Id, i: nat, m: Id)
    requires Wf(f) && n in f.children && i < |f.children[n]| && m in Branch(f, f.children[n][i])
    ensures Elements(PreorderFrom(f, n, i + 1)) !! Branch(f, m)
  {
    SubBranch(f, f.children[n][i], m);
    BranchesApart(f, n, i, i + 1);
    PreorderFromElements(f, n, i + 1);
  }

  lemma {:induction false} LaterApart(f: Forest, n: Id, i: nat, m: Id)
    requires Wf(f) && n in f.children && i < |f.children[n]| && m in BranchesFrom(f, n, i + 1)
    requires f.children[n][i] in f.children
    ensures Elements(Preorder(f, f.children[n][i])) !! Branch(f, m)
  {
    PreorderElements(f, f.children[n][i]);
    BranchesFromMember(f, n, i + 1, m);
    var j :| i + 1 <= j < |f.children[n]| && m in Branch(f, f.children[n][j]);
    SubBranch(f, f.children[n][j], m);
    ChildrenApart(f, n, i, j);
  }
}
