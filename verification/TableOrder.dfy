/** The order of the rows: after loading, the pre-order of every branch is its stretch of the table. */
module TableOrders {
  import opened Common
  import opened Forests
  import opened Branches
  import opened Surgery
  import opened TableRows
  import opened TableLoads

  /** The rows that are in the set, in their order. */
  function Among(rows: seq<Id>, part: set<Id>): seq<Id> {
    if rows == [] then []
    else if rows[0] in part then [rows[0]] + Among(rows[1..], part)
    else Among(rows[1..], part)
  }

  lemma {:induction false} AmongConcat(s: seq<Id>, t: seq<Id>, part: set<Id>)
    ensures Among(s + t, part) == Among(s, part) + Among(t, part)
  {
    if s == [] {
      assert s + t == t;
    } else {
      assert (s + t)[1..] == s[1..] + t;
      AmongConcat(s[1..], t, part);
    }
  }

  lemma {:induction false} AmongEnds(s: seq<Id>, part: set<Id>)
    ensures Elements(s) <= part ==> Among(s, part) == s
    ensures Elements(s) !! part ==> Among(s, part) == []
  {
    if s != [] {
      assert s[0] in Elements(s) && Elements(s[1..]) <= Elements(s);
      AmongEnds(s[1..], part);
    }
  }

  // ---------- Pre-orders of two forests ----------

  /** The forests have the same children arrays in the set. */
  ghost predicate SameKids(f: Forest, g: Forest, part: set<Id>) {
    forall x :: x in part ==> x in f.children && x in g.children && f.children[x] == g.children[x]
  }

  lemma {:induction false} PreorderSame(f: Forest, g: Forest, n: Id)
    requires Wf(f) && Wf(g) && n in f.children && SameKids(f, g, Branch(f, n))
    ensures n in g.children && Preorder(g, n) == Preorder(f, n)
    decreases Branch(f, n), 1, 0
  {
    assert n in Branch(f, n);
    PreorderFromSame(f, g, n, 0);
  }

  lemma {:induction false} PreorderFromSame(f: Forest, g: Forest, n: Id, i: nat)
    requires Wf(f) && Wf(g) && n in f.children && i <= |f.children[n]| && SameKids(f, g, Branch(f, n))
    ensures n in g.children && g.children[n] == f.children[n] && PreorderFrom(g, n, i) == PreorderFrom(f, n, i)
    decreases Branch(f, n), 0, |f.children[n]| - i
  {
    assert n in Branch(f, n);
    if i < |f.children[n]| {
      ChildSmaller(f, n, i);
      PreorderSame(f, g, f.children[n][i]);
      PreorderFromSame(f, g, n, i + 1);
    }
  }

  // ---------- One row more ----------

  /** `g` is `f` with one more child, the last one, of node `p`. */
  ghost predicate Extends(f: Forest, g: Forest, p: Id, id: Id) {
    && Wf(f) && Wf(g) && p in f.children && id !in f.children && p in g.children && id in g.children
    && g.children[p] == f.children[p] + [id] && g.children[id] == []
    && forall x :: x in f.children && x != p ==> x in g.children && g.children[x] == f.children[x]
  }

  lemma {:induction false} ApartSame(f: Forest, g: Forest, p: Id, id: Id, n: Id)
    requires Extends(f, g, p, id) && n in f.children && p !in Branch(f, n)
    ensures n in g.children && Preorder(g, n) == Preorder(f, n)
  {
    PreorderSame(f, g, n);
  }

  lemma {:induction false} NewAlone(g: Forest, id: Id)
    requires Wf(g) && id in g.children && g.children[id] == []
    ensures Preorder(g, id) == [id]
  {
    assert PreorderFrom(g, id, 0) == [];
  }

  lemma {:induction false} ParentExtended(f: Forest, g: Forest, p: Id, id: Id, i: nat)
    requires Extends(f, g, p, id) && i <= |f.children[p]|
    ensures PreorderFrom(g, p, i) == PreorderFrom(f, p, i) + [id]
    decreases |f.children[p]| - i
  {
    if i == |f.children[p]| {
      NewAlone(g, id);
      assert g.children[p][i] == id && PreorderFrom(g, p, i + 1) == [];
      assert PreorderFrom(g, p, i) == [id] + [];
    } else {
      var c := f.children[p][i];
      ChildSmaller(f, p, i);
      ChildOf(f, p, i);
      ChildBranch(f, c);
      ApartSame(f, g, p, id, c);
      ParentExtended(f, g, p, id, i + 1);
      assert Preorder(f, c) + (PreorderFrom(f, p, i + 1) + [id]) == Preorder(f, c) + PreorderFrom(f, p, i + 1) + [id];
    }
  }

  /** The last child's pre-order has got the new row at its end, and so has the node's. */
  lemma {:induction false} AboveExtended(f: Forest, g: Forest, p: Id, id: Id, m: Id, i: nat)
    requires Extends(f, g, p, id) && m in f.children && m != p && i < |f.children[m]|
    requires var last := f.children[m][|f.children[m]| - 1];
             && last in f.children && last in g.children && p in Branch(f, last)
             && Preorder(g, last) == Preorder(f, last) + [id]
    ensures PreorderFrom(g, m, i) == PreorderFrom(f, m, i) + [id]
    decreases |f.children[m]| - i
  {
    var n, c := |f.children[m]|, f.children[m][i];
    ChildSmaller(f, m, i);
    if i == n - 1 {
      assert PreorderFrom(g, m, n) == [] && PreorderFrom(f, m, n) == [];
      assert Preorder(f, c) + [id] + [] == Preorder(f, c) + [] + [id];
    } else {
      ChildrenApart(f, m, i, n - 1);
      ApartSame(f, g, p, id, c);
      AboveExtended(f, g, p, id, m, i + 1);
      assert Preorder(f, c) + (PreorderFrom(f, m, i + 1) + [id]) == Preorder(f, c) + PreorderFrom(f, m, i + 1) + [id];
    }
  }

  // ---------- The table ----------

  /** The pre-order of the branch ends the rows. */
  ghost predicate Ends(f: Forest, rows: seq<Id>, m: Id)
    requires Wf(f) && m in f.children
  {
    exists x :: rows == x + Preorder(f, m)
  }

  /** The pre-order of the branch is a stretch of the rows. */
  ghost predicate Stands(f: Forest, rows: seq<Id>, m: Id)
    requires Wf(f) && m in f.children
  {
    exists x, z :: rows == x + Preorder(f, m) + z
  }

  /** Each node of the trail has the next one as its last child, and its branch ends the table. */
  ghost predicate LastOnes(f: Forest, trail: seq<Id>, rows: seq<Id>) {
    Wf(f) && forall i :: 0 <= i < |trail| ==> LastAt(f, trail, rows, i)
  }

  ghost predicate LastAt(f: Forest, trail: seq<Id>, rows: seq<Id>, i: nat)
    requires Wf(f) && i < |trail|
  {
    && trail[i] in f.children && Ends(f, rows, trail[i])
    && (i + 1 < |trail| ==> f.children[trail[i]] != [] && f.children[trail[i]][|f.children[trail[i]]| - 1] == trail[i + 1])
  }

  ghost predicate AllStand(f: Forest, rows: seq<Id>) {
    Wf(f) && forall m :: m in f.children ==> Stands(f, rows, m)
  }

  lemma {:induction false} MoreStands(f: Forest, g: Forest, rows: seq<Id>, m: Id, id: Id)
    requires Wf(f) && Wf(g) && m in f.children && m in g.children && Stands(f, rows, m) && Preorder(g, m) == Preorder(f, m)
    ensures Stands(g, rows + [id], m)
  {
    var x, z :| rows == x + Preorder(f, m) + z;
    assert rows + [id] == x + Preorder(g, m) + (z + [id]);
  }

  lemma {:induction false} MoreEnds(f: Forest, g: Forest, rows: seq<Id>, m: Id, id: Id)
    requires Wf(f) && Wf(g) && m in f.children && m in g.children && Ends(f, rows, m) && Preorder(g, m) == Preorder(f, m) + [id]
    ensures Ends(g, rows + [id], m) && Stands(g, rows + [id], m)
  {
    var x :| rows == x + Preorder(f, m);
    assert rows + [id] == x + Preorder(g, m);
    assert rows + [id] == x + Preorder(g, m) + [];
  }

  lemma {:induction false} NewEnds(g: Forest, rows: seq<Id>, id: Id)
    requires Wf(g) && id in g.children && g.children[id] == []
    ensures Ends(g, rows + [id], id) && Stands(g, rows + [id], id)
  {
    NewAlone(g, id);
    assert rows + [id] == rows + Preorder(g, id);
    assert rows + [id] == rows + Preorder(g, id) + [];
  }

  /** Everything on the trail down to the parent gets the new row at the end of its pre-order. */
  lemma {:induction false} TrailExtended(f: Forest, g: Forest, trail: seq<Id>, rows: seq<Id>, p: Id, id: Id, j: nat, i: nat)
    requires Extends(f, g, p, id) && LastOnes(f, trail, rows) && i <= j < |trail| && trail[j] == p
    ensures trail[i] in f.children && trail[i] in g.children && p in Branch(f, trail[i])
    ensures Preorder(g, trail[i]) == Preorder(f, trail[i]) + [id]
    decreases j - i
  {
    assert LastAt(f, trail, rows, i);
    var m := trail[i];
    if i == j {
      ParentExtended(f, g, p, id, 0);
      assert [p] + (PreorderFrom(f, p, 0) + [id]) == [p] + PreorderFrom(f, p, 0) + [id];
    } else {
      TrailExtended(f, g, trail, rows, p, id, j, i + 1);
      var last := |f.children[m]| - 1;
      ChildOf(f, m, last);
      ChildBranch(f, trail[i + 1]);
      assert m != p;
      AboveExtended(f, g, p, id, m, 0);
      assert [m] + (PreorderFrom(f, m, 0) + [id]) == [m] + PreorderFrom(f, m, 0) + [id];
    }
  }

  /** Whatever has the parent in its branch is on the trail. */
  lemma {:induction false} OnTrailAbove(f: Forest, trail: seq<Id>, rows: seq<Id>, j: nat, m: Id) returns (i: nat)
    requires Acyclic(f) && TrailOk(f, trail, rows) && j < |trail| && m in f.up && trail[j] in Branch(f, m)
    ensures i <= j && trail[i] == m
  {
    assert TrailOkAt(f, trail, rows, j);
    if m == trail[j] {
      i := j;
    } else {
      assert m in Elements(trail[..j]);
      i :| 0 <= i < j && trail[..j][i] == m;
    }
  }

  lemma {:induction false} TrailStill(f: Forest, g: Forest, trail: seq<Id>, rows: seq<Id>, p: Id, id: Id, j: nat)
    requires Extends(f, g, p, id) && TrailOk(f, trail, rows) && LastOnes(f, trail, rows) && j < |trail| && trail[j] == p
    ensures LastOnes(g, trail[..j + 1] + [id], rows + [id])
  {
    NewEnds(g, rows, id);
    var longer := trail[..j + 1] + [id];
    forall i | 0 <= i < |longer| ensures LastAt(g, longer, rows + [id], i) {
      if i <= j {
        assert LastAt(f, trail, rows, i);
        TrailExtended(f, g, trail, rows, p, id, j, i);
        MoreEnds(f, g, rows, trail[i], id);
        if i < j { NotTheParent(f, trail, rows, i, j); }
      }
    }
  }

  lemma {:induction false} StandsStill(f: Forest, g: Forest, trail: seq<Id>, rows: seq<Id>, p: Id, id: Id, j: nat, m: Id)
    requires Extends(f, g, p, id) && TrailOk(f, trail, rows) && LastOnes(f, trail, rows) && j < |trail| && trail[j] == p
    requires m in f.children && Stands(f, rows, m)
    ensures m in g.children && Stands(g, rows + [id], m)
  {
    if p in Branch(f, m) {
      var i := OnTrailAbove(f, trail, rows, j, m);
      assert LastAt(f, trail, rows, i);
      TrailExtended(f, g, trail, rows, p, id, j, i);
      MoreEnds(f, g, rows, m, id);
    } else {
      ApartSame(f, g, p, id, m);
      MoreStands(f, g, rows, m, id);
    }
  }

  lemma {:induction false} GrownUnder(f: Forest, trail: seq<Id>, rows: seq<Id>, row: Row, j: nat)
    requires Wf(f) && row.id !in f.up && j < |trail| && row.parent == Some(trail[j])
    requires TrailOk(f, trail, rows) && LastOnes(f, trail, rows) && AllStand(f, rows)
    ensures LastOnes(Grown(f, row), trail[..j + 1] + [row.id], rows + [row.id])
    ensures AllStand(Grown(f, row), rows + [row.id])
  {
    var g, p, id := Grown(f, row), trail[j], row.id;
    assert LastAt(f, trail, rows, j);
    GrownWf(f, row);
    assert Extends(f, g, p, id);
    TrailStill(f, g, trail, rows, p, id, j);
    NewEnds(g, rows, id);
    forall m | m in g.children ensures Stands(g, rows + [id], m) {
      if m != id { StandsStill(f, g, trail, rows, p, id, j, m); }
    }
  }

  lemma {:induction false} NotTheParent(f: Forest, trail: seq<Id>, rows: seq<Id>, i: nat, j: nat)
    requires Acyclic(f) && TrailOk(f, trail, rows) && i < j < |trail|
    ensures trail[i] != trail[j]
  {
    assert TrailOkAt(f, trail, rows, j);
    assert trail[..j][i] == trail[i];
    assert Sits(f, trail[j]);
  }

  lemma {:induction false} GrownRoot(f: Forest, rows: seq<Id>, row: Row)
    requires Wf(f) && row.id !in f.up && row.parent.None? && AllStand(f, rows)
    ensures LastOnes(Grown(f, row), [row.id], rows + [row.id]) && AllStand(Grown(f, row), rows + [row.id])
  {
    var g := Grown(f, row);
    GrownWf(f, row);
    NewEnds(g, rows, row.id);
    assert LastAt(g, [row.id], rows + [row.id], 0);
    forall m | m in g.children ensures Stands(g, rows + [row.id], m) {
      if m != row.id {
        PreorderSame(f, g, m);
        MoreStands(f, g, rows, m, row.id);
      }
    }
  }

  lemma {:induction false} LoadedStands(input: seq<Row>)
    requires PreOrdered(input)
    ensures LastOnes(Loaded(input), Trail(input), Ids(input)) && AllStand(Loaded(input), Ids(input))
  {
    if input != [] {
      var before, row := input[..|input| - 1], input[|input| - 1];
      PreOrderedPrefix(input);
      LoadedInStep(before);
      LoadedStands(before);
      ListsEach(Ids(before), Loaded(before).up.Keys);
      if row.parent.None? {
        GrownRoot(Loaded(before), Ids(before), row);
        assert [] + [row.id] == [row.id];
      } else {
        var j := UptoIndex(Trail(before), row.parent.value);
        GrownUnder(Loaded(before), Trail(before), Ids(before), row, j);
      }
    }
  }

  lemma {:induction false} AllLoaded(input: seq<Row>)
    requires PreOrdered(input)
    ensures TableInStep(Table(Loaded(input), Ids(input), Ids(input))) && AllStand(Loaded(input), Ids(input))
  {
    LoadedInStep(input);
    LoadedStands(input);
  }

  /** For a table in pre-order, the pre-order of every loaded branch is its stretch of the table, in table order. */
  lemma LoadedOrder(input: seq<Row>, m: Id)
    requires PreOrdered(input) && m in Loaded(input).up
    ensures Wf(Loaded(input)) && m in Loaded(input).children
    ensures Preorder(Loaded(input), m) == Among(Ids(input), Branch(Loaded(input), m))
    ensures Stands(Loaded(input), Ids(input), m)
  {
    LoadedInStep(input);
    LoadedStands(input);
    ListsEach(Ids(input), Loaded(input).up.Keys);
    StretchIsAmong(Loaded(input), Ids(input), m);
  }

  lemma {:induction false} StretchIsAmong(f: Forest, rows: seq<Id>, m: Id)
    requires Wf(f) && m in f.children && NoDuplicates(rows) && Stands(f, rows, m)
    ensures Preorder(f, m) == Among(rows, Branch(f, m))
  {
    var x, z :| rows == x + Preorder(f, m) + z;
    PreorderElements(f, m);
    DistinctApart(x + Preorder(f, m), z);
    DistinctApart(x, Preorder(f, m));
    ElementsConcat(x, Preorder(f, m));
    BlockAmong(x, Preorder(f, m), z, Branch(f, m));
  }

  // ---------- Moves ----------

  /** A move puts the branch last among its new siblings and leaves the order of all other siblings. */
  lemma {:induction false} MovedOrder(f: Forest, n: Id, dest: Id)
    requires Wf(f) && n in f.up && dest in f.up && dest !in Branch(f, n)
    ensures var g := Moved(f, n, dest);
            && dest in g.children && g.children[dest] != [] && g.children[dest][|g.children[dest]| - 1] == n
            && forall p :: p in f.children ==> p in g.children && Without(g.children[p], {n}) == Without(f.children[p], {n})
  {
    var g := Moved(f, n, dest);
    forall p | p in f.children ensures p in g.children && Without(g.children[p], {n}) == Without(f.children[p], {n}) {
      var d := Detached(f.children, f.parent, n);
      WithoutTwice(f.children[p], {n}, {n});
      assert {n} + {n} == {n};
      assert Without(d[p], {n}) == Without(f.children[p], {n});
      if p == dest {
        WithoutConcat(d[p], [n], {n});
        assert Without([n], {n}) == [];
      }
    }
  }

  /** A move leaves the rows outside the branch in their order, and puts the branch into the pre-order it had. */
  lemma {:induction false} MovedRowOrder(f: Forest, nodes: seq<Id>, rows: seq<Id>, n: Id, dest: Id)
    requires InStep(f, nodes, rows) && n in f.up && dest in f.up && dest !in Branch(f, n)
    ensures Wf(Moved(f, n, dest))
    ensures var rows' := MovedRows(Moved(f, n, dest), rows, n, dest);
            && Without(rows', Branch(f, n)) == Without(rows, Branch(f, n))
            && Among(rows', Branch(f, n)) == Preorder(f, n)
  {
    var g, cut := Moved(f, n, dest), Branch(f, n);
    MovedWf(f, n, dest);
    MovedInside(f, n, dest);
    PreorderSame(f, g, n);
    PreorderElements(f, n);
    MovedBranch(f, n, dest, n);
    ListsEach(rows, f.up.Keys);
    var rest := Without(rows, cut);
    WithoutElements(rows, cut);
    assert dest in Elements(rest);
    var a, z := AfterSplit(rest, dest, Preorder(f, n));
    ElementsConcat(a + [dest], z);
    BlockAlone(a + [dest], Preorder(f, n), z, cut);
    BlockAmong(a + [dest], Preorder(f, n), z, cut);
    assert rest == a + [dest] + z;
  }

  lemma {:induction false} WithoutAll(s: seq<Id>, cut: set<Id>)
    requires Elements(s) <= cut
    ensures Without(s, cut) == []
  {
    if s != [] {
      assert s[0] in Elements(s) && Elements(s[1..]) <= Elements(s);
      WithoutAll(s[1..], cut);
    }
  }

  lemma {:induction false} BlockAlone(a: seq<Id>, block: seq<Id>, z: seq<Id>, part: set<Id>)
    requires Elements(block) == part && Elements(a) !! part && Elements(z) !! part
    ensures Without(a + block + z, part) == a + z
  {
    WithoutThree(a, block, z, part);
    WithoutElements(a, part);
    WithoutElements(z, part);
    WithoutAll(block, part);
    assert a + [] + z == a + z;
  }

  lemma {:induction false} WithoutThree(a: seq<Id>, b: seq<Id>, c: seq<Id>, part: set<Id>)
    ensures Without(a + b + c, part) == Without(a, part) + Without(b, part) + Without(c, part)
  {
    WithoutConcat(a + b, c, part);
    WithoutConcat(a, b, part);
  }

  lemma {:induction false} BlockAmong(a: seq<Id>, block: seq<Id>, z: seq<Id>, part: set<Id>)
    requires Elements(block) == part && Elements(a) !! part && Elements(z) !! part
    ensures Among(a + block + z, part) == block
  {
    AmongConcat(a + block, z, part);
    AmongConcat(a, block, part);
    AmongEnds(a, part);
    AmongEnds(block, part);
    AmongEnds(z, part);
    assert [] + block + [] == block;
  }

  lemma {:induction false} MovedInside(f: Forest, n: Id, dest: Id)
    requires Wf(f) && n in f.up && dest in f.up && dest !in Branch(f, n)
    ensures SameKids(f, Moved(f, n, dest), Branch(f, n))
  {
    if n in f.parent { ChildBranch(f, n); }
  }

  /** The first move after loading keeps the order of the table's rows, inside the branch and outside of it. */
  lemma FirstMoveKeepsOrder(input: seq<Row>, n: Id, dest: Id)
    requires PreOrdered(input) && n in Loaded(input).up && dest in Loaded(input).up && dest !in Branch(Loaded(input), n)
    ensures Wf(Loaded(input)) && Wf(Moved(Loaded(input), n, dest))
    ensures var branch := Branch(Loaded(input), n);
            var rows := MovedRows(Moved(Loaded(input), n, dest), Ids(input), n, dest);
            && Among(rows, branch) == Among(Ids(input), branch)
            && Without(rows, branch) == Without(Ids(input), branch)
  {
    LoadedInStep(input);
    LoadedOrder(input, n);
    MovedRowOrder(Loaded(input), Ids(input), Ids(input), n, dest);
  }

  // ---------- What the operations do, in so many words ----------

  /** The block has been taken out of the rows and put directly behind a row. */
  ghost predicate PutBehind(rows: seq<Id>, rows': seq<Id>, part: set<Id>, row: Id, block: seq<Id>) {
    exists a, z :: Without(rows, part) == a + [row] + z && rows' == a + [row] + block + z
  }

  /** Only the moved node has another parent, it is the last child there, and its branch stands behind the parent's row. */
  ghost predicate MovedAsAsked(f: Forest, rows: seq<Id>, g: Forest, rows': seq<Id>, n: Id, dest: Id)
    requires Wf(f) && n in f.children
  {
    && g.up.Keys == f.up.Keys && n in g.parent && g.parent[n] == dest
    && (forall x :: x != n ==> (x in g.parent <==> x in f.parent) && (x in f.parent ==> g.parent[x] == f.parent[x]))
    && dest in g.children && g.children[dest] != [] && g.children[dest][|g.children[dest]| - 1] == n
    && (forall p :: p in f.children ==> p in g.children && Without(g.children[p], {n}) == Without(f.children[p], {n}))
    && PutBehind(rows, rows', Branch(f, n), dest, Preorder(f, n))
  }

  /** A move is made unless the destination is in the node's own branch, or its parent already. */
  predicate MoveAllowed(f: Forest, n: Id, dest: Id) {
    n in f.up && dest in f.up && dest !in Branch(f, n) && !(n in f.parent && f.parent[n] == dest)
  }

  lemma {:induction false} MoveDone(t: Table, n: Id, dest: Id)
    requires TableInStep(t) && n in t.forest.up && dest in t.forest.up
    ensures var t' := Applied(t, Op.Move(n, dest));
            t'.nodes == t.nodes &&
            if MoveAllowed(t.forest, n, dest) then MovedAsAsked(t.forest, t.rows, t'.forest, t'.rows, n, dest) else t' == t
  {
    if MoveAllowed(t.forest, n, dest) {
      MovedOrder(t.forest, n, dest);
      MovedSame(t.forest, n, dest);
      MovedPut(t.forest, t.nodes, t.rows, n, dest);
    }
  }

  lemma {:induction false} MovedPut(f: Forest, nodes: seq<Id>, rows: seq<Id>, n: Id, dest: Id)
    requires InStep(f, nodes, rows) && n in f.up && dest in f.up && dest !in Branch(f, n)
    ensures Wf(Moved(f, n, dest))
    ensures PutBehind(rows, MovedRows(Moved(f, n, dest), rows, n, dest), Branch(f, n), dest, Preorder(f, n))
  {
    var g := Moved(f, n, dest);
    MovedWf(f, n, dest);
    MovedInside(f, n, dest);
    PreorderSame(f, g, n);
    MovedBranch(f, n, dest, n);
    ListsEach(rows, f.up.Keys);
    WithoutElements(rows, Branch(f, n));
    assert dest in Elements(Without(rows, Branch(f, n)));
    var a, z := AfterSplit(Without(rows, Branch(f, n)), dest, Preorder(f, n));
  }

  /** The children come in their new order, and so do their branches behind the node's row; nothing else changes. */
  ghost predicate SortedAsAsked(f: Forest, rows: seq<Id>, g: Forest, rows': seq<Id>, n: Id, sorted: seq<Id>)
    requires Wf(f)
  {
    && g.parent == f.parent && g.up == f.up && g.children == f.children[n := sorted]
    && Wf(g) && n in g.children && PutBehind(rows, rows', BelowOf(f, n), n, PreorderFrom(g, n, 0))
  }

  lemma {:induction false} SortDone(t: Table, n: Id, sorted: seq<Id>)
    requires TableInStep(t) && n in t.forest.children && multiset(sorted) == multiset(t.forest.children[n])
    ensures var t' := Applied(t, Op.Sort(n, sorted));
            t'.nodes == t.nodes && SortedAsAsked(t.forest, t.rows, t'.forest, t'.rows, n, sorted)
  {
    var f, g := t.forest, Sorted(t.forest, n, sorted);
    SortedWf(f, n, sorted);
    ListsEach(t.rows, f.up.Keys);
    WithoutElements(t.rows, BelowOf(f, n));
    assert Sits(f, n);
    assert n in Elements(Without(t.rows, BelowOf(f, n)));
    var a, z := AfterSplit(Without(t.rows, BelowOf(f, n)), n, PreorderFrom(g, n, 0));
  }

  /** The branch is gone from ids, parent ids and children arrays; the rest of them is as before. */
  ghost predicate RemovedAsAsked(f: Forest, g: Forest, n: Id) {
    && g.up.Keys == f.up.Keys - Branch(f, n) && g.children.Keys == f.children.Keys - Branch(f, n)
    && (forall x :: x in g.parent <==> x in f.parent && x !in Branch(f, n))
    && (forall x :: x in g.parent ==> g.parent[x] == f.parent[x])
    && (forall p :: p in g.children ==> g.children[p] == Without(f.children[p], Branch(f, n)))
  }
}
