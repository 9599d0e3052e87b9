/** The tree table: node objects, node list and table rows, changed in place. Nodes are represented by their ids. */
module TreeTables {
  import opened Common
  import opened Forests
  import opened Branches
  import opened Surgery
  import opened TableRows
  import opened TableLoads
  import opened TableOrders

  /** The list without the item that the search finds; a search that fails gives -1 and takes the last item away. */
  method Splice(s: seq<Id>, item: Id) returns (r: seq<Id>)
    ensures item in s && NoDuplicates(s) ==> r == Without(s, {item})
    ensures item !in s ==> r == if s == [] then [] else s[..|s| - 1]
  {
    var i := 0;
    while i < |s| && s[i] != item
      invariant 0 <= i <= |s| && item !in s[..i]
    {
      i := i + 1;
    }
    if i == |s| {
      return if s == [] then [] else s[..|s| - 1];
    }
    r := s[..i] + s[i + 1..];
    if NoDuplicates(s) { SpliceIsWithout(s, i); }
  }

  lemma {:induction false} SpliceIsWithout(s: seq<Id>, i: nat)
    requires NoDuplicates(s) && i < |s|
    ensures s[..i] + s[i + 1..] == Without(s, {s[i]})
  {
    assert s == s[..i] + [s[i]] + s[i + 1..];
    assert s[i] !in s[..i] && s[i] !in s[i + 1..];
    BlockAlone(s[..i], [s[i]], s[i + 1..], {s[i]});
  }

  /** Each item of the path is the parent of the one before it. */
  predicate Climbs(parentId: map<Id, Id>, node: Id, path: seq<Id>) {
    forall i :: 0 <= i < |path| ==> ParentAt(parentId, node, path, i)
  }

  predicate ParentAt(parentId: map<Id, Id>, node: Id, path: seq<Id>, i: nat)
    requires i < |path|
  {
    var below := if i == 0 then node else path[i - 1];
    below in parentId && parentId[below] == path[i]
  }

  ghost predicate OnTheWay(f: Forest, node: Id, path: seq<Id>, at: Id) {
    && at in f.up && node in f.up && at == (if path == [] then node else path[|path| - 1])
    && f.up[node] == Elements(path) + f.up[at] && Elements(path) !! f.up[at]
    && NoDuplicates(path) && Climbs(f.parent, node, path)
  }

  lemma {:induction false} ClimbsOn(parentId: map<Id, Id>, node: Id, path: seq<Id>, at: Id)
    requires Climbs(parentId, node, path) && at == (if path == [] then node else path[|path| - 1]) && at in parentId
    ensures Climbs(parentId, node, path + [parentId[at]])
  {
    var longer := path + [parentId[at]];
    forall i | 0 <= i < |longer| ensures ParentAt(parentId, node, longer, i) {
      if i < |path| { assert ParentAt(parentId, node, path, i); }
    }
  }

  lemma {:induction false} ElementsMore(path: seq<Id>, above: Id)
    requires NoDuplicates(path) && above !in Elements(path)
    ensures NoDuplicates(path + [above]) && Elements(path + [above]) == Elements(path) + {above}
  {
    ElementsConcat(path, [above]);
    DistinctConcat(path, [above]);
  }

  lemma {:induction false} ClimbStep(f: Forest, node: Id, path: seq<Id>, at: Id)
    requires Acyclic(f) && OnTheWay(f, node, path, at) && at in f.parent
    ensures f.parent[at] in f.up && f.up[f.parent[at]] < f.up[at]
    ensures OnTheWay(f, node, path + [f.parent[at]], f.parent[at])
  {
    UpStep(f, at);
    var above := f.parent[at];
    var before, rest := Elements(path), f.up[above];
    assert before + ({above} + rest) == (before + {above}) + rest;
    ElementsMore(path, above);
    ClimbsOn(f.parent, node, path, at);
  }

  class TreeTable {
    var parentId: map<Id, Id>
    var children: map<Id, seq<Id>>
    var nodes: seq<Id>
    var rows: seq<Id>
    ghost var up: map<Id, set<Id>>

    ghost function F(): Forest
      reads this
    {
      Forest(parentId, children, up)
    }

    ghost function T(): Table
      reads this
    {
      Table(F(), nodes, rows)
    }

    ghost predicate Valid()
      reads this
    {
      TableInStep(T())
    }

    /** A tree without nodes over a table with the given rows. */
    constructor (ids: seq<Id>)
      ensures F() == Loaded([]) && nodes == [] && rows == ids
    {
      parentId, children, nodes, rows, up := map[], map[], [], ids, map[];
    }

    method AddRow(row: Row)
      modifies this
      ensures F() == Grown(old(F()), row) && nodes == old(nodes) + [row.id] && rows == old(rows)
    {
      ghost var f := F();
      nodes := nodes + [row.id];
      children := children[row.id := []];
      if row.parent.Some? {
        parentId := parentId[row.id := row.parent.value];
        if row.parent.value in children {
          AddChild(row.parent.value, row.id);
        }
      }
      up := Grown(f, row).up;
    }

    method LoadRows(input: seq<Row>)
      requires F() == Loaded([]) && nodes == [] && rows == Ids(input)
      modifies this
      ensures F() == Loaded(input) && nodes == Ids(input) && rows == old(rows)
      ensures PreOrdered(input) ==> Valid() && AllStand(F(), rows)
    {
      for i := 0 to |input|
        invariant F() == Loaded(input[..i]) && nodes == Ids(input)[..i] && rows == old(rows)
      {
        LoadedMore(input, i);
        AddRow(input[i]);
      }
      assert input[..|input|] == input && Ids(input)[..|input|] == Ids(input);
      if PreOrdered(input) {
        AllLoaded(input);
      }
    }

    /** The ancestors, nearest first. */
    method Ancestors(node: Id) returns (path: seq<Id>)
      requires Wf(F()) && node in children
      ensures Climbs(parentId, node, path) && NoDuplicates(path) && Elements(path) == up[node]
    {
      var at := node;
      path := [];
      while at in parentId
        invariant OnTheWay(F(), node, path, at)
        decreases up[at]
      {
        ClimbStep(F(), node, path, at);
        path := path + [parentId[at]];
        at := parentId[at];
      }
      assert Sits(F(), at);
    }

    method RemoveChild(parent: Id, child: Id)
      requires parent in children && NoDuplicates(children[parent]) && child in children[parent]
      modifies this`children
      ensures children == old(children)[parent := Without(old(children)[parent], {child})]
    {
      var rest := Splice(children[parent], child);
      children := children[parent := rest];
    }

    method AddChild(parent: Id, child: Id)
      requires parent in children
      modifies this`children
      ensures children == old(children)[parent := old(children)[parent] + [child]]
    {
      children := children[parent := children[parent] + [child]];
    }

    method SetParent(node: Id, dest: Id)
      requires Wf(F()) && node in children && dest in children && dest !in Branch(F(), node)
      modifies `parentId, `children, `up
      ensures F() == Moved(old(F()), node, dest) && Wf(F()) && rows == old(rows) && nodes == old(nodes)
    {
      ghost var f := F();
      if node in parentId {
        UpStep(F(), node);
        RemoveChild(parentId[node], node);
      }
      parentId := parentId[node := dest];
      AddChild(dest, node);
      up := Rehung(f, node, dest);
      MovedWf(f, node, dest);
    }

    /** A row put behind itself stays where it is: the insertion skips what it is inserted at. */
    method InsertAfter(row: Id, dest: Id)
      modifies `rows
      ensures rows == if row == dest then old(rows) else After(Without(old(rows), {row}), dest, [row])
    {
      if row != dest {
        rows := After(Without(rows, {row}), dest, [row]);
      }
    }

    method MoveRows(node: Id, dest: Id)
      requires Wf(F()) && Lists(rows, up.Keys) && node in children && dest in children
      requires node == dest || dest !in Branch(F(), node)
      modifies `rows
      ensures rows == if node == dest then SortedRows(F(), old(rows), node) else MovedRows(F(), old(rows), node, dest)
      ensures Lists(rows, up.Keys) && F() == old(F()) && nodes == old(nodes)
      decreases Branch(F(), node)
    {
      ghost var f, start := F(), rows;
      InsertAfter(node, dest);
      ghost var inserted := rows;
      MoveStarts(f, start, inserted, node, dest);
      var i := |children[node]|;
      while i > 0
        invariant F() == f && nodes == old(nodes) && 0 <= i <= |f.children[node]| && rows == Underway(f, inserted, node, i)
      {
        i := i - 1;
        MoveStep(f, inserted, node, i);
        MoveRows(children[node][i], node);
      }
      MoveEnds(f, start, inserted, node, dest);
    }

    /** Nothing happens for a move under itself, under its parent or into its own branch. */
    method Move(node: Id, dest: Id)
      requires Valid() && node in children && dest in children
      modifies this
      ensures Valid() && T() == Applied(old(T()), Op.Move(node, dest)) && nodes == old(nodes)
      ensures if MoveAllowed(old(F()), node, dest) then MovedAsAsked(old(F()), old(rows), F(), rows, node, dest)
              else T() == old(T())
    {
      ghost var f := F();
      MoveDone(T(), node, dest);
      var above := Ancestors(dest);
      AncestorsDecide(f, node, dest, above);
      if node != dest && !(node in parentId && parentId[node] == dest) && node !in above {
        Rehang(node, dest);
      }
    }

    method Rehang(node: Id, dest: Id)
      requires Valid() && node in children && dest in children && dest !in Branch(F(), node)
      modifies this
      ensures Valid() && nodes == old(nodes)
      ensures F() == Moved(old(F()), node, dest) && rows == MovedRows(F(), old(rows), node, dest)
    {
      ghost var f, was, listed := F(), rows, nodes;
      SetParent(node, dest);
      MovedReady(f, F(), listed, was, node, dest);
      MoveRows(node, dest);
    }

    /** `sorted` is what the sort makes of the children array; it may be any permutation of it. */
    method SortBranch(node: Id, sorted: seq<Id>)
      requires Valid() && node in children && multiset(sorted) == multiset(children[node])
      modifies this
      ensures Valid() && T() == Applied(old(T()), Op.Sort(node, sorted)) && nodes == old(nodes)
      ensures SortedAsAsked(old(F()), old(rows), F(), rows, node, sorted)
    {
      SortDone(T(), node, sorted);
      ghost var f, was := F(), rows;
      SortedWf(f, node, sorted);
      children := children[node := sorted];
      assert F() == Sorted(f, node, sorted);
      MoveRows(node, node);
      SortedInStep(f, nodes, was, node, sorted);
    }

    method UnloadBranch(node: Id)
      requires Valid() && node in children
      modifies this
      ensures Valid() && F() == Cut(old(F()), BelowOf(old(F()), node))
      ensures rows == Without(old(rows), BelowOf(old(F()), node)) && nodes == Without(old(nodes), BelowOf(old(F()), node))
      decreases Branch(F(), node), 0
    {
      ghost var f, rows0, nodes0 := F(), rows, nodes;
      var kids := children[node];
      UnloadStarts(f, nodes, rows, node);
      for i := 0 to |kids|
        invariant Valid() && F() == Cut(f, BelowTo(f, node, i))
        invariant rows == Without(rows0, BelowTo(f, node, i)) && nodes == Without(nodes0, BelowTo(f, node, i))
      {
        UnloadNext(f, node, i);
        UnloadStep(f, BelowTo(f, node, i), Branch(f, kids[i]), rows0, nodes0);
        RemoveNode(kids[i]);
      }
      NoneLeft(f, node);
      SameAgain(children, node);
      children := children[node := []];
    }

    method RemoveNode(node: Id)
      requires Valid() && node in children
      modifies this
      ensures Valid() && F() == Cut(old(F()), Branch(old(F()), node))
      ensures rows == Without(old(rows), Branch(old(F()), node)) && nodes == Without(old(nodes), Branch(old(F()), node))
      ensures T() == Applied(old(T()), Op.Remove(node)) && RemovedAsAsked(old(F()), F(), node)
      decreases Branch(F(), node), 1
    {
      ghost var f, rows0, nodes0 := F(), rows, nodes;
      UnloadBranch(node);
      RemoveStarts(f, F(), nodes0, node);
      Unlink(node);
      RemoveEnds(f, rows0, nodes0, node);
    }

    /** Takes a node without children out of the rows, its parent's array, the id map and the node list. */
    method Unlink(node: Id)
      requires Wf(F()) && node in children && BelowOf(F(), node) == {} && node in nodes && NoDuplicates(nodes)
      modifies this
      ensures F() == Cut(old(F()), {node})
      ensures rows == Without(old(rows), {node}) && nodes == Without(old(nodes), {node})
    {
      LeafCut(F(), node);
      rows := Without(rows, {node});
      if node in parentId {
        UpStep(F(), node);
        RemoveChild(parentId[node], node);
      }
      parentId := parentId - {node};
      children := children - {node};
      nodes := Splice(nodes, node);
      up := up - {node};
    }
  }

  lemma {:induction false} AncestorsDecide(f: Forest, node: Id, dest: Id, above: seq<Id>)
    requires dest in f.up && Elements(above) == f.up[dest]
    ensures node == dest || node in above <==> dest in Branch(f, node)
  {
    assert node in above <==> node in Elements(above);
  }

  lemma {:induction false} MovedReady(f: Forest, g: Forest, nodes: seq<Id>, rows: seq<Id>, node: Id, dest: Id)
    requires InStep(f, nodes, rows) && node in f.up && dest in f.up && dest !in Branch(f, node) && g == Moved(f, node, dest)
    ensures Wf(g) && Lists(rows, g.up.Keys) && node in g.children && dest in g.children && dest !in Branch(g, node)
    ensures InStep(g, nodes, MovedRows(g, rows, node, dest))
  {
    MovedSame(f, node, dest);
    MovedInStep(f, g, nodes, rows, node, dest);
  }

  lemma {:induction false} MoveStarts(f: Forest, rows: seq<Id>, inserted: seq<Id>, node: Id, dest: Id)
    requires Wf(f) && Lists(rows, f.up.Keys) && node in f.children && dest in f.up
    requires inserted == if node == dest then rows else After(Without(rows, {node}), dest, [node])
    ensures Lists(inserted, f.up.Keys) && inserted == Underway(f, inserted, node, |f.children[node]|)
  {
    if node != dest { InsertedLists(f, rows, node, dest); }
    UnderwayStarts(f, inserted, node);
  }

  lemma {:induction false} MoveStep(f: Forest, rows: seq<Id>, node: Id, i: nat)
    requires Wf(f) && Lists(rows, f.up.Keys) && node in f.children && i < |f.children[node]|
    ensures
      var c := f.children[node][i];
      && c in f.children && c != node && node !in Branch(f, c) && Branch(f, c) < Branch(f, node)
      && Lists(Underway(f, rows, node, i + 1), f.up.Keys)
      && MovedRows(f, Underway(f, rows, node, i + 1), c, node) == Underway(f, rows, node, i)
  {
    ChildOf(f, node, i);
    ChildBranch(f, f.children[node][i]);
    UnderwayLists(f, rows, node, i + 1);
    UnderwayStep(f, rows, node, i);
  }

  lemma {:induction false} MoveEnds(f: Forest, rows: seq<Id>, inserted: seq<Id>, node: Id, dest: Id)
    requires Wf(f) && Lists(inserted, f.up.Keys) && node in f.children
    requires inserted == if node == dest then rows else After(Without(rows, {node}), dest, [node])
    requires node == dest || dest !in Branch(f, node)
    ensures Underway(f, inserted, node, 0) == if node == dest then SortedRows(f, rows, node) else MovedRows(f, rows, node, dest)
    ensures Lists(Underway(f, inserted, node, 0), f.up.Keys)
  {
    UnderwayLists(f, inserted, node, 0);
    AllBranches(f, node);
    if node != dest { UnderwayEnds(f, rows, node, dest); }
  }

  lemma {:induction false} UnloadNext(f: Forest, n: Id, i: nat)
    requires Wf(f) && n in f.children && i < |f.children[n]|
    ensures
      var c, g := f.children[n][i], Cut(f, BelowTo(f, n, i));
      c in g.children && Branch(g, c) == Branch(f, c) && Branch(f, c) < Branch(f, n)
    ensures BelowTo(f, n, i) + Branch(f, f.children[n][i]) == BelowTo(f, n, i + 1)
  {
    var c, cut := f.children[n][i], BelowTo(f, n, i);
    BelowToStep(f, n, i);
    CutBranch(f, cut, c);
    assert Branch(f, c) - cut == Branch(f, c);
  }

  lemma {:induction false} UnloadStep(f: Forest, cut: set<Id>, more: set<Id>, rows: seq<Id>, nodes: seq<Id>)
    ensures Cut(Cut(f, cut), more) == Cut(f, cut + more)
    ensures Without(Without(rows, cut), more) == Without(rows, cut + more)
    ensures Without(Without(nodes, cut), more) == Without(nodes, cut + more)
  {
    CutTwice(f, cut, more);
    WithoutTwice(rows, cut, more);
    WithoutTwice(nodes, cut, more);
  }

  lemma {:induction false} RemoveStarts(f: Forest, g: Forest, nodes: seq<Id>, n: Id)
    requires Wf(f) && n in f.children && Lists(nodes, f.up.Keys) && Wf(g) && g == Cut(f, BelowOf(f, n))
    ensures n in g.children && BelowOf(g, n) == {}
    ensures n in Without(nodes, BelowOf(f, n)) && NoDuplicates(Without(nodes, BelowOf(f, n)))
  {
    ListsEach(nodes, f.up.Keys);
    assert Sits(f, n);
    WithoutElements(nodes, BelowOf(f, n));
    assert n in Elements(Without(nodes, BelowOf(f, n)));
    CutBranch(f, BelowOf(f, n), n);
  }

  lemma {:induction false} RemoveEnds(f: Forest, rows: seq<Id>, nodes: seq<Id>, n: Id)
    requires InStep(f, nodes, rows) && n in f.children
    ensures Cut(Cut(f, BelowOf(f, n)), {n}) == Cut(f, Branch(f, n))
    ensures Without(Without(rows, BelowOf(f, n)), {n}) == Without(rows, Branch(f, n))
    ensures Without(Without(nodes, BelowOf(f, n)), {n}) == Without(nodes, Branch(f, n))
    ensures InStep(Cut(f, Branch(f, n)), Without(nodes, Branch(f, n)), Without(rows, Branch(f, n)))
  {
    BranchSplits(f, n);
    assert BelowOf(f, n) + {n} == Branch(f, n);
    UnloadStep(f, BelowOf(f, n), {n}, rows, nodes);
    BranchClosed(f, n);
    CutInStep(f, nodes, rows, Branch(f, n));
  }

  lemma {:induction false} CutNothing(f: Forest)
    ensures Cut(f, {}) == f
  {
    forall p | p in f.children ensures Without(f.children[p], {}) == f.children[p] {
      WithoutElements(f.children[p], {});
    }
    assert f.parent - {} == f.parent && f.up - {} == f.up;
    assert Cut(f, {}).children == f.children;
  }

  lemma {:induction false} UnloadStarts(f: Forest, nodes: seq<Id>, rows: seq<Id>, n: Id)
    requires Wf(f) && n in f.children
    ensures BelowTo(f, n, 0) == {} && Cut(f, {}) == f && Without(rows, {}) == rows && Without(nodes, {}) == nodes
  {
    BelowToEnds(f, n);
    WithoutElements(rows, {});
    WithoutElements(nodes, {});
    CutNothing(f);
  }

  lemma {:induction false} AllGone(s: seq<Id>, cut: set<Id>)
    requires forall x :: x in s ==> x in cut
    ensures Without(s, cut) == []
  {
    if s != [] { AllGone(s[1..], cut); }
  }

  lemma {:induction false} NoneLeft(f: Forest, n: Id)
    requires Wf(f) && n in f.children
    ensures BelowTo(f, n, |f.children[n]|) == BelowOf(f, n) && n !in BelowOf(f, n)
    ensures Without(f.children[n], BelowOf(f, n)) == []
  {
    BelowToEnds(f, n);
    assert Sits(f, n);
    forall c | c in f.children[n] ensures c in BelowOf(f, n) { UpStep(f, c); }
    AllGone(f.children[n], BelowOf(f, n));
  }

  lemma SameAgain(children: map<Id, seq<Id>>, n: Id)
    requires n in children
    ensures children[n := children[n]] == children
  {
  }

  lemma {:induction false} LeafCutAt(f: Forest, n: Id, p: Id)
    requires Linked(f) && p in f.children
    ensures Detached(f.children, f.parent, n)[p] == Without(f.children[p], {n})
  {
    WithoutElements(f.children[p], {n});
    assert n in f.children[p] ==> n in f.parent && f.parent[n] == p;
  }

  lemma {:induction false} LeafCut(f: Forest, n: Id)
    requires Wf(f) && n in f.children
    ensures Cut(f, {n}).children == Detached(f.children, f.parent, n) - {n}
  {
    forall p | p in f.children && p != n ensures Detached(f.children, f.parent, n)[p] == Without(f.children[p], {n}) {
      LeafCutAt(f, n, p);
    }
  }
}
