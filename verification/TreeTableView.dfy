/** The rows of a tree table shown, hidden, expanded and collapsed in place. */
module TreeTableViews {
  import opened Forests
  import opened TreeViews

  /** What the user of a table may call. */
  datatype Call = Expanding(node: Id) | ExpandingById(node: Id) | Collapsing(node: Id) | Toggling(node: Id) | Revealing(node: Id)
                | ExpandingAll | CollapsingAll

  predicate Known(call: Call, ids: set<Id>) {
    call.ExpandingAll? || call.CollapsingAll? || call.node in ids
  }

  class TableView {
    const parentId: map<Id, Id>
    const children: map<Id, seq<Id>>
    ghost const up: map<Id, set<Id>>
    const nodes: seq<Id>
    const roots: seq<Id>
    /** Nodes are collapsed when they are initialised; otherwise they are expanded. */
    const startCollapsed: bool

    var visible: set<Id>
    var expanded: set<Id>
    var collapsed: set<Id>
    var initialized: set<Id>

    ghost function F(): Forest {
      Forest(parentId, children, up)
    }

    function V(): View
      reads this
    {
      View(visible, expanded, collapsed, initialized)
    }

    ghost predicate Sound()
      reads this
    {
      Wf(F()) && expanded !! collapsed
    }

    constructor (f: Forest, nodes: seq<Id>, roots: seq<Id>, startCollapsed: bool, displayed: set<Id>)
      requires Wf(f)
      ensures F() == f && this.nodes == nodes && this.roots == roots && this.startCollapsed == startCollapsed
      ensures Sound() && V() == View(displayed, {}, {}, {})
    {
      parentId, children, up := f.parent, f.children, f.up;
      this.nodes, this.roots, this.startCollapsed := nodes, roots, startCollapsed;
      visible, expanded, collapsed, initialized := displayed, {}, {}, {};
    }

    method Hide(node: Id)
      requires Wf(F()) && node in children
      modifies `visible
      ensures V() == Hidden(old(V()), Branch(F(), node))
      decreases Branch(F(), node), 1
    {
      HideChildren(node);
      visible := visible - {node};
      BranchSplits(F(), node);
    }

    method HideChildren(node: Id)
      requires Wf(F()) && node in children
      modifies `visible
      ensures V() == Hidden(old(V()), BelowOf(F(), node))
      decreases Branch(F(), node), 0
    {
      BelowToEnds(F(), node);
      for i := 0 to |children[node]|
        invariant V() == Hidden(old(V()), BelowTo(F(), node, i))
      {
        BelowToStep(F(), node, i);
        Hide(children[node][i]);
      }
    }

    method Show(node: Id)
      requires Sound() && node in children && Ready(F(), V(), node)
      modifies this
      ensures Sound() && node in visible && node in initialized && Settled(F(), V(), node)
      ensures Step(old(V()), V(), Branch(F(), node), startCollapsed)
      decreases Branch(F(), node), 4
    {
      ghost var v := V();
      if node !in initialized {
        Initialize(node);
      }
      ghost var w := V();
      visible := visible + {node};
      BeforeRaise(F(), v, w, node, startCollapsed);
      RaiseReady(F(), v, w, node, startCollapsed);
      ghost var u := V();
      if node in expanded {
        assert Sits(F(), node);
        ShowChildren(node);
        ShowJoins(F(), v, u, V(), node, startCollapsed);
      }
    }

    method ShowChildren(node: Id)
      requires Sound() && node in children && node in visible && node in expanded && KidsReady(F(), V(), node, 0)
      modifies this
      ensures Sound() && Settled(F(), V(), node) && node in expanded
      ensures Step(old(V()), V(), BelowOf(F(), node), startCollapsed)
      decreases Branch(F(), node), 1
    {
      ghost var v := V();
      BelowToEnds(F(), node);
      assert Step(v, v, {}, startCollapsed);
      for i := 0 to |children[node]|
        invariant Sound() && ShownTo(F(), V(), node, i)
        invariant Step(v, V(), BelowTo(F(), node, i), startCollapsed)
      {
        ghost var w := V();
        BelowToStep(F(), node, i);
        Show(children[node][i]);
        KidShown(F(), v, w, V(), node, i, startCollapsed);
      }
      KidsShown(F(), v, V(), node, startCollapsed);
    }

    method Expand(node: Id)
      requires Sound() && node in children && Ready(F(), V(), node)
      modifies this
      ensures Sound() && node in expanded && KidsReady(F(), V(), node, 0)
      ensures Step(Opened(old(V()), node), V(), BelowOf(F(), node), startCollapsed)
      ensures node in visible || Settled(F(), old(V()), node) ==> Settled(F(), V(), node)
      decreases Branch(F(), node), 2
    {
      ghost var v := V();
      KidsOf(F(), v, node);
      if node in expanded {
        return;
      }
      collapsed := collapsed - {node};
      expanded := expanded + {node};
      OpenReady(F(), v, node);
      if node in visible {
        ShowChildren(node);
        KidsOf(F(), V(), node);
      }
    }

    method Collapse(node: Id)
      requires Sound() && node in children && Ready(F(), V(), node)
      modifies this
      ensures Sound() && node in collapsed && node !in expanded && Settled(F(), V(), node)
      ensures V() == if node in old(collapsed) then old(V()) else Hidden(Closed(old(V()), node), BelowOf(F(), node))
    {
      ghost var v := V();
      if node in collapsed {
        assert node in Branch(F(), node);
        return;
      }
      expanded := expanded - {node};
      collapsed := collapsed + {node};
      HideChildren(node);
      HiddenSettled(F(), Closed(v, node), node);
    }

    method Initialize(node: Id)
      requires Sound() && node in children && Ready(F(), V(), node) && node !in initialized
      modifies this
      ensures Sound() && node in initialized && KidsReady(F(), V(), node, 0)
      ensures Step(old(V()), V(), Branch(F(), node), startCollapsed) && (node in visible <==> node in old(visible))
      ensures startCollapsed || node in visible || Settled(F(), old(V()), node) ==> Settled(F(), V(), node)
      decreases Branch(F(), node), 3
    {
      ghost var v := V();
      if startCollapsed {
        Collapse(node);
        KidsOf(F(), V(), node);
      } else {
        Expand(node);
      }
      ghost var w := V();
      initialized := initialized + {node};
      InitializedStep(F(), v, w, node, startCollapsed);
    }

    // ---------- What the user calls ----------

    method Render()
      requires Sound() && Elements(roots) == F().up.Keys - F().parent.Keys
      requires forall x :: x in children ==> Fresh(F(), V(), x)
      modifies this
      ensures Sound() && Shown(F(), V()) && Rendered(F(), V(), startCollapsed)
    {
      ghost var before := V();
      RootsStart(F(), V(), roots);
      for i := 0 to |roots|
        invariant Sound() && RootsShown(F(), V(), roots, i) && OthersKept(before, V(), {}, startCollapsed)
      {
        assert roots[i] in Elements(roots);
        ghost var v := V();
        Show(roots[i]);
        RootsNext(F(), v, V(), roots, i, startCollapsed);
        StepKeeps(v, V(), Branch(F(), roots[i]), startCollapsed);
        KeptTwice(before, v, V(), {}, {}, startCollapsed);
      }
      RootsAll(F(), V(), roots);
      FreshAll(F(), before);
      RenderedRows(F(), before, V(), startCollapsed);
    }

    method ExpandRow(node: Id)
      requires Sound() && node in children && Shown(F(), V())
      modifies this
      ensures Sound() && Shown(F(), V()) && node in expanded && OthersKept(old(V()), V(), {node}, startCollapsed)
      ensures Step(Opened(old(V()), node), V(), BelowOf(F(), node), startCollapsed)
    {
      ghost var v := V();
      ShownReady(F(), v, node);
      Expand(node);
      OpenedShown(F(), v, V(), node, startCollapsed);
      OpenedKeeps(v, V(), node, BelowOf(F(), node), startCollapsed);
    }

    /** Expanding by id initialises the node first. */
    method ExpandNode(node: Id)
      requires Sound() && node in children && Shown(F(), V())
      modifies this
      ensures Sound() && Shown(F(), V()) && node in expanded && node in initialized
      ensures OthersKept(old(V()), V(), {node}, startCollapsed)
    {
      ghost var v := V();
      ShownReady(F(), v, node);
      if node !in initialized {
        Initialize(node);
        InitializedShown(F(), v, V(), node, startCollapsed);
        StepKeeps(v, V(), Branch(F(), node), startCollapsed);
      }
      ghost var w := V();
      ExpandRow(node);
      KeptTwice(v, w, V(), {}, {node}, startCollapsed);
      assert StepAt(Opened(w, node), V(), BelowOf(F(), node), startCollapsed, node);
    }

    method CollapseRow(node: Id)
      requires Sound() && node in children && Shown(F(), V())
      modifies this
      ensures Sound() && Shown(F(), V()) && node !in expanded && OthersKept(old(V()), V(), {node}, startCollapsed)
      ensures V() == if node in old(collapsed) then old(V()) else Hidden(Closed(old(V()), node), BelowOf(F(), node))
    {
      ghost var v := V();
      ShownReady(F(), v, node);
      Collapse(node);
      assert Sits(F(), node);
      ShownStays(F(), v, V(), node);
    }

    method Toggle(node: Id)
      requires Sound() && node in children && Shown(F(), V())
      modifies this
      ensures Sound() && Shown(F(), V()) && (node in expanded <==> node !in old(expanded))
      ensures OthersKept(old(V()), V(), {node}, startCollapsed)
    {
      if node in expanded {
        CollapseRow(node);
      } else {
        ExpandRow(node);
      }
    }

    /** Afterwards the node is expanded and, with all its ancestors expanded as well, visible together with its children. */
    method Reveal(node: Id)
      requires Sound() && node in children && Shown(F(), V())
      modifies this
      ensures Sound() && Shown(F(), V()) && node in expanded && F().up[node] <= expanded
      ensures node in visible && forall c :: c in children[node] ==> c in visible
      ensures OthersKept(old(V()), V(), F().up[node] + {node}, startCollapsed)
      decreases up[node]
    {
      assert Sits(F(), node);
      if node in parentId {
        UpStep(F(), node);
        Reveal(parentId[node]);
      }
      ghost var v := V();
      ExpandRow(node);
      KeptTwice(old(V()), v, V(), F().up[node], {node}, startCollapsed);
      RevealedUp(F(), v, V(), node, startCollapsed);
    }

    /** A node ends up expanded unless it is initialised after its turn, on the first show brought about by an ancestor. */
    method ExpandAll()
      requires Sound() && Elements(nodes) <= children.Keys && Shown(F(), V())
      modifies this
      ensures Sound() && Shown(F(), V())
      ensures forall j :: 0 <= j < |nodes| && Lasting(F(), nodes, j, old(initialized), startCollapsed) ==> nodes[j] in expanded
      ensures OthersKept(old(V()), V(), Elements(nodes), startCollapsed)
    {
      for i := 0 to |nodes|
        invariant Sound() && Shown(F(), V()) && old(initialized) <= initialized
        invariant OthersKept(old(V()), V(), Elements(nodes), startCollapsed)
        invariant forall j :: 0 <= j < i && Lasting(F(), nodes, j, old(initialized), startCollapsed) ==> nodes[j] in expanded
      {
        assert nodes[i] in Elements(nodes);
        ghost var v := V();
        ExpandRow(nodes[i]);
        StillExpanded(F(), v, V(), nodes, i, old(initialized), startCollapsed);
        KeptTwice(old(V()), v, V(), Elements(nodes), {nodes[i]}, startCollapsed);
        assert Elements(nodes) + {nodes[i]} == Elements(nodes);
      }
    }

    method CollapseAll()
      requires Sound() && Elements(nodes) <= children.Keys && Shown(F(), V())
      modifies this
      ensures Sound() && Shown(F(), V()) && Elements(nodes) !! expanded
      ensures OthersKept(old(V()), V(), Elements(nodes), startCollapsed)
    {
      for i := 0 to |nodes|
        invariant Sound() && Shown(F(), V()) && OthersKept(old(V()), V(), Elements(nodes), startCollapsed)
        invariant forall j :: 0 <= j < i ==> nodes[j] !in expanded
      {
        assert nodes[i] in Elements(nodes);
        ghost var v := V();
        CollapseRow(nodes[i]);
        KeptTwice(old(V()), v, V(), Elements(nodes), {nodes[i]}, startCollapsed);
        assert Elements(nodes) + {nodes[i]} == Elements(nodes);
      }
    }

    method Perform(call: Call)
      requires Sound() && Elements(nodes) <= children.Keys && Shown(F(), V()) && Known(call, children.Keys)
      modifies this
      ensures Sound() && Shown(F(), V())
      ensures match call
              case Expanding(node) => node in expanded && OthersKept(old(V()), V(), {node}, startCollapsed)
              case ExpandingById(node) => node in expanded && OthersKept(old(V()), V(), {node}, startCollapsed)
              case Collapsing(node) => node !in expanded && OthersKept(old(V()), V(), {node}, startCollapsed)
              case Toggling(node) =>
                (node in expanded <==> node !in old(expanded)) && OthersKept(old(V()), V(), {node}, startCollapsed)
              case Revealing(node) =>
                {node} + F().up[node] <= expanded && OthersKept(old(V()), V(), F().up[node] + {node}, startCollapsed)
              case ExpandingAll => OthersKept(old(V()), V(), Elements(nodes), startCollapsed)
              case CollapsingAll => Elements(nodes) !! expanded && OthersKept(old(V()), V(), Elements(nodes), startCollapsed)
    {
      match call
      case Expanding(node) => ExpandRow(node);
      case ExpandingById(node) => ExpandNode(node);
      case Collapsing(node) => CollapseRow(node);
      case Toggling(node) => Toggle(node);
      case Revealing(node) => Reveal(node);
      case ExpandingAll => ExpandAll();
      case CollapsingAll => CollapseAll();
    }

    /** Rendering an untouched table and then any calls: a row is visible just when all its ancestors are expanded. */
    method Use(calls: seq<Call>)
      requires Sound() && Elements(roots) == F().up.Keys - F().parent.Keys && Elements(nodes) <= children.Keys
      requires forall x :: x in children ==> Fresh(F(), V(), x)
      requires forall call :: call in calls ==> Known(call, children.Keys)
      modifies this
      ensures Sound() && forall x :: x in F().up ==> (x in visible <==> F().up[x] <= expanded)
    {
      Render();
      for i := 0 to |calls|
        invariant Sound() && Shown(F(), V())
      {
        assert calls[i] in calls;
        Perform(calls[i]);
      }
      forall x | x in F().up ensures x in visible <==> F().up[x] <= expanded {
        VisibleLaw(F(), V(), x);
      }
    }
  }

  // ---------- The steps of the methods ----------

  lemma {:induction false} KidShown(f: Forest, v: View, w: View, u: View, n: Id, i: nat, start: bool)
    requires Wf(f) && n in f.children && i < |f.children[n]| && ShownTo(f, w, n, i)
    requires Step(v, w, BelowTo(f, n, i), start)
    requires Step(w, u, Branch(f, f.children[n][i]), start)
    requires f.children[n][i] in u.visible && f.children[n][i] in u.initialized && Settled(f, u, f.children[n][i])
    ensures ShownTo(f, u, n, i + 1) && Step(v, u, BelowTo(f, n, i + 1), start)
  {
    var part, more := BelowTo(f, n, i), Branch(f, f.children[n][i]);
    ShowNext(f, w, u, n, i, start);
    StepTwice(v, w, u, part, more, start);
    BelowToStep(f, n, i);
    StepWider(v, u, part + more, BelowTo(f, n, i + 1), start);
  }

  lemma {:induction false} KidsShown(f: Forest, v: View, u: View, n: Id, start: bool)
    requires Wf(f) && n in f.children && n in v.visible && n in v.expanded && ShownTo(f, u, n, |f.children[n]|)
    requires Step(v, u, BelowTo(f, n, |f.children[n]|), start)
    ensures Step(v, u, BelowOf(f, n), start) && Settled(f, u, n) && n in u.expanded
  {
    BelowToEnds(f, n);
    assert Sits(f, n);
    assert n !in BelowOf(f, n) && StepAt(v, u, BelowOf(f, n), start, n);
    AllShown(f, u, n);
  }

  lemma {:induction false} OpenReady(f: Forest, v: View, n: Id)
    requires Wf(f) && n in f.children && Ready(f, v, n) && n !in v.expanded
    ensures KidsReady(f, Opened(v, n), n, 0) && (n !in v.visible && Settled(f, v, n) ==> Settled(f, Opened(v, n), n))
    ensures Step(Opened(v, n), Opened(v, n), BelowOf(f, n), true) && Step(Opened(v, n), Opened(v, n), BelowOf(f, n), false)
  {
    assert Sits(f, n);
    KidsOf(f, v, n);
    KidsStay(f, v, Opened(v, n), n);
    if n !in v.visible && Settled(f, v, n) { OpenedSettled(f, v, n); }
  }

  lemma {:induction false} InitializedStep(f: Forest, v: View, w: View, n: Id, start: bool)
    requires Wf(f) && n in f.children && n !in v.initialized && v.expanded !! v.collapsed && w.expanded !! w.collapsed
    requires if start then n in w.collapsed && w == (if n in v.collapsed then v else Hidden(Closed(v, n), BelowOf(f, n)))
             else n in w.expanded && Step(Opened(v, n), w, BelowOf(f, n), start)
    requires KidsReady(f, w, n, 0)
    ensures
      var u := w.(initialized := w.initialized + {n});
      && Step(v, u, Branch(f, n), start) && (n in u.visible <==> n in v.visible)
      && KidsReady(f, u, n, 0) && (Settled(f, w, n) ==> Settled(f, u, n))
  {
    var u := w.(initialized := w.initialized + {n});
    assert Sits(f, n);
    KidsStay(f, w, u, n);
    BranchSplits(f, n);
    forall x: Id ensures StepAt(v, u, Branch(f, n), start, x) && (x == n ==> (x in u.visible <==> x in v.visible)) {
      if !start { assert StepAt(Opened(v, n), w, BelowOf(f, n), start, x); }
    }
    if Settled(f, w, n) {
      forall x | x in BelowOf(f, n) ensures InPlace(f, u, x) { assert InPlace(f, w, x); }
    }
  }

  lemma {:induction false} BeforeRaise(f: Forest, v: View, w: View, n: Id, start: bool)
    requires Wf(f) && n in f.children && Ready(f, v, n) && v.expanded !! v.collapsed && w.expanded !! w.collapsed
    requires n in w.initialized
    requires if n in v.initialized then w == v
             else KidsReady(f, w, n, 0) && Step(v, w, Branch(f, n), start) &&
                  (start || Settled(f, v, n) ==> Settled(f, w, n))
    ensures KidsReady(f, w, n, 0) && Step(v, w, Branch(f, n), start) && (n !in w.expanded ==> Settled(f, w, n))
  {
    assert n in Branch(f, n);
    if n in v.initialized {
      KidsOf(f, v, n);
    } else {
      assert StepAt(v, w, Branch(f, n), start, n);
    }
  }

  /** The row itself put on display. */
  lemma {:induction false} RaiseReady(f: Forest, v: View, w: View, n: Id, start: bool)
    requires Wf(f) && n in f.children && KidsReady(f, w, n, 0) && Step(v, w, Branch(f, n), start)
    requires n !in w.expanded ==> Settled(f, w, n)
    ensures
      var u := w.(visible := w.visible + {n});
      && KidsReady(f, u, n, 0) && Step(v, u, Branch(f, n), start)
      && (n !in u.expanded ==> Settled(f, u, n))
  {
    var u := w.(visible := w.visible + {n});
    assert n in Branch(f, n) && Sits(f, n);
    KidsStay(f, w, u, n);
    forall x: Id ensures StepAt(v, u, Branch(f, n), start, x) { assert StepAt(v, w, Branch(f, n), start, x); }
    if n !in w.expanded { RaisedSettled(f, w, n); }
  }

  lemma {:induction false} ShowJoins(f: Forest, v: View, u: View, end: View, n: Id, start: bool)
    requires Step(v, u, Branch(f, n), start) && Step(u, end, BelowOf(f, n), start) && n in f.up && n !in f.up[n]
    requires n in u.visible && n in u.initialized
    ensures Step(v, end, Branch(f, n), start) && n in end.visible && n in end.initialized
  {
    StepTwice(v, u, end, Branch(f, n), BelowOf(f, n), start);
    StepWider(v, end, Branch(f, n) + BelowOf(f, n), Branch(f, n), start);
    assert n !in BelowOf(f, n) && StepAt(u, end, BelowOf(f, n), start, n);
  }

  // ---------- The whole table ----------

  /** The `j`-th node is initialised already, or starts expanded anyway, or no ancestor of it is listed behind it. */
  ghost predicate Lasting(f: Forest, nodes: seq<Id>, j: nat, initialized: set<Id>, start: bool)
    requires j < |nodes|
  {
    nodes[j] in initialized || !start || forall k :: j < k < |nodes| && nodes[j] in f.up ==> nodes[k] !in f.up[nodes[j]]
  }

  lemma {:induction false} StillExpanded(f: Forest, v: View, w: View, nodes: seq<Id>, i: nat, initialized: set<Id>, start: bool)
    requires i < |nodes| && nodes[i] in w.expanded && initialized <= v.initialized
    requires forall j :: 0 <= j < i && Lasting(f, nodes, j, initialized, start) ==> nodes[j] in v.expanded
    requires Step(Opened(v, nodes[i]), w, BelowOf(f, nodes[i]), start)
    ensures initialized <= w.initialized
    ensures forall j :: 0 <= j <= i && Lasting(f, nodes, j, initialized, start) ==> nodes[j] in w.expanded
  {
    forall x | x in initialized ensures x in w.initialized {
      assert StepAt(Opened(v, nodes[i]), w, BelowOf(f, nodes[i]), start, x);
    }
    forall j | 0 <= j < i && Lasting(f, nodes, j, initialized, start) ensures nodes[j] in w.expanded {
      assert StepAt(Opened(v, nodes[i]), w, BelowOf(f, nodes[i]), start, nodes[j]);
    }
  }

  lemma {:induction false} InitializedShown(f: Forest, v: View, w: View, n: Id, start: bool)
    requires Acyclic(f) && n in f.up && Shown(f, v) && Settled(f, w, n) && w.expanded !! w.collapsed
    requires Step(v, w, Branch(f, n), start) && (n in v.visible <==> n in w.visible)
    ensures Shown(f, w)
  {
    forall x: Id ensures x !in Branch(f, n) ==> SameAt(v, w, x) { assert StepAt(v, w, Branch(f, n), start, x); }
    assert StepAt(v, w, Branch(f, n), start, n);
    ShownStays(f, v, w, n);
  }

  lemma {:induction false} RootsStart(f: Forest, v: View, roots: seq<Id>)
    requires Elements(roots) <= f.children.Keys && forall x :: x in f.children ==> Fresh(f, v, x)
    ensures RootsShown(f, v, roots, 0)
  {
    forall j | 0 <= j < |roots| ensures Ready(f, v, roots[j]) { assert roots[j] in Elements(roots); }
  }

  lemma {:induction false} FreshAll(f: Forest, v: View)
    requires f.up.Keys == f.children.Keys && forall x :: x in f.children ==> Fresh(f, v, x)
    ensures forall x :: x in f.up ==> x !in v.expanded && x !in v.collapsed && x !in v.initialized
  {
    forall x | x in f.up ensures x !in v.expanded && x !in v.collapsed && x !in v.initialized {
      assert Fresh(f, v, x) && x in Branch(f, x);
    }
  }

  lemma {:induction false} ShownReady(f: Forest, v: View, n: Id)
    requires Shown(f, v)
    ensures Settled(f, v, n) && Ready(f, v, n)
  {
  }

  lemma {:induction false} OpenedShown(f: Forest, v: View, w: View, n: Id, start: bool)
    requires Wf(f) && n in f.up && Shown(f, v) && Settled(f, w, n) && w.expanded !! w.collapsed
    requires Step(Opened(v, n), w, BelowOf(f, n), start)
    ensures Shown(f, w)
  {
    assert Sits(f, n);
    forall x: Id ensures (x !in Branch(f, n) ==> SameAt(v, w, x)) && (x == n ==> (x in v.visible <==> x in w.visible)) {
      assert StepAt(Opened(v, n), w, BelowOf(f, n), start, x);
    }
    assert StepAt(Opened(v, n), w, BelowOf(f, n), start, n);
    ShownStays(f, v, w, n);
  }

  lemma {:induction false} RevealedUp(f: Forest, v: View, w: View, n: Id, start: bool)
    requires Wf(f) && n in f.children && Shown(f, w) && n in w.expanded
    requires n in f.parent ==> f.parent[n] in f.up && f.parent[n] in v.expanded && f.up[f.parent[n]] <= v.expanded
    requires Step(Opened(v, n), w, BelowOf(f, n), start)
    ensures f.up[n] <= w.expanded && n in w.visible && forall c :: c in f.children[n] ==> c in w.visible
  {
    assert Sits(f, n);
    forall a | a in f.up[n] ensures a in w.expanded {
      UpApart(f, n, a);
      assert StepAt(Opened(v, n), w, BelowOf(f, n), start, a);
    }
    VisibleLaw(f, w, n);
    forall c | c in f.children[n] ensures c in w.visible {
      assert c in f.parent && f.parent[c] == n && InPlace(f, w, c);
    }
  }

  lemma {:induction false} UpApart(f: Forest, n: Id, a: Id)
    requires Acyclic(f) && n in f.up && a in f.up[n]
    ensures n in f.parent && a !in BelowOf(f, n)
  {
    assert Sits(f, n);
    UpTransitive(f, a, n);
  }

  /** The roots before number `i` are shown with their branches in place; the others are fresh. */
  ghost predicate RootsShown(f: Forest, v: View, roots: seq<Id>, i: nat)
    requires i <= |roots|
  {
    && (forall j :: 0 <= j < i ==> roots[j] in v.visible && roots[j] in v.initialized && Settled(f, v, roots[j]))
    && (forall j :: i <= j < |roots| ==> Ready(f, v, roots[j]))
  }

  lemma {:induction false} RootsNext(f: Forest, v: View, w: View, roots: seq<Id>, i: nat, start: bool)
    requires Wf(f) && Elements(roots) == f.up.Keys - f.parent.Keys && i < |roots| && RootsShown(f, v, roots, i)
    requires Step(v, w, Branch(f, roots[i]), start) && roots[i] in w.visible && roots[i] in w.initialized && Settled(f, w, roots[i])
    ensures RootsShown(f, w, roots, i + 1)
  {
    forall j | 0 <= j < |roots| && roots[j] != roots[i]
      ensures Ready(f, w, roots[j])
      ensures j < i ==> roots[j] in w.visible && roots[j] in w.initialized && Settled(f, w, roots[j])
    {
      assert roots[j] in Elements(roots) && roots[i] in Elements(roots);
      OtherRoot(f, v, w, roots[i], roots[j], start);
    }
  }

  lemma {:induction false} OtherRoot(f: Forest, v: View, w: View, r: Id, s: Id, start: bool)
    requires Acyclic(f) && r in f.up && s in f.up && r !in f.parent && s !in f.parent && r != s
    requires Step(v, w, Branch(f, r), start) && Ready(f, v, s)
    ensures Ready(f, w, s) && (Settled(f, v, s) ==> Settled(f, w, s))
    ensures (s in v.visible ==> s in w.visible) && (s in v.initialized ==> s in w.initialized)
  {
    RootsApart(f, r, s);
    assert s in Branch(f, s);
    forall x | x in Branch(f, s) ensures SameAt(v, w, x) { assert StepAt(v, w, Branch(f, r), start, x); }
    ReadyStays(f, v, w, s);
  }

  lemma {:induction false} RootsApart(f: Forest, r: Id, s: Id)
    requires Acyclic(f) && r in f.up && s in f.up && r !in f.parent && s !in f.parent && r != s
    ensures Branch(f, r) !! Branch(f, s)
  {
    forall x | x in Branch(f, r) ensures x !in Branch(f, s) { RootsApartAt(f, r, s, x); }
  }

  lemma {:induction false} RootsApartAt(f: Forest, r: Id, s: Id, x: Id)
    requires Acyclic(f) && r in f.up && s in f.up && r !in f.parent && s !in f.parent && r != s && x in f.up
    ensures !(x in Branch(f, r) && x in Branch(f, s))
    decreases |f.up[x]|
  {
    assert Sits(f, x);
    if x in f.parent {
      UpStep(f, x);
      RootsApartAt(f, r, s, f.parent[x]);
    }
  }

  lemma {:induction false} RootOf(f: Forest, x: Id) returns (r: Id)
    requires Acyclic(f) && x in f.up
    ensures r in f.up && r !in f.parent && x in Branch(f, r)
    decreases |f.up[x]|
  {
    if x in f.parent {
      UpStep(f, x);
      r := RootOf(f, f.parent[x]);
    } else {
      r := x;
    }
  }

  lemma {:induction false} RootsAll(f: Forest, v: View, roots: seq<Id>)
    requires Wf(f) && Elements(roots) == f.up.Keys - f.parent.Keys && RootsShown(f, v, roots, |roots|)
    requires v.expanded !! v.collapsed
    ensures Shown(f, v)
  {
    forall x | x in f.up ensures InPlace(f, v, x) && (x !in f.parent ==> x in v.visible) {
      assert Sits(f, x);
      var r := RootOf(f, x);
      assert r in Elements(roots);
      assert r in roots;
      var j :| 0 <= j < |roots| && roots[j] == r;
      assert Settled(f, v, r);
      if x != r { assert x in BelowOf(f, r); }
    }
  }
}
