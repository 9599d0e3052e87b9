/** Which rows of a tree table are visible: expanding, collapsing and revealing, with nodes initialised on their first show. */
module TreeViews {
  import opened Forests

  /** The rows that are displayed, the two classes rows may carry, and the nodes already initialised. */
  datatype View = View(visible: set<Id>, expanded: set<Id>, collapsed: set<Id>, initialized: set<Id>)

  // ---------- What is in place ----------

  /** A child row is visible exactly when its parent is visible and expanded, and a visible node is initialised. */
  ghost predicate InPlace(f: Forest, v: View, x: Id) {
    && (x in f.parent ==> (x in v.visible <==> f.parent[x] in v.visible && f.parent[x] in v.expanded))
    && (x in v.visible ==> x in v.initialized)
  }

  ghost predicate Settled(f: Forest, v: View, n: Id) {
    forall x :: x in BelowOf(f, n) ==> InPlace(f, v, x)
  }

  /** No node of the branch has been touched. */
  ghost predicate Fresh(f: Forest, v: View, n: Id) {
    forall x :: x in Branch(f, n) ==> x !in v.expanded && x !in v.collapsed && x !in v.initialized
  }

  ghost predicate Ready(f: Forest, v: View, n: Id) {
    Fresh(f, v, n) || Settled(f, v, n)
  }

  ghost predicate KidsReady(f: Forest, v: View, n: Id, i: nat)
    requires n in f.children
  {
    forall j :: i <= j < |f.children[n]| ==> Ready(f, v, f.children[n][j])
  }

  /** All rows are in place, and the roots are visible. */
  ghost predicate Shown(f: Forest, v: View) {
    && v.expanded !! v.collapsed
    && (forall x :: x in f.up ==> InPlace(f, v, x))
    && (forall x :: x in f.up && x !in f.parent ==> x in v.visible)
  }

  /** A row is visible if and only if all its proper ancestors are expanded. */
  lemma {:induction false} VisibleLaw(f: Forest, v: View, x: Id)
    requires Acyclic(f) && Shown(f, v) && x in f.up
    ensures x in v.visible <==> f.up[x] <= v.expanded
    decreases |f.up[x]|
  {
    assert InPlace(f, v, x) && Sits(f, x);
    if x in f.parent {
      var p := f.parent[x];
      UpStep(f, x);
      VisibleLaw(f, v, p);
    }
  }

  /** What is visible depends on what is expanded alone, not on the calls that led there. */
  lemma {:induction false} SameExpandedSameRows(f: Forest, v: View, w: View)
    requires Acyclic(f) && Shown(f, v) && Shown(f, w) && v.expanded * f.up.Keys == w.expanded * f.up.Keys
    ensures v.visible * f.up.Keys == w.visible * f.up.Keys
  {
    forall x | x in f.up ensures x in v.visible <==> x in w.visible {
      VisibleLaw(f, v, x);
      VisibleLaw(f, w, x);
      UpKnown(f, x);
      assert forall a :: a in f.up[x] ==> (a in v.expanded <==> a in v.expanded * f.up.Keys);
    }
  }

  // ---------- What a step may change ----------

  ghost predicate SameFlags(v: View, w: View, x: Id) {
    (x in v.expanded <==> x in w.expanded) && (x in v.collapsed <==> x in w.collapsed)
  }

  ghost predicate SameAt(v: View, w: View, x: Id) {
    SameFlags(v, w, x) && (x in v.visible <==> x in w.visible) && (x in v.initialized <==> x in w.initialized)
  }

  ghost predicate StepAt(v: View, w: View, part: set<Id>, start: bool, x: Id) {
    && (x !in part ==> SameAt(v, w, x))
    && (x in v.initialized ==> x in w.initialized)
    && (x in v.initialized || x !in w.initialized ==> SameFlags(v, w, x))
    && (x in w.initialized && x !in v.initialized ==> (x in w.collapsed <==> start) && (x in w.expanded <==> !start))
  }

  /** Nothing changes outside the part; inside, rows are shown and hidden, and a node's classes change only when it is
      initialised, to the initial state (`start` says that this is the collapsed one). */
  ghost predicate Step(v: View, w: View, part: set<Id>, start: bool) {
    forall x: Id :: StepAt(v, w, part, start, x)
  }

  /** The node's classes have changed only if it was initialised, to the initial state. */
  ghost predicate OnlyInitialized(v: View, w: View, start: bool, x: Id) {
    && (x in v.initialized ==> x in w.initialized)
    && (x in v.initialized || x !in w.initialized ==> SameFlags(v, w, x))
    && (x in w.initialized && x !in v.initialized ==> (x in w.collapsed <==> start) && (x in w.expanded <==> !start))
  }

  /** No node outside the set has changed but for its initialisation. */
  ghost predicate OthersKept(v: View, w: View, some: set<Id>, start: bool) {
    forall x: Id :: x !in some ==> OnlyInitialized(v, w, start, x)
  }

  lemma {:induction false} StepKeeps(v: View, w: View, part: set<Id>, start: bool)
    requires Step(v, w, part, start)
    ensures OthersKept(v, w, {}, start)
  {
    forall x: Id ensures OnlyInitialized(v, w, start, x) { assert StepAt(v, w, part, start, x); }
  }

  lemma {:induction false} OpenedKeeps(v: View, w: View, n: Id, part: set<Id>, start: bool)
    requires Step(Opened(v, n), w, part, start)
    ensures OthersKept(v, w, {n}, start)
  {
    forall x: Id | x != n ensures OnlyInitialized(v, w, start, x) { assert StepAt(Opened(v, n), w, part, start, x); }
  }

  lemma {:induction false} KeptTwice(v: View, w: View, u: View, some: set<Id>, more: set<Id>, start: bool)
    requires OthersKept(v, w, some, start) && OthersKept(w, u, more, start)
    ensures OthersKept(v, u, some + more, start)
  {
    forall x: Id | x !in some + more ensures OnlyInitialized(v, u, start, x) {
      assert OnlyInitialized(v, w, start, x) && OnlyInitialized(w, u, start, x);
    }
  }

  /** What rendering leaves of an untouched table. */
  ghost predicate Rendered(f: Forest, v: View, start: bool) {
    forall x :: x in f.up ==>
      && (x in v.visible <==> !start || x !in f.parent)
      && (x in v.expanded <==> !start) && (x !in f.parent ==> (x in v.collapsed <==> start))
  }

  lemma {:induction false} AllOpen(f: Forest, v: View, w: View, x: Id)
    requires Acyclic(f) && Shown(f, w) && OthersKept(v, w, {}, false) && x in f.up
    requires forall y :: y in f.up ==> y !in v.expanded && y !in v.collapsed && y !in v.initialized
    ensures x in w.visible && x in w.expanded && x !in w.collapsed
    decreases |f.up[x]|
  {
    assert InPlace(f, w, x) && Sits(f, x) && OnlyInitialized(v, w, false, x);
    if x in f.parent {
      UpStep(f, x);
      AllOpen(f, v, w, f.parent[x]);
    }
  }

  lemma {:induction false} OnlyRoots(f: Forest, v: View, w: View, x: Id)
    requires Acyclic(f) && Shown(f, w) && OthersKept(v, w, {}, true) && x in f.up
    requires forall y :: y in f.up ==> y !in v.expanded && y !in v.collapsed && y !in v.initialized
    ensures (x in w.visible <==> x !in f.parent) && x !in w.expanded && (x !in f.parent ==> x in w.collapsed)
  {
    assert InPlace(f, w, x) && Sits(f, x) && OnlyInitialized(v, w, true, x);
    if x in f.parent {
      UpStep(f, x);
      assert OnlyInitialized(v, w, true, f.parent[x]);
    }
  }

  lemma {:induction false} RenderedRows(f: Forest, v: View, w: View, start: bool)
    requires Acyclic(f) && Shown(f, w) && OthersKept(v, w, {}, start)
    requires forall x :: x in f.up ==> x !in v.expanded && x !in v.collapsed && x !in v.initialized
    ensures Rendered(f, w, start)
  {
    forall x | x in f.up
      ensures (x in w.visible <==> !start || x !in f.parent) && (x in w.expanded <==> !start)
      ensures x !in f.parent ==> (x in w.collapsed <==> start)
    {
      if start { OnlyRoots(f, v, w, x); } else { AllOpen(f, v, w, x); }
    }
  }

  lemma {:induction false} StepTwice(v: View, w: View, u: View, part: set<Id>, more: set<Id>, start: bool)
    requires Step(v, w, part, start) && Step(w, u, more, start)
    ensures Step(v, u, part + more, start)
  {
    forall x: Id ensures StepAt(v, u, part + more, start, x) {
      assert StepAt(v, w, part, start, x) && StepAt(w, u, more, start, x);
    }
  }

  lemma {:induction false} StepWider(v: View, w: View, part: set<Id>, more: set<Id>, start: bool)
    requires Step(v, w, part, start) && part <= more
    ensures Step(v, w, more, start)
  {
    forall x: Id ensures StepAt(v, w, more, start, x) {
      assert StepAt(v, w, part, start, x);
    }
  }

  // ---------- Branches apart from each other ----------

  lemma {:induction false} ParentInside(f: Forest, n: Id, x: Id)
    requires Acyclic(f) && x in f.parent
    ensures x in BelowOf(f, n) <==> f.parent[x] in Branch(f, n)
  {
    UpStep(f, x);
  }

  lemma {:induction false} PlaceStays(f: Forest, v: View, w: View, x: Id)
    requires InPlace(f, v, x) && SameAt(v, w, x) && (x in f.parent ==> SameAt(v, w, f.parent[x]))
    ensures InPlace(f, w, x)
  {
  }

  lemma {:induction false} SettledStays(f: Forest, v: View, w: View, n: Id)
    requires Acyclic(f) && Settled(f, v, n) && forall x :: x in Branch(f, n) ==> SameAt(v, w, x)
    ensures Settled(f, w, n)
  {
    forall x | x in BelowOf(f, n) ensures InPlace(f, w, x) {
      assert InPlace(f, v, x) && x in Branch(f, n);
      if x in f.parent { ParentInside(f, n, x); }
      PlaceStays(f, v, w, x);
    }
  }

  lemma {:induction false} ReadyStays(f: Forest, v: View, w: View, n: Id)
    requires Acyclic(f) && Ready(f, v, n) && forall x :: x in Branch(f, n) ==> SameAt(v, w, x)
    ensures Ready(f, w, n) && (Settled(f, v, n) ==> Settled(f, w, n))
  {
    if Settled(f, v, n) {
      SettledStays(f, v, w, n);
    } else {
      assert Fresh(f, v, n);
      assert Fresh(f, w, n);
    }
  }

  lemma {:induction false} KidReady(f: Forest, v: View, n: Id, c: Id)
    requires Acyclic(f) && c in f.parent && f.parent[c] == n && Ready(f, v, n)
    ensures Ready(f, v, c)
  {
    ChildBranch(f, c);
    if Settled(f, v, n) {
      forall x | x in BelowOf(f, c) ensures InPlace(f, v, x) { assert x in BelowOf(f, n); }
    } else {
      forall x | x in Branch(f, c) ensures x !in v.expanded && x !in v.collapsed && x !in v.initialized {
        assert x in Branch(f, n);
      }
    }
  }

  lemma {:induction false} KidsOf(f: Forest, v: View, n: Id)
    requires Wf(f) && n in f.children && Ready(f, v, n)
    ensures KidsReady(f, v, n, 0)
  {
    forall j | 0 <= j < |f.children[n]| ensures Ready(f, v, f.children[n][j]) {
      ChildOf(f, n, j);
      KidReady(f, v, n, f.children[n][j]);
    }
  }

  /** A change of the node alone leaves its children's branches ready. */
  lemma {:induction false} KidsStay(f: Forest, v: View, w: View, n: Id)
    requires Wf(f) && n in f.children && KidsReady(f, v, n, 0) && forall x :: x in BelowOf(f, n) ==> SameAt(v, w, x)
    ensures KidsReady(f, w, n, 0)
  {
    forall j | 0 <= j < |f.children[n]| ensures Ready(f, w, f.children[n][j]) {
      ChildOf(f, n, j);
      ChildBranch(f, f.children[n][j]);
      ReadyStays(f, v, w, f.children[n][j]);
    }
  }

  // ---------- Showing the children one by one ----------

  /** The children before number `i` are shown and their branches in place; the others are ready. */
  ghost predicate ShownTo(f: Forest, v: View, n: Id, i: nat)
    requires n in f.children && i <= |f.children[n]|
  {
    && (forall j :: 0 <= j < i ==>
          f.children[n][j] in v.visible && f.children[n][j] in v.initialized && Settled(f, v, f.children[n][j]))
    && KidsReady(f, v, n, i)
  }

  lemma {:induction false} ShowNext(f: Forest, v: View, w: View, n: Id, i: nat, start: bool)
    requires Wf(f) && n in f.children && i < |f.children[n]| && ShownTo(f, v, n, i)
    requires Step(v, w, Branch(f, f.children[n][i]), start)
    requires f.children[n][i] in w.visible && f.children[n][i] in w.initialized && Settled(f, w, f.children[n][i])
    ensures ShownTo(f, w, n, i + 1)
  {
    forall j | 0 <= j < |f.children[n]| && j != i
      ensures Ready(f, w, f.children[n][j])
      ensures j < i ==> f.children[n][j] in w.visible && f.children[n][j] in w.initialized && Settled(f, w, f.children[n][j])
    {
      OtherKid(f, v, w, n, i, j, start);
    }
  }

  lemma {:induction false} OtherKid(f: Forest, v: View, w: View, n: Id, i: nat, j: nat, start: bool)
    requires Wf(f) && n in f.children && i < |f.children[n]| && j < |f.children[n]| && i != j
    requires Step(v, w, Branch(f, f.children[n][i]), start) && Ready(f, v, f.children[n][j])
    ensures Ready(f, w, f.children[n][j])
    ensures Settled(f, v, f.children[n][j]) ==> Settled(f, w, f.children[n][j])
    ensures f.children[n][j] in v.visible ==> f.children[n][j] in w.visible
    ensures f.children[n][j] in v.initialized ==> f.children[n][j] in w.initialized
  {
    var c, d := f.children[n][i], f.children[n][j];
    if i < j { ChildrenApart(f, n, i, j); } else { ChildrenApart(f, n, j, i); }
    ChildOf(f, n, j);
    assert d in f.up && d in Branch(f, d);
    forall x | x in Branch(f, d) ensures SameAt(v, w, x) { assert StepAt(v, w, Branch(f, c), start, x); }
    ReadyStays(f, v, w, d);
  }

  lemma {:induction false} AllShown(f: Forest, v: View, n: Id)
    requires Wf(f) && n in f.children && n in v.visible && n in v.expanded && ShownTo(f, v, n, |f.children[n]|)
    ensures Settled(f, v, n)
  {
    forall x | x in BelowOf(f, n) ensures InPlace(f, v, x) {
      var c := BelowIsUnderChild(f, n, x);
      assert c in f.children[n];
      var j :| 0 <= j < |f.children[n]| && f.children[n][j] == c;
      assert Settled(f, v, c);
      if x != c { assert x in BelowOf(f, c); }
    }
  }

  // ---------- One node ----------

  function Opened(v: View, n: Id): View {
    v.(expanded := v.expanded + {n}, collapsed := v.collapsed - {n})
  }

  function Closed(v: View, n: Id): View {
    v.(expanded := v.expanded - {n}, collapsed := v.collapsed + {n})
  }

  function Hidden(v: View, rows: set<Id>): View {
    v.(visible := v.visible - rows)
  }

  /** A node that is not expanded hides everything below it. */
  lemma {:induction false} HiddenSettled(f: Forest, v: View, n: Id)
    requires Acyclic(f) && n in f.up && n !in v.expanded
    ensures Settled(f, Hidden(v, BelowOf(f, n)), n)
  {
    var w := Hidden(v, BelowOf(f, n));
    forall x | x in BelowOf(f, n) ensures InPlace(f, w, x) {
      assert Sits(f, x);
      UpStep(f, x);
    }
  }

  lemma {:induction false} OpenedSettled(f: Forest, v: View, n: Id)
    requires Acyclic(f) && Settled(f, v, n) && n !in v.visible
    ensures Settled(f, Opened(v, n), n)
  {
    var w := Opened(v, n);
    forall x | x in BelowOf(f, n) ensures InPlace(f, w, x) { assert InPlace(f, v, x); }
  }

  lemma {:induction false} RaisedSettled(f: Forest, v: View, n: Id)
    requires Acyclic(f) && Settled(f, v, n) && n !in v.expanded
    ensures Settled(f, v.(visible := v.visible + {n}), n)
  {
    var w := v.(visible := v.visible + {n});
    forall x | x in BelowOf(f, n) ensures InPlace(f, w, x) {
      assert Sits(f, x) && InPlace(f, v, x) && x != n;
      assert x in f.parent ==> f.parent[x] == n || f.parent[x] in BelowOf(f, n) by {
        if x in f.parent { UpStep(f, x); }
      }
    }
  }

  /** A change inside one branch that leaves the branch in place, and its top as visible as it was, keeps all in place. */
  lemma {:induction false} ShownStays(f: Forest, v: View, w: View, n: Id)
    requires Acyclic(f) && n in f.up && Shown(f, v) && Settled(f, w, n) && w.expanded !! w.collapsed
    requires forall x :: x !in Branch(f, n) ==> SameAt(v, w, x)
    requires (n in v.visible <==> n in w.visible) && (n in v.initialized ==> n in w.initialized)
    ensures Shown(f, w)
  {
    forall x | x in f.up ensures InPlace(f, w, x) {
      assert InPlace(f, v, x);
      if x !in BelowOf(f, n) { PlaceOutside(f, v, w, n, x); }
    }
    forall x | x in f.up && x !in f.parent ensures x in w.visible {
      assert Sits(f, x) && x in v.visible;
      if x != n { assert x !in Branch(f, n); assert SameAt(v, w, x); }
    }
  }

  lemma {:induction false} PlaceOutside(f: Forest, v: View, w: View, n: Id, x: Id)
    requires Acyclic(f) && x in f.up && x !in BelowOf(f, n) && InPlace(f, v, x)
    requires forall y :: y !in Branch(f, n) ==> SameAt(v, w, y)
    requires (n in v.visible <==> n in w.visible) && (n in v.initialized ==> n in w.initialized)
    ensures InPlace(f, w, x)
  {
    if x != n { assert x !in Branch(f, n) && SameAt(v, w, x); }
    if x in f.parent {
      ParentInside(f, n, x);
      assert SameAt(v, w, f.parent[x]);
    }
  }
}
