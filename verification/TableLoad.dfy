/** Reading the table rows into nodes: what a table in pre-order gives. */
module TableLoads {
  import opened Common
  import opened Forests
  import opened Branches
  import opened Surgery
  import opened TableRows

  /** A table row with its id and the id of its parent. */
  datatype Row = Row(id: Id, parent: Option<Id>)

  function Ids(input: seq<Row>): (ids: seq<Id>)
    ensures |ids| == |input| && forall i :: 0 <= i < |input| ==> ids[i] == input[i].id
  {
    if input == [] then [] else [input[0].id] + Ids(input[1..])
  }

  /** One more row read: it becomes a node, and a child if its parent is known. */
  function Grown(f: Forest, row: Row): Forest {
    var children := f.children[row.id := []];
    match row.parent
    case None => Forest(f.parent, children, f.up[row.id := {}])
    case Some(p) =>
      Forest(f.parent[row.id := p],
             if p in children then Attached(children, row.id, p) else children,
             f.up[row.id := if p in f.up then {p} + f.up[p] else {}])
  }

  function Loaded(input: seq<Row>): Forest {
    if input == [] then Forest(map[], map[], map[])
    else Grown(Loaded(input[..|input| - 1]), input[|input| - 1])
  }

  function Upto(s: seq<Id>, p: Id): seq<Id> {
    if s == [] then [] else if s[0] == p then [p] else [s[0]] + Upto(s[1..], p)
  }

  /** The last row read and its ancestors, topmost first. */
  function Trail(input: seq<Row>): seq<Id> {
    if input == [] then []
    else
      var last := input[|input| - 1];
      (if last.parent.None? then [] else Upto(Trail(input[..|input| - 1]), last.parent.value)) + [last.id]
  }

  /** A table in pre-order: every row is a root or a child of the row before it or of one of that row's ancestors. */
  predicate PreOrdered(input: seq<Row>) {
    NoDuplicates(Ids(input)) && forall k :: 0 <= k < |input| ==> OnTrail(input, k)
  }

  predicate OnTrail(input: seq<Row>, k: nat)
    requires k < |input|
  {
    input[k].parent.Some? ==> input[k].parent.value in Trail(input[..k])
  }

  /** The members are the last rows, headed by the given one. */
  ghost predicate Trailing(rows: seq<Id>, members: set<Id>, head: Id) {
    exists x, y :: Splits(rows, members, head, x, y, [])
  }

  ghost predicate TrailOk(f: Forest, trail: seq<Id>, rows: seq<Id>) {
    forall i :: 0 <= i < |trail| ==> TrailOkAt(f, trail, rows, i)
  }

  ghost predicate TrailOkAt(f: Forest, trail: seq<Id>, rows: seq<Id>, i: nat)
    requires i < |trail|
  {
    && trail[i] in f.up && f.up[trail[i]] == Elements(trail[..i])
    && Trailing(rows, Branch(f, trail[i]), trail[i])
  }

  // ---------- One row ----------

  lemma {:induction false} GrownAcyclic(f: Forest, row: Row)
    requires Acyclic(f) && row.id !in f.up && (row.parent.Some? ==> row.parent.value in f.up)
    ensures Acyclic(Grown(f, row))
  {
    var g := Grown(f, row);
    forall x | x in g.up ensures Sits(g, x) {
      if x == row.id {
        if row.parent.Some? { UpKnown(f, row.parent.value); }
      } else {
        assert Sits(f, x);
      }
    }
  }

  lemma {:induction false} GrownLinked(f: Forest, row: Row)
    requires Wf(f) && row.id !in f.up && (row.parent.Some? ==> row.parent.value in f.up)
    ensures Linked(Grown(f, row))
  {
    var g := Grown(f, row);
    forall p | p in f.children ensures row.id !in f.children[p] {
      assert row.id !in f.parent;
    }
    forall p, c | p in g.children ensures c in g.children[p] <==> c in g.parent && g.parent[c] == p {
      if c != row.id && p == row.id && c in f.parent { UpStep(f, c); }
    }
  }

  lemma {:induction false} GrownWf(f: Forest, row: Row)
    requires Wf(f) && row.id !in f.up && (row.parent.Some? ==> row.parent.value in f.up)
    ensures Wf(Grown(f, row)) && Grown(f, row).up.Keys == f.up.Keys + {row.id}
  {
    GrownAcyclic(f, row);
    GrownLinked(f, row);
  }

  lemma {:induction false} GrownBranch(f: Forest, row: Row, m: Id)
    requires Acyclic(f) && row.id !in f.up && (row.parent.Some? ==> row.parent.value in f.up)
    ensures Branch(Grown(f, row), m) ==
            if m == row.id then {row.id}
            else if row.parent.Some? && row.parent.value in Branch(f, m) then Branch(f, m) + {row.id}
            else Branch(f, m)
  {
    if m == row.id {
      forall x | x in f.up ensures m !in f.up[x] { UpKnown(f, x); }
    }
  }

  // ---------- The row's place ----------

  lemma {:induction false} UptoIndex(s: seq<Id>, p: Id) returns (i: nat)
    requires p in s
    ensures i < |s| && s[i] == p && Upto(s, p) == s[..i + 1]
  {
    if s[0] == p {
      i := 0;
    } else {
      i := UptoIndex(s[1..], p);
      i := i + 1;
    }
  }

  lemma {:induction false} TrailingMore(rows: seq<Id>, members: set<Id>, head: Id, id: Id)
    requires Trailing(rows, members, head) && id !in Elements(rows)
    ensures Trailing(rows + [id], members + {id}, head)
  {
    var x, y :| Splits(rows, members, head, x, y, []);
    assert rows == x + y;
    ElementsConcat(x, y);
    ElementsConcat(y, [id]);
    assert rows + [id] == x + (y + [id]) + [];
    assert Splits(rows + [id], members + {id}, head, x, y + [id], []);
  }

  lemma {:induction false} TrailingSelf(rows: seq<Id>, id: Id)
    requires id !in Elements(rows)
    ensures Trailing(rows + [id], {id}, id)
  {
    assert rows + [id] == rows + [id] + [];
    assert Splits(rows + [id], {id}, id, rows, [id], []);
  }

  lemma {:induction false} TrailingBlock(rows: seq<Id>, members: set<Id>, head: Id)
    requires Trailing(rows, members, head)
    ensures Block(rows, members, head)
  {
    var x, y :| Splits(rows, members, head, x, y, []);
  }

  /** `kept` is the part of the trail down to the parent of the row. */
  ghost predicate Kept(f: Forest, trail: seq<Id>, row: Row, kept: seq<Id>) {
    && (row.parent.None? ==> kept == [])
    && (row.parent.Some? ==> row.parent.value in f.up && f.up[row.parent.value] + {row.parent.value} == Elements(kept))
    && kept <= trail
  }

  lemma {:induction false} KeptUpto(f: Forest, trail: seq<Id>, rows: seq<Id>, row: Row)
    requires TrailOk(f, trail, rows) && (row.parent.Some? ==> row.parent.value in trail)
    ensures Kept(f, trail, row, if row.parent.None? then [] else Upto(trail, row.parent.value))
  {
    if row.parent.Some? {
      var j := UptoIndex(trail, row.parent.value);
      assert TrailOkAt(f, trail, rows, j);
      assert trail[..j + 1] == trail[..j] + [trail[j]];
      ElementsConcat(trail[..j], [trail[j]]);
    }
  }

  lemma {:induction false} TrailStays(f: Forest, trail: seq<Id>, rows: seq<Id>, row: Row, kept: seq<Id>, i: nat)
    requires Acyclic(f) && TrailOk(f, trail, rows) && row.id !in f.up && Elements(rows) == f.up.Keys
    requires Kept(f, trail, row, kept) && i < |kept|
    ensures TrailOkAt(Grown(f, row), kept + [row.id], rows + [row.id], i)
  {
    var m := kept[i];
    assert m == trail[i] && TrailOkAt(f, trail, rows, i);
    assert (kept + [row.id])[..i] == trail[..i];
    assert m in Elements(kept);
    GrownBranch(f, row, m);
    TrailingMore(rows, Branch(f, m), m, row.id);
  }

  /** The trail goes back to the parent and on to the new row. */
  lemma {:induction false} TrailGrows(f: Forest, trail: seq<Id>, rows: seq<Id>, row: Row, kept: seq<Id>)
    requires Acyclic(f) && TrailOk(f, trail, rows) && row.id !in f.up && Elements(rows) == f.up.Keys
    requires Kept(f, trail, row, kept)
    ensures TrailOk(Grown(f, row), kept + [row.id], rows + [row.id])
  {
    var longer, g := kept + [row.id], Grown(f, row);
    forall i | 0 <= i < |longer| ensures TrailOkAt(g, longer, rows + [row.id], i) {
      if i < |kept| {
        TrailStays(f, trail, rows, row, kept, i);
      } else {
        assert longer[..i] == kept;
        GrownBranch(f, row, row.id);
        TrailingSelf(rows, row.id);
      }
    }
  }

  lemma {:induction false} GrownBlock(f: Forest, trail: seq<Id>, rows: seq<Id>, row: Row, kept: seq<Id>, m: Id)
    requires Acyclic(f) && row.id !in f.up && Elements(rows) == f.up.Keys && Contiguous(f, rows)
    requires Kept(f, trail, row, kept)
    requires TrailOk(Grown(f, row), kept + [row.id], rows + [row.id])
    requires m in f.up || m == row.id
    ensures Block(rows + [row.id], Branch(Grown(f, row), m), m)
  {
    var longer := kept + [row.id];
    if m in longer {
      var i :| 0 <= i < |longer| && longer[i] == m;
      assert TrailOkAt(Grown(f, row), longer, rows + [row.id], i);
      TrailingBlock(rows + [row.id], Branch(Grown(f, row), m), m);
    } else {
      assert longer[|kept|] == row.id;
      assert forall x :: x in kept ==> x in longer;
      assert m !in Elements(kept);
      GrownBranch(f, row, m);
      BlockFirst(rows, [row.id], Branch(f, m), m);
    }
  }

  lemma {:induction false} ListsMore(s: seq<Id>, members: set<Id>, id: Id)
    requires Lists(s, members) && id !in members
    ensures Lists(s + [id], members + {id})
  {
    ListsEach(s, members);
    ListsEach(s + [id], members + {id});
    DistinctConcat(s, [id]);
    ElementsConcat(s, [id]);
  }

  lemma {:induction false} GrownContiguous(f: Forest, trail: seq<Id>, rows: seq<Id>, row: Row, kept: seq<Id>)
    requires Acyclic(f) && Lists(rows, f.up.Keys) && Contiguous(f, rows) && row.id !in f.up
    requires TrailOk(f, trail, rows) && Kept(f, trail, row, kept)
    ensures TrailOk(Grown(f, row), kept + [row.id], rows + [row.id])
    ensures Contiguous(Grown(f, row), rows + [row.id])
  {
    ListsEach(rows, f.up.Keys);
    TrailGrows(f, trail, rows, row, kept);
    var g, more := Grown(f, row), rows + [row.id];
    forall m | m in g.up ensures Block(more, Branch(g, m), m) {
      GrownBlock(f, trail, rows, row, kept, m);
    }
  }

  lemma {:induction false} GrownInStep(f: Forest, trail: seq<Id>, rows: seq<Id>, row: Row, kept: seq<Id>)
    requires InStep(f, rows, rows) && row.id !in f.up
    requires TrailOk(f, trail, rows) && Kept(f, trail, row, kept)
    ensures InStep(Grown(f, row), rows + [row.id], rows + [row.id])
    ensures TrailOk(Grown(f, row), kept + [row.id], rows + [row.id])
  {
    var g := Grown(f, row);
    GrownWf(f, row);
    GrownContiguous(f, trail, rows, row, kept);
    ListsMore(rows, f.up.Keys, row.id);
    assert Wf(g) && Lists(rows + [row.id], g.up.Keys);
  }

  lemma {:induction false} PreOrderedPrefix(input: seq<Row>)
    requires PreOrdered(input) && input != []
    ensures
      var before, row := input[..|input| - 1], input[|input| - 1];
      && PreOrdered(before) && Ids(input) == Ids(before) + [row.id] && row.id !in Elements(Ids(before))
      && (row.parent.Some? ==> row.parent.value in Trail(before))
  {
    IdsPrefix(input);
    var n := |input| - 1;
    OnTrailPrefix(input, n);
    assert OnTrail(input, n);
  }

  lemma {:induction false} IdsPrefix(input: seq<Row>)
    requires NoDuplicates(Ids(input)) && input != []
    ensures var before, row := input[..|input| - 1], input[|input| - 1];
            Ids(input) == Ids(before) + [row.id] && row.id !in Elements(Ids(before)) && NoDuplicates(Ids(before))
  {
    var n := |input| - 1;
    assert Ids(input[..n]) == Ids(input)[..n] && Ids(input)[n] == input[n].id;
  }

  lemma {:induction false} OnTrailPrefix(input: seq<Row>, n: nat)
    requires n <= |input| && forall k :: 0 <= k < |input| ==> OnTrail(input, k)
    ensures forall k :: 0 <= k < n ==> OnTrail(input[..n], k)
  {
    forall k | 0 <= k < n ensures OnTrail(input[..n], k) {
      assert OnTrail(input, k) && input[..n][..k] == input[..k];
    }
  }

  lemma {:induction false} LoadedMore(input: seq<Row>, i: nat)
    requires i < |input|
    ensures Loaded(input[..i + 1]) == Grown(Loaded(input[..i]), input[i])
    ensures Ids(input)[..i + 1] == Ids(input)[..i] + [input[i].id]
  {
    assert input[..i + 1][..i] == input[..i];
  }

  /** A table in pre-order gives nodes and rows in step. */
  lemma {:induction false} LoadedInStep(input: seq<Row>)
    requires PreOrdered(input)
    ensures InStep(Loaded(input), Ids(input), Ids(input)) && TrailOk(Loaded(input), Trail(input), Ids(input))
  {
    if input == [] {
    } else {
      var before, row := input[..|input| - 1], input[|input| - 1];
      PreOrderedPrefix(input);
      LoadedInStep(before);
      var trail := Trail(before);
      KeptUpto(Loaded(before), trail, Ids(before), row);
      ListsEach(Ids(before), Loaded(before).up.Keys);
      GrownInStep(Loaded(before), trail, Ids(before), row, if row.parent.None? then [] else Upto(trail, row.parent.value));
    }
  }

  function LoadedTable(input: seq<Row>): Table {
    Table(Loaded(input), Ids(input), Ids(input))
  }

  /** From a table in pre-order, every run of moves, sorts and removals keeps forest, nodes and rows in step. */
  lemma {:induction false} EveryRunInStep(input: seq<Row>, ops: seq<Op>, end: Table)
    requires PreOrdered(input)
    ensures TableInStep(LoadedTable(input))
    ensures Runs(LoadedTable(input), ops, end) ==> TableInStep(end)
  {
    LoadedInStep(input);
    if Runs(LoadedTable(input), ops, end) { RunInStep(LoadedTable(input), ops, end); }
  }
}
