/** The hierarchy of user groups, walked down to all groups below one and up to the top. */
module UserCaches {
  import opened Common

  datatype Group = Group(id: int, parentId: int, childCount: int, config: string)

  /** A text that is appended to in place. */
  class StringBuilder {
    var text: string

    constructor ()
      ensures text == ""
    {
      text := "";
    }

    method Append(more: string)
      modifies this
      ensures text == old(text) + more
    {
      text := text + more;
    }
  }

  // ---------- The hierarchy ----------

  /** Positive ids, each group under its own, and no group above itself: `rank` grows from parent to child. */
  ghost predicate Hierarchy(groups: map<int, Group>, rank: map<int, nat>) {
    forall id :: id in groups ==> Placed(groups, rank, id)
  }

  ghost predicate Placed(groups: map<int, Group>, rank: map<int, nat>, id: int)
    requires id in groups
  {
    && 0 < id == groups[id].id && id in rank
    && (groups[id].parentId in groups ==> groups[id].parentId in rank && rank[groups[id].parentId] < rank[id])
  }

  lemma KnownIsPositive(groups: map<int, Group>, rank: map<int, nat>, id: int)
    requires Hierarchy(groups, rank) && id in groups
    ensures id > 0
  {
    assert Placed(groups, rank, id);
  }

  /** The ids strictly above a group: its parent's, which need not be known, and those above the parent. */
  ghost function Above(groups: map<int, Group>, rank: map<int, nat>, id: int): set<int>
    requires Hierarchy(groups, rank) && id in groups
    decreases rank[id]
  {
    var p := groups[id].parentId;
    assert Placed(groups, rank, id);
    {p} + if p in groups then Above(groups, rank, p) else {}
  }

  /** The known groups from the top down to the given one. */
  ghost function Chain(groups: map<int, Group>, rank: map<int, nat>, id: int): seq<Group>
    requires Hierarchy(groups, rank)
    decreases if id in groups && id in rank then rank[id] + 1 else 0
  {
    if id !in groups then []
    else
      assert Placed(groups, rank, id);
      Chain(groups, rank, groups[id].parentId) + [groups[id]]
  }

  /** The way up ends at the root, id 0, and meets no unknown parent. */
  ghost predicate Complete(groups: map<int, Group>, rank: map<int, nat>, id: int)
    requires Hierarchy(groups, rank)
    decreases if id in groups && id in rank then rank[id] + 1 else 0
  {
    id == 0 || (id in groups && Placed(groups, rank, id) && Complete(groups, rank, groups[id].parentId))
  }

  /** On a complete way up, what lies strictly above a group is the root and the groups before it on its path. */
  lemma {:induction false} AboveIsPath(groups: map<int, Group>, rank: map<int, nat>, id: int, g: int)
    requires Hierarchy(groups, rank) && id in groups && Complete(groups, rank, id)
    ensures Chain(groups, rank, id) != []
    ensures
      var path := Chain(groups, rank, id);
      g in Above(groups, rank, id) <==> g == 0 || exists i :: 0 <= i < |path| - 1 && path[i].id == g
    decreases rank[id]
  {
    var p := groups[id].parentId;
    assert Placed(groups, rank, id);
    var path, upper := Chain(groups, rank, id), Chain(groups, rank, p);
    assert path == upper + [groups[id]];
    if p in groups {
      assert Placed(groups, rank, p);
      AboveIsPath(groups, rank, p, g);
      assert upper[|upper| - 1] == groups[p];
      assert forall i :: 0 <= i < |upper| ==> path[i] == upper[i];
    } else {
      assert upper == [];
    }
  }

  /** A path goes down from parent to child and ends at the group; its top has no known parent. */
  lemma {:induction false} PathLinks(groups: map<int, Group>, rank: map<int, nat>, id: int)
    requires Hierarchy(groups, rank) && id in groups
    ensures var path := Chain(groups, rank, id);
            && path != [] && path[|path| - 1] == groups[id] && path[0].parentId !in groups
            && (forall i :: 0 <= i < |path| ==> path[i].id in groups && groups[path[i].id] == path[i])
            && (forall i :: 1 <= i < |path| ==> path[i].parentId == path[i - 1].id)
    decreases rank[id]
  {
    assert Placed(groups, rank, id);
    var p := groups[id].parentId;
    var path, upper := Chain(groups, rank, id), Chain(groups, rank, p);
    assert path == upper + [groups[id]];
    if p in groups {
      assert Placed(groups, rank, p);
      PathLinks(groups, rank, p);
    } else {
      assert upper == [];
    }
  }

  /** The way up is complete if and only if the path's top stands directly under the root. */
  lemma {:induction false} CompleteFromRoot(groups: map<int, Group>, rank: map<int, nat>, id: int)
    requires Hierarchy(groups, rank) && id in groups
    ensures Chain(groups, rank, id) != [] && (Complete(groups, rank, id) <==> Chain(groups, rank, id)[0].parentId == 0)
    decreases rank[id]
  {
    assert Placed(groups, rank, id);
    var p := groups[id].parentId;
    var path, upper := Chain(groups, rank, id), Chain(groups, rank, p);
    assert path == upper + [groups[id]];
    if p in groups {
      CompleteFromRoot(groups, rank, p);
    } else {
      assert upper == [];
    }
  }

  lemma {:induction false} AboveTransitive(groups: map<int, Group>, rank: map<int, nat>, g: int, c: int, h: int)
    requires Hierarchy(groups, rank) && c in groups && h in groups
    requires g in Above(groups, rank, c) && c in Above(groups, rank, h)
    ensures g in Above(groups, rank, h)
    decreases rank[h]
  {
    var p := groups[h].parentId;
    assert Placed(groups, rank, h);
    if c != p { AboveTransitive(groups, rank, g, c, p); }
  }

  lemma {:induction false} NotAboveItself(groups: map<int, Group>, rank: map<int, nat>, g: int, h: int)
    requires Hierarchy(groups, rank) && g in groups && h in groups && g in Above(groups, rank, h)
    ensures g in rank && h in rank && rank[g] < rank[h]
    decreases rank[h]
  {
    var p := groups[h].parentId;
    assert Placed(groups, rank, h);
    if g != p { NotAboveItself(groups, rank, g, p); }
  }

  // ---------- Going down ----------

  ghost function Below(groups: map<int, Group>, rank: map<int, nat>, g: int): set<int>
    requires Hierarchy(groups, rank)
  {
    set h | h in groups && g in Above(groups, rank, h)
  }

  /** The descent from `g` gets to `h`: each group passed on the way down has a positive child count. */
  ghost predicate Reached(groups: map<int, Group>, rank: map<int, nat>, g: int, h: int)
    requires Hierarchy(groups, rank) && h in groups
    decreases rank[h]
  {
    var p := groups[h].parentId;
    assert Placed(groups, rank, h);
    p == g || (p in groups && groups[p].childCount > 0 && Reached(groups, rank, g, p))
  }

  lemma {:induction false} ReachedIsBelow(groups: map<int, Group>, rank: map<int, nat>, g: int, h: int)
    requires Hierarchy(groups, rank) && h in groups && Reached(groups, rank, g, h)
    ensures g in Above(groups, rank, h)
    decreases rank[h]
  {
    var p := groups[h].parentId;
    assert Placed(groups, rank, h);
    if p != g { ReachedIsBelow(groups, rank, g, p); }
  }

  /** The descent gets to `h` if and only if `g` is strictly above it and no group strictly between them counts no
      children. */
  lemma {:induction false} ReachedExactly(groups: map<int, Group>, rank: map<int, nat>, g: int, h: int)
    requires Hierarchy(groups, rank) && h in groups
    ensures Reached(groups, rank, g, h) <==>
            g in Above(groups, rank, h) &&
            forall c :: c in groups && c in Above(groups, rank, h) && g in Above(groups, rank, c) ==> groups[c].childCount > 0
    decreases rank[h]
  {
    var p := groups[h].parentId;
    assert Placed(groups, rank, h);
    if p in groups { ReachedExactly(groups, rank, g, p); }
    if p == g {
      forall c | c in groups && c in Above(groups, rank, h) ensures g !in Above(groups, rank, c) {
        assert g in groups;
        if g in Above(groups, rank, c) {
          NotAboveItself(groups, rank, g, c);
          if c != g { NotAboveItself(groups, rank, c, g); }
        }
      }
    } else if p in groups {
      forall c | c in groups && c in Above(groups, rank, h) && g in Above(groups, rank, c)
        ensures c == p || c in Above(groups, rank, p)
      {
      }
      if g in Above(groups, rank, h) { assert p in Above(groups, rank, h) && g in Above(groups, rank, p); }
    }
  }

  /** Each group that has a child has a positive child count. */
  predicate ParentsCount(groups: map<int, Group>) {
    forall h :: h in groups && groups[h].parentId in groups ==> groups[groups[h].parentId].childCount > 0
  }

  /** Every descent reaches all groups strictly below where it starts. */
  ghost predicate DescentsComplete(groups: map<int, Group>, rank: map<int, nat>)
    requires Hierarchy(groups, rank)
  {
    forall g: int, h :: h in groups ==> (Reached(groups, rank, g, h) <==> g in Above(groups, rank, h))
  }

  lemma {:induction false} CompleteWhenCounted(groups: map<int, Group>, rank: map<int, nat>)
    requires Hierarchy(groups, rank)
    ensures DescentsComplete(groups, rank) <==> ParentsCount(groups)
  {
    if DescentsComplete(groups, rank) {
      forall h | h in groups && groups[h].parentId in groups ensures groups[groups[h].parentId].childCount > 0 {
        var p := groups[h].parentId;
        var g := groups[p].parentId;
        assert Placed(groups, rank, h) && Placed(groups, rank, p);
        assert g in Above(groups, rank, p) && g in Above(groups, rank, h);
        assert Reached(groups, rank, g, h);
      }
    }
    if ParentsCount(groups) {
      forall g: int, h | h in groups ensures Reached(groups, rank, g, h) <==> g in Above(groups, rank, h) {
        AllReached(groups, rank, g, h);
      }
    }
  }

  /** Group 1 on top, 2 under it with a child count of 0, and 3 under 2. */
  function UncountedGroups(): map<int, Group> {
    map[1 := Group(1, 0, 1, ""), 2 := Group(2, 1, 0, ""), 3 := Group(3, 2, 0, "")]
  }

  /** The descent from 1 stops at 2, whose child count is not right, and misses 3 below it. */
  lemma UncountedExample(rank: map<int, nat>)
    requires rank == map[1 := 0, 2 := 1, 3 := 2]
    ensures Hierarchy(UncountedGroups(), rank)
    ensures 1 in Above(UncountedGroups(), rank, 3) && Reached(UncountedGroups(), rank, 1, 2)
    ensures !Reached(UncountedGroups(), rank, 1, 3)
  {
    var groups := UncountedGroups();
    assert forall id :: id in groups ==> id == 1 || id == 2 || id == 3;
    assert forall id :: id in groups ==> Placed(groups, rank, id);
    assert 1 in Above(groups, rank, 2);
  }

  lemma {:induction false} AllReached(groups: map<int, Group>, rank: map<int, nat>, g: int, h: int)
    requires Hierarchy(groups, rank) && h in groups && ParentsCount(groups)
    ensures Reached(groups, rank, g, h) <==> g in Above(groups, rank, h)
    decreases rank[h]
  {
    assert Placed(groups, rank, h);
    if groups[h].parentId in groups { AllReached(groups, rank, g, groups[h].parentId); }
  }

  /** With right child counts, the descent from `g` gets to a group exactly when `g` is the root or stands before it on
      its path. */
  lemma {:induction false} ReachedIsOnPath(groups: map<int, Group>, rank: map<int, nat>, g: int, h: int)
    requires Hierarchy(groups, rank) && ParentsCount(groups) && h in groups && Complete(groups, rank, h)
    ensures Chain(groups, rank, h) != []
    ensures
      var path := Chain(groups, rank, h);
      Reached(groups, rank, g, h) <==> g == 0 || exists i :: 0 <= i < |path| - 1 && path[i].id == g
  {
    AboveIsPath(groups, rank, h, g);
    AllReached(groups, rank, g, h);
  }

  lemma {:induction false} ChildBelow(groups: map<int, Group>, rank: map<int, nat>, g: int, c: int)
    requires Hierarchy(groups, rank) && c in groups && groups[c].parentId == g
    ensures Below(groups, rank, c) < Below(groups, rank, g)
  {
    assert g in Above(groups, rank, c);
    forall h | h in Below(groups, rank, c) ensures h in Below(groups, rank, g) {
      AboveTransitive(groups, rank, g, c, h);
    }
    if c in Above(groups, rank, c) { NotAboveItself(groups, rank, c, c); }
    assert c in Below(groups, rank, g) && c !in Below(groups, rank, c);
  }

  /** What the descent reaches: the children, and what it reaches from those that count children. */
  lemma {:induction false} ReachedSplits(groups: map<int, Group>, rank: map<int, nat>, g: int, h: int)
    requires Hierarchy(groups, rank) && h in groups
    ensures Reached(groups, rank, g, h) <==>
            groups[h].parentId == g ||
            exists c :: c in groups && groups[c].parentId == g && groups[c].childCount > 0 && Reached(groups, rank, c, h)
    decreases rank[h]
  {
    var p := groups[h].parentId;
    assert Placed(groups, rank, h);
    if p in groups { ReachedSplits(groups, rank, g, p); }
    if p != g && Reached(groups, rank, g, h) {
      if groups[p].parentId == g {
        assert Reached(groups, rank, p, h);
      } else {
        var c :| c in groups && groups[c].parentId == g && groups[c].childCount > 0 && Reached(groups, rank, c, p);
        assert Reached(groups, rank, c, h);
      }
    }
    if p != g && exists c :: c in groups && groups[c].parentId == g && groups[c].childCount > 0 && Reached(groups, rank, c, h) {
      var c :| c in groups && groups[c].parentId == g && groups[c].childCount > 0 && Reached(groups, rank, c, h);
      if c == p { assert Reached(groups, rank, g, p); } else { assert Reached(groups, rank, c, p); }
    }
  }

  /** The configurations of a path, each with a line end, from the top down. */
  function Configs(path: seq<Group>): string {
    if path == [] then "" else Configs(path[..|path| - 1]) + path[|path| - 1].config + "\n"
  }

  /** The configurations stand in path order, each on a line of its own. */
  lemma {:induction false} ConfigsInOrder(upper: seq<Group>, group: Group, lower: seq<Group>)
    ensures Configs([]) == "" && Configs([group]) == group.config + "\n"
    ensures Configs(upper + [group] + lower) == Configs(upper) + group.config + "\n" + Configs(lower)
    decreases |lower|
  {
    assert [group][..0] == [] && "" + group.config + "\n" == group.config + "\n";
    var all := upper + [group] + lower;
    if lower == [] {
      assert all[..|all| - 1] == upper;
    } else {
      var last := |lower| - 1;
      assert all[..|all| - 1] == upper + [group] + lower[..last] && all[|all| - 1] == lower[last];
      ConfigsInOrder(upper, group, lower[..last]);
      JoinConfigs(Configs(upper) + group.config + "\n", Configs(lower[..last]), lower[last].config + "\n");
      JoinConfigs(Configs(upper) + group.config + "\n" + Configs(lower[..last]), lower[last].config, "\n");
      JoinConfigs(Configs(lower[..last]), lower[last].config, "\n");
    }
  }

  lemma JoinConfigs(a: string, b: string, c: string)
    ensures a + (b + c) == a + b + c
  {
  }

  predicate DistinctIds(groups: seq<Group>) {
    forall i, j :: 0 <= i < j < |groups| ==> groups[i].id != groups[j].id
  }

  lemma {:induction false} ListIsMap(groups: seq<Group>, byId: map<int, Group>)
    requires DistinctIds(groups) && forall j :: 0 <= j < |groups| ==> groups[j].id in byId
    requires forall id :: id in byId ==> byId[id] in groups && byId[id].id == id
    ensures forall group :: group in groups <==> group.id in byId && byId[group.id] == group
  {
    forall group | group in groups ensures byId[group.id] == group {
      var i :| 0 <= i < |groups| && groups[i] == group;
      var j :| 0 <= j < |groups| && groups[j] == byId[group.id];
      assert groups[i].id == groups[j].id;
      assert i == j;
    }
  }

  class UserCache {
    const userGroupList: seq<Group>
    var userGroupMap: map<int, Group>
    ghost const rank: map<int, nat>

    constructor (groups: seq<Group>, ghost rank: map<int, nat>)
      ensures userGroupList == groups && this.rank == rank
      ensures forall i :: 0 <= i < |groups| ==> groups[i].id in userGroupMap
      ensures forall id :: id in userGroupMap ==> userGroupMap[id] in groups && userGroupMap[id].id == id
      ensures DistinctIds(groups) && Hierarchy(userGroupMap, rank) ==> Valid()
    {
      userGroupList := groups;
      this.rank := rank;
      var byId := map[];
      for i := 0 to |groups|
        invariant forall j :: 0 <= j < i ==> groups[j].id in byId
        invariant forall id :: id in byId ==> byId[id] in groups && byId[id].id == id
      {
        byId := byId[groups[i].id := groups[i]];
      }
      userGroupMap := byId;
      if DistinctIds(groups) { ListIsMap(groups, byId); }
    }

    /** List and map hold the same groups, and these form a hierarchy. */
    ghost predicate Valid()
      reads this
    {
      && Hierarchy(userGroupMap, rank)
      && forall group :: group in userGroupList <==> group.id in userGroupMap && userGroupMap[group.id] == group
    }

    method GetUserGroupChildSet(groupId: int) returns (result: set<Group>)
      requires Valid()
      ensures forall group :: group in result <==> group in userGroupList && group.parentId == groupId
    {
      result := {};
      for i := 0 to |userGroupList|
        invariant forall group :: group in result <==> group in userGroupList[..i] && group.parentId == groupId
      {
        if userGroupList[i].parentId == groupId {
          result := result + {userGroupList[i]};
        }
      }
    }

    /** The groups that the descent reaches. */
    method GetUserGroupChildFullSet(groupId: int) returns (result: set<Group>)
      requires Valid()
      ensures forall group :: group in result <==>
        group in userGroupList && Reached(userGroupMap, rank, groupId, group.id)
      decreases Below(userGroupMap, rank, groupId)
    {
      result := GetUserGroupChildSet(groupId);
      var rest := result;
      ghost var kids, done := result, {};
      while rest != {}
        invariant rest <= kids && done == kids - rest
        invariant forall group :: group in result <==>
          group in userGroupList &&
          (group.parentId == groupId || exists c :: c in done && c.childCount > 0 && Reached(userGroupMap, rank, c.id, group.id))
      {
        var c :| c in rest;
        rest := rest - {c};
        if c.childCount > 0 {
          ChildBelow(userGroupMap, rank, groupId, c.id);
          var more := GetUserGroupChildFullSet(c.id);
          result := result + more;
        }
        done := done + {c};
      }
      forall group | group in userGroupList
        ensures group in result <==> Reached(userGroupMap, rank, groupId, group.id)
      {
        ReachedSplits(userGroupMap, rank, groupId, group.id);
        assert forall c :: c in userGroupMap && userGroupMap[c].parentId == groupId ==>
          userGroupMap[c] in kids && userGroupMap[c].id == c;
      }
    }

    /** The way from the top to the group, or no result when it meets an unknown parent. */
    method GetGroupPath(id: int) returns (result: Option<seq<Group>>)
      requires Valid()
      ensures result == if Complete(userGroupMap, rank, id) then Some(Chain(userGroupMap, rank, id)) else None
    {
      var path: seq<Group> := [];
      var parentId := id;
      while parentId != 0
        invariant Chain(userGroupMap, rank, id) == Chain(userGroupMap, rank, parentId) + path
        invariant Complete(userGroupMap, rank, id) <==> Complete(userGroupMap, rank, parentId)
        decreases if parentId in userGroupMap && parentId in rank then rank[parentId] + 1 else 0
      {
        if parentId !in userGroupMap {
          return None;
        }
        var script := userGroupMap[parentId];
        assert Placed(userGroupMap, rank, parentId);
        path := [script] + path;
        parentId := script.parentId;
      }
      if 0 in userGroupMap { KnownIsPositive(userGroupMap, rank, 0); }
      assert Chain(userGroupMap, rank, 0) == [] && [] + path == path;
      return Some(path);
    }

    /** Appends the configurations of the known groups on the path, from the top down. */
    method AddGroupConfig(groupId: int, config: StringBuilder)
      requires Valid()
      modifies config
      ensures config.text == old(config.text) + Configs(Chain(userGroupMap, rank, groupId))
      decreases if groupId in userGroupMap && groupId in rank then rank[groupId] + 1 else 0
    {
      if groupId in userGroupMap {
        var group := userGroupMap[groupId];
        assert Placed(userGroupMap, rank, groupId);
        if group.parentId > 0 {
          AddGroupConfig(group.parentId, config);
        } else {
          if group.parentId in userGroupMap { KnownIsPositive(userGroupMap, rank, group.parentId); }
        }
        ghost var upper := Chain(userGroupMap, rank, group.parentId);
        assert (upper + [group])[..|upper|] == upper;
        config.Append(group.config);
        config.Append("\n");
      }
    }
  }
}
