/**
 * The two indexes the handle derives from the tree: group uuid to parent group,
 * and group uuid to resolved (inherited) auto-type/search options.
 *
 * Each index is specified as a fold over the breadth-first order the builders
 * use, so that a later write wins exactly as in a hash map filled in that order.
 * The lemmas at the end state what the indexes mean when group uuids are unique:
 * the parent map holds the true parent of every non-root group and nothing for
 * the root, and every group's options are its own override or else its parent's.
 */
module GroupIndexes {
  import opened Results
  import opened KeePassTree

  const DefaultRootInheritableValue: bool := true

  datatype InheritableOption = InheritableOption(isEnabled: bool)

  datatype InheritableOptions = InheritableOptions(
    autotypeEnabled: InheritableOption,
    searchEnabled: InheritableOption)

  /** An explicit override wins; otherwise the parent's value is inherited. */
  function ConvertToInheritableOption(own: Option<bool>, parentValue: bool): InheritableOption
  {
    match own
    case Some(value) => InheritableOption(value)
    case None => InheritableOption(parentValue)
  }

  /** The options of `g` given the resolved options of its parent. */
  function ResolveOptions(g: Group, parentOptions: InheritableOptions): InheritableOptions
  {
    InheritableOptions(
      ConvertToInheritableOption(g.enableAutoType, parentOptions.autotypeEnabled.isEnabled),
      ConvertToInheritableOption(g.enableSearching, parentOptions.searchEnabled.isEnabled))
  }

  /** The options of the root, whose implicit parent has every option enabled. */
  function RootOptions(root: Group): InheritableOptions
  {
    var default := InheritableOption(DefaultRootInheritableValue);
    ResolveOptions(root, InheritableOptions(default, default))
  }

  /** Resolving a group against its own resolved options changes nothing. */
  lemma ResolveIdempotent(g: Group, parentOptions: InheritableOptions)
    ensures ResolveOptions(g, ResolveOptions(g, parentOptions)) == ResolveOptions(g, parentOptions)
  {
  }

  // ---------------------------------------------------------------------------
  // Parent index

  /** `m` after recording `parent` as the parent of its first `k` children. */
  function AddChildren(m: map<UUID, Group>, parent: Group, k: nat): map<UUID, Group>
    requires k <= |parent.groups|
  {
    if k == 0 then m
    else AddChildren(m, parent, k - 1)[parent.groups[k - 1].uuid := parent]
  }

  /** The parent index filled by visiting the groups of `s` in order. */
  function ApplyParents(s: seq<Group>): map<UUID, Group>
  {
    if s == [] then map[]
    else
      var last := s[|s| - 1];
      AddChildren(ApplyParents(s[..|s| - 1]), last, |last.groups|)
  }

  /** The parent index of the tree rooted at `root`. */
  function ParentMap(root: Group): map<UUID, Group>
  {
    ApplyParents(Bfs([root]))
  }

  lemma {:induction false} AddChildrenAt(m: map<UUID, Group>, parent: Group, k: nat, u: UUID)
    requires k <= |parent.groups|
    ensures u in AddChildren(m, parent, k) <==> u in m || exists c | c in parent.groups[..k] :: c.uuid == u
    ensures (exists c | c in parent.groups[..k] :: c.uuid == u) ==> AddChildren(m, parent, k)[u] == parent
    ensures (forall c | c in parent.groups[..k] :: c.uuid != u) && u in m ==> AddChildren(m, parent, k)[u] == m[u]
  {
    if k > 0 {
      AddChildrenAt(m, parent, k - 1, u);
      assert parent.groups[..k] == parent.groups[..k - 1] + [parent.groups[k - 1]];
    }
  }

  /** Visiting one more group records it as the parent of all its children. */
  lemma ApplyParentsSnoc(s: seq<Group>, g: Group)
    ensures ApplyParents(s + [g]) == AddChildren(ApplyParents(s), g, |g.groups|)
  {
    assert (s + [g])[..|s|] == s;
  }

  /** The keys of the parent index are the uuids of the children it has met. */
  lemma {:induction false} ApplyParentsKeys(s: seq<Group>, u: UUID)
    ensures u in ApplyParents(s) <==> exists c | c in ChildrenOf(s) :: c.uuid == u
  {
    if s != [] {
      var init, last := s[..|s| - 1], s[|s| - 1];
      assert s == init + [last];
      ApplyParentsKeys(init, u);
      AddChildrenAt(ApplyParents(init), last, |last.groups|, u);
      ChildrenOfAppend(init, [last]);
      assert ChildrenOf([last]) == last.groups;
      assert last.groups[..|last.groups|] == last.groups;
    }
  }

  /**
   * When no other group of `s` has a child with `c`'s uuid, the parent index
   * maps that uuid to the group of `s` that holds `c`.
   */
  lemma {:induction false} ApplyParentsValue(s: seq<Group>, g: Group, c: Group)
    requires g in s && c in g.groups
    requires forall g', c' | g' in s && c' in g'.groups && c'.uuid == c.uuid :: g' == g
    ensures c.uuid in ApplyParents(s) && ApplyParents(s)[c.uuid] == g
  {
    var init, last := s[..|s| - 1], s[|s| - 1];
    assert s == init + [last];
    assert last.groups[..|last.groups|] == last.groups;
    AddChildrenAt(ApplyParents(init), last, |last.groups|, c.uuid);
    if exists c' | c' in last.groups :: c'.uuid == c.uuid {
    } else {
      assert g != last;
      assert g in init;
      ApplyParentsValue(init, g, c);
    }
  }

  /** Whatever the uuids, the index maps a uuid to a group of `s` that has a child with that uuid. */
  lemma {:induction false} ApplyParentsValues(s: seq<Group>, u: UUID)
    requires u in ApplyParents(s)
    ensures ApplyParents(s)[u] in s
    ensures exists c | c in ApplyParents(s)[u].groups :: c.uuid == u
  {
    var init, last := s[..|s| - 1], s[|s| - 1];
    assert s == init + [last];
    assert last.groups[..|last.groups|] == last.groups;
    AddChildrenAt(ApplyParents(init), last, |last.groups|, u);
    if !exists c | c in last.groups :: c.uuid == u {
      ApplyParentsValues(init, u);
    }
  }

  // ---------------------------------------------------------------------------
  // Options index

  /** A queued group together with the resolved options of its parent. */
  datatype Visit = Visit(group: Group, parentOptions: InheritableOptions)

  function VisitGroups(vs: seq<Visit>): (r: seq<Group>)
    ensures |r| == |vs| && forall i | 0 <= i < |vs| :: r[i] == vs[i].group
  {
    seq(|vs|, i requires 0 <= i < |vs| => vs[i].group)
  }

  /** The visits the builder enqueues for the children of a group. */
  function ChildVisits(children: seq<Group>, options: InheritableOptions): (r: seq<Visit>)
    ensures |r| == |children| && forall i | 0 <= i < |children| :: r[i] == Visit(children[i], options)
  {
    seq(|children|, i requires 0 <= i < |children| => Visit(children[i], options))
  }

  /** The queue after dequeuing the head visit and enqueuing its children. */
  function NextVisits(queue: seq<Visit>): seq<Visit>
    requires queue != []
  {
    var v := queue[0];
    queue[1..] + ChildVisits(v.group.groups, ResolveOptions(v.group, v.parentOptions))
  }

  lemma NextVisitsGroups(queue: seq<Visit>)
    requires queue != []
    ensures VisitGroups(NextVisits(queue)) == VisitGroups(queue)[1..] + queue[0].group.groups
    ensures VisitGroups(queue) == [queue[0].group] + VisitGroups(queue)[1..]
    ensures |FlattenAll(VisitGroups(NextVisits(queue)))| < |FlattenAll(VisitGroups(queue))|
  {
    var gs := VisitGroups(queue);
    assert VisitGroups(NextVisits(queue)) == gs[1..] + queue[0].group.groups;
    assert gs == [queue[0].group] + gs[1..];
    BfsMeasure(gs);
  }

  /** The order in which the options builder dequeues its visits. */
  function BfsVisits(queue: seq<Visit>): seq<Visit>
    decreases |FlattenAll(VisitGroups(queue))|
  {
    if queue == [] then []
    else
      NextVisitsGroups(queue);
      [queue[0]] + BfsVisits(NextVisits(queue))
  }

  /** `m` after recording the resolved options of every visit of `vs`, in order. */
  function ApplyVisits(m: map<UUID, InheritableOptions>, vs: seq<Visit>): map<UUID, InheritableOptions>
  {
    if vs == [] then m
    else
      var last := vs[|vs| - 1];
      ApplyVisits(m, vs[..|vs| - 1])[last.group.uuid := ResolveOptions(last.group, last.parentOptions)]
  }

  /** The visit the options builder starts from. */
  function RootVisit(root: Group): Visit
  {
    Visit(root, RootOptions(root))
  }

  /** The options index of the tree rooted at `root`. */
  function OptionsMap(root: Group): map<UUID, InheritableOptions>
  {
    ApplyVisits(map[root.uuid := RootOptions(root)], BfsVisits([RootVisit(root)]))
  }

  lemma {:induction false} ApplyVisitsKeys(m: map<UUID, InheritableOptions>, vs: seq<Visit>, u: UUID)
    ensures u in ApplyVisits(m, vs) <==> u in m || exists v | v in vs :: v.group.uuid == u
  {
    if vs != [] {
      var init := vs[..|vs| - 1];
      assert vs == init + [vs[|vs| - 1]];
      ApplyVisitsKeys(m, init, u);
    }
  }

  /** A visit whose group uuid no other visit shares decides that uuid's options. */
  lemma {:induction false} ApplyVisitsValue(m: map<UUID, InheritableOptions>, vs: seq<Visit>, v: Visit)
    requires v in vs
    requires forall v' | v' in vs && v'.group.uuid == v.group.uuid :: v' == v
    ensures v.group.uuid in ApplyVisits(m, vs)
    ensures ApplyVisits(m, vs)[v.group.uuid] == ResolveOptions(v.group, v.parentOptions)
  {
    var init, last := vs[..|vs| - 1], vs[|vs| - 1];
    assert vs == init + [last];
    if last.group.uuid != v.group.uuid {
      assert v in init;
      ApplyVisitsValue(m, init, v);
    }
  }

  /** The options builder meets the groups in the same order as the plain walk. */
  lemma {:induction false} BfsVisitsGroups(queue: seq<Visit>)
    ensures VisitGroups(BfsVisits(queue)) == Bfs(VisitGroups(queue))
    decreases |FlattenAll(VisitGroups(queue))|
  {
    if queue != [] {
      NextVisitsGroups(queue);
      BfsVisitsGroups(NextVisits(queue));
      var gs := VisitGroups(queue);
      BfsStep(gs);
      assert VisitGroups(BfsVisits(queue)) == [queue[0].group] + VisitGroups(BfsVisits(NextVisits(queue)));
    }
  }

  /** Every queued visit is eventually dequeued. */
  lemma {:induction false} QueuedIsVisited(queue: seq<Visit>, i: nat)
    requires i < |queue|
    ensures queue[i] in BfsVisits(queue)
    decreases |FlattenAll(VisitGroups(queue))|
  {
    NextVisitsGroups(queue);
    if i > 0 {
      QueuedIsVisited(NextVisits(queue), i - 1);
    }
  }

  /** Every child of a visited group is visited with the group's resolved options. */
  lemma {:induction false} ChildIsVisited(queue: seq<Visit>, v: Visit, c: Group)
    requires v in BfsVisits(queue) && c in v.group.groups
    ensures Visit(c, ResolveOptions(v.group, v.parentOptions)) in BfsVisits(queue)
    decreases |FlattenAll(VisitGroups(queue))|
  {
    NextVisitsGroups(queue);
    var next := NextVisits(queue);
    if v == queue[0] {
      var j :| 0 <= j < |v.group.groups| && v.group.groups[j] == c;
      assert next[|queue| - 1 + j] == Visit(c, ResolveOptions(v.group, v.parentOptions));
      QueuedIsVisited(next, |queue| - 1 + j);
    } else {
      ChildIsVisited(next, v, c);
    }
  }

  // ---------------------------------------------------------------------------
  // What the indexes mean

  /** A value held at two positions of a sequence is counted at least twice. */
  lemma TwoPositions<T>(s: seq<T>, i: nat, j: nat)
    requires i < j < |s| && s[i] == s[j]
    ensures multiset(s)[s[i]] >= 2
  {
    assert s == s[..j] + s[j..];
    assert s[i] in s[..j];
    assert s[j] in s[j..];
  }

  /** A group that is the child of two positions of `s` is counted twice among the children. */
  lemma {:induction false} ChildOfTwoPositions(s: seq<Group>, i: nat, j: nat, c: Group)
    requires i < j < |s| && c in s[i].groups && c in s[j].groups
    ensures multiset(ChildrenOf(s))[c] >= 2
  {
    if i == 0 {
      ChildrenOfMember(s[1..], c);
      assert s[j] == s[1..][j - 1];
      assert multiset(s[0].groups)[c] >= 1;
      assert multiset(ChildrenOf(s[1..]))[c] >= 1;
    } else {
      ChildOfTwoPositions(s[1..], i - 1, j - 1, c);
    }
  }

  /** Uuids stay distinct in any part of a multiset with distinct uuids. */
  lemma DistinctSub(m: multiset<Group>, part: multiset<Group>)
    requires DistinctUuids(m) && part <= m
    ensures DistinctUuids(part)
  {
    forall a, b | a in part && b in part && a.uuid == b.uuid
      ensures a == b && part[a] == 1
    {
      assert a in m && b in m;
    }
  }

  /** The root followed by everything strictly below it. */
  lemma FlattenSplit(root: Group)
    ensures multiset(Flatten(root)) == multiset{root} + multiset(FlattenAll(root.groups))
  {
  }

  /** The walk from the root meets exactly the groups of the tree. */
  lemma BfsCoversTree(root: Group)
    ensures forall g :: g in Bfs([root]) <==> g in Flatten(root)
    ensures forall c :: c in ChildrenOf(Bfs([root])) <==> c in FlattenAll(root.groups)
  {
    SingleRootBfs(root);
    forall g
      ensures g in Bfs([root]) <==> g in Flatten(root)
    {
      assert g in Bfs([root]) <==> g in multiset(Bfs([root]));
      assert g in Flatten(root) <==> g in multiset(Flatten(root));
    }
    forall c
      ensures c in ChildrenOf(Bfs([root])) <==> c in FlattenAll(root.groups)
    {
      assert c in ChildrenOf(Bfs([root])) <==> c in multiset(ChildrenOf(Bfs([root])));
      assert c in FlattenAll(root.groups) <==> c in multiset(FlattenAll(root.groups));
    }
  }

  /** The groups of the walk from the root, and their children, have distinct uuids. */
  lemma BfsOfUniqueTree(root: Group)
    requires UniqueGroupUuids(root)
    ensures DistinctUuids(multiset(Bfs([root])))
    ensures DistinctUuids(multiset(ChildrenOf(Bfs([root]))))
    ensures forall c | c in ChildrenOf(Bfs([root])) :: c.uuid != root.uuid
  {
    var m := multiset(Flatten(root));
    var below := multiset(FlattenAll(root.groups));
    SingleRootBfs(root);
    FlattenSplit(root);
    assert below <= m;
    DistinctSub(m, below);
    forall c | c in ChildrenOf(Bfs([root]))
      ensures c.uuid != root.uuid
    {
      assert c in multiset(ChildrenOf(Bfs([root])));
      assert c in m && root in m;
      assert m[root] == 1 + below[root];
    }
  }

  /** In a tree with unique uuids, a child uuid determines its parent. */
  lemma UniqueParent(root: Group, g: Group, g': Group, c: Group, c': Group)
    requires UniqueGroupUuids(root)
    requires g in Bfs([root]) && g' in Bfs([root]) && c in g.groups && c' in g'.groups && c.uuid == c'.uuid
    ensures g == g'
  {
    var s := Bfs([root]);
    var cs := multiset(ChildrenOf(s));
    BfsOfUniqueTree(root);
    ChildrenOfMember(s, c);
    ChildrenOfMember(s, c');
    assert c in cs && c' in cs;
    assert c == c' && cs[c] == 1;
    var i :| 0 <= i < |s| && s[i] == g;
    var j :| 0 <= j < |s| && s[j] == g';
    if i < j {
      ChildOfTwoPositions(s, i, j, c);
    } else if j < i {
      ChildOfTwoPositions(s, j, i, c);
    }
  }

  /** Keys of the parent index: the uuids of the groups strictly below the root. */
  lemma ParentMapKeys(root: Group)
    ensures forall u :: u in ParentMap(root) <==> exists c | c in FlattenAll(root.groups) :: c.uuid == u
  {
    BfsCoversTree(root);
    forall u
      ensures u in ParentMap(root) <==> exists c | c in FlattenAll(root.groups) :: c.uuid == u
    {
      ApplyParentsKeys(Bfs([root]), u);
    }
  }

  /** Whatever the uuids, a parent the index holds is a group of the tree with a child of that uuid. */
  lemma ParentMapValues(root: Group, u: UUID)
    ensures u in ParentMap(root) ==>
      ParentMap(root)[u] in Flatten(root) && exists c | c in ParentMap(root)[u].groups :: c.uuid == u
  {
    if u in ParentMap(root) {
      ApplyParentsValues(Bfs([root]), u);
      BfsCoversTree(root);
    }
  }

  /**
   * With unique uuids the parent index is exact: the root has no entry, and every
   * child of a group of the tree is mapped to that group.
   */
  lemma ParentMapExact(root: Group)
    requires UniqueGroupUuids(root)
    ensures root.uuid !in ParentMap(root)
    ensures forall g, c | g in Flatten(root) && c in g.groups :: c.uuid in ParentMap(root) && ParentMap(root)[c.uuid] == g
  {
    var s := Bfs([root]);
    BfsCoversTree(root);
    BfsOfUniqueTree(root);
    ApplyParentsKeys(s, root.uuid);
    forall g, c | g in Flatten(root) && c in g.groups
      ensures c.uuid in ParentMap(root) && ParentMap(root)[c.uuid] == g
    {
      forall g', c' | g' in s && c' in g'.groups && c'.uuid == c.uuid
        ensures g' == g
      {
        UniqueParent(root, g, g', c, c');
      }
      ApplyParentsValue(s, g, c);
    }
  }

  /** The options builder meets exactly the groups of the tree, in walk order. */
  lemma RootVisitsGroups(root: Group)
    ensures VisitGroups(BfsVisits([RootVisit(root)])) == Bfs([root])
    ensures forall g :: g in VisitGroups(BfsVisits([RootVisit(root)])) <==> g in Flatten(root)
  {
    BfsVisitsGroups([RootVisit(root)]);
    assert VisitGroups([RootVisit(root)]) == [root];
    BfsCoversTree(root);
  }

  /** Keys of the options index: the uuids of every group of the tree. */
  lemma OptionsMapKeys(root: Group)
    ensures forall u :: u in OptionsMap(root) <==> exists g | g in Flatten(root) :: g.uuid == u
  {
    var vs := BfsVisits([RootVisit(root)]);
    var gs := VisitGroups(vs);
    RootVisitsGroups(root);
    forall u
      ensures u in OptionsMap(root) <==> exists g | g in Flatten(root) :: g.uuid == u
    {
      ApplyVisitsKeys(map[root.uuid := RootOptions(root)], vs, u);
      if exists g | g in Flatten(root) :: g.uuid == u {
        var g :| g in Flatten(root) && g.uuid == u;
        var i :| 0 <= i < |gs| && gs[i] == g;
        assert vs[i] in vs;
      }
      if exists v | v in vs :: v.group.uuid == u {
        var v :| v in vs && v.group.uuid == u;
        var i :| 0 <= i < |vs| && vs[i] == v;
        assert gs[i] == v.group;
      } else {
        assert root in Flatten(root);
      }
    }
  }

  /** With unique uuids, two visits of the same group uuid are the same visit. */
  lemma UniqueVisit(root: Group, v: Visit, v': Visit)
    requires UniqueGroupUuids(root)
    requires v in BfsVisits([RootVisit(root)]) && v' in BfsVisits([RootVisit(root)])
    requires v.group.uuid == v'.group.uuid
    ensures v == v'
  {
    var vs := BfsVisits([RootVisit(root)]);
    var gs := VisitGroups(vs);
    RootVisitsGroups(root);
    BfsOfUniqueTree(root);
    var i :| 0 <= i < |vs| && vs[i] == v;
    var j :| 0 <= j < |vs| && vs[j] == v';
    assert gs[i] in multiset(gs) && gs[j] in multiset(gs);
    if i < j {
      TwoPositions(gs, i, j);
    } else if j < i {
      TwoPositions(gs, j, i);
    }
  }

  /** With unique uuids, each visited group's entry is decided by its single visit. */
  lemma VisitDecides(root: Group, v: Visit)
    requires UniqueGroupUuids(root)
    requires v in BfsVisits([RootVisit(root)])
    ensures v.group.uuid in OptionsMap(root)
    ensures OptionsMap(root)[v.group.uuid] == ResolveOptions(v.group, v.parentOptions)
  {
    var vs := BfsVisits([RootVisit(root)]);
    forall v' | v' in vs && v'.group.uuid == v.group.uuid
      ensures v' == v
    {
      UniqueVisit(root, v, v');
    }
    ApplyVisitsValue(map[root.uuid := RootOptions(root)], vs, v);
  }

  /** With unique uuids, a child's options are resolved against its parent's. */
  lemma ChildInherits(root: Group, g: Group, c: Group)
    requires UniqueGroupUuids(root)
    requires g in Flatten(root) && c in g.groups
    ensures g.uuid in OptionsMap(root) && c.uuid in OptionsMap(root)
    ensures OptionsMap(root)[c.uuid] == ResolveOptions(c, OptionsMap(root)[g.uuid])
  {
    var vs := BfsVisits([RootVisit(root)]);
    var gs := VisitGroups(vs);
    RootVisitsGroups(root);
    var i :| 0 <= i < |gs| && gs[i] == g;
    var v := vs[i];
    ChildIsVisited([RootVisit(root)], v, c);
    VisitDecides(root, v);
    VisitDecides(root, Visit(c, ResolveOptions(v.group, v.parentOptions)));
  }

  /** `m` resolves the options of `child` against those it holds for `parent`. */
  ghost predicate InheritsFrom(m: map<UUID, InheritableOptions>, parent: Group, child: Group)
  {
    parent.uuid in m && child.uuid in m && m[child.uuid] == ResolveOptions(child, m[parent.uuid])
  }

  /** Every child of a group of the tree has its overrides resolved against its parent's options. */
  ghost predicate ChildrenInherit(root: Group, m: map<UUID, InheritableOptions>)
  {
    forall g, c | g in Flatten(root) && c in g.groups :: InheritsFrom(m, g, c)
  }

  /**
   * `m` holds resolved options for the whole tree: the root's own overrides on
   * top of the enabled default, and every child's own overrides on top of its
   * parent's resolved options.
   */
  ghost predicate ResolvesInheritance(root: Group, m: map<UUID, InheritableOptions>)
  {
    root.uuid in m && m[root.uuid] == RootOptions(root) && ChildrenInherit(root, m)
  }

  /** With unique uuids the options index resolves inheritance. */
  lemma OptionsMapInherits(root: Group)
    requires UniqueGroupUuids(root)
    ensures ResolvesInheritance(root, OptionsMap(root))
  {
    assert root.uuid in OptionsMap(root) && OptionsMap(root)[root.uuid] == RootOptions(root) by {
      QueuedIsVisited([RootVisit(root)], 0);
      VisitDecides(root, RootVisit(root));
      var default := InheritableOption(DefaultRootInheritableValue);
      ResolveIdempotent(root, InheritableOptions(default, default));
    }
    forall g, c | g in Flatten(root) && c in g.groups
      ensures InheritsFrom(OptionsMap(root), g, c)
    {
      ChildInherits(root, g, c);
    }
  }
}
