/**
 * The decoded KeePass tree: groups that own child groups and entries, the
 * database metadata, and the traversal orders the handle relies on.
 *
 * Two orders are used: `Flatten` is the pre-order listing (the reference
 * definition of "the subtree of a group"), and `Bfs` is the order in which a
 * FIFO queue seeded with some groups dequeues them (the order of every
 * breadth-first loop of the handle).
 */
module KeePassTree {
  import opened Results

  type UUID = nat

  datatype Entry = Entry(uuid: UUID, title: string)

  /** A group; `None` in an override flag means "inherit from the parent". */
  datatype Group = Group(
    uuid: UUID,
    name: string,
    groups: seq<Group>,
    entries: seq<Entry>,
    enableAutoType: Option<bool>,
    enableSearching: Option<bool>)

  datatype Meta = Meta(
    recycleBinEnabled: bool,
    recycleBinUuid: Option<UUID>,
    historyMaxItems: int,
    entryTemplatesGroup: Option<UUID>)

  /** Key material derived from a user key; the codec consumes it. */
  datatype Credentials = Credentials(material: seq<bv8>)

  datatype RawDatabase = RawDatabase(credentials: Credentials, meta: Meta, root: Group)

  // ---------------------------------------------------------------------------
  // Pre-order listing: the reference definition of a subtree

  /** `g` followed by every group below it, in pre-order. */
  function Flatten(g: Group): seq<Group>
    decreases g
  {
    [g] + FlattenAll(g.groups)
  }

  /** The subtrees of `gs`, one after the other. */
  function FlattenAll(gs: seq<Group>): seq<Group>
    decreases gs
  {
    if gs == [] then [] else Flatten(gs[0]) + FlattenAll(gs[1..])
  }

  lemma {:induction false} FlattenAllAppend(a: seq<Group>, b: seq<Group>)
    ensures FlattenAll(a + b) == FlattenAll(a) + FlattenAll(b)
  {
    if a == [] {
      assert a + b == b;
    } else {
      assert (a + b)[0] == a[0];
      assert (a + b)[1..] == a[1..] + b;
      FlattenAllAppend(a[1..], b);
    }
  }

  /** Every group of the subtree of `gs[i]` is listed by `FlattenAll(gs)`. */
  lemma {:induction false} FlattenAllContains(gs: seq<Group>, i: nat)
    requires i < |gs|
    ensures forall x | x in Flatten(gs[i]) :: x in FlattenAll(gs)
  {
    if i > 0 {
      FlattenAllContains(gs[1..], i - 1);
    }
  }

  lemma FlattenAllDrop(gs: seq<Group>, i: nat)
    requires i < |gs|
    ensures FlattenAll(gs[i..]) == Flatten(gs[i]) + FlattenAll(gs[i + 1..])
  {
    assert gs[i..][0] == gs[i];
    assert gs[i..][1..] == gs[i + 1..];
  }

  // ---------------------------------------------------------------------------
  // Breadth-first order

  /** Dequeuing the head and enqueuing its children lists one group fewer. */
  lemma BfsMeasure(queue: seq<Group>)
    requires queue != []
    ensures FlattenAll(queue) == [queue[0]] + FlattenAll(queue[0].groups) + FlattenAll(queue[1..])
    ensures FlattenAll(queue[1..] + queue[0].groups) == FlattenAll(queue[1..]) + FlattenAll(queue[0].groups)
    ensures |FlattenAll(queue[1..] + queue[0].groups)| < |FlattenAll(queue)|
  {
    FlattenAllAppend(queue[1..], queue[0].groups);
  }

  /** The order in which a FIFO queue initialised with `queue` dequeues groups. */
  function Bfs(queue: seq<Group>): seq<Group>
    decreases |FlattenAll(queue)|
  {
    if queue == [] then []
    else
      BfsMeasure(queue);
      [queue[0]] + Bfs(queue[1..] + queue[0].groups)
  }

  /** The children of the groups of `s`, concatenated in the order of `s`. */
  function ChildrenOf(s: seq<Group>): seq<Group>
  {
    if s == [] then [] else s[0].groups + ChildrenOf(s[1..])
  }

  /** The entries of the groups of `s`, concatenated in the order of `s`. */
  function EntriesOf(s: seq<Group>): seq<Entry>
  {
    if s == [] then [] else s[0].entries + EntriesOf(s[1..])
  }

  lemma {:induction false} ChildrenOfAppend(a: seq<Group>, b: seq<Group>)
    ensures ChildrenOf(a + b) == ChildrenOf(a) + ChildrenOf(b)
  {
    if a == [] {
      assert a + b == b;
    } else {
      assert (a + b)[0] == a[0];
      assert (a + b)[1..] == a[1..] + b;
      ChildrenOfAppend(a[1..], b);
    }
  }

  lemma {:induction false} EntriesOfAppend(a: seq<Group>, b: seq<Group>)
    ensures EntriesOf(a + b) == EntriesOf(a) + EntriesOf(b)
  {
    if a == [] {
      assert a + b == b;
    } else {
      assert (a + b)[0] == a[0];
      assert (a + b)[1..] == a[1..] + b;
      EntriesOfAppend(a[1..], b);
    }
  }

  lemma {:induction false} ChildrenOfMember(s: seq<Group>, c: Group)
    ensures c in ChildrenOf(s) <==> exists g | g in s :: c in g.groups
  {
    if s != [] {
      ChildrenOfMember(s[1..], c);
      assert forall g | g in s :: g == s[0] || g in s[1..];
    }
  }

  lemma {:induction false} EntriesOfMember(s: seq<Group>, e: Entry)
    ensures e in EntriesOf(s) <==> exists g | g in s :: e in g.entries
  {
    if s != [] {
      EntriesOfMember(s[1..], e);
      assert forall g | g in s :: g == s[0] || g in s[1..];
    }
  }

  /** One dequeue step of the breadth-first loop. */
  lemma BfsStep(queue: seq<Group>)
    requires queue != []
    ensures Bfs(queue) == [queue[0]] + Bfs(queue[1..] + queue[0].groups)
    ensures |FlattenAll(queue[1..] + queue[0].groups)| < |FlattenAll(queue)|
  {
    BfsMeasure(queue);
  }

  /**
   * One dequeue of a breadth-first walk from `root`: the head joins the visited
   * prefix, its children join the queue, and the walk still ends at `Bfs([root])`.
   */
  lemma WalkStep(root: Group, visited: seq<Group>, queue: seq<Group>)
    requires queue != [] && visited + Bfs(queue) == Bfs([root])
    ensures (visited + [queue[0]]) + Bfs(queue[1..] + queue[0].groups) == Bfs([root])
    ensures |Bfs(queue[1..] + queue[0].groups)| < |Bfs(queue)|
  {
    BfsStep(queue);
  }

  /** Breadth-first order lists exactly the groups of the pre-order listing. */
  lemma {:induction false} BfsPermutesFlatten(queue: seq<Group>)
    ensures multiset(Bfs(queue)) == multiset(FlattenAll(queue))
    decreases |FlattenAll(queue)|
  {
    if queue != [] {
      var q0, tail := queue[0], queue[1..];
      var rest := tail + q0.groups;
      BfsStep(queue);
      BfsMeasure(queue);
      BfsPermutesFlatten(rest);
      calc {
        multiset(Bfs(queue));
        multiset([q0] + Bfs(rest));
        multiset{q0} + multiset(Bfs(rest));
        multiset{q0} + multiset(FlattenAll(rest));
        multiset{q0} + multiset(FlattenAll(tail) + FlattenAll(q0.groups));
        multiset{q0} + multiset(FlattenAll(tail)) + multiset(FlattenAll(q0.groups));
        multiset([q0] + FlattenAll(q0.groups) + FlattenAll(tail));
        multiset(FlattenAll(queue));
      }
    }
  }

  /**
   * Every group met by the breadth-first walk, except the ones it started with,
   * is met exactly once as the child of an earlier group.
   */
  lemma {:induction false} BfsChildren(queue: seq<Group>)
    ensures multiset(ChildrenOf(Bfs(queue))) + multiset(queue) == multiset(FlattenAll(queue))
    decreases |FlattenAll(queue)|
  {
    if queue != [] {
      var q0, tail := queue[0], queue[1..];
      var rest := tail + q0.groups;
      assert |FlattenAll(rest)| < |FlattenAll(queue)| by {
        BfsMeasure(queue);
      }
      BfsChildren(rest);
      var cq, cr := ChildrenOf(Bfs(queue)), ChildrenOf(Bfs(rest));
      assert cq == q0.groups + cr by {
        BfsStep(queue);
        ChildrenOfAppend([q0], Bfs(rest));
        assert ChildrenOf([q0]) == q0.groups;
      }
      assert multiset(queue) == multiset{q0} + multiset(tail) by {
        assert queue == [q0] + tail;
      }
      assert multiset(FlattenAll(rest)) == multiset(FlattenAll(tail)) + multiset(FlattenAll(q0.groups))
          && multiset(FlattenAll(queue)) == multiset{q0} + multiset(FlattenAll(q0.groups)) + multiset(FlattenAll(tail)) by {
        BfsMeasure(queue);
      }
      MultisetRearrange(
        multiset(cq), multiset(cr), multiset(q0.groups), multiset(queue), multiset(tail), multiset{q0},
        multiset(FlattenAll(rest)), multiset(FlattenAll(tail)), multiset(FlattenAll(q0.groups)),
        multiset(FlattenAll(queue)));
    }
  }

  lemma MultisetRearrange(cq: multiset<Group>, cr: multiset<Group>, kids: multiset<Group>,
                          q: multiset<Group>, tail: multiset<Group>, head: multiset<Group>,
                          fr: multiset<Group>, ft: multiset<Group>, fk: multiset<Group>,
                          fq: multiset<Group>)
    requires cq == kids + cr && q == head + tail
    requires cr + (tail + kids) == fr && fr == ft + fk && fq == head + fk + ft
    ensures cq + q == fq
  {
    forall x
      ensures (cq + q)[x] == fq[x]
    {
      assert (cr + (tail + kids))[x] == fr[x];
    }
  }

  /** The breadth-first walk collects the entries of the pre-order listing. */
  lemma {:induction false} BfsEntries(queue: seq<Group>)
    ensures multiset(EntriesOf(Bfs(queue))) == multiset(EntriesOf(FlattenAll(queue)))
    decreases |FlattenAll(queue)|
  {
    if queue != [] {
      var rest := queue[1..] + queue[0].groups;
      BfsStep(queue);
      BfsMeasure(queue);
      BfsEntries(rest);
      FlattenAllAppend(queue[1..], queue[0].groups);
      EntriesOfAppend(FlattenAll(queue[1..]), FlattenAll(queue[0].groups));
      EntriesOfAppend([queue[0]], Bfs(rest));
      EntriesOfAppend(Flatten(queue[0]), FlattenAll(queue[1..]));
      EntriesOfAppend([queue[0]], FlattenAll(queue[0].groups));
      assert EntriesOf([queue[0]]) == queue[0].entries;
    }
  }

  /** The walk seeded with `[r]` visits exactly the subtree of `r`. */
  lemma SingleRootBfs(r: Group)
    ensures multiset(Bfs([r])) == multiset(Flatten(r))
    ensures multiset(ChildrenOf(Bfs([r]))) == multiset(FlattenAll(r.groups))
    ensures multiset(EntriesOf(Bfs([r]))) == multiset(EntriesOf(Flatten(r)))
  {
    assert FlattenAll([r]) == Flatten(r) by {
      assert [r][1..] == [];
    }
    BfsPermutesFlatten([r]);
    BfsChildren([r]);
    BfsEntries([r]);
    var cs := ChildrenOf(Bfs([r]));
    assert multiset(cs) + multiset{r} == multiset{r} + multiset(FlattenAll(r.groups));
    forall x
      ensures multiset(cs)[x] == multiset(FlattenAll(r.groups))[x]
    {
      assert (multiset(cs) + multiset{r})[x] == (multiset{r} + multiset(FlattenAll(r.groups)))[x];
    }
  }

  // ---------------------------------------------------------------------------
  // Uniqueness of group identifiers

  /** Every uuid of the multiset belongs to one group, held once. */
  ghost predicate DistinctUuids(m: multiset<Group>)
  {
    forall a, b | a in m && b in m && a.uuid == b.uuid :: a == b && m[a] == 1
  }

  /** No two groups of the tree (and no group twice) share a uuid. */
  ghost predicate UniqueGroupUuids(root: Group)
  {
    DistinctUuids(multiset(Flatten(root)))
  }

  // ---------------------------------------------------------------------------
  // Searches below a group (pre-order, first match)

  /**
   * The first group strictly below `g` whose uuid is `uid`, with its parent:
   * `Some((parent, match))`.
   */
  function FindChildGroup(g: Group, uid: UUID): (r: Option<(Group, Group)>)
    ensures r.Some? ==> r.value.1.uuid == uid && r.value.0 in Flatten(g) && r.value.1 in r.value.0.groups
    ensures r.Some? ==> r.value.1 in FlattenAll(g.groups)
    ensures r.None? <==> forall c | c in FlattenAll(g.groups) :: c.uuid != uid
    decreases g, 1
  {
    assert g.groups[0..] == g.groups;
    FindInGroups(g, 0, uid)
  }

  function FindInGroups(g: Group, i: nat, uid: UUID): (r: Option<(Group, Group)>)
    requires i <= |g.groups|
    ensures r.Some? ==> r.value.1.uuid == uid && r.value.0 in Flatten(g) && r.value.1 in r.value.0.groups
    ensures r.Some? ==> r.value.1 in FlattenAll(g.groups[i..])
    ensures r.None? <==> forall c | c in FlattenAll(g.groups[i..]) :: c.uuid != uid
    decreases g, 0, |g.groups| - i
  {
    if i == |g.groups| then
      assert g.groups[i..] == [];
      None
    else
      var c := g.groups[i];
      FlattenAllDrop(g.groups, i);
      FlattenAllContains(g.groups[i..], 0);
      FlattenAllContains(g.groups, i);
      if c.uuid == uid then Some((g, c))
      else
        match FindChildGroup(c, uid)
        case Some(found) => Some(found)
        case None => FindInGroups(g, i + 1, uid)
  }

  /** The first entry of `entries` whose uuid is `uid`. */
  function FindEntry(entries: seq<Entry>, uid: UUID): (r: Option<Entry>)
    ensures r.Some? ==> r.value in entries && r.value.uuid == uid
    ensures r.None? <==> forall e | e in entries :: e.uuid != uid
  {
    if entries == [] then None
    else if entries[0].uuid == uid then Some(entries[0])
    else FindEntry(entries[1..], uid)
  }

  /**
   * The first entry of the subtree of `g` whose uuid is `uid`, with the group
   * holding it: `g`'s own entries first, then its children in order.
   */
  function FindChildEntry(g: Group, uid: UUID): (r: Option<(Group, Entry)>)
    ensures r.Some? ==> r.value.1.uuid == uid && r.value.1 in r.value.0.entries && r.value.0 in Flatten(g)
    ensures r.None? <==> forall p, e | p in Flatten(g) && e in p.entries :: e.uuid != uid
    decreases g, 1
  {
    match FindEntry(g.entries, uid)
    case Some(e) => Some((g, e))
    case None =>
      assert g.groups[0..] == g.groups;
      FindEntryInGroups(g, 0, uid)
  }

  function FindEntryInGroups(g: Group, i: nat, uid: UUID): (r: Option<(Group, Entry)>)
    requires i <= |g.groups|
    ensures r.Some? ==> r.value.1.uuid == uid && r.value.1 in r.value.0.entries && r.value.0 in Flatten(g)
    ensures r.None? <==> forall p, e | p in FlattenAll(g.groups[i..]) && e in p.entries :: e.uuid != uid
    decreases g, 0, |g.groups| - i
  {
    if i == |g.groups| then
      assert g.groups[i..] == [];
      None
    else
      var c := g.groups[i];
      FlattenAllDrop(g.groups, i);
      FlattenAllContains(g.groups, i);
      match FindChildEntry(c, uid)
      case Some(found) => Some(found)
      case None => FindEntryInGroups(g, i + 1, uid)
  }
}
