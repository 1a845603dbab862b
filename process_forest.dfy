/**
 * Assembly of the process forest from the flat process table
 * (`build_process_tree` in collectors/snapshot.rs).
 *
 * The first loop inserts one fresh node per process into a pid-keyed map and
 * records child -> parent links in a second map. The second loop visits those
 * links in the hash map's order; for each it REMOVES the child from the
 * top-level map and only then looks the parent up, so a child whose parent is
 * not top-level at that moment (absent from the table, already moved under its
 * own parent, or the child itself) is dropped together with its subtree.
 * Whatever stays in the map are the roots.
 */
module ProcessForest {
  import opened Wrappers
  import opened Collections
  import opened RawCounters
  import opened ProcessTree

  /** The process table is keyed by pid, so no pid occurs twice. */
  ghost predicate UniquePids(procs: seq<RawProcess>)
  {
    forall i, j :: 0 <= i < j < |procs| ==> procs[i].pid != procs[j].pid
  }

  function Pids(procs: seq<RawProcess>): set<nat>
  {
    set p | p in procs :: p.pid
  }

  /** Pids of the processes that report no parent. */
  function ParentlessPids(procs: seq<RawProcess>): set<nat>
  {
    set p | p in procs && p.parent.None? :: p.pid
  }

  /** Pids of the processes that report a parent. */
  function ParentedPids(procs: seq<RawProcess>): set<nat>
  {
    set p | p in procs && p.parent.Some? :: p.pid
  }

  function NodeFor(p: RawProcess): Node
  {
    New(p.pid, p.name, p.cpuUsage, p.memory, p.parent)
  }

  /** The top-level map once the first loop has inserted every process of `procs`, in order. */
  function NodeMap(procs: seq<RawProcess>): map<nat, Node>
    decreases |procs|
  {
    if procs == [] then map[]
    else
      var last := procs[|procs| - 1];
      NodeMap(procs[..|procs| - 1])[last.pid := NodeFor(last)]
  }

  /** The child -> parent map once the first loop has seen every process of `procs`. */
  function ParentMap(procs: seq<RawProcess>): map<nat, nat>
    decreases |procs|
  {
    if procs == [] then map[]
    else
      var last := procs[|procs| - 1];
      var earlier := ParentMap(procs[..|procs| - 1]);
      match last.parent
      case Some(q) => earlier[last.pid := q]
      case None => earlier
  }

  /**
   * One turn of the second loop for the link `child -> parent`: the child is
   * taken out of the top-level map, then appended to the parent's children
   * if the parent is (still) top-level.
   */
  function Attach(m: map<nat, Node>, child: nat, parent: nat): (r: map<nat, Node>)
    ensures r.Keys == m.Keys - {child}
    ensures forall k :: k in r && k != parent ==> r[k] == m[k]
    ensures child in m && parent in m && parent != child ==> r[parent] == AddChild(m[parent], m[child])
    ensures !(child in m && parent in m && parent != child) ==> r == m - {child}
  {
    var rest := m - {child};
    if child in m && parent in rest then rest[parent := AddChild(rest[parent], m[child])] else rest
  }

  /** The second loop over the links in the iteration order `order`. */
  function Run(m: map<nat, Node>, parents: map<nat, nat>, order: seq<nat>): map<nat, Node>
    requires forall c :: c in order ==> c in parents
    decreases |order|
  {
    if order == [] then m else Run(Attach(m, order[0], parents[order[0]]), parents, order[1..])
  }

  /** `order` lists every recorded child -> parent link once: some iteration order of the link map. */
  ghost predicate IsLinkOrder(procs: seq<RawProcess>, order: seq<nat>)
  {
    Distinct(order) && Elements(order) == ParentMap(procs).Keys
  }

  /** The top-level map that the function turns into its result. */
  ghost function Roots(procs: seq<RawProcess>, order: seq<nat>): map<nat, Node>
    requires IsLinkOrder(procs, order)
  {
    Run(NodeMap(procs), ParentMap(procs), order)
  }

  /**
   * Every top-level node sits under its own pid, lists each pid of its
   * subtree once, only pids of the table, and no pid is in two subtrees.
   */
  ghost predicate WellFormed(m: map<nat, Node>, pids: set<nat>)
  {
    && (forall k :: k in m ==> m[k].pid == k && Distinct(Flat(m[k])) && Elements(Flat(m[k])) <= pids)
    && (forall k1, k2, x :: k1 in m && k2 in m && k1 != k2 && x in Flat(m[k1]) ==> x !in Flat(m[k2]))
  }

  /** No subtree of `m` holds `x`. */
  ghost predicate Absent(m: map<nat, Node>, x: nat)
  {
    forall k :: k in m ==> x !in Flat(m[k])
  }

  /** Some subtree of `m` holds `x`. */
  ghost predicate Present(m: map<nat, Node>, x: nat)
  {
    exists k :: k in m && x in Flat(m[k])
  }

  /** `x` and `y` sit in the same subtrees of `m`: wherever one goes, the other goes too. */
  ghost predicate Together(m: map<nat, Node>, x: nat, y: nat)
  {
    forall k :: k in m ==> (x in Flat(m[k]) <==> y in Flat(m[k]))
  }

  /**
   * Every child in every subtree names the node it sits under as its parent,
   * and a top-level node with a recorded link still carries that parent pid.
   */
  ghost predicate Linked(m: map<nat, Node>, parents: map<nat, nat>)
  {
    forall k :: k in m ==>
      && m[k].pid == k
      && ParentLinked(m[k])
      && (k in parents ==> m[k].parentPid == Some(parents[k]))
  }

  // ---------------------------------------------------------------------------
  // The maps built by the first loop

  /** Every entry sits under its own pid and has no children yet. */
  ghost predicate Fresh(m: map<nat, Node>)
  {
    forall k :: k in m ==> m[k].pid == k && m[k].children == []
  }

  lemma FreshWellFormed(m: map<nat, Node>, pids: set<nat>)
    requires Fresh(m) && m.Keys <= pids
    ensures WellFormed(m, pids)
  {
    forall k | k in m ensures Flat(m[k]) == [k] {
      assert FlatAll(m[k].children) == [];
    }
  }

  lemma {:induction false} NodeMapFresh(procs: seq<RawProcess>)
    ensures NodeMap(procs).Keys == Pids(procs)
    ensures Fresh(NodeMap(procs))
    decreases |procs|
  {
    if procs != [] {
      var init := procs[..|procs| - 1];
      var last := procs[|procs| - 1];
      NodeMapFresh(init);
      assert procs == init + [last];
      assert Pids(procs) == Pids(init) + {last.pid};
    }
  }

  lemma NodeMapShape(procs: seq<RawProcess>)
    ensures NodeMap(procs).Keys == Pids(procs)
    ensures WellFormed(NodeMap(procs), Pids(procs))
  {
    NodeMapFresh(procs);
    FreshWellFormed(NodeMap(procs), Pids(procs));
  }

  lemma {:induction false} NodeMapAt(procs: seq<RawProcess>, i: nat)
    requires UniquePids(procs)
    requires i < |procs|
    ensures procs[i].pid in NodeMap(procs) && NodeMap(procs)[procs[i].pid] == NodeFor(procs[i])
    decreases |procs|
  {
    var init := procs[..|procs| - 1];
    if i < |procs| - 1 {
      assert UniquePids(init) by {
        forall a, b | 0 <= a < b < |init| ensures init[a].pid != init[b].pid {
          assert init[a] == procs[a] && init[b] == procs[b];
        }
      }
      assert init[i] == procs[i];
      NodeMapAt(init, i);
    }
  }

  lemma {:induction false} ParentMapShape(procs: seq<RawProcess>)
    ensures ParentMap(procs).Keys == ParentedPids(procs)
    decreases |procs|
  {
    if procs != [] {
      var init := procs[..|procs| - 1];
      var last := procs[|procs| - 1];
      ParentMapShape(init);
      assert procs == init + [last];
      if last.parent.Some? {
        assert ParentedPids(procs) == ParentedPids(init) + {last.pid};
      } else {
        assert ParentedPids(procs) == ParentedPids(init);
      }
    }
  }

  lemma {:induction false} ParentMapAt(procs: seq<RawProcess>, i: nat)
    requires UniquePids(procs)
    requires i < |procs| && procs[i].parent.Some?
    ensures procs[i].pid in ParentMap(procs) && ParentMap(procs)[procs[i].pid] == procs[i].parent.value
    decreases |procs|
  {
    var init := procs[..|procs| - 1];
    if i < |procs| - 1 {
      assert UniquePids(init) by {
        forall a, b | 0 <= a < b < |init| ensures init[a].pid != init[b].pid {
          assert init[a] == procs[a] && init[b] == procs[b];
        }
      }
      assert init[i] == procs[i];
      ParentMapAt(init, i);
    }
  }

  /** With unique pids, the processes without a link are exactly those reporting no parent. */
  lemma UnlinkedAreParentless(procs: seq<RawProcess>)
    requires UniquePids(procs)
    ensures Pids(procs) - ParentedPids(procs) == ParentlessPids(procs)
  {
    forall x | x in ParentlessPids(procs) ensures x !in ParentedPids(procs) {
      var i :| 0 <= i < |procs| && procs[i].pid == x && procs[i].parent.None?;
      forall j | 0 <= j < |procs| && procs[j].pid == x ensures j == i {
      }
    }
  }

  // ---------------------------------------------------------------------------
  // The second loop

  lemma AttachWellFormed(m: map<nat, Node>, child: nat, parent: nat, pids: set<nat>)
    requires WellFormed(m, pids)
    ensures WellFormed(Attach(m, child, parent), pids)
  {
    var r := Attach(m, child, parent);
    if child in m && parent in m && parent != child {
      var a, b := m[parent], m[child];
      AddChildFlat(a, b);
      assert r[parent] == AddChild(a, b);
      assert Flat(r[parent]) == Flat(a) + Flat(b);
      DistinctConcat(Flat(a), Flat(b));
      forall k1, k2, x | k1 in r && k2 in r && k1 != k2 && x in Flat(r[k1])
        ensures x !in Flat(r[k2])
      {
        if k1 == parent {
          assert x in Flat(a) || x in Flat(b);
          assert r[k2] == m[k2] && k2 != child;
        } else if k2 == parent {
          assert r[k1] == m[k1] && k1 != child;
        } else {
          assert r[k1] == m[k1] && r[k2] == m[k2];
        }
      }
    }
  }

  lemma {:induction false} RunWellFormed(m: map<nat, Node>, parents: map<nat, nat>, order: seq<nat>, pids: set<nat>)
    requires forall c :: c in order ==> c in parents
    requires WellFormed(m, pids)
    ensures WellFormed(Run(m, parents, order), pids)
    decreases |order|
  {
    if order != [] {
      AttachWellFormed(m, order[0], parents[order[0]], pids);
      RunWellFormed(Attach(m, order[0], parents[order[0]]), parents, order[1..], pids);
    }
  }

  /** The second loop removes exactly the visited children from the top level. */
  lemma {:induction false} RunKeys(m: map<nat, Node>, parents: map<nat, nat>, order: seq<nat>)
    requires forall c :: c in order ==> c in parents
    ensures Run(m, parents, order).Keys == m.Keys - Elements(order)
    decreases |order|
  {
    if order != [] {
      RunKeys(Attach(m, order[0], parents[order[0]]), parents, order[1..]);
      assert Elements(order) == {order[0]} + Elements(order[1..]);
    }
  }

  /** A node that stays top-level keeps its own fields; only its children may grow. */
  lemma {:induction false} RunHeaders(m: map<nat, Node>, parents: map<nat, nat>, order: seq<nat>)
    requires forall c :: c in order ==> c in parents
    ensures forall k :: k in Run(m, parents, order) ==> k in m && SameHeader(Run(m, parents, order)[k], m[k])
    decreases |order|
  {
    if order != [] {
      var next := Attach(m, order[0], parents[order[0]]);
      RunHeaders(next, parents, order[1..]);
      forall k | k in next ensures SameHeader(next[k], m[k]) {
        if k == parents[order[0]] && order[0] in m && k in m - {order[0]} {
          assert next[k] == AddChild(m[k], m[order[0]]);
        }
      }
    }
  }

  lemma AttachKeepsAbsent(m: map<nat, Node>, child: nat, parent: nat, x: nat)
    requires Absent(m, x)
    ensures Absent(Attach(m, child, parent), x)
  {
    if child in m && parent in m && parent != child {
      AddChildFlat(m[parent], m[child]);
    }
  }

  lemma {:induction false} RunKeepsAbsent(m: map<nat, Node>, parents: map<nat, nat>, order: seq<nat>, x: nat)
    requires forall c :: c in order ==> c in parents
    requires Absent(m, x)
    ensures Absent(Run(m, parents, order), x)
    decreases |order|
  {
    if order != [] {
      AttachKeepsAbsent(m, order[0], parents[order[0]], x);
      RunKeepsAbsent(Attach(m, order[0], parents[order[0]]), parents, order[1..], x);
    }
  }

  /** A child taken out without a top-level parent to receive it is in no subtree afterwards. */
  lemma DropStep(m: map<nat, Node>, child: nat, parent: nat, pids: set<nat>)
    requires WellFormed(m, pids)
    requires child in m
    requires parent !in m || parent == child
    ensures Absent(Attach(m, child, parent), child)
  {
    var r := Attach(m, child, parent);
    assert r == m - {child};
    assert Flat(m[child])[0] == child;
    forall k | k in r ensures child !in Flat(r[k]) {
      assert r[k] == m[k] && k != child;
    }
  }

  lemma {:induction false} RunSplit(m: map<nat, Node>, parents: map<nat, nat>, a: seq<nat>, b: seq<nat>)
    requires forall c :: c in a + b ==> c in parents
    ensures Run(m, parents, a + b) == Run(Run(m, parents, a), parents, b)
    decreases |a|
  {
    if a != [] {
      assert (a + b)[0] == a[0] && (a + b)[1..] == a[1..] + b;
      RunSplit(Attach(m, a[0], parents[a[0]]), parents, a[1..], b);
    } else {
      assert a + b == b;
    }
  }

  lemma AttachLinked(m: map<nat, Node>, parents: map<nat, nat>, child: nat)
    requires Linked(m, parents) && child in parents
    ensures Linked(Attach(m, child, parents[child]), parents)
  {
    var parent := parents[child];
    var r := Attach(m, child, parent);
    if child in m && parent in m && parent != child {
      AddChildLinked(m[parent], m[child]);
      assert SameHeader(r[parent], m[parent]);
      assert r[parent].pid == parent && r[parent].parentPid == m[parent].parentPid;
    }
  }

  lemma {:induction false} RunLinked(m: map<nat, Node>, parents: map<nat, nat>, order: seq<nat>)
    requires forall c :: c in order ==> c in parents
    requires Linked(m, parents)
    ensures Linked(Run(m, parents, order), parents)
    decreases |order|
  {
    if order != [] {
      AttachLinked(m, parents, order[0]);
      RunLinked(Attach(m, order[0], parents[order[0]]), parents, order[1..]);
    }
  }

  /** The first loop's nodes carry exactly the parent pids that the link map records. */
  lemma NodeMapLinked(procs: seq<RawProcess>)
    requires UniquePids(procs)
    ensures Linked(NodeMap(procs), ParentMap(procs))
  {
    NodeMapFresh(procs);
    ParentMapShape(procs);
    forall k | k in NodeMap(procs) && k in ParentMap(procs)
      ensures NodeMap(procs)[k].parentPid == Some(ParentMap(procs)[k])
    {
      assert k in ParentedPids(procs);
      var i :| 0 <= i < |procs| && procs[i].pid == k && procs[i].parent.Some?;
      NodeMapAt(procs, i);
      ParentMapAt(procs, i);
    }
  }

  lemma AttachKeepsTogether(m: map<nat, Node>, child: nat, parent: nat, x: nat, y: nat)
    requires Together(m, x, y)
    ensures Together(Attach(m, child, parent), x, y)
  {
    if child in m && parent in m && parent != child {
      AddChildFlat(m[parent], m[child]);
    }
  }

  lemma {:induction false} RunKeepsTogether(m: map<nat, Node>, parents: map<nat, nat>, order: seq<nat>, x: nat, y: nat)
    requires forall c :: c in order ==> c in parents
    requires Together(m, x, y)
    ensures Together(Run(m, parents, order), x, y)
    decreases |order|
  {
    if order != [] {
      AttachKeepsTogether(m, order[0], parents[order[0]], x, y);
      RunKeepsTogether(Attach(m, order[0], parents[order[0]]), parents, order[1..], x, y);
    }
  }

  /** Appending `c` to `p` puts the two in the same subtree and in no other. */
  lemma JoinStep(m: map<nat, Node>, c: nat, p: nat, pids: set<nat>)
    requires WellFormed(m, pids)
    requires c in m && p in m && p != c
    ensures Together(Attach(m, c, p), c, p)
  {
    var r := Attach(m, c, p);
    AttachWellFormed(m, c, p, pids);
    AddChildFlat(m[p], m[c]);
    assert Flat(m[p])[0] == p && Flat(m[c])[0] == c;
    assert c in Flat(r[p]) && p in Flat(r[p]);
  }

  /**
   * A child whose parent is top-level (and not the child itself) when its
   * turn comes is appended to that parent, and from then on the two travel
   * together: each is in a subtree of the result exactly when the other is.
   */
  lemma JoinedAtTurn(m: map<nat, Node>, parents: map<nat, nat>, order: seq<nat>, j: nat, pids: set<nat>)
    requires forall c :: c in order ==> c in parents
    requires WellFormed(m, pids)
    requires Distinct(order) && Elements(order) <= m.Keys
    requires j < |order|
    requires var before := Run(m, parents, order[..j]);
      parents[order[j]] in before && parents[order[j]] != order[j]
    ensures order[j] in Run(m, parents, order[..j]) && parents[order[j]] in Run(m, parents, order[..j + 1])
    ensures var before := Run(m, parents, order[..j]);
      Run(m, parents, order[..j + 1])[parents[order[j]]] == AddChild(before[parents[order[j]]], before[order[j]])
    ensures Together(Run(m, parents, order), order[j], parents[order[j]])
  {
    var c := order[j];
    var p := parents[c];
    var before := Run(m, parents, order[..j]);
    PresentAtTurn(m, parents, order, j);
    RunWellFormed(m, parents, order[..j], pids);
    var after := Attach(before, c, p);
    RunThroughTurn(m, parents, order, j);
    JoinStep(before, c, p, pids);
    RunAtTurn(m, parents, order, j);
    RunKeepsTogether(after, parents, order[j + 1..], c, p);
  }

  // ---------------------------------------------------------------------------
  // What the result is, for every iteration order

  /**
   * The roots are exactly the processes that report no parent, each with its
   * own fields as read; the forest is well formed.
   */
  lemma RootsAreParentless(procs: seq<RawProcess>, order: seq<nat>)
    requires UniquePids(procs)
    requires IsLinkOrder(procs, order)
    ensures Roots(procs, order).Keys == ParentlessPids(procs)
    ensures WellFormed(Roots(procs, order), Pids(procs))
    ensures forall i :: 0 <= i < |procs| && procs[i].parent.None? ==>
      procs[i].pid in Roots(procs, order) && SameHeader(Roots(procs, order)[procs[i].pid], NodeFor(procs[i]))
    ensures forall k :: k in Roots(procs, order) ==> ParentLinked(Roots(procs, order)[k])
  {
    NodeMapLinked(procs);
    RunLinked(NodeMap(procs), ParentMap(procs), order);
    NodeMapShape(procs);
    ParentMapShape(procs);
    UnlinkedAreParentless(procs);
    RunKeys(NodeMap(procs), ParentMap(procs), order);
    RunWellFormed(NodeMap(procs), ParentMap(procs), order, Pids(procs));
    RunHeaders(NodeMap(procs), ParentMap(procs), order);
    forall i | 0 <= i < |procs| && procs[i].parent.None?
      ensures procs[i].pid in Roots(procs, order) && SameHeader(Roots(procs, order)[procs[i].pid], NodeFor(procs[i]))
    {
      NodeMapAt(procs, i);
      assert procs[i].pid in ParentlessPids(procs);
    }
  }

  /**
   * When the turn of link `c -> p` comes (`c == order[j]`) and `p` is not a
   * top-level entry other than `c`, the child has already been removed:
   * its pid is in no subtree of the result.
   */
  lemma ChildOfMovedParentIsDropped(procs: seq<RawProcess>, order: seq<nat>, j: nat)
    requires IsLinkOrder(procs, order)
    requires j < |order|
    requires var before := Run(NodeMap(procs), ParentMap(procs), order[..j]);
      ParentMap(procs)[order[j]] !in before || ParentMap(procs)[order[j]] == order[j]
    ensures Absent(Roots(procs, order), order[j])
  {
    NodeMapShape(procs);
    ParentMapShape(procs);
    DroppedAfterTurn(NodeMap(procs), ParentMap(procs), order, j, Pids(procs));
  }

  /**
   * The partner of the drop lemmas: at the turn of link `c -> p`, the child is
   * appended to `p` when `p` is a top-level entry other than `c`, and then `c`
   * is in the forest exactly when `p` is, in the same tree. Otherwise `c` is
   * gone. So a linked pid is in the forest if and only if its parent was
   * top-level at its turn and the parent is in the forest.
   */
  lemma KeptIffParentKept(procs: seq<RawProcess>, order: seq<nat>, j: nat)
    requires IsLinkOrder(procs, order)
    requires j < |order|
    ensures var c, p := order[j], ParentMap(procs)[order[j]];
      var before := Run(NodeMap(procs), ParentMap(procs), order[..j]);
      Present(Roots(procs, order), c) <==> p in before && p != c && Present(Roots(procs, order), p)
    ensures var c, p := order[j], ParentMap(procs)[order[j]];
      var before := Run(NodeMap(procs), ParentMap(procs), order[..j]);
      p in before && p != c ==> Together(Roots(procs, order), c, p)
  {
    var c, p := order[j], ParentMap(procs)[order[j]];
    var before := Run(NodeMap(procs), ParentMap(procs), order[..j]);
    var roots := Roots(procs, order);
    NodeMapShape(procs);
    ParentMapShape(procs);
    if p in before && p != c {
      JoinedAtTurn(NodeMap(procs), ParentMap(procs), order, j, Pids(procs));
    } else {
      ChildOfMovedParentIsDropped(procs, order, j);
    }
  }

  /**
   * A process whose parent is a root of the forest (reports no parent itself)
   * is always kept, inside that root's tree, whatever the iteration order.
   */
  lemma ChildOfRootIsKept(procs: seq<RawProcess>, order: seq<nat>, i: nat, r: nat)
    requires UniquePids(procs)
    requires IsLinkOrder(procs, order)
    requires i < |procs| && r < |procs|
    requires procs[i].parent == Some(procs[r].pid) && procs[r].parent.None?
    ensures procs[r].pid in Roots(procs, order)
    ensures procs[i].pid in Flat(Roots(procs, order)[procs[r].pid])
  {
    var c, p := procs[i].pid, procs[r].pid;
    var roots := Roots(procs, order);
    RootsAreParentless(procs, order);
    ParentMapAt(procs, i);
    ParentMapShape(procs);
    UnlinkedAreParentless(procs);
    NodeMapShape(procs);
    assert p in ParentlessPids(procs);
    assert p !in ParentMap(procs);
    assert c in Elements(order);
    var j :| 0 <= j < |order| && order[j] == c;
    RunKeys(NodeMap(procs), ParentMap(procs), order[..j]);
    assert p !in Elements(order[..j]);
    assert p != c;
    KeptIffParentKept(procs, order, j);
    assert Flat(roots[p])[0] == p;
  }

  lemma DroppedAfterTurn(m: map<nat, Node>, parents: map<nat, nat>, order: seq<nat>, j: nat, pids: set<nat>)
    requires forall c :: c in order ==> c in parents
    requires WellFormed(m, pids)
    requires Distinct(order) && Elements(order) <= m.Keys
    requires j < |order|
    requires parents[order[j]] !in Run(m, parents, order[..j]) || parents[order[j]] == order[j]
    ensures Absent(Run(m, parents, order), order[j])
  {
    var c := order[j];
    var before := Run(m, parents, order[..j]);
    PresentAtTurn(m, parents, order, j);
    RunWellFormed(m, parents, order[..j], pids);
    DropStep(before, c, parents[c], pids);
    RunAtTurn(m, parents, order, j);
    RunKeepsAbsent(Attach(before, c, parents[c]), parents, order[j + 1..], c);
  }

  /** A child is still top-level when its own turn comes. */
  lemma PresentAtTurn(m: map<nat, Node>, parents: map<nat, nat>, order: seq<nat>, j: nat)
    requires forall c :: c in order ==> c in parents
    requires Distinct(order) && Elements(order) <= m.Keys
    requires j < |order|
    ensures order[j] in Run(m, parents, order[..j])
  {
    RunKeys(m, parents, order[..j]);
    DistinctPrefix(order, j);
  }

  /** The loop up to and including turn `j` is the loop up to turn `j`, then that turn. */
  lemma RunThroughTurn(m: map<nat, Node>, parents: map<nat, nat>, order: seq<nat>, j: nat)
    requires forall c :: c in order ==> c in parents
    requires j < |order|
    ensures Run(m, parents, order[..j + 1]) == Attach(Run(m, parents, order[..j]), order[j], parents[order[j]])
  {
    var c := order[j];
    assert order[..j + 1] == order[..j] + [c];
    RunSplit(m, parents, order[..j], [c]);
    assert [c][1..] == [];
  }

  /** The whole loop is the loop up to turn `j`, that turn, then the rest. */
  lemma RunAtTurn(m: map<nat, Node>, parents: map<nat, nat>, order: seq<nat>, j: nat)
    requires forall c :: c in order ==> c in parents
    requires j < |order|
    ensures Run(m, parents, order)
      == Run(Attach(Run(m, parents, order[..j]), order[j], parents[order[j]]), parents, order[j + 1..])
  {
    var c, suffix := order[j], order[j + 1..];
    assert order == order[..j] + ([c] + suffix);
    RunSplit(m, parents, order[..j], [c] + suffix);
    assert ([c] + suffix)[0] == c && ([c] + suffix)[1..] == suffix;
  }

  /**
   * A process whose reported parent is missing from the table, or is itself,
   * is dropped from the forest whatever the iteration order.
   */
  lemma OrphanIsDropped(procs: seq<RawProcess>, order: seq<nat>, i: nat)
    requires UniquePids(procs)
    requires IsLinkOrder(procs, order)
    requires i < |procs| && procs[i].parent.Some?
    requires procs[i].parent.value !in Pids(procs) || procs[i].parent.value == procs[i].pid
    ensures Absent(Roots(procs, order), procs[i].pid)
  {
    var c := procs[i].pid;
    ParentMapAt(procs, i);
    assert c in Elements(order);
    var j :| 0 <= j < |order| && order[j] == c;
    NodeMapShape(procs);
    RunKeys(NodeMap(procs), ParentMap(procs), order[..j]);
    ChildOfMovedParentIsDropped(procs, order, j);
  }

  /** A process whose parent has already exited is not in the forest at all. */
  lemma OrphanExample()
    ensures var procs := [RawProcess(2, "worker", 0.0, 0, Some(1), "Run")];
      IsLinkOrder(procs, [2]) && Roots(procs, [2]) == map[]
  {
    var procs := [RawProcess(2, "worker", 0.0, 0, Some(1), "Run")];
    assert procs[..0] == [];
    assert ParentMap(procs) == map[2 := 1];
    assert NodeMap(procs).Keys == {2};
    assert Elements([2]) == {2};
  }

  /** The chain init(1) <- shell(2) <- job(3). */
  function Chain(): seq<RawProcess>
  {
    [RawProcess(1, "init", 0.0, 0, None, "Run"),
     RawProcess(2, "shell", 0.0, 0, Some(1), "Run"),
     RawProcess(3, "job", 0.0, 0, Some(2), "Run")]
  }

  lemma ChainMaps()
    ensures NodeMap(Chain()) == map[1 := NodeFor(Chain()[0]), 2 := NodeFor(Chain()[1]), 3 := NodeFor(Chain()[2])]
    ensures ParentMap(Chain()) == map[2 := 1, 3 := 2]
  {
    var procs := Chain();
    assert procs[..2][..1] == procs[..1];
    assert procs[..1][..0] == [];
    assert procs[..|procs| - 1] == procs[..2];
    assert NodeMap(procs[..1]) == map[1 := NodeFor(procs[0])];
    assert ParentMap(procs[..1]) == map[];
    assert NodeMap(procs[..2]) == map[1 := NodeFor(procs[0]), 2 := NodeFor(procs[1])];
    assert ParentMap(procs[..2]) == map[2 := 1];
  }

  /** The link loop over init <- shell <- job, visiting job's link first, on any three nodes. */
  lemma ChainRunChildFirst(n1: Node, n2: Node, n3: Node)
    ensures Run(map[1 := n1, 2 := n2, 3 := n3], map[2 := 1, 3 := 2], [3, 2]) == map[1 := AddChild(n1, AddChild(n2, n3))]
  {
    var links := map[2 := 1, 3 := 2];
    var m0 := map[1 := n1, 2 := n2, 3 := n3];
    var m1 := Attach(m0, 3, 2);
    assert m0 - {3} == map[1 := n1, 2 := n2];
    assert m1 == map[1 := n1, 2 := AddChild(n2, n3)];
    var m2 := Attach(m1, 2, 1);
    assert m1 - {2} == map[1 := n1];
    assert m2 == map[1 := AddChild(n1, AddChild(n2, n3))];
    assert [3, 2][1..] == [2] && [2][1..] == [];
    assert Run(m0, links, [3, 2]) == Run(m1, links, [2]);
  }

  /** The same loop visiting shell's link first: job's parent has left the top level by job's turn. */
  lemma ChainRunParentFirst(n1: Node, n2: Node, n3: Node)
    ensures Run(map[1 := n1, 2 := n2, 3 := n3], map[2 := 1, 3 := 2], [2, 3]) == map[1 := AddChild(n1, n2)]
  {
    var links := map[2 := 1, 3 := 2];
    var m0 := map[1 := n1, 2 := n2, 3 := n3];
    var m1 := Attach(m0, 2, 1);
    assert m0 - {2} == map[1 := n1, 3 := n3];
    assert m1 == map[1 := AddChild(n1, n2), 3 := n3];
    var m2 := Attach(m1, 3, 2);
    assert m1 - {3} == map[1 := AddChild(n1, n2)];
    assert m2 == map[1 := AddChild(n1, n2)];
    assert [2, 3][1..] == [3] && [3][1..] == [];
    assert Run(m0, links, [2, 3]) == Run(m1, links, [3]);
  }

  /** Subtree pids of the nested chain, from the pids of its three single nodes. */
  lemma ChainFlat(n1: Node, n2: Node, n3: Node)
    requires Flat(n1) == [1] && Flat(n2) == [2] && Flat(n3) == [3]
    ensures Flat(AddChild(n1, AddChild(n2, n3))) == [1, 2, 3]
    ensures Flat(AddChild(n1, n2)) == [1, 2]
  {
    AddChildFlat(n2, n3);
    AddChildFlat(n1, AddChild(n2, n3));
    AddChildFlat(n1, n2);
  }

  /** The chain's roots, for either visiting order, in terms of its three fresh nodes. */
  lemma ChainRoots(order: seq<nat>)
    requires order == [3, 2] || order == [2, 3]
    ensures IsLinkOrder(Chain(), order)
    ensures var n1, n2, n3 := NodeFor(Chain()[0]), NodeFor(Chain()[1]), NodeFor(Chain()[2]);
      && Flat(n1) == [1] && Flat(n2) == [2] && Flat(n3) == [3]
      && Roots(Chain(), order) == Run(map[1 := n1, 2 := n2, 3 := n3], map[2 := 1, 3 := 2], order)
  {
    ChainMaps();
    assert Elements(order) == {2, 3};
  }

  /** Visiting job's link first nests all three processes under init. */
  lemma ChainChildFirst()
    ensures IsLinkOrder(Chain(), [3, 2])
    ensures Roots(Chain(), [3, 2]).Keys == {1} && Flat(Roots(Chain(), [3, 2])[1]) == [1, 2, 3]
  {
    var n1, n2, n3 := NodeFor(Chain()[0]), NodeFor(Chain()[1]), NodeFor(Chain()[2]);
    ChainRoots([3, 2]);
    ChainRunChildFirst(n1, n2, n3);
    var roots := Roots(Chain(), [3, 2]);
    assert roots == map[1 := AddChild(n1, AddChild(n2, n3))];
    ChainFlat(n1, n2, n3);
  }

  /** Visiting shell's link first moves shell away before job's turn, so job is dropped. */
  lemma ChainParentFirst()
    ensures IsLinkOrder(Chain(), [2, 3])
    ensures Roots(Chain(), [2, 3]).Keys == {1} && Flat(Roots(Chain(), [2, 3])[1]) == [1, 2]
  {
    var n1, n2, n3 := NodeFor(Chain()[0]), NodeFor(Chain()[1]), NodeFor(Chain()[2]);
    ChainRoots([2, 3]);
    ChainRunParentFirst(n1, n2, n3);
    var roots := Roots(Chain(), [2, 3]);
    assert roots == map[1 := AddChild(n1, n2)];
    ChainFlat(n1, n2, n3);
  }

  lemma {:induction false} PidsBound(procs: seq<RawProcess>)
    ensures |Pids(procs)| <= |procs|
  {
    if procs != [] {
      PidsBound(procs[1..]);
      assert procs == [procs[0]] + procs[1..];
      assert Pids(procs) == {procs[0].pid} + Pids(procs[1..]);
    }
  }

  // ---------------------------------------------------------------------------
  // The function itself

  /** `into_values().collect()`: the top-level nodes, in whatever order the map yields its keys. */
  method CollectRoots(roots: map<nat, Node>, ghost pids: set<nat>) returns (forest: seq<Node>)
    requires WellFormed(roots, pids)
    ensures |forest| == |roots|
    ensures forall n :: n in forest ==> n.pid in roots && roots[n.pid] == n
    ensures (set n | n in forest :: n.pid) == roots.Keys
    ensures Distinct(FlatAll(forest))
    ensures Elements(FlatAll(forest)) <= pids
  {
    var keys := Enumerate(roots);
    forest := [];
    var k := 0;
    while k < |keys|
      invariant 0 <= k <= |keys|
      invariant |forest| == k
      invariant forall t :: 0 <= t < k ==> forest[t] == roots[keys[t]]
      invariant Distinct(FlatAll(forest))
      invariant Elements(FlatAll(forest)) <= pids
      invariant forall t, x :: k <= t < |keys| && x in Flat(roots[keys[t]]) ==> x !in FlatAll(forest)
    {
      var root := roots[keys[k]];
      FlatAllAppend(forest, root);
      DistinctConcat(FlatAll(forest), Flat(root));
      forall t, x | k + 1 <= t < |keys| && x in Flat(roots[keys[t]])
        ensures x !in Flat(root)
      {
        assert keys[t] != keys[k];
      }
      forest := forest + [root];
      k := k + 1;
    }
    EnumeratedPids(roots, keys, forest);
  }

  lemma EnumeratedPids(roots: map<nat, Node>, keys: seq<nat>, forest: seq<Node>)
    requires forall k :: k in roots ==> roots[k].pid == k
    requires Elements(keys) == roots.Keys && |forest| == |keys|
    requires forall t :: 0 <= t < |keys| ==> forest[t] == roots[keys[t]]
    ensures forall n :: n in forest ==> n.pid in roots && roots[n.pid] == n
    ensures (set n | n in forest :: n.pid) == roots.Keys
  {
    forall x | x in roots.Keys ensures x in (set n | n in forest :: n.pid) {
      var t :| 0 <= t < |keys| && keys[t] == x;
      assert forest[t] in forest && forest[t].pid == x;
    }
  }

  /** The first loop: one fresh node per process, and the child -> parent links. */
  method IndexProcesses(procs: seq<RawProcess>) returns (processMap: map<nat, Node>, parentMap: map<nat, nat>)
    ensures processMap == NodeMap(procs)
    ensures parentMap == ParentMap(procs)
  {
    processMap := map[];
    parentMap := map[];
    var i := 0;
    while i < |procs|
      invariant 0 <= i <= |procs|
      invariant processMap == NodeMap(procs[..i])
      invariant parentMap == ParentMap(procs[..i])
    {
      var p := procs[i];
      assert procs[..i + 1][..i] == procs[..i];
      processMap := processMap[p.pid := New(p.pid, p.name, p.cpuUsage, p.memory, p.parent)];
      if p.parent.Some? {
        parentMap := parentMap[p.pid := p.parent.value];
      }
      i := i + 1;
    }
    assert procs[..|procs|] == procs;
  }

  /**
   * The second loop: for each link in `order`, remove the child from the
   * top-level map, then append it to its parent if the parent is still there.
   */
  method LinkChildren(processMap: map<nat, Node>, parentMap: map<nat, nat>, order: seq<nat>) returns (roots: map<nat, Node>)
    requires forall c :: c in order ==> c in parentMap
    ensures roots == Run(processMap, parentMap, order)
  {
    roots := processMap;
    var j := 0;
    while j < |order|
      invariant 0 <= j <= |order|
      invariant Run(roots, parentMap, order[j..]) == Run(processMap, parentMap, order)
    {
      var childPid := order[j];
      var parentPid := parentMap[childPid];
      ghost var before := roots;
      var childNode: Option<Node> := None;
      if childPid in roots {
        childNode := Some(roots[childPid]);
        roots := roots - {childPid};
      }
      if childNode.Some? && parentPid in roots {
        roots := roots[parentPid := AddChild(roots[parentPid], childNode.value)];
      }
      assert roots == Attach(before, childPid, parentPid);
      assert order[j..][1..] == order[j + 1..];
      j := j + 1;
    }
  }

  /**
   * Builds the forest from the process table `procs` (in the library's
   * iteration order), visiting the recorded links in the iteration order
   * `order`, and collects the remaining roots in whatever order the map yields.
   */
  method BuildProcessTree(procs: seq<RawProcess>, order: seq<nat>) returns (forest: seq<Node>)
    requires UniquePids(procs)
    requires IsLinkOrder(procs, order)
    ensures |forest| == |Roots(procs, order)|
    ensures forall n :: n in forest ==> n.pid in Roots(procs, order) && Roots(procs, order)[n.pid] == n
    ensures (set n | n in forest :: n.pid) == ParentlessPids(procs)
    ensures forall n :: n in forest ==> n.parentPid.None?
    ensures forall n :: n in forest ==> ParentLinked(n)
    ensures Distinct(FlatAll(forest))
    ensures Elements(FlatAll(forest)) <= Pids(procs)
    ensures |FlatAll(forest)| <= |procs|
  {
    var processMap, parentMap := IndexProcesses(procs);
    var roots := LinkChildren(processMap, parentMap, order);
    RootsAreParentless(procs, order);
    forest := CollectRoots(roots, Pids(procs));
    DistinctWithinBound(FlatAll(forest), Pids(procs));
    PidsBound(procs);
  }
}
