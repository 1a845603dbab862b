/** A node of the process forest (collectors/process_tree.rs). */
module ProcessTree {
  import opened Wrappers

  /** One process with the subtrees of the processes attached under it. */
  datatype Node = Node(
    pid: nat,
    name: string,
    cpuUsage: real,
    memoryUsageBytes: nat,
    children: seq<Node>,
    parentPid: Option<nat>)

  /** Everything about a node except its children. */
  ghost predicate SameHeader(a: Node, b: Node)
  {
    a.(children := []) == b.(children := [])
  }

  /** Every child anywhere in the subtree names the node it sits under as its parent. */
  ghost predicate ParentLinked(n: Node)
    decreases n
  {
    forall i :: 0 <= i < |n.children| ==> n.children[i].parentPid == Some(n.pid) && ParentLinked(n.children[i])
  }

  /** A node as first built from the process table: all fields copied, no children. */
  function New(pid: nat, name: string, cpuUsage: real, memoryUsageBytes: nat, parentPid: Option<nat>): (n: Node)
    ensures n.children == []
    ensures n.pid == pid && n.name == name && n.cpuUsage == cpuUsage
    ensures n.memoryUsageBytes == memoryUsageBytes && n.parentPid == parentPid
    ensures Flat(n) == [pid]
  {
    Node(pid, name, cpuUsage, memoryUsageBytes, [], parentPid)
  }

  /** `child` becomes the last child of `n`; nothing else about `n` changes. */
  function AddChild(n: Node, child: Node): (r: Node)
    ensures SameHeader(r, n)
    ensures |r.children| == |n.children| + 1
    ensures r.children[..|n.children|] == n.children && r.children[|n.children|] == child
  {
    n.(children := n.children + [child])
  }

  /** Appending a child that names `n` as its parent keeps every parent link of the subtree. */
  lemma AddChildLinked(n: Node, child: Node)
    requires ParentLinked(n) && ParentLinked(child)
    requires child.parentPid == Some(n.pid)
    ensures ParentLinked(AddChild(n, child))
  {
    var r := AddChild(n, child);
    forall i | 0 <= i < |r.children|
      ensures r.children[i].parentPid == Some(r.pid) && ParentLinked(r.children[i])
    {
      if i < |n.children| {
        assert r.children[i] == n.children[i];
      }
    }
  }

  /** The pids of a node's subtree, the node first, then each child's subtree in order. */
  function Flat(n: Node): seq<nat>
  {
    [n.pid] + FlatAll(n.children)
  }

  /** The pids of every subtree of `ns`, in order. */
  function FlatAll(ns: seq<Node>): seq<nat>
    decreases ns
  {
    if ns == [] then [] else [ns[0].pid] + FlatAll(ns[0].children) + FlatAll(ns[1..])
  }

  lemma FlatAllCons(ns: seq<Node>)
    requires ns != []
    ensures FlatAll(ns) == Flat(ns[0]) + FlatAll(ns[1..])
  {
  }

  /** Adding a subtree at the end of a list adds its pids at the end. */
  lemma {:induction false} FlatAllAppend(ns: seq<Node>, last: Node)
    ensures FlatAll(ns + [last]) == FlatAll(ns) + Flat(last)
    decreases |ns|
  {
    if ns == [] {
      assert [] + [last] == [last];
      assert FlatAll([last]) == Flat(last) + FlatAll([]);
    } else {
      var joined := ns + [last];
      assert joined[0] == ns[0] && joined[1..] == ns[1..] + [last];
      FlatAllAppend(ns[1..], last);
      FlatAllCons(joined);
      FlatAllCons(ns);
    }
  }

  /** After `AddChild` the subtree holds exactly the pids it held before, then those of the child. */
  lemma AddChildFlat(n: Node, child: Node)
    ensures Flat(AddChild(n, child)) == Flat(n) + Flat(child)
  {
    FlatAllAppend(n.children, child);
  }
}
