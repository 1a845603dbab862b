/**
 * Top-process selection in `Snapshot::from_sysinfo` (collectors/snapshot.rs):
 * the process table sorted by CPU usage, highest first, with the library's
 * stable sort, then its first ten entries.
 */
module TopProcesses {
  import opened Collections
  import opened RawCounters

  /** How many processes a snapshot keeps. */
  const TopCount: nat := 10

  /** A process as a snapshot lists it (collectors/process.rs). */
  datatype ProcessInfo = ProcessInfo(pid: nat, name: string, cpuUsage: real, memory: nat, status: string)

  function FromProcess(p: RawProcess): ProcessInfo
  {
    ProcessInfo(p.pid, p.name, p.cpuUsage, p.memory, p.status)
  }

  /** No process comes after one that uses less CPU. */
  ghost predicate SortedByCpuDesc(s: seq<RawProcess>)
  {
    forall i, j :: 0 <= i < j < |s| ==> s[i].cpuUsage >= s[j].cpuUsage
  }

  /** The processes of `s` whose CPU usage is exactly `v`, in their order in `s`. */
  function WithCpu(s: seq<RawProcess>, v: real): seq<RawProcess>
  {
    if s == [] then [] else (if s[0].cpuUsage == v then [s[0]] else []) + WithCpu(s[1..], v)
  }

  /** Puts `x` in front of the first entry of `t` that uses no more CPU than it does. */
  function Insert(x: RawProcess, t: seq<RawProcess>): (r: seq<RawProcess>)
    ensures |r| == |t| + 1
  {
    if t == [] || x.cpuUsage >= t[0].cpuUsage then [x] + t else [t[0]] + Insert(x, t[1..])
  }

  /** The stable sort by CPU usage, descending, that `sort_by` with the reversed comparison performs. */
  function SortByCpuDesc(s: seq<RawProcess>): (r: seq<RawProcess>)
    ensures |r| == |s|
  {
    if s == [] then [] else Insert(s[0], SortByCpuDesc(s[1..]))
  }

  lemma {:induction false} InsertPermutes(x: RawProcess, t: seq<RawProcess>)
    ensures multiset(Insert(x, t)) == multiset(t) + multiset{x}
  {
    if !(t == [] || x.cpuUsage >= t[0].cpuUsage) {
      InsertPermutes(x, t[1..]);
      assert t == [t[0]] + t[1..];
    }
  }

  lemma SortedTail(t: seq<RawProcess>)
    requires SortedByCpuDesc(t) && t != []
    ensures SortedByCpuDesc(t[1..])
    ensures forall e :: e in t[1..] ==> t[0].cpuUsage >= e.cpuUsage
  {
    forall i, j | 0 <= i < j < |t[1..]| ensures t[1..][i].cpuUsage >= t[1..][j].cpuUsage {
      assert t[1..][i] == t[i + 1] && t[1..][j] == t[j + 1];
    }
    forall e | e in t[1..] ensures t[0].cpuUsage >= e.cpuUsage {
      var k :| 0 <= k < |t[1..]| && t[1..][k] == e;
      assert t[k + 1] == e;
    }
  }

  lemma SortedCons(h: RawProcess, t: seq<RawProcess>)
    requires SortedByCpuDesc(t)
    requires forall e :: e in t ==> h.cpuUsage >= e.cpuUsage
    ensures SortedByCpuDesc([h] + t)
  {
    var r := [h] + t;
    forall i, j | 0 <= i < j < |r| ensures r[i].cpuUsage >= r[j].cpuUsage {
      assert r[j] == t[j - 1];
      if i > 0 {
        assert r[i] == t[i - 1];
      }
    }
  }

  lemma {:induction false} InsertSorted(x: RawProcess, t: seq<RawProcess>)
    requires SortedByCpuDesc(t)
    ensures SortedByCpuDesc(Insert(x, t))
  {
    if t == [] || x.cpuUsage >= t[0].cpuUsage {
      if t != [] {
        SortedTail(t);
      }
      SortedCons(x, t);
    } else {
      SortedTail(t);
      InsertSorted(x, t[1..]);
      InsertPermutes(x, t[1..]);
      var rest := Insert(x, t[1..]);
      forall e | e in rest ensures t[0].cpuUsage >= e.cpuUsage {
        assert e in multiset(rest);
      }
      SortedCons(t[0], rest);
    }
  }

  lemma {:induction false} InsertStable(x: RawProcess, t: seq<RawProcess>, v: real)
    requires SortedByCpuDesc(t)
    ensures WithCpu(Insert(x, t), v) == (if x.cpuUsage == v then [x] else []) + WithCpu(t, v)
  {
    if t == [] || x.cpuUsage >= t[0].cpuUsage {
      var r := [x] + t;
      assert r[0] == x && r[1..] == t;
    } else {
      SortedTail(t);
      InsertStable(x, t[1..], v);
      var r := [t[0]] + Insert(x, t[1..]);
      assert r[0] == t[0] && r[1..] == Insert(x, t[1..]);
    }
  }

  /**
   * The sort puts higher CPU usage first, loses and invents no process, and
   * keeps processes of equal usage in their original order (stability).
   */
  lemma {:induction false} SortIsStableDescending(s: seq<RawProcess>)
    ensures SortedByCpuDesc(SortByCpuDesc(s))
    ensures multiset(SortByCpuDesc(s)) == multiset(s)
    ensures forall v :: WithCpu(SortByCpuDesc(s), v) == WithCpu(s, v)
  {
    if s != [] {
      var rest := SortByCpuDesc(s[1..]);
      SortIsStableDescending(s[1..]);
      InsertSorted(s[0], rest);
      InsertPermutes(s[0], rest);
      forall v ensures WithCpu(SortByCpuDesc(s), v) == WithCpu(s, v) {
        InsertStable(s[0], rest, v);
      }
      assert s == [s[0]] + s[1..];
    }
  }

  /** The first `TopCount` processes of the sorted table, as snapshot entries. */
  function TopProcesses(procs: seq<RawProcess>): (r: seq<ProcessInfo>)
    ensures |r| == Min(TopCount, |procs|)
  {
    SortIsStableDescending(procs);
    var sorted := SortByCpuDesc(procs);
    var n := Min(TopCount, |sorted|);
    seq(n, i requires 0 <= i < n => FromProcess(sorted[i]))
  }

  /**
   * The selection keeps min(10, count) processes, in descending CPU order,
   * and none left out uses more CPU than any kept; kept and left out
   * together are exactly the process table.
   */
  lemma TopAreTheBusiest(procs: seq<RawProcess>)
    ensures var sorted := SortByCpuDesc(procs); var n := Min(TopCount, |procs|);
      && |sorted| == |procs|
      && (forall i :: 0 <= i < n ==> TopProcesses(procs)[i] == FromProcess(sorted[i]))
      && (forall i, j :: 0 <= i < j < n ==> TopProcesses(procs)[i].cpuUsage >= TopProcesses(procs)[j].cpuUsage)
      && (forall i, j :: 0 <= i < n <= j < |sorted| ==> TopProcesses(procs)[i].cpuUsage >= sorted[j].cpuUsage)
      && multiset(sorted[..n]) + multiset(sorted[n..]) == multiset(procs)
  {
    var sorted := SortByCpuDesc(procs);
    var n := Min(TopCount, |procs|);
    SortIsStableDescending(procs);
    assert sorted == sorted[..n] + sorted[n..];
  }
}
