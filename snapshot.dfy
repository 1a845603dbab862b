/**
 * The snapshot record and its assembly from one library read plus the
 * previous snapshot (`Snapshot::from_sysinfo` in collectors/snapshot.rs).
 */
module Snapshots {
  import opened Wrappers
  import opened Collections
  import opened RawCounters
  import opened Net
  import opened Disk
  import opened ProcessTree
  import opened TopProcesses
  import opened ProcessForest

  /** The factor that turns the library's memory unit into bytes. */
  const KiB: nat := 1024

  /** One point-in-time capture; `ts` is milliseconds since the epoch. */
  datatype Snapshot = Snapshot(
    ts: int,
    cpuTotalPct: real,
    cpuPerCore: seq<real>,
    memUsedBytes: nat,
    memTotalBytes: nat,
    swapUsedBytes: nat,
    swapTotalBytes: nat,
    load1: real,
    load5: real,
    load15: real,
    network: seq<NetworkInfo>,
    disks: seq<DiskInfo>,
    topProcesses: seq<ProcessInfo>,
    processTree: seq<Node>)

  // ---------------------------------------------------------------------------
  // CPU

  function Sum(xs: seq<real>): real
  {
    if xs == [] then 0.0 else xs[0] + Sum(xs[1..])
  }

  /** The mean of the per-core usages, or 0 when the library lists no core. */
  function CpuTotal(usages: seq<real>): (r: real)
    ensures |usages| == 0 ==> r == 0.0
    ensures |usages| > 0 ==> r * (|usages| as real) == Sum(usages)
  {
    if |usages| == 0 then 0.0 else Sum(usages) / (|usages| as real)
  }

  lemma {:induction false} SumBounds(xs: seq<real>, lo: real, hi: real)
    requires forall x :: x in xs ==> lo <= x <= hi
    ensures lo * (|xs| as real) <= Sum(xs) <= hi * (|xs| as real)
  {
    if xs != [] {
      forall x | x in xs[1..] ensures lo <= x <= hi {
        assert x in xs;
      }
      SumBounds(xs[1..], lo, hi);
      assert xs[0] in xs;
    }
  }

  /** With every core between 0 and 100 percent, so is the total. */
  lemma CpuTotalIsPercentage(usages: seq<real>)
    requires forall u :: u in usages ==> 0.0 <= u <= 100.0
    ensures 0.0 <= CpuTotal(usages) <= 100.0
  {
    SumBounds(usages, 0.0, 100.0);
  }

  // ---------------------------------------------------------------------------
  // Memory and swap

  /** Total minus available, never below zero, scaled to bytes. */
  function UsedBytes(total: nat, available: nat): (r: nat)
    ensures r <= total * KiB
    ensures available <= total ==> r == (total - available) * KiB
    ensures total <= available ==> r == 0
  {
    SatSub(total, available) * KiB
  }

  // ---------------------------------------------------------------------------
  // Network

  /** The lookup table of the previous snapshot's interfaces, as the loop that fills it leaves it. */
  function ByName(nets: seq<NetworkInfo>): map<string, NetworkInfo>
    decreases |nets|
  {
    if nets == [] then map[]
    else
      var last := nets[|nets| - 1];
      ByName(nets[..|nets| - 1])[last.interface := last]
  }

  /** Every name of the previous snapshot is a key, and a key maps to the last interface with that name. */
  lemma {:induction false} ByNameLookup(nets: seq<NetworkInfo>, i: nat)
    requires i < |nets|
    requires forall j :: i < j < |nets| ==> nets[j].interface != nets[i].interface
    ensures nets[i].interface in ByName(nets) && ByName(nets)[nets[i].interface] == nets[i]
    decreases |nets|
  {
    if i < |nets| - 1 {
      var init := nets[..|nets| - 1];
      assert init[i] == nets[i];
      ByNameLookup(init, i);
    }
  }

  lemma {:induction false} ByNameKeys(nets: seq<NetworkInfo>)
    ensures ByName(nets).Keys == set n | n in nets :: n.interface
    decreases |nets|
  {
    if nets != [] {
      var init := nets[..|nets| - 1];
      ByNameKeys(init);
      assert nets == init + [nets[|nets| - 1]];
    }
  }

  /** `prev_network_map`: fills the lookup table from the previous snapshot's interfaces, later ones overwriting. */
  method IndexByInterface(nets: seq<NetworkInfo>) returns (byName: map<string, NetworkInfo>)
    ensures byName == ByName(nets)
  {
    byName := map[];
    var i := 0;
    while i < |nets|
      invariant 0 <= i <= |nets|
      invariant byName == ByName(nets[..i])
    {
      assert nets[..i + 1][..i] == nets[..i];
      byName := byName[nets[i].interface := nets[i]];
      i := i + 1;
    }
    assert nets[..|nets|] == nets;
  }

  /**
   * The interfaces of this read, each with throughput against the previous
   * sample of the same name when there is a previous snapshot (its lookup
   * table and the elapsed milliseconds) and it has such a sample.
   */
  function CollectNetwork(raw: seq<RawInterface>, previous: Option<(map<string, NetworkInfo>, real)>): (r: seq<NetworkInfo>)
    requires previous.Some? ==> previous.value.1 > 0.0
    ensures |r| == |raw|
    ensures forall i :: 0 <= i < |raw| ==> CopiesCounters(r[i], raw[i].name, raw[i].data)
    ensures forall i :: 0 <= i < |raw| && (previous.None? || raw[i].name !in previous.value.0) ==>
      r[i].rxThroughput == 0.0 && r[i].txThroughput == 0.0
    ensures forall i :: 0 <= i < |raw| && previous.Some? && raw[i].name in previous.value.0 ==>
      var before := previous.value.0[raw[i].name];
      && r[i].rxThroughput == Rate(raw[i].data.totalReceived, before.rxBytes, previous.value.1)
      && r[i].txThroughput == Rate(raw[i].data.totalTransmitted, before.txBytes, previous.value.1)
  {
    seq(|raw|, i requires 0 <= i < |raw| =>
      var base := FromNetworkData(raw[i].name, raw[i].data);
      match previous
      case None => base
      case Some(p) => if raw[i].name in p.0 then WithThroughput(base, p.0[raw[i].name], p.1) else base)
  }

  // ---------------------------------------------------------------------------
  // The whole snapshot

  /**
   * Assembles the snapshot of the read `sys` taken at `now`, against the
   * previous snapshot if there is one. `linkOrder` is the order in which the
   * child -> parent map of `build_process_tree` happens to be iterated.
   */
  method FromSysinfo(now: int, sys: RawSystem, load: LoadAvg, previous: Option<Snapshot>, linkOrder: seq<nat>)
    returns (s: Snapshot)
    requires previous.Some? ==> now > previous.value.ts
    requires UniquePids(sys.processes)
    requires IsLinkOrder(sys.processes, linkOrder)
    ensures s.ts == now
    ensures s.cpuPerCore == sys.cpuUsages
    ensures s.cpuTotalPct == CpuTotal(sys.cpuUsages)
    ensures s.memTotalBytes == sys.totalMemory * KiB && s.memUsedBytes == UsedBytes(sys.totalMemory, sys.availableMemory)
    ensures s.swapTotalBytes == sys.totalSwap * KiB && s.swapUsedBytes == UsedBytes(sys.totalSwap, sys.freeSwap)
    ensures s.memUsedBytes <= s.memTotalBytes && s.swapUsedBytes <= s.swapTotalBytes
    ensures s.load1 == load.one && s.load5 == load.five && s.load15 == load.fifteen
    ensures previous.None? ==> s.network == CollectNetwork(sys.networks, None)
    ensures previous.Some? ==>
      s.network == CollectNetwork(sys.networks, Some((ByName(previous.value.network), (now - previous.value.ts) as real)))
    ensures |s.disks| == |sys.disks| && forall i :: 0 <= i < |sys.disks| ==> s.disks[i] == FromDisk(sys.disks[i])
    ensures s.topProcesses == TopProcesses.TopProcesses(sys.processes)
    ensures (set n | n in s.processTree :: n.pid) == ParentlessPids(sys.processes)
    ensures forall n :: n in s.processTree ==>
      n.pid in Roots(sys.processes, linkOrder) && Roots(sys.processes, linkOrder)[n.pid] == n
    ensures Distinct(FlatAll(s.processTree)) && |FlatAll(s.processTree)| <= |sys.processes|
  {
    var cpuTotal := CpuTotal(sys.cpuUsages);
    var usedMem := SatSub(sys.totalMemory, sys.availableMemory);
    var usedSwap := SatSub(sys.totalSwap, sys.freeSwap);

    var network: seq<NetworkInfo>;
    match previous {
      case Some(prev) =>
        var elapsedMs := (now - prev.ts) as real;
        var byName := IndexByInterface(prev.network);
        network := CollectNetwork(sys.networks, Some((byName, elapsedMs)));
      case None =>
        network := CollectNetwork(sys.networks, None);
    }

    var disks := seq(|sys.disks|, i requires 0 <= i < |sys.disks| => FromDisk(sys.disks[i]));
    var top := TopProcesses.TopProcesses(sys.processes);
    var forest := BuildProcessTree(sys.processes, linkOrder);

    s := Snapshot(
      now, cpuTotal, sys.cpuUsages,
      usedMem * KiB, sys.totalMemory * KiB, usedSwap * KiB, sys.totalSwap * KiB,
      load.one, load.five, load.fifteen,
      network, disks, top, forest);
  }

  // ---------------------------------------------------------------------------
  // Worked consequences

  /**
   * An interface of the previous snapshot whose name is unique there is the
   * one the new sample is compared with; throughput is then the counter
   * delta over the elapsed seconds.
   */
  lemma MatchedInterfaceThroughput(raw: seq<RawInterface>, prev: Snapshot, now: int, i: nat, j: nat)
    requires now > prev.ts
    requires i < |raw| && j < |prev.network|
    requires raw[i].name == prev.network[j].interface
    requires forall k :: j < k < |prev.network| ==> prev.network[k].interface != raw[i].name
    requires prev.network[j].rxBytes <= raw[i].data.totalReceived
    ensures var r := CollectNetwork(raw, Some((ByName(prev.network), (now - prev.ts) as real)));
      r[i].rxThroughput * (((now - prev.ts) as real) / 1000.0) == (raw[i].data.totalReceived - prev.network[j].rxBytes) as real
  {
    ByNameLookup(prev.network, j);
  }

  /** An interface that the previous snapshot does not list starts at zero throughput. */
  lemma NewInterfaceHasNoThroughput(raw: seq<RawInterface>, prev: Snapshot, now: int, i: nat)
    requires now > prev.ts
    requires i < |raw|
    requires forall k :: 0 <= k < |prev.network| ==> prev.network[k].interface != raw[i].name
    ensures var r := CollectNetwork(raw, Some((ByName(prev.network), (now - prev.ts) as real)));
      r[i].rxThroughput == 0.0 && r[i].txThroughput == 0.0
  {
    ByNameKeys(prev.network);
  }

  /** Two cores at 30 and 40 percent give a total of 35 percent. */
  lemma CpuTotalExample()
    ensures CpuTotal([30.0, 40.0]) == 35.0
  {
    assert Sum([30.0, 40.0]) == 30.0 + Sum([40.0]);
  }
}
