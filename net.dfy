/** Per-interface network record and its throughput derivation (collectors/net.rs). */
module Net {
  import opened Collections
  import opened RawCounters

  /** One interface in a snapshot: cumulative counters plus derived bytes per second. */
  datatype NetworkInfo = NetworkInfo(
    interface: string,
    rxBytes: nat,
    txBytes: nat,
    rxPackets: nat,
    txPackets: nat,
    rxErrors: nat,
    txErrors: nat,
    rxThroughput: real,
    txThroughput: real)

  /** The interface's name and its six counters agree with the library's read. */
  ghost predicate CopiesCounters(r: NetworkInfo, name: string, data: NetworkData)
  {
    && r.interface == name
    && r.rxBytes == data.totalReceived
    && r.txBytes == data.totalTransmitted
    && r.rxPackets == data.totalPacketsReceived
    && r.txPackets == data.totalPacketsTransmitted
    && r.rxErrors == data.totalErrorsOnReceived
    && r.txErrors == data.totalErrorsOnTransmitted
  }

  /** Name and every counter are the same in both records; only throughput may differ. */
  ghost predicate SameCounters(a: NetworkInfo, b: NetworkInfo)
  {
    a.(rxThroughput := 0.0, txThroughput := 0.0) == b.(rxThroughput := 0.0, txThroughput := 0.0)
  }

  /** A fresh record from one read: counters copied, no throughput known yet. */
  function FromNetworkData(name: string, data: NetworkData): (r: NetworkInfo)
    ensures CopiesCounters(r, name, data)
    ensures r.rxThroughput == 0.0 && r.txThroughput == 0.0
  {
    NetworkInfo(
      name,
      data.totalReceived,
      data.totalTransmitted,
      data.totalPacketsReceived,
      data.totalPacketsTransmitted,
      data.totalErrorsOnReceived,
      data.totalErrorsOnTransmitted,
      0.0,
      0.0)
  }

  /** Bytes per second for a counter that moved from `before` to `now` in `elapsedMs` milliseconds. */
  function Rate(now: nat, before: nat, elapsedMs: real): (r: real)
    requires elapsedMs > 0.0
    ensures r >= 0.0
    ensures now <= before ==> r == 0.0
    ensures r * elapsedMs == (SatSub(now, before) as real) * 1000.0
    ensures elapsedMs == 1000.0 ==> r == SatSub(now, before) as real
  {
    (SatSub(now, before) as real) / (elapsedMs / 1000.0)
  }

  /**
   * The record with throughput derived against the previous sample of the same
   * interface, `elapsedMs` milliseconds earlier.
   */
  function WithThroughput(self: NetworkInfo, previous: NetworkInfo, elapsedMs: real): (r: NetworkInfo)
    requires elapsedMs > 0.0
    ensures SameCounters(r, self)
    ensures r.rxThroughput == Rate(self.rxBytes, previous.rxBytes, elapsedMs)
    ensures r.txThroughput == Rate(self.txBytes, previous.txBytes, elapsedMs)
  {
    self.(rxThroughput := Rate(self.rxBytes, previous.rxBytes, elapsedMs),
          txThroughput := Rate(self.txBytes, previous.txBytes, elapsedMs))
  }
}
