/**
 * What the system-information library hands to the snapshot builder on one
 * read. The library itself is not modelled: every query becomes a field, and
 * every hash-map iteration of the library becomes a sequence in the order the
 * library happened to produce.
 */
module RawCounters {
  import opened Wrappers

  /** Cumulative counters of one network interface. */
  datatype NetworkData = NetworkData(
    totalReceived: nat,
    totalTransmitted: nat,
    totalPacketsReceived: nat,
    totalPacketsTransmitted: nat,
    totalErrorsOnReceived: nat,
    totalErrorsOnTransmitted: nat)

  /** One entry of the library's interface map: its name and its counters. */
  datatype RawInterface = RawInterface(name: string, data: NetworkData)

  /** One mounted volume as the library reports it. */
  datatype RawDisk = RawDisk(name: string, mountPoint: string, totalSpace: nat, availableSpace: nat)

  /** One entry of the library's process table; `status` is its debug rendering. */
  datatype RawProcess = RawProcess(
    pid: nat,
    name: string,
    cpuUsage: real,
    memory: nat,
    parent: Option<nat>,
    status: string)

  /** Load averages over one, five and fifteen minutes. */
  datatype LoadAvg = LoadAvg(one: real, five: real, fifteen: real)

  /** One refreshed read of the whole system; memory figures are in the library's unit (KiB). */
  datatype RawSystem = RawSystem(
    cpuUsages: seq<real>,
    totalMemory: nat,
    availableMemory: nat,
    totalSwap: nat,
    freeSwap: nat,
    networks: seq<RawInterface>,
    disks: seq<RawDisk>,
    processes: seq<RawProcess>)
}
