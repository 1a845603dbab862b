/** Per-volume record derived from one library read (collectors/disk.rs). */
module Disk {
  import opened Collections
  import opened RawCounters

  datatype DiskInfo = DiskInfo(
    name: string,
    mountPoint: string,
    totalSpace: nat,
    availableSpace: nat,
    usedSpace: nat,
    usagePercent: real)

  /**
   * Used space saturates at zero, the percentage is guarded against an empty
   * volume, and a volume the platform reports without a name is named after
   * its mount point.
   */
  function FromDisk(disk: RawDisk): (r: DiskInfo)
    ensures r.totalSpace == disk.totalSpace
    ensures r.availableSpace == disk.availableSpace
    ensures r.mountPoint == disk.mountPoint
    ensures r.usedSpace <= r.totalSpace
    ensures disk.availableSpace <= disk.totalSpace ==> r.usedSpace + disk.availableSpace == disk.totalSpace
    ensures disk.totalSpace < disk.availableSpace ==> r.usedSpace == 0
    ensures disk.totalSpace == 0 ==> r.usagePercent == 0.0
    ensures disk.totalSpace > 0 ==> r.usagePercent * (disk.totalSpace as real) == (r.usedSpace as real) * 100.0
    ensures 0.0 <= r.usagePercent <= 100.0
    ensures r.name == (if disk.name == "" then disk.mountPoint else disk.name)
    ensures r.name == "" ==> disk.name == "" && disk.mountPoint == ""
  {
    var used := SatSub(disk.totalSpace, disk.availableSpace);
    var usage := if disk.totalSpace > 0 then (used as real / disk.totalSpace as real) * 100.0 else 0.0;
    var displayName := if |disk.name| == 0 then disk.mountPoint else disk.name;
    DiskInfo(displayName, disk.mountPoint, disk.totalSpace, disk.availableSpace, used, usage)
  }
}
