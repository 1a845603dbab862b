# zek-system-monitor: a Dafny model of its core

zek-system-monitor samples a machine at intervals. Each sample is a
*snapshot*: CPU per core and in total, memory and swap, load averages,
network interfaces with throughput, disks, the ten busiest processes, and
the process forest. Snapshots go into a bounded history buffer. They are
shown in a terminal dashboard, checked against alert rules, and analysed
for trends and anomalies. A small library adds plugin and configuration
registries.

This project models that core in Dafny and proves what each part promises:

- `Snapshots.FromSysinfo` assembles a snapshot from one library read and the
  previous snapshot. Supporting modules:
  - `Net`: interface records and throughput;
  - `Disk`: disk records;
  - `TopProcesses`: the stable sort by CPU and the top ten;
  - `ProcessTree` and `ProcessForest`: the tree nodes and
    `build_process_tree`.
- `RingBuffer.RingBuf` is the history buffer: an object whose `push` evicts
  the oldest entry at capacity.
- `Tui.TuiState` holds the dashboard's table and row selection. `Tui` also
  has the unit-choosing loop of the byte and throughput formatters.
- `Alerts.AlertManager` is the alert registry. It runs edge-triggered
  evaluation.
- `AnomalyDetection` holds trend classification, confidence, prediction and
  threshold anomalies.
- `Registries.PluginManager` and `Registries.ConfigManager` are the plugin
  and option maps.

The parts that change state in place are classes with `modifies` clauses:
the ring buffer, the dashboard state, and the alert, plugin and config
managers. The two loops of `build_process_tree` are methods that update
local map variables. A loop is proved equal to a specification function,
with lemmas about that function. Simple accessors and updates state their
result or their new state directly.

The library read is an input value, `RawCounters.RawSystem`. The clock is an
input too: `now` in `FromSysinfo` and `EvaluateAlerts`. A Rust `HashMap`
yields its entries in an unspecified order, and the model keeps that open:
- `Collections.Enumerate` returns the keys in some order, chosen with `:|`;
- the order in which `build_process_tree` visits its child -> parent links
  is a parameter, `linkOrder`, constrained only to list each link once.

## Where the code and its design description differ

The model follows the code in both places.

- **Orphaned processes.** The design says a process whose parent is missing
  becomes a root, so every pid appears exactly once in the forest. The code,
  `crates/core-metrics/src/collectors/snapshot.rs:199`, removes the child
  from the top-level map *before* it looks up the parent. So a child is
  dropped, with its whole subtree, whenever its parent is not top-level at
  that moment. That includes:
  - a parent that has exited (`ProcessForest.OrphanIsDropped`,
    `ProcessForest.OrphanExample`);
  - a parent already moved under its own parent, which depends on the
    map's iteration order (`ProcessForest.ChildOfMovedParentIsDropped`,
    `ProcessForest.ChainParentFirst` against `ProcessForest.ChainChildFirst`).

  What does hold:
  - every pid appears **at most** once in the forest;
  - the roots are exactly the processes without a parent
    (`ProcessForest.BuildProcessTree`);
  - every child sits directly under the parent it reports;
  - a linked process is in the forest exactly when its parent was top-level
    at its turn and the parent is in the forest, and then in the same tree
    (`ProcessForest.KeptIffParentKept`). In particular a child of a root is
    always kept (`ProcessForest.ChildOfRootIsKept`).
- **Zero elapsed time.** The design says an elapsed time of 0 ms counts as
  1 ms. The code divides by the raw difference
  (`crates/core-metrics/src/collectors/net.rs:41-42`), taken from a wall
  clock (`crates/core-metrics/src/collectors/snapshot.rs:55`) that can also
  step back. The model requires the new snapshot to be strictly later than
  the previous one, so it leaves out both the zero case (an infinite or NaN
  rate) and a clock that went backwards (a negative rate).

## Model

| member | source | states |
|---|---|---|
| Collections.SatSub | crates/core-metrics/src/collectors/snapshot.rs:43 | `saturating_sub`: never more than the minuend; the exact difference when it is non-negative, 0 otherwise |
| Collections.Enumerate | crates/core-metrics/src/collectors/snapshot.rs:205 | iterating a map yields each key exactly once, in no promised order |
| Net.FromNetworkData | crates/core-metrics/src/collectors/net.rs:19-31 | the record copies all six counters of the interface and starts both throughputs at 0 |
| Net.Rate | crates/core-metrics/src/collectors/net.rs:37-42 | throughput is never negative; a counter that did not grow gives 0; rate × elapsed ms = saturating delta × 1000; over one second the rate is the delta |
| Net.WithThroughput | crates/core-metrics/src/collectors/net.rs:35-45 | counters unchanged; rx and tx throughput are the rates of the received and transmitted deltas |
| Disk.FromDisk | crates/core-metrics/src/collectors/disk.rs:15-42 | total, available and mount point copied; used = saturating total − available ≤ total; usage 0 on a zero total, else used/total × 100 within [0, 100]; an empty name falls back to the mount point |
| ProcessTree.New | crates/core-metrics/src/collectors/process_tree.rs:14-29 | a node with the given fields and no children; its subtree is just its own pid |
| ProcessTree.AddChild | crates/core-metrics/src/collectors/process_tree.rs:31-33 | the header is unchanged; the children are the old ones followed by the new child |
| ProcessTree.AddChildLinked | crates/core-metrics/src/collectors/process_tree.rs:31-33 | appending a child that names the node as its parent keeps every parent link in the subtree |
| ProcessTree.AddChildFlat | crates/core-metrics/src/collectors/process_tree.rs:31-33 | after adding a child, the node's subtree pids are the old ones followed by the child's subtree |
| ProcessForest.Attach | crates/core-metrics/src/collectors/snapshot.rs:198-202 | one turn of the link loop: the child leaves the top level whether or not its parent is there; a top-level parent other than the child gets the child appended as its last child; otherwise nothing else changes |
| ProcessForest.RunLinked | crates/core-metrics/src/collectors/snapshot.rs:198-202 | through the whole loop, every child in every subtree names the node it sits under as its parent |
| ProcessForest.NodeMapLinked | crates/core-metrics/src/collectors/snapshot.rs:174-195 | each fresh node carries the parent pid that the link map records for it |
| ProcessForest.JoinedAtTurn | crates/core-metrics/src/collectors/snapshot.rs:198-202 | a child whose parent is top-level at its turn is appended to it, and from then on each is in a subtree of the result exactly when the other is |
| ProcessForest.KeptIffParentKept | crates/core-metrics/src/collectors/snapshot.rs:198-205 | a linked pid is in the forest if and only if its parent was top-level at its turn, was not itself, and is in the forest; then the two share a tree |
| ProcessForest.ChildOfRootIsKept | crates/core-metrics/src/collectors/snapshot.rs:170-206 | a process whose parent reports no parent is kept, inside that root's tree, in every iteration order |
| ProcessForest.RootsAreParentless | crates/core-metrics/src/collectors/snapshot.rs:170-206 | the roots left after both loops are exactly the parentless processes, each with its own fields; every subtree lists distinct pids of the table, no pid is in two subtrees, and every child sits under the parent it reports |
| ProcessForest.ChildOfMovedParentIsDropped | crates/core-metrics/src/collectors/snapshot.rs:198-202 | a child whose parent is not top-level at the child's turn (or is the child itself) ends up nowhere in the forest |
| ProcessForest.OrphanIsDropped | crates/core-metrics/src/collectors/snapshot.rs:198-202 | a process whose parent pid is not in the table, or is its own pid, is absent from the forest |
| ProcessForest.OrphanExample | crates/core-metrics/src/collectors/snapshot.rs:198-205 | a lone process whose parent has exited gives an empty forest |
| ProcessForest.ChainChildFirst | crates/core-metrics/src/collectors/snapshot.rs:198-205 | for init ← shell ← job, visiting job's link first nests all three under init |
| ProcessForest.ChainParentFirst | crates/core-metrics/src/collectors/snapshot.rs:198-205 | visiting shell's link first drops job: the forest holds only init and shell |
| ProcessForest.ChainRunChildFirst | crates/core-metrics/src/collectors/snapshot.rs:198-202 | on any three nodes linked 3 -> 2 -> 1, visiting 3 first leaves one root, 1, holding 2 holding 3 |
| ProcessForest.ChainRunParentFirst | crates/core-metrics/src/collectors/snapshot.rs:198-202 | visiting 2 first leaves one root, 1, holding only 2; node 3 is gone |
| ProcessForest.PidsBound | crates/core-metrics/src/collectors/snapshot.rs:178-195 | the table has no more distinct pids than entries |
| ProcessForest.IndexProcesses | crates/core-metrics/src/collectors/snapshot.rs:174-195 | the first loop yields one fresh node per pid (a later entry replacing an earlier one) and exactly the reported child -> parent links |
| ProcessForest.LinkChildren | crates/core-metrics/src/collectors/snapshot.rs:198-202 | the second loop computes the fold of `Attach` over the links in the visiting order |
| ProcessForest.CollectRoots | crates/core-metrics/src/collectors/snapshot.rs:205 | `into_values().collect()`: one node per map entry, each the entry under its pid, with no pid repeated across the forest |
| ProcessForest.BuildProcessTree | crates/core-metrics/src/collectors/snapshot.rs:170-206 | the two loops compute the roots defined by the fold of `Attach`; the root pids are exactly the parentless processes; every child sits under the parent it reports; no pid appears twice in the forest; the forest has no more pids than the table |
| TopProcesses.SortIsStableDescending | crates/core-metrics/src/collectors/snapshot.rs:116-120 | the sort is descending by CPU, a permutation, and stable: processes with equal CPU keep their relative order |
| TopProcesses.TopProcesses | crates/core-metrics/src/collectors/snapshot.rs:110-127 | there are min(10, number of processes) entries |
| TopProcesses.TopAreTheBusiest | crates/core-metrics/src/collectors/snapshot.rs:110-127 | the list is the first entries of the stable sort: descending, none busier left out, and together with the rest exactly the table |
| Snapshots.CpuTotal | crates/core-metrics/src/collectors/snapshot.rs:32-38 | 0 with no cores, otherwise total × core count = sum of the per-core usages (their mean) |
| Snapshots.CpuTotalIsPercentage | crates/core-metrics/src/collectors/snapshot.rs:34-38 | per-core usages in [0, 100] give a total in [0, 100] |
| Snapshots.CpuTotalExample | crates/core-metrics/src/collectors/snapshot.rs:34-38 | cores at 30 and 40 percent give 35 |
| Snapshots.UsedBytes | crates/core-metrics/src/collectors/snapshot.rs:41-48 | used memory or swap in bytes is (total − available) × 1024 and never above total × 1024; 0 when available exceeds total |
| Snapshots.ByNameLookup | crates/core-metrics/src/collectors/snapshot.rs:58-61 | the lookup table maps a name to the last interface of the previous snapshot with that name |
| Snapshots.ByNameKeys | crates/core-metrics/src/collectors/snapshot.rs:58-61 | the lookup table's keys are exactly the previous snapshot's interface names |
| Snapshots.IndexByInterface | crates/core-metrics/src/collectors/snapshot.rs:58-61 | the loop fills the lookup table that `ByName` defines, later entries overwriting earlier ones |
| Snapshots.CollectNetwork | crates/core-metrics/src/collectors/snapshot.rs:54-81 | one record per interface read, counters copied; throughput is the rate against the previous sample of the same name when there is one, else 0 |
| Snapshots.FromSysinfo | crates/core-metrics/src/collectors/snapshot.rs:30-167 | each field of the snapshot: timestamp, per-core and total CPU, memory and swap in bytes (used ≤ total), load averages, network against the previous snapshot and the elapsed time, disks, top processes, and the forest's roots (exactly the parentless processes, no pid twice) |
| Snapshots.MatchedInterfaceThroughput | crates/core-metrics/src/collectors/snapshot.rs:54-74 | with counters a ≤ b, the throughput × elapsed seconds is b − a |
| Snapshots.NewInterfaceHasNoThroughput | crates/core-metrics/src/collectors/snapshot.rs:68-72 | an interface missing from the previous snapshot starts at zero throughput |
| RingBuffer.Pushed | crates/core-metrics/src/ringbuf.rs:4 | the pushed value is last; with a capacity of at least one, the result is the newest `cap` values of the old contents plus the new one; capacity 0 only appends |
| RingBuffer.PushKeepsBound | crates/core-metrics/src/ringbuf.rs:4 | with capacity ≥ 1, length ≤ capacity is preserved by a push |
| RingBuffer.PushedAllKeepsNewest | crates/core-metrics/src/ringbuf.rs:4 | pushes onto a buffer within capacity leave the last `cap` values of everything pushed, oldest first |
| RingBuffer.PushedAllFromEmpty | crates/core-metrics/src/ringbuf.rs:4 | n pushes onto an empty buffer of capacity ≥ 1 keep the last min(n, cap) values in insertion order |
| RingBuffer.ZeroCapacityGrows | crates/core-metrics/src/ringbuf.rs:4 | with capacity 0 every push is kept: the buffer grows without bound |
| RingBuffer.RingBuf.constructor | crates/core-metrics/src/ringbuf.rs:3 | an empty buffer with the given capacity |
| RingBuffer.RingBuf.Push | crates/core-metrics/src/ringbuf.rs:4 | the contents become `Pushed` of the old contents; the capacity invariant is kept |
| RingBuffer.RingBuf.Snapshot | crates/core-metrics/src/ringbuf.rs:5 | returns the contents front to back, changing nothing |
| RingBuffer.EvictionScenario | crates/core-metrics/src/ringbuf.rs:4-5 | pushing 1, 2, 3 into capacity 2 leaves [2, 3] |
| RingBuffer.ZeroCapacityScenario | crates/core-metrics/src/ringbuf.rs:4-5 | pushing 1, 2, 3 into capacity 0 leaves [1, 2, 3] |
| Tui.NextTableIndex | crates/tui/src/lib.rs:25-27 | (t + 1) mod 6: always below 6, wrapping from the last table to the first |
| Tui.PreviousTableIndex | crates/tui/src/lib.rs:29-35 | 0 goes to 5, any other table to the one before |
| Tui.TableStepsAreInverse | crates/tui/src/lib.rs:25-35 | next and previous table undo each other |
| Tui.NextRow | crates/tui/src/lib.rs:37-43 | an empty table keeps the selection; otherwise (s + 1) mod m, below m |
| Tui.PreviousRow | crates/tui/src/lib.rs:45-55 | an empty table keeps the selection; otherwise 0 goes to m − 1 and s to s − 1, below m whenever s ≤ m |
| Tui.RowStepsAreInverse | crates/tui/src/lib.rs:37-55 | on a selection inside the table, next and previous row undo each other |
| Tui.TuiState.constructor | crates/tui/src/lib.rs:17-23 | table 0 selected and all six row selections 0 |
| Tui.TuiState.CurrentSelection | crates/tui/src/lib.rs:57-59 | the selected table's row, one of the stored selections |
| Tui.TuiState.NextTable | crates/tui/src/lib.rs:25-27 | the selected table advances cyclically; the row selections are untouched |
| Tui.TuiState.PreviousTable | crates/tui/src/lib.rs:29-35 | the selected table steps back cyclically; the row selections are untouched |
| Tui.TuiState.NextItem | crates/tui/src/lib.rs:37-43 | only the selected table's row changes, to `NextRow`; nothing changes for 0 rows; selections never reach the `usize` maximum, so `+ 1` cannot overflow |
| Tui.TuiState.PreviousItem | crates/tui/src/lib.rs:45-55 | only the selected table's row changes, to `PreviousRow`; nothing changes for 0 rows |
| Tui.NavigationScenario | crates/tui/src/lib.rs:25-59 | six `next_table` calls return to table 0, and `previous_item(3)` from row 0 selects row 2 |
| Tui.UnitIndex | crates/tui/src/lib.rs:67-70 | the unit index chosen for a value always lies within the unit table |
| Tui.ScaledTimesPow | crates/tui/src/lib.rs:67-70 | dividing by 1024 k times is exact: the scaled value times 1024^k is the original value |
| Tui.UnitIndexIsFirstStop | crates/tui/src/lib.rs:67-70 | the chosen unit is the first at which the scaled value is below 1024, or the last unit; every smaller unit would show 1024 or more |
| Tui.ChooseUnit | crates/tui/src/lib.rs:67-70 | the loop ends at `UnitIndex`, inside the table, with size = the value divided that many times by 1024, size × 1024^index = value, and size < 1024 unless at the last unit |
| Tui.FormatBytes | crates/tui/src/lib.rs:62-73 | the unit is the one `UnitIndex` picks from B … TiB, with the size scaled to it, below 1024 unless in TiB |
| Tui.FormatThroughput | crates/tui/src/lib.rs:75-86 | the same over B/s … GiB/s |
| Alerts.Evaluate | crates/alerts/src/lib.rs:84-102 | a disabled alert, or one whose metric is missing, is unchanged; otherwise `triggered` becomes whether the condition holds; a false-to-true transition stamps the time; true-to-false keeps the last time; no transition is no change |
| Alerts.EvaluateIsIdempotent | crates/alerts/src/lib.rs:95-102 | evaluating again with the same data changes nothing |
| Alerts.NewAlert | crates/alerts/src/lib.rs:54-58 | a new alert holds its configuration, not triggered, never triggered |
| Alerts.AlertManager.constructor | crates/alerts/src/lib.rs:43-47 | no alerts |
| Alerts.AlertManager.AddAlert | crates/alerts/src/lib.rs:49-63 | an existing id gives AlreadyExists and no change; a new id stores a new alert under that id |
| Alerts.AlertManager.RemoveAlert | crates/alerts/src/lib.rs:65-72 | a missing id gives NotFound and no change; a present id is removed and nothing else |
| Alerts.AlertManager.GetAlert | crates/alerts/src/lib.rs:74-76 | present exactly when the id is registered, and then the alert stored under that id |
| Alerts.AlertManager.ListAlerts | crates/alerts/src/lib.rs:78-80 | every stored alert exactly once |
| Alerts.AlertManager.EvaluateAlerts | crates/alerts/src/lib.rs:82-105 | the same ids, each alert replaced by its `Evaluate` result; every alert stays under its id |
| Alerts.RegistryScenario | crates/alerts/src/lib.rs:138-157 | adding one alert succeeds, it can be retrieved, and it is the only one listed |
| Alerts.EvaluationScenario | crates/alerts/src/lib.rs:159-182 | memory at 95 percent triggers a "greater than 90" alert, stamped with the evaluation time |
| Alerts.DuplicateScenario | crates/alerts/src/lib.rs:49-52 | adding an id twice fails the second time and keeps the first configuration |
| AnomalyDetection.CalculateTrend | crates/anomaly/src/lib.rs:86-103 | Unknown exactly for fewer than two values; otherwise Increasing, Decreasing or Stable exactly as last − first is above 5, below −5, or in between |
| AnomalyDetection.TrendIgnoresMiddle | crates/anomaly/src/lib.rs:91-93 | only the first and last values decide the trend |
| AnomalyDetection.CalculateConfidence | crates/anomaly/src/lib.rs:105-112 | in [0, 1]: 0 below two values, n / 10 up to ten values, 1 from ten on |
| AnomalyDetection.PredictNext | crates/anomaly/src/lib.rs:114-125 | none below two values; otherwise the last step repeated |
| AnomalyDetection.CpuSeries | crates/anomaly/src/lib.rs:42-45 | one value per snapshot, its total CPU |
| AnomalyDetection.MemoryPercent | crates/anomaly/src/lib.rs:71 | percent × total = used × 100, and in [0, 100] when used ≤ total |
| AnomalyDetection.MemorySeries | crates/anomaly/src/lib.rs:69-72 | one value per snapshot, its memory percentage |
| AnomalyDetection.AnalyzeCpuTrend | crates/anomaly/src/lib.rs:32-57 | fewer than two snapshots: Unknown, confidence 0, no prediction; otherwise trend by the end points, confidence, and prediction over the CPU series |
| AnomalyDetection.AnalyzeMemoryTrend | crates/anomaly/src/lib.rs:59-84 | the same over the memory percentages |
| AnomalyDetection.CpuAnomaliesOf | crates/anomaly/src/lib.rs:136-155 | a snapshot raises one anomaly exactly when CPU is above 90 or below 5, with that value, threshold and timestamp; never more than one |
| AnomalyDetection.CpuAnomalies | crates/anomaly/src/lib.rs:131-159 | at most one anomaly per snapshot |
| AnomalyDetection.CpuAnomaliesConcat | crates/anomaly/src/lib.rs:134-156 | detection over a + b is detection over a followed by detection over b, so anomalies come out in input order |
| AnomalyDetection.CpuAnomalyComplete | crates/anomaly/src/lib.rs:134-156 | every snapshot out of range contributes its anomaly |
| AnomalyDetection.CpuAnomalySound | crates/anomaly/src/lib.rs:134-156 | every anomaly is the one some snapshot raises |
| AnomalyDetection.DetectCpuAnomalies | crates/anomaly/src/lib.rs:131-159 | the loop returns `CpuAnomalies` of the series |
| AnomalyDetection.MemoryAnomaliesOf | crates/anomaly/src/lib.rs:165-176 | a snapshot raises one anomaly exactly when memory is above 90 percent, with that percentage, threshold 90 and its timestamp |
| AnomalyDetection.MemoryAnomalies | crates/anomaly/src/lib.rs:161-180 | at most one anomaly per snapshot |
| AnomalyDetection.MemoryAnomaliesConcat | crates/anomaly/src/lib.rs:164-177 | detection distributes over concatenation |
| AnomalyDetection.MemoryAnomalyComplete | crates/anomaly/src/lib.rs:164-177 | every snapshot above 90 percent contributes its anomaly |
| AnomalyDetection.MemoryAnomalySound | crates/anomaly/src/lib.rs:164-177 | every anomaly is the one some snapshot raises |
| AnomalyDetection.DetectMemoryAnomalies | crates/anomaly/src/lib.rs:161-180 | the loop returns `MemoryAnomalies` of the series |
| AnomalyDetection.TrendExample | crates/anomaly/src/lib.rs:188-201 | CPU at 45, 50, 55 is Increasing; memory steady at 1000 of 2000 is Stable |
| AnomalyDetection.DetectionScenario | crates/anomaly/src/lib.rs:203-217 | CPU at 95 then 45 gives one CPU anomaly, of value 95; memory at 1900 of 2000 gives one memory anomaly, above 90 |
| Registries.PluginManager.constructor | crates/utils/src/lib.rs:21-25 | no plugins |
| Registries.PluginManager.RegisterPlugin | crates/utils/src/lib.rs:27-31 | always Ok; the plugin is stored under its name, replacing any earlier one |
| Registries.PluginManager.GetPlugin | crates/utils/src/lib.rs:33-35 | present exactly when the name is registered, and then the plugin of that name |
| Registries.PluginManager.ListPlugins | crates/utils/src/lib.rs:37-39 | exactly the registered names, each once |
| Registries.PluginManager.ExecutePlugin | crates/utils/src/lib.rs:41-47 | an unknown name gives the error "Plugin not found: " + name; a known one gives that plugin's result on the data |
| Registries.ConfigManager.constructor | crates/utils/src/lib.rs:79-83 | no options |
| Registries.ConfigManager.AddOption | crates/utils/src/lib.rs:85-87 | the option is stored under its key, replacing any earlier one |
| Registries.ConfigManager.GetOption | crates/utils/src/lib.rs:89-91 | present exactly when the key is registered, and then the option with that key |
| Registries.ConfigManager.SetOptionValue | crates/utils/src/lib.rs:93-100 | a missing key gives "Config option not found: " + key and no change; a present key has only its value replaced |
| Registries.ConfigManager.ListOptions | crates/utils/src/lib.rs:102-104 | every stored option exactly once |
| Registries.PluginScenario | crates/utils/src/lib.rs:152-176 | one registered plugin is the only name listed, and executing it by name returns its result |
| Registries.ReplaceScenario | crates/utils/src/lib.rs:27-47 | registering a name twice keeps one entry, the second plugin; an unknown name is an error |
| Registries.ConfigScenario | crates/utils/src/lib.rs:178-203 | one option is listed; its value reads 1000, then 2000 after setting; setting an unknown key fails |

## Left out

- Reading the machine: the `sysinfo` calls (CPUs, memory, networks, disks,
  processes, load average) and the clock. They are inputs to
  `Snapshots.FromSysinfo`.
- The snapshot's sensors, batteries, GPUs, connections and containers. They
  are plain records read from `sysinfo` components or other collectors;
  batteries, GPUs and containers are always empty.
- The supervisor loop that refreshes the library, calls `from_sysinfo` and
  fills the history buffer. It is timing and threads.
- The lock and the `Arc` inside `RingBuf`. A clone of a `RingBuf` is another
  handle to the same deque, which a shared object reference models.
  Concurrent pushes are not modelled.
- Floating point. Values are exact reals; `f32`/`f64` rounding is not
  modelled. NaN (which `partial_cmp(...).unwrap_or(Equal)` treats as equal)
  and infinities are not modelled either.
- Snapshots.FromSysinfo: requires a timestamp strictly after the previous
  one. This leaves out an equal timestamp, where the code divides by zero,
  and an earlier one (the wall clock stepped back), where the code reports
  a negative throughput. `Net.Rate` is never negative only under this
  precondition.
- AnomalyDetection.AnalyzeMemoryTrend: requires every snapshot to report a
  non-zero memory total once there are two snapshots, where the code would
  divide by zero.
- AnomalyDetection.DetectMemoryAnomalies: requires every snapshot to report
  a non-zero memory total, where the code would divide by zero.
- Snapshots.UsedBytes: does not model `u64` overflow of the `* 1024`
  scaling, because it needs more than 2^54 KiB of memory.
- Pids and counters are unbounded naturals; the `u32`/`u64` widths never
  wrap in these operations.
- TopProcesses.TopProcesses: the process status string is taken from the
  read as given; its `Debug` formatting is not modelled.
- ProcessForest.BuildProcessTree: the order of the returned roots is left
  open, as the map's iteration order is.
- The dashboard's rendering, input handling and ratatui `TableState`. The
  `select` calls at `crates/tui/src/lib.rs:41` and `:53` only mirror the
  selection into the widget.
- Tui.FormatBytes: returns the scaled number and the unit, not the string;
  `{:.1}` formatting is not modelled.
- Tui.FormatThroughput: the same as `Tui.FormatBytes`.
- Alerts.AlertManager.EvaluateAlerts: the code reads the clock once per
  triggered alert; the model uses one reading, `now`, for the whole pass.
- The logging in `add_alert`, `remove_alert`, `trigger_alert` and
  `resolve_alert`. Lines 61 and 98 of `crates/alerts/src/lib.rs` do not
  compile as written: one uses a moved value, the other borrows the manager
  while iterating its values. The model keeps their evident map and
  transition logic.
- `serde_json::Value` is modelled by `Registries.Json`, whose `Num` holds
  one exact real. serde_json keeps integers and floats apart (`1000` and
  `1000.0` are different values); the model does not. No contract depends
  on the difference.
- The `Plugin` trait's `init` and `cleanup`, and the plugins' own code. A
  plugin is its name, version, description and a function from JSON to a
  result. The test plugin's shared `executed` flag is not modelled.
- HTTP servers, exporters, configuration-file loading, entry points and the
  debug binaries. They are I/O outside the core.
