/**
 * The terminal dashboard's selection state machine (`TuiState` in
 * crates/tui/src/lib.rs) and the unit-choosing loops of its byte and
 * throughput formatters.
 */
module Tui {
  /** Network, Disk, Process, Sensors, GPU and Containers. */
  const TableCount: nat := 6

  /** The largest `usize`; `max_items` is a `usize`. */
  const UsizeMax: nat := 0xFFFF_FFFF_FFFF_FFFF

  // ---------------------------------------------------------------------------
  // Cyclic indices

  function NextTableIndex(t: nat): (r: nat)
    ensures r < TableCount
    ensures t < TableCount - 1 ==> r == t + 1
    ensures t == TableCount - 1 ==> r == 0
  {
    (t + 1) % TableCount
  }

  function PreviousTableIndex(t: nat): (r: nat)
    requires t < TableCount
    ensures r < TableCount
    ensures t == 0 ==> r == TableCount - 1
    ensures 0 < t ==> r == t - 1
  {
    if t == 0 then TableCount - 1 else t - 1
  }

  /** Stepping back undoes stepping forward, and the other way round. */
  lemma TableStepsAreInverse(t: nat)
    requires t < TableCount
    ensures PreviousTableIndex(NextTableIndex(t)) == t
    ensures NextTableIndex(PreviousTableIndex(t)) == t
  {
  }

  /** The row after `s` in a table of `m` rows; an empty table keeps the selection. */
  function NextRow(s: nat, m: nat): (r: nat)
    ensures m == 0 ==> r == s
    ensures 0 < m ==> r < m
    ensures s + 1 < m ==> r == s + 1
  {
    if m > 0 then (s + 1) % m else s
  }

  /** The row before `s` in a table of `m` rows, wrapping from the first row to the last. */
  function PreviousRow(s: nat, m: nat): (r: nat)
    ensures m == 0 ==> r == s
    ensures 0 < m && s == 0 ==> r == m - 1
    ensures 0 < m && 0 < s ==> r == s - 1
    ensures 0 < m && s <= m ==> r < m
  {
    if m > 0 then (if s == 0 then m - 1 else s - 1) else s
  }

  /** On a selection inside the table, the two row steps undo each other. */
  lemma RowStepsAreInverse(s: nat, m: nat)
    requires s < m
    ensures PreviousRow(NextRow(s, m), m) == s
    ensures NextRow(PreviousRow(s, m), m) == s
  {
  }

  // ---------------------------------------------------------------------------
  // The state

  class TuiState {
    var selectedTable: nat
    const tableSelections: array<nat>

    /** Six tables, a selected one among them, and selections a `usize` holds with room for `+ 1`. */
    ghost predicate Valid()
      reads this, tableSelections
    {
      && tableSelections.Length == TableCount
      && selectedTable < TableCount
      && forall i :: 0 <= i < TableCount ==> tableSelections[i] < UsizeMax
    }

    constructor ()
      ensures Valid()
      ensures selectedTable == 0
      ensures fresh(tableSelections)
      ensures tableSelections[..] == [0, 0, 0, 0, 0, 0]
    {
      selectedTable := 0;
      tableSelections := new nat[TableCount](_ => 0);
      new;
      assert tableSelections[..] == [0, 0, 0, 0, 0, 0];
    }

    /** The row selected in the selected table. */
    function CurrentSelection(): (r: nat)
      reads this, tableSelections
      requires Valid()
      ensures r < UsizeMax
      ensures r in tableSelections[..]
    {
      tableSelections[selectedTable]
    }

    method NextTable()
      requires Valid()
      modifies this
      ensures Valid()
      ensures selectedTable == NextTableIndex(old(selectedTable))
      ensures tableSelections[..] == old(tableSelections[..])
    {
      selectedTable := (selectedTable + 1) % TableCount;
    }

    method PreviousTable()
      requires Valid()
      modifies this
      ensures Valid()
      ensures selectedTable == PreviousTableIndex(old(selectedTable))
      ensures tableSelections[..] == old(tableSelections[..])
    {
      selectedTable := if selectedTable == 0 then TableCount - 1 else selectedTable - 1;
    }

    /** Moves the selected table's row forward; nothing changes for an empty table. */
    method NextItem(maxItems: nat)
      requires Valid()
      requires maxItems <= UsizeMax
      modifies tableSelections
      ensures Valid()
      ensures tableSelections[..] == old(tableSelections[..])[selectedTable := NextRow(old(CurrentSelection()), maxItems)]
      ensures CurrentSelection() == NextRow(old(CurrentSelection()), maxItems)
      ensures maxItems == 0 ==> tableSelections[..] == old(tableSelections[..])
    {
      if maxItems > 0 {
        tableSelections[selectedTable] := (tableSelections[selectedTable] + 1) % maxItems;
      }
    }

    /** Moves the selected table's row back, wrapping to the last row; nothing changes for an empty table. */
    method PreviousItem(maxItems: nat)
      requires Valid()
      requires maxItems <= UsizeMax
      modifies tableSelections
      ensures Valid()
      ensures tableSelections[..] == old(tableSelections[..])[selectedTable := PreviousRow(old(CurrentSelection()), maxItems)]
      ensures CurrentSelection() == PreviousRow(old(CurrentSelection()), maxItems)
      ensures maxItems == 0 ==> tableSelections[..] == old(tableSelections[..])
    {
      if maxItems > 0 {
        tableSelections[selectedTable] :=
          if tableSelections[selectedTable] == 0 then maxItems - 1 else tableSelections[selectedTable] - 1;
      }
    }
  }

  /** Tab through all six tables and back once, and step the row of a three-row table. */
  method NavigationScenario() returns (table: nat, row: nat)
    ensures table == 0 && row == 2
  {
    var st := new TuiState();
    var k := 0;
    while k < TableCount
      invariant 0 <= k <= TableCount
      invariant st.Valid()
      invariant st.selectedTable == k % TableCount
      invariant st.tableSelections[..] == [0, 0, 0, 0, 0, 0]
    {
      st.NextTable();
      k := k + 1;
    }
    st.PreviousItem(3);
    table := st.selectedTable;
    row := st.CurrentSelection();
  }

  // ---------------------------------------------------------------------------
  // Units

  const ByteUnits: seq<string> := ["B", "KiB", "MiB", "GiB", "TiB"]
  const ThroughputUnits: seq<string> := ["B/s", "KiB/s", "MiB/s", "GiB/s"]

  function Pow1024(k: nat): (r: real)
    ensures r >= 1.0
  {
    if k == 0 then 1.0 else 1024.0 * Pow1024(k - 1)
  }

  /** The value after `k` divisions by 1024. */
  function Scaled(value: real, k: nat): real
  {
    if k == 0 then value else Scaled(value, k - 1) / 1024.0
  }

  /** Scaling is exact: the scaled value times 1024^k is the value. */
  lemma {:induction false} ScaledTimesPow(value: real, k: nat)
    ensures Scaled(value, k) * Pow1024(k) == value
  {
    if k > 0 {
      ScaledTimesPow(value, k - 1);
      var prev := Scaled(value, k - 1);
      assert (prev / 1024.0) * (1024.0 * Pow1024(k - 1)) == prev * Pow1024(k - 1);
    }
  }

  /** The unit a value is shown in: the first at which the scaled value is below 1024, else the last. */
  function UnitIndex(value: real, unitCount: nat, from: nat): (r: nat)
    requires from < unitCount
    ensures from <= r < unitCount
    decreases unitCount - from
  {
    if Scaled(value, from) >= 1024.0 && from < unitCount - 1 then UnitIndex(value, unitCount, from + 1) else from
  }

  /** The chosen unit is the first stopping point: at every smaller unit the value shows as 1024 or more. */
  lemma {:induction false} UnitIndexIsFirstStop(value: real, unitCount: nat, from: nat)
    requires from < unitCount
    ensures forall k :: from <= k < UnitIndex(value, unitCount, from) ==> Scaled(value, k) >= 1024.0
    ensures Scaled(value, UnitIndex(value, unitCount, from)) < 1024.0 || UnitIndex(value, unitCount, from) == unitCount - 1
    decreases unitCount - from
  {
    if Scaled(value, from) >= 1024.0 && from < unitCount - 1 {
      UnitIndexIsFirstStop(value, unitCount, from + 1);
    }
  }

  /** The loop shared by `format_bytes` and `format_throughput`: divide by 1024 until below it or out of units. */
  method ChooseUnit(value: real, unitCount: nat) returns (size: real, unitIndex: nat)
    requires 1 <= unitCount
    ensures unitIndex == UnitIndex(value, unitCount, 0)
    ensures unitIndex < unitCount
    ensures size == Scaled(value, unitIndex)
    ensures size * Pow1024(unitIndex) == value
    ensures size < 1024.0 || unitIndex == unitCount - 1
  {
    size := value;
    unitIndex := 0;
    while size >= 1024.0 && unitIndex < unitCount - 1
      invariant unitIndex < unitCount
      invariant size == Scaled(value, unitIndex)
      invariant UnitIndex(value, unitCount, unitIndex) == UnitIndex(value, unitCount, 0)
    {
      size := size / 1024.0;
      unitIndex := unitIndex + 1;
    }
    ScaledTimesPow(value, unitIndex);
  }

  /** The number and unit `format_bytes` prints for a byte count. */
  method FormatBytes(bytes: nat) returns (size: real, unit: string)
    ensures unit == ByteUnits[UnitIndex(bytes as real, |ByteUnits|, 0)]
    ensures size * Pow1024(UnitIndex(bytes as real, |ByteUnits|, 0)) == bytes as real
    ensures size < 1024.0 || unit == "TiB"
  {
    var i;
    size, i := ChooseUnit(bytes as real, |ByteUnits|);
    unit := ByteUnits[i];
  }

  /** The number and unit `format_throughput` prints for a rate in bytes per second. */
  method FormatThroughput(bytesPerSec: real) returns (size: real, unit: string)
    ensures unit == ThroughputUnits[UnitIndex(bytesPerSec, |ThroughputUnits|, 0)]
    ensures size * Pow1024(UnitIndex(bytesPerSec, |ThroughputUnits|, 0)) == bytesPerSec
    ensures size < 1024.0 || unit == "GiB/s"
  {
    var i;
    size, i := ChooseUnit(bytesPerSec, |ThroughputUnits|);
    unit := ThroughputUnits[i];
  }
}
