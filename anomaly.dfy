/**
 * Trend analysis and threshold anomaly detection over a series of
 * snapshots (crates/anomaly/src/lib.rs).
 */
module AnomalyDetection {
  import opened Wrappers
  import opened Snapshots

  datatype Trend = Increasing | Decreasing | Stable | Unknown

  datatype TrendAnalysis = TrendAnalysis(metric: string, trend: Trend, confidence: real, prediction: Option<real>)

  datatype Anomaly = Anomaly(metric: string, value: real, threshold: real, timestamp: int, description: string)

  /** A change of more than this many points between the first and last value is a trend. */
  const TrendThreshold: real := 5.0
  const HighCpu: real := 90.0
  const LowCpu: real := 5.0
  const HighMemory: real := 90.0

  // ---------------------------------------------------------------------------
  // Trends

  function CalculateTrend(values: seq<real>): (t: Trend)
    ensures t == Unknown <==> |values| < 2
    ensures |values| >= 2 ==>
      var diff := values[|values| - 1] - values[0];
      && (t == Increasing <==> diff > TrendThreshold)
      && (t == Decreasing <==> diff < -TrendThreshold)
      && (t == Stable <==> -TrendThreshold <= diff <= TrendThreshold)
  {
    if |values| < 2 then Unknown
    else
      var diff := values[|values| - 1] - values[0];
      if diff > TrendThreshold then Increasing
      else if diff < -TrendThreshold then Decreasing
      else Stable
  }

  /** The trend looks only at the end points: any values in between may change without effect. */
  lemma TrendIgnoresMiddle(a: seq<real>, b: seq<real>)
    requires |a| >= 2 && |b| >= 2
    requires a[0] == b[0] && a[|a| - 1] == b[|b| - 1]
    ensures CalculateTrend(a) == CalculateTrend(b)
  {
  }

  /** Confidence grows with the number of samples, reaching 1 at ten. */
  function CalculateConfidence(values: seq<real>): (c: real)
    ensures 0.0 <= c <= 1.0
    ensures |values| < 2 ==> c == 0.0
    ensures |values| >= 10 ==> c == 1.0
    ensures 2 <= |values| < 10 ==> c * 10.0 == |values| as real
  {
    if |values| < 2 then 0.0
    else
      var ratio := (|values| as real) / 10.0;
      if ratio < 1.0 then ratio else 1.0
  }

  /** The next value if the last step repeats. */
  function PredictNext(values: seq<real>): (p: Option<real>)
    ensures p.None? <==> |values| < 2
    ensures p.Some? ==> p.value - values[|values| - 1] == values[|values| - 1] - values[|values| - 2]
  {
    if |values| < 2 then None
    else
      var last := values[|values| - 1];
      Some(last + (last - values[|values| - 2]))
  }

  function CpuSeries(snaps: seq<Snapshot>): (vs: seq<real>)
    ensures |vs| == |snaps|
    ensures forall i :: 0 <= i < |snaps| ==> vs[i] == snaps[i].cpuTotalPct
  {
    seq(|snaps|, i requires 0 <= i < |snaps| => snaps[i].cpuTotalPct)
  }

  /** Used memory as a percentage of total memory. */
  function MemoryPercent(s: Snapshot): (p: real)
    requires s.memTotalBytes > 0
    ensures p * (s.memTotalBytes as real) == (s.memUsedBytes as real) * 100.0
    ensures s.memUsedBytes <= s.memTotalBytes ==> 0.0 <= p <= 100.0
  {
    (s.memUsedBytes as real) / (s.memTotalBytes as real) * 100.0
  }

  ghost predicate HasMemoryTotals(snaps: seq<Snapshot>)
  {
    forall i :: 0 <= i < |snaps| ==> snaps[i].memTotalBytes > 0
  }

  function MemorySeries(snaps: seq<Snapshot>): (vs: seq<real>)
    requires HasMemoryTotals(snaps)
    ensures |vs| == |snaps|
    ensures forall i :: 0 <= i < |snaps| ==> vs[i] == MemoryPercent(snaps[i])
  {
    seq(|snaps|, i requires 0 <= i < |snaps| && snaps[i].memTotalBytes > 0 => MemoryPercent(snaps[i]))
  }

  /** The analysis fields shared by both metrics, for a series of at least two values. */
  ghost predicate AnalysisOf(r: TrendAnalysis, metric: string, values: seq<real>)
    requires |values| >= 2
  {
    var first := values[0];
    var last := values[|values| - 1];
    && r.metric == metric
    && (r.trend == Increasing <==> last - first > TrendThreshold)
    && (r.trend == Decreasing <==> last - first < -TrendThreshold)
    && (r.trend == Stable <==> -TrendThreshold <= last - first <= TrendThreshold)
    && r.confidence == CalculateConfidence(values)
    && r.prediction == Some(last + (last - values[|values| - 2]))
  }

  function AnalyzeCpuTrend(snaps: seq<Snapshot>): (r: TrendAnalysis)
    ensures |snaps| < 2 ==> r == TrendAnalysis("cpu_usage", Unknown, 0.0, None)
    ensures |snaps| >= 2 ==> AnalysisOf(r, "cpu_usage", CpuSeries(snaps))
  {
    if |snaps| < 2 then TrendAnalysis("cpu_usage", Unknown, 0.0, None)
    else
      var values := CpuSeries(snaps);
      TrendAnalysis("cpu_usage", CalculateTrend(values), CalculateConfidence(values), PredictNext(values))
  }

  /** Needs a non-zero memory total in every snapshot as soon as there are two of them. */
  function AnalyzeMemoryTrend(snaps: seq<Snapshot>): (r: TrendAnalysis)
    requires |snaps| >= 2 ==> HasMemoryTotals(snaps)
    ensures |snaps| < 2 ==> r == TrendAnalysis("memory_usage", Unknown, 0.0, None)
    ensures |snaps| >= 2 ==> AnalysisOf(r, "memory_usage", MemorySeries(snaps))
  {
    if |snaps| < 2 then TrendAnalysis("memory_usage", Unknown, 0.0, None)
    else
      var values := MemorySeries(snaps);
      TrendAnalysis("memory_usage", CalculateTrend(values), CalculateConfidence(values), PredictNext(values))
  }

  // ---------------------------------------------------------------------------
  // CPU anomalies

  /** The anomaly one snapshot raises, if any: above 90 percent, or below 5. */
  function CpuAnomaliesOf(s: Snapshot): (r: seq<Anomaly>)
    ensures |r| <= 1
    ensures |r| == 1 <==> s.cpuTotalPct > HighCpu || s.cpuTotalPct < LowCpu
    ensures |r| == 1 ==> r[0].metric == "cpu_usage" && r[0].value == s.cpuTotalPct && r[0].timestamp == s.ts
    ensures |r| == 1 && s.cpuTotalPct > HighCpu ==> r[0].threshold == HighCpu
    ensures |r| == 1 && s.cpuTotalPct < LowCpu ==> r[0].threshold == LowCpu
  {
    (if s.cpuTotalPct > HighCpu then [Anomaly("cpu_usage", s.cpuTotalPct, HighCpu, s.ts, "High CPU usage detected")] else [])
    + (if s.cpuTotalPct < LowCpu then [Anomaly("cpu_usage", s.cpuTotalPct, LowCpu, s.ts, "Very low CPU usage detected")] else [])
  }

  /** The anomalies of a series, in snapshot order. */
  function CpuAnomalies(snaps: seq<Snapshot>): (r: seq<Anomaly>)
    ensures |r| <= |snaps|
    decreases |snaps|
  {
    if snaps == [] then []
    else CpuAnomalies(snaps[..|snaps| - 1]) + CpuAnomaliesOf(snaps[|snaps| - 1])
  }

  /** Detection distributes over concatenation, so anomalies come out in input order. */
  lemma {:induction false} CpuAnomaliesConcat(a: seq<Snapshot>, b: seq<Snapshot>)
    ensures CpuAnomalies(a + b) == CpuAnomalies(a) + CpuAnomalies(b)
    decreases |b|
  {
    if b == [] {
      assert a + b == a;
    } else {
      var b' := b[..|b| - 1];
      assert (a + b)[..|a + b| - 1] == a + b';
      CpuAnomaliesConcat(a, b');
    }
  }

  /** Every snapshot out of range contributes its anomaly. */
  lemma {:induction false} CpuAnomalyComplete(snaps: seq<Snapshot>, i: nat)
    requires i < |snaps|
    requires snaps[i].cpuTotalPct > HighCpu || snaps[i].cpuTotalPct < LowCpu
    ensures CpuAnomaliesOf(snaps[i])[0] in CpuAnomalies(snaps)
    decreases |snaps|
  {
    if i < |snaps| - 1 {
      var init := snaps[..|snaps| - 1];
      assert init[i] == snaps[i];
      CpuAnomalyComplete(init, i);
    }
  }

  /** Every anomaly comes from a snapshot out of range. */
  lemma {:induction false} CpuAnomalySound(snaps: seq<Snapshot>, a: Anomaly)
    requires a in CpuAnomalies(snaps)
    ensures exists i :: 0 <= i < |snaps| && CpuAnomaliesOf(snaps[i]) == [a]
    decreases |snaps|
  {
    var init := snaps[..|snaps| - 1];
    if a in CpuAnomalies(init) {
      CpuAnomalySound(init, a);
      var i :| 0 <= i < |init| && CpuAnomaliesOf(init[i]) == [a];
      assert snaps[i] == init[i];
    } else {
      assert CpuAnomaliesOf(snaps[|snaps| - 1]) == [a];
    }
  }

  method DetectCpuAnomalies(snaps: seq<Snapshot>) returns (anomalies: seq<Anomaly>)
    ensures anomalies == CpuAnomalies(snaps)
  {
    anomalies := [];
    var i := 0;
    while i < |snaps|
      invariant 0 <= i <= |snaps|
      invariant anomalies == CpuAnomalies(snaps[..i])
    {
      var s := snaps[i];
      if s.cpuTotalPct > HighCpu {
        anomalies := anomalies + [Anomaly("cpu_usage", s.cpuTotalPct, HighCpu, s.ts, "High CPU usage detected")];
      }
      if s.cpuTotalPct < LowCpu {
        anomalies := anomalies + [Anomaly("cpu_usage", s.cpuTotalPct, LowCpu, s.ts, "Very low CPU usage detected")];
      }
      assert snaps[..i + 1][..i] == snaps[..i];
      i := i + 1;
    }
    assert snaps[..|snaps|] == snaps;
  }

  // ---------------------------------------------------------------------------
  // Memory anomalies

  function MemoryAnomaliesOf(s: Snapshot): (r: seq<Anomaly>)
    requires s.memTotalBytes > 0
    ensures |r| <= 1
    ensures |r| == 1 <==> MemoryPercent(s) > HighMemory
    ensures |r| == 1 ==>
      r[0].metric == "memory_usage" && r[0].value == MemoryPercent(s) && r[0].threshold == HighMemory && r[0].timestamp == s.ts
  {
    var percent := MemoryPercent(s);
    if percent > HighMemory then [Anomaly("memory_usage", percent, HighMemory, s.ts, "High memory usage detected")] else []
  }

  function MemoryAnomalies(snaps: seq<Snapshot>): (r: seq<Anomaly>)
    requires HasMemoryTotals(snaps)
    ensures |r| <= |snaps|
    decreases |snaps|
  {
    if snaps == [] then []
    else MemoryAnomalies(snaps[..|snaps| - 1]) + MemoryAnomaliesOf(snaps[|snaps| - 1])
  }

  lemma TotalsConcat(a: seq<Snapshot>, b: seq<Snapshot>)
    requires HasMemoryTotals(a) && HasMemoryTotals(b)
    ensures HasMemoryTotals(a + b)
  {
    forall k | 0 <= k < |a + b| ensures (a + b)[k].memTotalBytes > 0 {
      if k < |a| {
        assert (a + b)[k] == a[k];
      } else {
        assert (a + b)[k] == b[k - |a|];
      }
    }
  }

  lemma {:induction false} MemoryAnomaliesConcat(a: seq<Snapshot>, b: seq<Snapshot>)
    requires HasMemoryTotals(a) && HasMemoryTotals(b)
    ensures HasMemoryTotals(a + b)
    ensures MemoryAnomalies(a + b) == MemoryAnomalies(a) + MemoryAnomalies(b)
    decreases |b|
  {
    TotalsConcat(a, b);
    if b == [] {
      assert a + b == a;
    } else {
      var b' := b[..|b| - 1];
      assert HasMemoryTotals(b') by {
        forall k | 0 <= k < |b'| ensures b'[k].memTotalBytes > 0 {
          assert b'[k] == b[k];
        }
      }
      assert (a + b)[..|a + b| - 1] == a + b';
      MemoryAnomaliesConcat(a, b');
    }
  }

  lemma {:induction false} MemoryAnomalyComplete(snaps: seq<Snapshot>, i: nat)
    requires HasMemoryTotals(snaps)
    requires i < |snaps| && MemoryPercent(snaps[i]) > HighMemory
    ensures MemoryAnomaliesOf(snaps[i])[0] in MemoryAnomalies(snaps)
    decreases |snaps|
  {
    if i < |snaps| - 1 {
      var init := snaps[..|snaps| - 1];
      assert init[i] == snaps[i];
      MemoryAnomalyComplete(init, i);
    }
  }

  lemma {:induction false} MemoryAnomalySound(snaps: seq<Snapshot>, a: Anomaly)
    requires HasMemoryTotals(snaps)
    requires a in MemoryAnomalies(snaps)
    ensures exists i :: 0 <= i < |snaps| && MemoryAnomaliesOf(snaps[i]) == [a]
    decreases |snaps|
  {
    var init := snaps[..|snaps| - 1];
    if a in MemoryAnomalies(init) {
      MemoryAnomalySound(init, a);
      var i :| 0 <= i < |init| && MemoryAnomaliesOf(init[i]) == [a];
      assert snaps[i] == init[i];
    } else {
      assert MemoryAnomaliesOf(snaps[|snaps| - 1]) == [a];
    }
  }

  /** Needs a non-zero memory total in every snapshot. */
  method DetectMemoryAnomalies(snaps: seq<Snapshot>) returns (anomalies: seq<Anomaly>)
    requires HasMemoryTotals(snaps)
    ensures anomalies == MemoryAnomalies(snaps)
  {
    anomalies := [];
    var i := 0;
    while i < |snaps|
      invariant 0 <= i <= |snaps|
      invariant anomalies == MemoryAnomalies(snaps[..i])
    {
      var s := snaps[i];
      var percent := (s.memUsedBytes as real) / (s.memTotalBytes as real) * 100.0;
      if percent > HighMemory {
        anomalies := anomalies + [Anomaly("memory_usage", percent, HighMemory, s.ts, "High memory usage detected")];
      }
      assert snaps[..i + 1][..i] == snaps[..i];
      i := i + 1;
    }
    assert snaps[..|snaps| - 0] == snaps;
  }

  // ---------------------------------------------------------------------------
  // The unit tests' series

  function TestSnapshot(ts: int, cpu: real, memUsed: nat, memTotal: nat): Snapshot
  {
    Snapshot(ts, cpu, [cpu], memUsed, memTotal, 0, 0, 0.0, 0.0, 0.0, [], [], [], [])
  }

  /** CPU at 45, 50, 55 is rising; memory steady at half is stable. */
  lemma TrendExample()
    ensures var snaps := [TestSnapshot(1000, 45.0, 1000, 2000), TestSnapshot(2000, 50.0, 1000, 2000), TestSnapshot(3000, 55.0, 1000, 2000)];
      AnalyzeCpuTrend(snaps).trend == Increasing && AnalyzeMemoryTrend(snaps).trend == Stable
  {
  }

  /** CPU at 95 then 45 raises one anomaly, for 95; memory at 1900 of 2000 raises one, above 90. */
  method DetectionScenario() returns (cpu: seq<Anomaly>, memory: seq<Anomaly>)
    ensures |cpu| == 1 && cpu[0].value == 95.0
    ensures |memory| == 1 && memory[0].value > 90.0
  {
    var snaps := [TestSnapshot(1000, 95.0, 1000, 2000), TestSnapshot(2000, 45.0, 1900, 2000)];
    assert snaps[..1] == [snaps[0]];
    cpu := DetectCpuAnomalies(snaps);
    memory := DetectMemoryAnomalies(snaps);
  }
}
