/** One cold run as a sample, and the distributions derived from a series of them. */
module ColdRuns {
  import opened Text
  import opened Percentile

  /** Cgroup limits as the measured process read them back. */
  datatype Cgroup = Cgroup(
    available: bool, memoryMax: string, memorySwapMax: string, oomKill: int, oomKillCollected: bool)

  datatype ChildReport = ChildReport(
    commit: string, wallclockMS: int, indexPeakRSSMB: int, stablePeakRSSMB: int,
    dbSizeBytes: int, nodes: int, edges: int, cgroup: Option<Cgroup>)

  /** What one child process left behind: its report, its exit, and whether it could be run and read at all. */
  datatype ChildRun = ChildRun(report: ChildReport, exitCode: int, signal: string, failed: bool)

  datatype ColdRunSample = ColdRunSample(run: nat, completed: bool, report: ChildReport)

  const NO_MEASUREMENT := ChildReport("", 0, 0, 0, 0, 0, 0, None)

  predicate Measured(child: ChildRun) {
    !child.failed && child.signal == "" && child.report.wallclockMS > 0
  }

  /** Completed exactly when a cold-index wall clock was produced, whatever the child's exit code. */
  method ColdRunSampleFrom(run: nat, child: ChildRun) returns (sample: ColdRunSample)
    ensures sample == SampleOf(run, child)
  {
    sample := ColdRunSample(run, false, NO_MEASUREMENT);
    if child.failed {
      return;
    }
    if child.signal != "" {
      return;
    }
    if child.report.wallclockMS <= 0 {
      return;
    }
    sample := ColdRunSample(run, true, child.report);
  }

  function SampleOf(run: nat, child: ChildRun): ColdRunSample {
    if Measured(child) then ColdRunSample(run, true, child.report) else ColdRunSample(run, false, NO_MEASUREMENT)
  }

  // ---- aggregates -----------------------------------------------------------------------

  datatype Metric = IndexWallclockMS | IndexPeakRSSMB | StablePeakRSSMB | DBSizeBytes | Nodes | Edges | BytesPerEdge

  const METRICS: seq<Metric> :=
    [IndexWallclockMS, IndexPeakRSSMB, StablePeakRSSMB, DBSizeBytes, Nodes, Edges, BytesPerEdge]

  datatype Aggregate = Aggregate(n: nat, min: real, p50: real, p95: real, max: real)

  function Positive(v: int): Option<real> {
    if v > 0 then Some(v as real) else None
  }

  /** A count is a measurement even at zero; a clock, a size or a ratio of zero is an absent field. */
  function ValueOf(metric: Metric, r: ChildReport): Option<real> {
    match metric
    case IndexWallclockMS => Positive(r.wallclockMS)
    case IndexPeakRSSMB => Positive(r.indexPeakRSSMB)
    case StablePeakRSSMB => Positive(r.stablePeakRSSMB)
    case DBSizeBytes => Positive(r.dbSizeBytes)
    case Nodes => Some(r.nodes as real)
    case Edges => Some(r.edges as real)
    case BytesPerEdge =>
      if r.edges <= 0 || r.dbSizeBytes <= 0 then None else Some(r.dbSizeBytes as real / r.edges as real)
  }

  /** The samples of one metric: completed runs that reported it, in run order. */
  function SamplesOf(metric: Metric, runs: seq<ColdRunSample>): (xs: seq<real>)
    ensures |xs| <= |runs|
  {
    if runs == [] then []
    else
      var last := runs[|runs| - 1];
      var before := SamplesOf(metric, runs[..|runs| - 1]);
      var v := ValueOf(metric, last.report);
      if last.completed && v.Some? then before + [v.value] else before
  }

  function AggregateOf(xs: seq<real>): Aggregate
    requires xs != []
  {
    var sorted := SortReals(xs);
    Aggregate(|xs|, sorted[0], PercentileOf(xs, 50), PercentileOf(xs, 95), sorted[|xs| - 1])
  }

  /** An absent distribution and a measured zero are different claims. */
  function AggregatesOver(metrics: seq<Metric>, runs: seq<ColdRunSample>): map<Metric, Aggregate> {
    map m | m in metrics && SamplesOf(m, runs) != [] :: AggregateOf(SamplesOf(m, runs))
  }

  function Aggregates(runs: seq<ColdRunSample>): map<Metric, Aggregate> {
    AggregatesOver(METRICS, runs)
  }

  lemma {:induction false} SortedStays(xs: seq<real>)
    requires Ascending(xs)
    ensures SortReals(xs) == xs
  {
    if xs != [] {
      SortedStays(xs[1..]);
      assert xs == [xs[0]] + xs[1..];
    }
  }

  lemma OneMoreMetric(metrics: seq<Metric>, m: Metric, runs: seq<ColdRunSample>)
    ensures AggregatesOver(metrics + [m], runs) ==
      if SamplesOf(m, runs) == [] then AggregatesOver(metrics, runs)
      else AggregatesOver(metrics, runs)[m := AggregateOf(SamplesOf(m, runs))]
  {
    hide SamplesOf, AggregateOf;
    var now, before := AggregatesOver(metrics + [m], runs), AggregatesOver(metrics, runs);
    if SamplesOf(m, runs) == [] {
      assert now == before;
    } else {
      assert now == before[m := AggregateOf(SamplesOf(m, runs))];
    }
  }

  method RecomputeColdAggregates(runs: seq<ColdRunSample>) returns (out: map<Metric, Aggregate>)
    ensures out == Aggregates(runs)
  {
    hide METRICS, SamplesOf, AggregatesOver, SortReals, PercentileOf;
    out := map[];
    assert METRICS[..0] == [];
    assert AggregatesOver([], runs) == map[] by { NoMetrics(runs); }
    for u := 0 to |METRICS|
      invariant out == AggregatesOver(METRICS[..u], runs)
    {
      assert METRICS[..u + 1] == METRICS[..u] + [METRICS[u]];
      OneMoreMetric(METRICS[..u], METRICS[u], runs);
      var samples := Collect(METRICS[u], runs);
      if samples == [] {
        continue;
      }
      var sorted := SortReals(samples);
      PercentileOfSorted(samples, 50);
      PercentileOfSorted(samples, 95);
      var p50, p95 := PercentileOf(sorted, 50), PercentileOf(sorted, 95);
      out := out[METRICS[u] := Aggregate(|sorted|, sorted[0], p50, p95, sorted[|sorted| - 1])];
    }
    assert METRICS[..|METRICS|] == METRICS;
  }

  lemma NoMetrics(runs: seq<ColdRunSample>)
    ensures AggregatesOver([], runs) == map[]
  {
    assert AggregatesOver([], runs).Keys == {};
  }

  lemma PercentileOfSorted(xs: seq<real>, p: int)
    ensures PercentileOf(SortReals(xs), p) == PercentileOf(xs, p)
  {
    hide SortReals, Rank, Ascending;
    SortedStays(SortReals(xs));
  }

  method Collect(metric: Metric, runs: seq<ColdRunSample>) returns (samples: seq<real>)
    ensures samples == SamplesOf(metric, runs)
  {
    hide ValueOf;
    samples := [];
    for i := 0 to |runs|
      invariant samples == SamplesOf(metric, runs[..i])
    {
      assert runs[..i + 1][..i] == runs[..i];
      if !runs[i].completed {
        continue;
      }
      var v := ValueOf(metric, runs[i].report);
      if v.Some? {
        samples := samples + [v.value];
      }
    }
    assert runs[..|runs|] == runs;
  }

  // ---- what the aggregates say about the runs -------------------------------------------

  function CompletedCount(runs: seq<ColdRunSample>): (n: nat)
    ensures n <= |runs|
  {
    if runs == [] then 0
    else CompletedCount(runs[..|runs| - 1]) + (if runs[|runs| - 1].completed then 1 else 0)
  }

  /** Completed runs whose metric is at most t. */
  function WithinCount(metric: Metric, runs: seq<ColdRunSample>, t: real): nat {
    if runs == [] then 0
    else
      var r := runs[|runs| - 1];
      var v := ValueOf(metric, r.report);
      WithinCount(metric, runs[..|runs| - 1], t) + (if r.completed && v.Some? && v.value <= t then 1 else 0)
  }

  lemma {:induction false} SamplesCount(metric: Metric, runs: seq<ColdRunSample>, t: real)
    ensures CountAtMost(SamplesOf(metric, runs), t) == WithinCount(metric, runs, t)
  {
    hide ValueOf;
    if runs != [] {
      var init := runs[..|runs| - 1];
      SamplesCount(metric, init, t);
      var v := ValueOf(metric, runs[|runs| - 1].report);
      if runs[|runs| - 1].completed && v.Some? {
        CountAppend(SamplesOf(metric, init), [v.value], t);
      }
    }
  }

  /** Every completed run carries a wall clock, so that distribution misses none of them. */
  lemma {:induction false} WallclockOfEveryRun(runs: seq<ColdRunSample>)
    requires forall r :: r in runs && r.completed ==> r.report.wallclockMS > 0
    ensures |SamplesOf(IndexWallclockMS, runs)| == CompletedCount(runs)
  {
    if runs != [] {
      var init := runs[..|runs| - 1];
      assert runs == init + [runs[|runs| - 1]];
      WallclockOfEveryRun(init);
    }
  }

  /** Node and edge counts of zero are measurements, so those distributions miss no completed run either; a ratio is the
      one that multiplied by the edges gives the bytes, and there is none without both. */
  lemma {:induction false} CountsOfEveryRun(runs: seq<ColdRunSample>)
    ensures |SamplesOf(Nodes, runs)| == |SamplesOf(Edges, runs)| == CompletedCount(runs)
  {
    if runs != [] {
      CountsOfEveryRun(runs[..|runs| - 1]);
    }
  }

  lemma RatioOfRun(report: ChildReport)
    ensures ValueOf(BytesPerEdge, report).Some? <==> report.edges > 0 && report.dbSizeBytes > 0
    ensures ValueOf(BytesPerEdge, report).Some? ==>
      ValueOf(BytesPerEdge, report).value * report.edges as real == report.dbSizeBytes as real
  {
  }

  /** A published percentile is within a limit exactly when that share of the reporting runs is. */
  lemma PercentileOfRuns(metric: Metric, runs: seq<ColdRunSample>, t: real)
    requires metric in Aggregates(runs)
    ensures var n := |SamplesOf(metric, runs)|;
            var a := Aggregates(runs)[metric];
            && n > 0 && a.n == n
            && (a.p50 <= t <==> WithinCount(metric, runs, t) >= Rank(n, 50))
            && (a.p95 <= t <==> WithinCount(metric, runs, t) >= Rank(n, 95))
            && (a.max <= t <==> WithinCount(metric, runs, t) == n)
            && a.min <= a.p50 <= a.p95 <= a.max
  {
    var xs := SamplesOf(metric, runs);
    AggregateOfRuns(metric, runs);
    hide *;
    SamplesCount(metric, runs, t);
    SharesOf(xs, t);
  }

  lemma AggregateOfRuns(metric: Metric, runs: seq<ColdRunSample>)
    requires metric in Aggregates(runs)
    ensures SamplesOf(metric, runs) != [] && Aggregates(runs)[metric] == AggregateOf(SamplesOf(metric, runs))
  {
    hide METRICS, SamplesOf, AggregateOf;
  }

  lemma SharesOf(xs: seq<real>, t: real)
    requires xs != []
    ensures var a := AggregateOf(xs);
            && a.n == |xs|
            && (a.p50 <= t <==> CountAtMost(xs, t) >= Rank(|xs|, 50))
            && (a.p95 <= t <==> CountAtMost(xs, t) >= Rank(|xs|, 95))
            && (a.max <= t <==> CountAtMost(xs, t) == |xs|)
            && a.min <= a.p50 <= a.p95 <= a.max
  {
    hide Rank, SortReals, PercentileOf, CountAtMost;
    PercentileWithin(xs, 50, t);
    PercentileWithin(xs, 95, t);
    MaximumWithin(xs, t);
    AllWithin(xs, t);
    Ordered(xs);
  }

  /** A published maximum is within a limit exactly when every sample is. */
  lemma MaximumOfRuns(metric: Metric, runs: seq<ColdRunSample>, t: real)
    requires metric in Aggregates(runs)
    ensures SamplesOf(metric, runs) != []
    ensures Aggregates(runs)[metric].max <= t <==> forall x :: x in SamplesOf(metric, runs) ==> x <= t
  {
    hide METRICS, SamplesOf, SortReals, PercentileOf;
    MaximumWithin(SamplesOf(metric, runs), t);
  }

  lemma CompletedAppend(runs: seq<ColdRunSample>, r: ColdRunSample)
    ensures CompletedCount(runs + [r]) == CompletedCount(runs) + (if r.completed then 1 else 0)
  {
    assert (runs + [r])[..|runs|] == runs;
  }

  lemma PercentileBounds(xs: seq<real>, p: int)
    requires xs != []
    ensures SortReals(xs)[0] <= PercentileOf(xs, p) <= SortReals(xs)[|xs| - 1]
  {
    hide SortReals, Rank, Ascending;
    AscendingBounds(SortReals(xs), Rank(|xs|, p) - 1);
  }

  lemma Ordered(xs: seq<real>)
    requires xs != []
    ensures SortReals(xs)[0] <= PercentileOf(xs, 50) <= PercentileOf(xs, 95) <= SortReals(xs)[|xs| - 1]
  {
    hide *;
    PercentilesAreMonotone(xs, 50, 95);
    PercentileBounds(xs, 50);
    PercentileBounds(xs, 95);
  }

  lemma {:induction false} AscendingBounds(xs: seq<real>, k: nat)
    requires Ascending(xs) && k < |xs|
    ensures xs[0] <= xs[k] <= xs[|xs| - 1]
  {
    if |xs| > 1 {
      AscendingBounds(xs[1..], if k > 0 then k - 1 else 0);
    }
  }
}
