/** The cold-run verdict in terms of the runs alone: no aggregate, no binding, no unit conversion, no rank. */
module ColdVerdict {
  import opened Text
  import opened Decimal
  import opened Percentile
  import opened ColdRuns
  import opened ReferenceScenario
  import opened ColdGates
  import opened ColdSeries

  // ---- the candidate ----------------------------------------------------------------------

  predicate LowerHex(s: string) {
    forall c :: c in s ==> '0' <= c <= '9' || 'a' <= c <= 'f'
  }

  predicate Hex(s: string) {
    forall c :: c in s ==> '0' <= c <= '9' || 'a' <= c <= 'f' || 'A' <= c <= 'F'
  }

  /** The same character, or the same letter in the other case. */
  predicate SameLetter(a: char, b: char) {
    || a == b
    || ('a' <= a <= 'z' && a as int == b as int + 32)
    || ('a' <= b <= 'z' && b as int == a as int + 32)
  }

  lemma HexIsNotDirty(s: string)
    requires Hex(s)
    ensures !IsDirty(s) && TrimSuffix(s, DIRTY_SUFFIX) == s
  {
    if HasSuffix(s, DIRTY_SUFFIX) {
      DirtyHasAPlus(s);
    }
  }

  lemma DirtyHasAPlus(s: string)
    requires HasSuffix(s, DIRTY_SUFFIX)
    ensures '+' in s
  {
    assert s[|s| - 6..][0] == '+';
  }

  /** A measured revision is the candidate exactly when the two are the same digits, whatever the case of the letters.
      */
  lemma MatchIsSameRevision(measured: string, candidate: string)
    requires Hex(measured) && Hex(candidate)
    ensures CandidateMatch(measured, candidate) <==>
      |measured| == |candidate| && forall i :: 0 <= i < |measured| ==> SameLetter(measured[i], candidate[i])
    ensures LowerHex(measured) && LowerHex(candidate) ==>
      (CandidateMatch(measured, candidate) <==> measured == candidate)
  {
    HexIsNotDirty(measured);
    if |measured| == |candidate| {
      forall i | 0 <= i < |measured|
        ensures FoldChar(measured[i]) == FoldChar(candidate[i]) <==> SameLetter(measured[i], candidate[i])
      {
        assert measured[i] in measured && candidate[i] in candidate;
      }
    }
    if LowerHex(measured) && LowerHex(candidate) && |measured| == |candidate| {
      forall i | 0 <= i < |measured|
        ensures SameLetter(measured[i], candidate[i]) <==> measured[i] == candidate[i]
      {
        assert measured[i] in measured && candidate[i] in candidate;
      }
    }
  }

  /** A dirty tree is never the candidate. */
  lemma DirtyIsNoCandidate(measured: string, candidate: string)
    ensures CandidateMatch(measured + "+dirty", candidate) == false
  {
    assert (measured + "+dirty")[|measured|..] == "+dirty";
  }

  // ---- the runs ---------------------------------------------------------------------------

  /** Run k came back unkilled with a wall clock. */
  predicate CameBack(inp: SeriesInputs, k: nat) {
    var c := inp.child(k);
    !c.failed && c.signal == "" && c.report.wallclockMS > 0
  }

  function Runs(inp: SeriesInputs): set<nat> {
    set k: nat | 1 <= k <= inp.runs && CameBack(inp, k)
  }

  /** Runs that indexed within so many seconds. */
  function FastRuns(inp: SeriesInputs, seconds: real): set<nat> {
    set k: nat | 1 <= k <= inp.runs && CameBack(inp, k) && inp.child(k).report.wallclockMS as real <= 1000.0 * seconds
  }

  ghost predicate PeakReported(inp: SeriesInputs) {
    exists k :: k in Runs(inp) && inp.child(k).report.stablePeakRSSMB > 0
  }

  /** No run reported a peak above so many gigabytes. */
  ghost predicate PeaksWithin(inp: SeriesInputs, gigabytes: real) {
    forall k :: k in Runs(inp) && inp.child(k).report.stablePeakRSSMB > 0 ==>
      inp.child(k).report.stablePeakRSSMB as real <= 1024.0 * gigabytes
  }

  ghost predicate SizeReported(inp: SeriesInputs) {
    exists k :: k in Runs(inp) && inp.child(k).report.dbSizeBytes > 0
  }

  /** No run reported a database above so many megabytes. */
  ghost predicate SizesWithin(inp: SeriesInputs, megabytes: real) {
    forall k :: k in Runs(inp) && inp.child(k).report.dbSizeBytes > 0 ==>
      inp.child(k).report.dbSizeBytes as real <= 1048576.0 * megabytes
  }

  /** The gate is one of the four that are read off the runs, in its unit, and some run reported its quantity. */
  ghost predicate Readable(inp: SeriesInputs, g: GateMapping) {
    || (g.id == "cold_index_p50" && g.unit == "s" && Runs(inp) != {})
    || (g.id == "cold_index_p95" && g.unit == "s" && Runs(inp) != {})
    || (g.id == "peak_rss" && g.unit == "GB" && PeakReported(inp))
    || (g.id == "db_size" && g.unit == "MB" && SizeReported(inp))
  }

  /** The runs keep within the gate's threshold: half of them, 95 of 100 of them, or every one that reported. */
  ghost predicate KeptWithin(inp: SeriesInputs, g: GateMapping) {
    && (g.id == "cold_index_p50" ==> 100 * |FastRuns(inp, g.threshold)| >= 50 * |Runs(inp)|)
    && (g.id == "cold_index_p95" ==> 100 * |FastRuns(inp, g.threshold)| >= 95 * |Runs(inp)|)
    && (g.id == "peak_rss" ==> PeaksWithin(inp, g.threshold))
    && (g.id == "db_size" ==> SizesWithin(inp, g.threshold))
  }

  // ---- counting the samples ---------------------------------------------------------------

  predicate ReportsWithin(metric: Metric, child: ChildRun, t: real) {
    Reports(metric, child) && ValueOf(metric, child.report).value <= t
  }

  function ReportingWithin(metric: Metric, child: nat -> ChildRun, n: nat, t: real): set<nat> {
    set k: nat | 1 <= k <= n && ReportsWithin(metric, child(k), t)
  }

  lemma ReportingWithinGrows(metric: Metric, child: nat -> ChildRun, n: nat, t: real)
    requires n > 0
    ensures |ReportingWithin(metric, child, n, t)| ==
            |ReportingWithin(metric, child, n - 1, t)| + (if ReportsWithin(metric, child(n), t) then 1 else 0)
  {
    hide ReportsWithin;
    var before := ReportingWithin(metric, child, n - 1, t);
    if ReportsWithin(metric, child(n), t) {
      assert ReportingWithin(metric, child, n, t) == before + {n};
    } else {
      assert ReportingWithin(metric, child, n, t) == before;
    }
  }

  lemma WithinGrows(metric: Metric, child: nat -> ChildRun, n: nat, t: real)
    requires n > 0
    ensures WithinCount(metric, Samples(child, n), t) ==
            WithinCount(metric, Samples(child, n - 1), t) + (if ReportsWithin(metric, child(n), t) then 1 else 0)
  {
    hide ValueOf, Measured;
    var runs := Samples(child, n);
    assert runs[..|runs| - 1] == Samples(child, n - 1) && runs[|runs| - 1] == SampleOf(n, child(n));
    hide Samples;
  }

  lemma {:induction false} WithinByReports(metric: Metric, child: nat -> ChildRun, n: nat, t: real)
    ensures WithinCount(metric, Samples(child, n), t) == |ReportingWithin(metric, child, n, t)|
  {
    if n == 0 {
      assert ReportingWithin(metric, child, 0, t) == {};
    } else {
      hide *;
      WithinByReports(metric, child, n - 1, t);
      ReportingWithinGrows(metric, child, n, t);
      WithinGrows(metric, child, n, t);
    }
  }

  lemma AggregatedIffReported(metric: Metric, child: nat -> ChildRun, n: nat)
    ensures metric in Aggregates(Samples(child, n)) <==> Reporting(metric, child, n) != {}
  {
    OneSamplePerReport(metric, child, n);
    AllMetrics(metric);
    hide Samples, Reporting, SamplesOf, METRICS, AggregateOf;
    assert Reporting(metric, child, n) == {} <==> |Reporting(metric, child, n)| == 0;
  }

  lemma AllMetrics(metric: Metric)
    ensures metric in METRICS
  {
    assert METRICS[0] == IndexWallclockMS && METRICS[1] == IndexPeakRSSMB && METRICS[2] == StablePeakRSSMB
           && METRICS[3] == DBSizeBytes && METRICS[4] == Nodes && METRICS[5] == Edges && METRICS[6] == BytesPerEdge;
  }

  lemma RankByShare(count: nat, n: nat, p: int)
    requires n > 0 && 1 <= p <= 100
    ensures count >= Rank(n, p) <==> 100 * count >= p * n
  {
    hide Rank;
    RankIsCeiling(n, p);
  }

  /** What an aggregate says, in terms of the children. */
  lemma AggregateByRuns(metric: Metric, child: nat -> ChildRun, n: nat, t: real)
    requires metric in Aggregates(Samples(child, n))
    ensures var a := Aggregates(Samples(child, n))[metric];
            var all, within := Reporting(metric, child, n), ReportingWithin(metric, child, n, t);
            && (a.p50 <= t <==> 100 * |within| >= 50 * |all|)
            && (a.p95 <= t <==> 100 * |within| >= 95 * |all|)
            && (a.max <= t <==> forall k :: k in all ==> ReportsWithin(metric, child(k), t))
  {
    var runs := Samples(child, n);
    var all, within := Reporting(metric, child, n), ReportingWithin(metric, child, n, t);
    WithinIsPart(metric, child, n, t);
    hide *;
    PercentileOfRuns(metric, runs, t);
    OneSamplePerReport(metric, child, n);
    WithinByReports(metric, child, n, t);
    RankByShare(|within|, |all|, 50);
    RankByShare(|within|, |all|, 95);
  }

  lemma WithinIsPart(metric: Metric, child: nat -> ChildRun, n: nat, t: real)
    ensures |ReportingWithin(metric, child, n, t)| == |Reporting(metric, child, n)| <==>
      forall k :: k in Reporting(metric, child, n) ==> ReportsWithin(metric, child(k), t)
  {
    hide ValueOf, Measured;
    var all, within := Reporting(metric, child, n), ReportingWithin(metric, child, n, t);
    assert within <= all;
    if within == all {
      assert forall k :: k in all ==> k in within;
    } else {
      var k :| k in all && k !in within;
      PartIsSmaller(within, all, k);
    }
  }

  lemma PartIsSmaller(a: set<nat>, b: set<nat>, k: nat)
    requires a <= b && k in b && k !in a
    ensures |a| < |b|
  {
    assert b == a + (b - a) && k in b - a;
  }

  // ---- gate by gate -----------------------------------------------------------------------

  lemma ClocksByRuns(inp: SeriesInputs, seconds: real)
    requires inp.runs >= 0
    ensures Reporting(IndexWallclockMS, inp.child, inp.runs) == Runs(inp)
    ensures ReportingWithin(IndexWallclockMS, inp.child, inp.runs, 1000.0 * seconds) == FastRuns(inp, seconds)
  {
  }

  lemma PeaksByRuns(inp: SeriesInputs, gigabytes: real)
    requires inp.runs >= 0
    ensures Reporting(StablePeakRSSMB, inp.child, inp.runs) != {} <==> PeakReported(inp)
    ensures (forall k :: k in Reporting(StablePeakRSSMB, inp.child, inp.runs) ==>
               ReportsWithin(StablePeakRSSMB, inp.child(k), 1024.0 * gigabytes)) <==> PeaksWithin(inp, gigabytes)
  {
    var all := Reporting(StablePeakRSSMB, inp.child, inp.runs);
    assert forall k :: k in all <==> k in Runs(inp) && inp.child(k).report.stablePeakRSSMB > 0;
  }

  lemma SizesByRuns(inp: SeriesInputs, megabytes: real)
    requires inp.runs >= 0
    ensures Reporting(DBSizeBytes, inp.child, inp.runs) != {} <==> SizeReported(inp)
    ensures (forall k :: k in Reporting(DBSizeBytes, inp.child, inp.runs) ==>
               ReportsWithin(DBSizeBytes, inp.child(k), 1048576.0 * megabytes)) <==> SizesWithin(inp, megabytes)
  {
    var all := Reporting(DBSizeBytes, inp.child, inp.runs);
    assert forall k :: k in all <==> k in Runs(inp) && inp.child(k).report.dbSizeBytes > 0;
  }

  /** A measured gate is met exactly when the runs can be read for it and keep within it, and missed exactly when they
      can be read and do not. */
  lemma GateByRuns(inp: SeriesInputs, g: GateMapping)
    requires inp.runs >= 0
    ensures var aggregates := Aggregates(Samples(inp.child, inp.runs));
            && (MeasuredWithin(g, aggregates) <==> Readable(inp, g) && KeptWithin(inp, g))
            && (MeasuredBeyond(g, aggregates) <==> Readable(inp, g) && !KeptWithin(inp, g))
  {
    GateIdsDiffer(g);
    if g.id == "cold_index_p50" || g.id == "cold_index_p95" {
      ClockGateByRuns(inp, g);
    } else if g.id == "peak_rss" {
      PeakGateByRuns(inp, g);
    } else if g.id == "db_size" {
      SizeGateByRuns(inp, g);
    }
  }

  lemma ClockGateByRuns(inp: SeriesInputs, g: GateMapping)
    requires inp.runs >= 0 && (g.id == "cold_index_p50" || g.id == "cold_index_p95")
    ensures var aggregates := Aggregates(Samples(inp.child, inp.runs));
            && (MeasuredWithin(g, aggregates) <==> Readable(inp, g) && KeptWithin(inp, g))
            && (MeasuredBeyond(g, aggregates) <==> Readable(inp, g) && !KeptWithin(inp, g))
  {
    GateIdsDiffer(g);
    hide Aggregates, Samples, Reporting, ReportingWithin, Runs, FastRuns;
    AggregatedIffReported(IndexWallclockMS, inp.child, inp.runs);
    ClocksByRuns(inp, g.threshold);
    if IndexWallclockMS in Aggregates(Samples(inp.child, inp.runs)) {
      AggregateByRuns(IndexWallclockMS, inp.child, inp.runs, 1000.0 * g.threshold);
    }
  }

  lemma PeakGateByRuns(inp: SeriesInputs, g: GateMapping)
    requires inp.runs >= 0 && g.id == "peak_rss"
    ensures var aggregates := Aggregates(Samples(inp.child, inp.runs));
            && (MeasuredWithin(g, aggregates) <==> Readable(inp, g) && KeptWithin(inp, g))
            && (MeasuredBeyond(g, aggregates) <==> Readable(inp, g) && !KeptWithin(inp, g))
  {
    GateIdsDiffer(g);
    hide Aggregates, Samples, Reporting, PeakReported, PeaksWithin, ReportsWithin;
    AggregatedIffReported(StablePeakRSSMB, inp.child, inp.runs);
    PeaksByRuns(inp, g.threshold);
    if StablePeakRSSMB in Aggregates(Samples(inp.child, inp.runs)) {
      AggregateByRuns(StablePeakRSSMB, inp.child, inp.runs, 1024.0 * g.threshold);
    }
  }

  lemma SizeGateByRuns(inp: SeriesInputs, g: GateMapping)
    requires inp.runs >= 0 && g.id == "db_size"
    ensures var aggregates := Aggregates(Samples(inp.child, inp.runs));
            && (MeasuredWithin(g, aggregates) <==> Readable(inp, g) && KeptWithin(inp, g))
            && (MeasuredBeyond(g, aggregates) <==> Readable(inp, g) && !KeptWithin(inp, g))
  {
    GateIdsDiffer(g);
    hide Aggregates, Samples, Reporting, SizeReported, SizesWithin, ReportsWithin;
    AggregatedIffReported(DBSizeBytes, inp.child, inp.runs);
    SizesByRuns(inp, g.threshold);
    if DBSizeBytes in Aggregates(Samples(inp.child, inp.runs)) {
      AggregateByRuns(DBSizeBytes, inp.child, inp.runs, 1048576.0 * g.threshold);
    }
  }

  /** The four ids are four. */
  lemma GateIdsDiffer(g: GateMapping)
    ensures g.id == "cold_index_p50" ==> g.id != "cold_index_p95" && g.id != "peak_rss" && g.id != "db_size"
    ensures g.id == "cold_index_p95" ==> g.id != "peak_rss" && g.id != "db_size"
    ensures g.id == "peak_rss" ==> g.id != "db_size"
  {
    assert "cold_index_p50"[12] == '5' && "cold_index_p95"[12] == '9';
  }

  // ---- the out-of-memory gate and the stop rule ---------------------------------------------

  /** The constrained run kept to the contract's limit, finished, and left no sign of a kill. */
  ghost predicate Survived(inp: SeriesInputs)
    requires inp.scenario.Loaded?
  {
    var check, c := inp.scenario.contract.oom, inp.constrained;
    && inp.oomRequested && inp.linux && inp.repo == check.repo
    && !c.failed && c.signal == "" && c.report.wallclockMS > 0 && c.exitCode != 137
    && c.report.cgroup.Some?
    && var limits := c.report.cgroup.value;
       && limits.available && check.limitBytes > 0
       && limits.memoryMax == Digits(check.limitBytes) && limits.memorySwapMax == "0"
       && limits.oomKillCollected && limits.oomKill <= 0
       && inp.kernelLog.collected && !inp.kernelLog.fired
  }

  /** The constrained run was made and something shows a kill. */
  ghost predicate Killed(inp: SeriesInputs)
    requires inp.scenario.Loaded?
  {
    var c := inp.constrained;
    && inp.oomRequested && inp.linux && inp.repo == inp.scenario.contract.oom.repo
    && (|| c.signal == "killed" || c.exitCode == 137 || inp.kernelLog.fired
        || (c.report.cgroup.Some? && c.report.cgroup.value.oomKillCollected && c.report.cgroup.value.oomKill > 0))
  }

  lemma OomByRun(inp: SeriesInputs)
    requires inp.scenario.Loaded?
    ensures OomDemonstrated(inp) <==> Survived(inp)
    ensures OomKilled(inp) <==> Killed(inp)
  {
    hide Digits;
  }

  lemma StopRuleByRuns(inp: SeriesInputs)
    requires WellConfigured(inp) && inp.scenario.Loaded?
    ensures StopRuleHolds(inp) <==> PeaksWithin(inp, inp.scenario.contract.stopRule.thresholdGB)
  {
    hide Aggregates, Samples, Reporting, PeaksWithin, ReportsWithin, IsDirty, CandidateMatch, CompletedCount;
    var limit := inp.scenario.contract.stopRule.thresholdGB;
    AggregatedIffReported(StablePeakRSSMB, inp.child, inp.runs);
    PeaksByRuns(inp, limit);
    if StablePeakRSSMB in Aggregates(Samples(inp.child, inp.runs)) {
      AggregateByRuns(StablePeakRSSMB, inp.child, inp.runs, 1024.0 * limit);
    }
  }

  // ---- the verdict --------------------------------------------------------------------------

  /** The measurement is about the frozen candidate on the reference scenario. */
  ghost predicate AboutTheCandidate(inp: SeriesInputs) {
    && inp.isReference == Some(true) && inp.candidate.Some?
    && !HasSuffix(inp.measured, "+dirty") && CandidateMatch(inp.measured, inp.candidate.value)
  }

  /** The gate is this story's own. */
  predicate Own(contract: Contract, g: GateMapping) {
    g in contract.gates && g.measuredBy == "SW-124"
  }

  ghost predicate Met(inp: SeriesInputs, g: GateMapping)
    requires inp.scenario.Loaded?
  {
    if g.id == "oom_8gb_host" then Survived(inp) else Readable(inp, g) && KeptWithin(inp, g)
  }

  ghost predicate Missed(inp: SeriesInputs, g: GateMapping)
    requires inp.scenario.Loaded?
  {
    if g.id == "oom_8gb_host" then Killed(inp) else |Runs(inp)| >= 10 && Readable(inp, g) && !KeptWithin(inp, g)
  }

  /** PASS, run by run and gate by gate. */
  ghost predicate DeservesPass(inp: SeriesInputs) {
    && inp.scenario.Loaded? && AboutTheCandidate(inp)
    && inp.runs >= 10 && (forall k :: 1 <= k <= inp.runs ==> CameBack(inp, k))
    && (exists g :: Own(inp.scenario.contract, g))
    && (forall g :: Own(inp.scenario.contract, g) ==> Met(inp, g))
    && PeaksWithin(inp, inp.scenario.contract.stopRule.thresholdGB)
  }

  /** FAIL, run by run and gate by gate. */
  ghost predicate DeservesFail(inp: SeriesInputs) {
    && inp.runs >= 2 && inp.isReference.Some? && inp.candidate.Some?
    && (|| Runs(inp) == {}
        || (inp.scenario.Loaded? && !PeaksWithin(inp, inp.scenario.contract.stopRule.thresholdGB))
        || (&& inp.scenario.Loaded? && AboutTheCandidate(inp)
            && exists g :: Own(inp.scenario.contract, g) && Missed(inp, g)))
  }

  lemma OwnByName(contract: Contract, g: GateMapping)
    ensures g in OwnGates(contract.gates) <==> Own(contract, g)
  {
  }

  lemma MetByRuns(inp: SeriesInputs, g: GateMapping)
    requires WellConfigured(inp) && inp.scenario.Loaded?
    ensures GateMet(inp, g) <==> Met(inp, g)
  {
    hide MeasuredWithin, Readable, KeptWithin, OomDemonstrated, Survived, Aggregates, Samples;
    GateByRuns(inp, g);
    OomByRun(inp);
  }

  lemma CompletedByRuns(inp: SeriesInputs)
    requires inp.runs >= 0
    ensures CompletedCount(Samples(inp.child, inp.runs)) == |Runs(inp)|
  {
    hide SamplesOf, CompletedCount, Samples, Runs;
    var samples := Samples(inp.child, inp.runs);
    forall r | r in samples && r.completed
      ensures r.report.wallclockMS > 0
    {
      var i :| 0 <= i < |samples| && samples[i] == r;
      EverySampleIsItsChild(inp.child, inp.runs, i);
    }
    WallclockOfEveryRun(samples);
    OneSamplePerReport(IndexWallclockMS, inp.child, inp.runs);
    ClocksByRuns(inp, 0.0);
  }

  lemma MissedByRuns(inp: SeriesInputs, g: GateMapping)
    requires WellConfigured(inp) && inp.scenario.Loaded?
    ensures GateMissed(inp, g) <==> Missed(inp, g)
  {
    hide MeasuredBeyond, Readable, KeptWithin, OomKilled, Killed, Aggregates, Samples, CompletedCount, Runs;
    GateByRuns(inp, g);
    OomByRun(inp);
    CompletedByRuns(inp);
  }

  lemma SameOwnGates(inp: SeriesInputs)
    requires WellConfigured(inp) && inp.scenario.Loaded?
    ensures var own := OwnGates(inp.scenario.contract.gates);
            && (own != [] <==> exists g :: Own(inp.scenario.contract, g))
            && ((forall g :: g in own ==> GateMet(inp, g)) <==>
                forall g :: Own(inp.scenario.contract, g) ==> Met(inp, g))
  {
    hide GateMet, Met, OwnGates, Own;
    forall g
      ensures g in OwnGates(inp.scenario.contract.gates) <==> Own(inp.scenario.contract, g)
      ensures GateMet(inp, g) <==> Met(inp, g)
    {
      OwnByName(inp.scenario.contract, g);
      MetByRuns(inp, g);
    }
    var own := OwnGates(inp.scenario.contract.gates);
    if own != [] {
      assert own[0] in own && Own(inp.scenario.contract, own[0]);
    }
  }

  /** The verdict of a series, in terms of its runs. */
  lemma PassByRuns(inp: SeriesInputs)
    ensures PassCondition(inp) <==> DeservesPass(inp)
  {
    hide GateMet, Met, StopRuleHolds, PeaksWithin, OwnGates, CandidateMatch, Own;
    assert IsDirty(inp.measured) <==> HasSuffix(inp.measured, "+dirty");
    assert forall k: nat :: Measured(inp.child(k)) <==> CameBack(inp, k);
    hide IsDirty, HasSuffix, Measured, CameBack;
    if WellConfigured(inp) && inp.scenario.Loaded? {
      SameOwnGates(inp);
      StopRuleByRuns(inp);
    }
  }

  lemma FailByRuns(inp: SeriesInputs)
    ensures FailCondition(inp) <==> DeservesFail(inp)
  {
    hide GateMissed, Missed, PeaksWithin, OwnGates, CandidateMatch, Own, Runs, EvaluateStopRule, Samples,
         CompletedCount, Aggregates;
    if WellConfigured(inp) {
      CompletedByRuns(inp);
      assert |Runs(inp)| == 0 <==> Runs(inp) == {};
      if inp.scenario.Loaded? {
        StopRuleByRuns(inp);
        forall g
          ensures g in OwnGates(inp.scenario.contract.gates) <==> Own(inp.scenario.contract, g)
          ensures GateMissed(inp, g) <==> Missed(inp, g)
        {
          OwnByName(inp.scenario.contract, g);
          MissedByRuns(inp, g);
        }
      }
    }
  }

  /** A series of full revisions that passes measured the candidate and nothing else. */
  lemma PassMeansTheCandidate(inp: SeriesInputs)
    requires PassCondition(inp) && Hex(inp.measured) && Hex(inp.candidate.value)
    ensures |inp.measured| == |inp.candidate.value|
    ensures forall i :: 0 <= i < |inp.measured| ==> SameLetter(inp.measured[i], inp.candidate.value[i])
    ensures LowerHex(inp.measured) && LowerHex(inp.candidate.value) ==> inp.measured == inp.candidate.value
  {
    hide Hex, LowerHex, GateMet, StopRuleHolds, OwnGates, CandidateMatch, SameLetter;
    MatchIsSameRevision(inp.measured, inp.candidate.value);
  }

  /** A PASS with the database gate: no run reported a larger database. */
  lemma PassBoundsEverySize(inp: SeriesInputs, g: GateMapping)
    requires PassCondition(inp) && Own(inp.scenario.contract, g) && g.id == "db_size"
    ensures SizeReported(inp) && SizesWithin(inp, g.threshold)
  {
    NotTheOomGate(g);
    hide PassCondition, SizeReported, SizesWithin, Own, GateMet, Runs;
    PassByRuns(inp);
    assert Met(inp, g);
    GateIdsDiffer(g);
  }

  lemma NotTheOomGate(g: GateMapping)
    ensures g.id == "db_size" || g.id == "cold_index_p50" ==> g.id != "oom_8gb_host"
  {
  }

  /** A PASS with the p50 gate: at least half of the requested runs indexed within the threshold. */
  lemma PassMeansHalfAreFast(inp: SeriesInputs, g: GateMapping)
    requires PassCondition(inp) && Own(inp.scenario.contract, g) && g.id == "cold_index_p50"
    ensures 2 * |FastRuns(inp, g.threshold)| >= inp.runs
  {
    NotTheOomGate(g);
    EveryRunCameBack(inp);
    hide PassCondition, Own, GateMet, Runs, FastRuns;
    PassByRuns(inp);
    assert Met(inp, g);
  }

  lemma EveryRunCameBack(inp: SeriesInputs)
    requires PassCondition(inp)
    ensures |Runs(inp)| == inp.runs
  {
    hide GateMet, StopRuleHolds, OwnGates, CandidateMatch, IsDirty;
    CompletedByRuns(inp);
    AllCompleted(inp.child, inp.runs);
  }

  /** The contract's rules convert a peak gate in megabytes; the gate itself is only ever read in gigabytes. So an
      accepted contract may hold a peak gate that no series can pass. */
  lemma MegabytePeakNeverPasses(inp: SeriesInputs, g: GateMapping)
    requires inp.scenario.Loaded? && Own(inp.scenario.contract, g) && g.id == "peak_rss" && g.unit != "GB"
    ensures !PassCondition(inp)
  {
    GateIdsDiffer(g);
    PeakIsNotTheOomGate(g);
    hide Own, PassCondition, KeptWithin, PeakReported;
    PassByRuns(inp);
    assert DeservesPass(inp) ==> Met(inp, g);
  }

  lemma PeakIsNotTheOomGate(g: GateMapping)
    requires g.id == "peak_rss"
    ensures g.id != "oom_8gb_host"
  {
    assert |"peak_rss"| != |"oom_8gb_host"|;
  }
}
