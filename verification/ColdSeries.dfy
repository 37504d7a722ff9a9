/** The cold-run series: repeated runs, provenance, the OOM check and the gates folded into one verdict. */
module ColdSeries {
  import opened Text
  import opened Percentile
  import opened ColdRuns
  import opened ReferenceScenario
  import opened ColdGates

  const COLD_RUN_MINIMUM := 10
  const DIRTY_SUFFIX := "+dirty"

  /** The fold classes that contain an ASCII letter. */
  function FoldChar(c: char): char {
    if 'A' <= c <= 'Z' then ((c as int) + 32) as char
    else if c == '\U{212A}' then 'k'
    else if c == '\U{17F}' then 's'
    else c
  }

  /** strings.EqualFold, as far as ASCII letters are involved. */
  predicate EqualFold(a: string, b: string) {
    |a| == |b| && forall i :: 0 <= i < |a| ==> FoldChar(a[i]) == FoldChar(b[i])
  }

  predicate IsDirty(measured: string) {
    HasSuffix(measured, DIRTY_SUFFIX)
  }

  predicate CandidateMatch(measured: string, candidate: string) {
    !IsDirty(measured) && EqualFold(TrimSuffix(measured, DIRTY_SUFFIX), candidate)
  }

  /** Everything a series run is given or observes: run k's child process is child(k). */
  datatype SeriesInputs = SeriesInputs(
    runs: int, isReference: Option<bool>, candidate: Option<string>, measured: string,
    child: nat -> ChildRun, scenario: Scenario,
    oomRequested: bool, repo: string, linux: bool, constrained: ChildRun, kernelLog: Signal)

  // ---- the runs -------------------------------------------------------------------------

  function Samples(child: nat -> ChildRun, n: nat): (s: seq<ColdRunSample>)
    ensures |s| == n
  {
    if n == 0 then [] else Samples(child, n - 1) + [SampleOf(n, child(n))]
  }

  method RunAll(child: nat -> ChildRun, n: nat) returns (samples: seq<ColdRunSample>, completed: nat, aborted: nat)
    ensures samples == Samples(child, n)
    ensures completed == CompletedCount(samples) && aborted == n - completed
  {
    hide SampleOf, CompletedCount;
    samples, completed, aborted := [], 0, 0;
    assert CompletedCount([]) == 0 by { NoRuns(); }
    for run := 1 to n + 1
      invariant samples == Samples(child, run - 1)
      invariant completed == CompletedCount(samples) && aborted == run - 1 - completed
    {
      var sample := ColdRunSampleFrom(run, child(run));
      if !sample.completed {
        aborted := aborted + 1;
      } else {
        completed := completed + 1;
      }
      CompletedAppend(samples, sample);
      samples := samples + [sample];
    }
  }

  lemma NoRuns()
    ensures CompletedCount([]) == 0
  {
  }

  lemma {:induction false} EverySampleIsItsChild(child: nat -> ChildRun, n: nat, i: nat)
    requires i < n
    ensures Samples(child, n)[i] == SampleOf(i + 1, child(i + 1))
  {
    if i < n - 1 {
      EverySampleIsItsChild(child, n - 1, i);
    }
  }

  /** No run aborted exactly when every child process left a measurement. */
  lemma {:induction false} AllCompleted(child: nat -> ChildRun, n: nat)
    ensures CompletedCount(Samples(child, n)) == n <==> forall k :: 1 <= k <= n ==> Measured(child(k))
  {
    if n > 0 {
      AllCompleted(child, n - 1);
      var s := Samples(child, n);
      assert s[..|s| - 1] == Samples(child, n - 1);
      assert s[|s| - 1].completed <==> Measured(child(n));
    }
  }

  // ---- the constrained run --------------------------------------------------------------

  /** The contract's method was followed to the letter and all three signals were looked for and absent. */
  ghost predicate OomDemonstrated(inp: SeriesInputs) {
    && inp.scenario.Loaded? && inp.oomRequested && inp.linux
    && var check := inp.scenario.contract.oom;
       && inp.repo == check.repo
       && OomLimitVerified(inp.constrained.report.cgroup, check.limitBytes)
       && Measured(inp.constrained) && inp.constrained.exitCode != 137
       && inp.constrained.report.cgroup.value.oomKillCollected && inp.constrained.report.cgroup.value.oomKill <= 0
       && inp.kernelLog == Signal(true, false)
  }

  /** The constrained run was made and at least one signal shows a kill, whatever limit it ran under. */
  ghost predicate OomKilled(inp: SeriesInputs) {
    && inp.scenario.Loaded? && inp.oomRequested && inp.linux && inp.repo == inp.scenario.contract.oom.repo
    && (|| inp.constrained.signal == "killed" || inp.constrained.exitCode == 137 || inp.kernelLog.fired
        || (&& inp.constrained.report.cgroup.Some? && inp.constrained.report.cgroup.value.oomKillCollected
            && inp.constrained.report.cgroup.value.oomKill > 0))
  }

  method RunOomCheck(inp: SeriesInputs, provenance: Option<Blocker>) returns (r: OomResult)
    ensures r.status == Pass <==> OomDemonstrated(inp) && provenance == None
    ensures r.status == Fail <==> OomKilled(inp) && provenance == None
    ensures !inp.scenario.Loaded? || !inp.oomRequested || !inp.linux ==> r == NOT_EXERCISED
  {
    hide OomLimitVerified;
    r := NOT_EXERCISED;
    if !inp.scenario.Loaded? {
      return;
    }
    var check := inp.scenario.contract.oom;
    if !inp.oomRequested {
      return;
    }
    if inp.repo != check.repo {
      return;
    }
    if !inp.linux {
      return;
    }
    var c := inp.constrained;
    var sample := ColdRunSampleFrom(0, c);
    var obs := OomObservation(check.limitBytes, c.report.cgroup, c.exitCode, c.signal, sample.completed, inp.kernelLog);
    var verdict := EvaluateOom(obs);
    SignalsAbsent(obs);
    VerifiedHasCgroup(obs.cgroup, obs.limitBytes);
    r := ApplyOomProvenance(verdict, provenance);
  }

  lemma SignalsAbsent(obs: OomObservation)
    ensures AllCollected(Signals(obs)) && !AnyFired(Signals(obs)) <==>
      obs.signal != "killed" && obs.exitCode != 137
      && obs.cgroup.Some? && obs.cgroup.value.oomKillCollected && obs.cgroup.value.oomKill <= 0
      && obs.kernelLog == Signal(true, false)
    ensures AnyFired(Signals(obs)) <==>
      || obs.signal == "killed" || obs.exitCode == 137 || obs.kernelLog.fired
      || (obs.cgroup.Some? && obs.cgroup.value.oomKillCollected && obs.cgroup.value.oomKill > 0)
  {
    var s := Signals(obs);
    assert s[0] == OomExitSignal(obs) && s[1] == OomEventsSignal(obs.cgroup) && s[2] == obs.kernelLog;
    assert forall x :: x in s <==> x == s[0] || x == s[1] || x == s[2];
    assert AllCollected(s) <==> s[0].collected && s[1].collected && s[2].collected;
    assert AnyFired(s) <==> s[0].fired || s[1].fired || s[2].fired by {
      assert s[0] in s && s[1] in s && s[2] in s;
    }
  }

  lemma VerifiedHasCgroup(cgroup: Option<Cgroup>, limitBytes: int)
    ensures OomLimitVerified(cgroup, limitBytes) ==> cgroup.Some?
  {
  }

  // ---- the verdict ----------------------------------------------------------------------

  datatype Series = Series(
    samples: seq<ColdRunSample>, completed: nat, aborted: nat, measurement: Measurement,
    oom: OomResult, gates: seq<GateResult>, stop: Option<StopRuleResult>, status: GateStatus)

  ghost predicate Failing(s: Series) {
    || s.completed == 0
    || (s.stop.Some? && s.stop.value.triggered)
    || exists i :: 0 <= i < |s.gates| && s.gates[i].status == Fail
  }

  ghost predicate Passing(s: Series) {
    && s.completed > 0 && !(s.stop.Some? && s.stop.value.triggered)
    && s.gates != [] && (forall i :: 0 <= i < |s.gates| ==> s.gates[i].status == Pass)
    && s.measurement.sufficient && s.measurement.candidateMatch && s.aborted == 0
  }

  /** FAIL beats UNKNOWN beats PASS. */
  method ColdSeriesStatus(s: Series) returns (status: GateStatus)
    ensures status == Fail <==> Failing(s)
    ensures status == Pass <==> Passing(s)
  {
    if s.completed == 0 {
      return Fail;
    }
    if s.stop.Some? && s.stop.value.triggered {
      return Fail;
    }
    for i := 0 to |s.gates|
      invariant forall j :: 0 <= j < i ==> s.gates[j].status != Fail
    {
      if s.gates[i].status == Fail {
        return Fail;
      }
    }
    if !s.measurement.sufficient || !s.measurement.candidateMatch || s.aborted > 0 {
      return Unknown;
    }
    for i := 0 to |s.gates|
      invariant forall j :: 0 <= j < i ==> s.gates[j].status == Pass
    {
      if s.gates[i].status != Pass {
        return Unknown;
      }
    }
    if s.gates == [] {
      return Unknown;
    }
    return Pass;
  }

  predicate WellConfigured(inp: SeriesInputs) {
    inp.runs >= 2 && inp.isReference.Some? && inp.candidate.Some?
  }

  function MeasurementOf(inp: SeriesInputs): Measurement
    requires WellConfigured(inp)
  {
    var samples := Samples(inp.child, inp.runs);
    Measurement(inp.isReference.value, IsDirty(inp.measured), CandidateMatch(inp.measured, inp.candidate.value),
                CompletedCount(samples) >= COLD_RUN_MINIMUM, Aggregates(samples))
  }

  /** The series in runColdSeries's order: runs, aggregates, OOM check, gates, verdict. None is a usage error. */
  method RunColdSeries(inp: SeriesInputs) returns (series: Option<Series>)
    ensures series.Some? <==> WellConfigured(inp)
    ensures series.Some? ==>
      series.value.samples == Samples(inp.child, inp.runs) && series.value.measurement == MeasurementOf(inp)
    ensures series.Some? ==> series.value.completed == CompletedCount(series.value.samples)
    ensures series.Some? ==> series.value.completed + series.value.aborted == inp.runs
    ensures series.Some? ==> (series.value.status == Pass <==> PassCondition(inp))
    ensures series.Some? ==> (series.value.status == Fail <==> FailCondition(inp))
  {
    hide Samples, Aggregates, EqualFold, IsDirty, CandidateMatch, OomDemonstrated, OomKilled, IsReading, PassCondition,
         FailCondition, Failing, Passing, CompletedCount;
    if inp.runs < 2 {
      return None;
    }
    if inp.isReference == None {
      return None;
    }
    if inp.candidate == None {
      return None;
    }
    var samples, completed, aborted := RunAll(inp.child, inp.runs);
    var aggregates := RecomputeColdAggregates(samples);
    var dirty := IsDirty(inp.measured);
    var m := Measurement(inp.isReference.value, dirty, CandidateMatch(inp.measured, inp.candidate.value),
                         completed >= COLD_RUN_MINIMUM, aggregates);
    var oom := RunOomCheck(inp, ProvenanceBlocker(m));
    var gates, stop := ReadColdGates(inp.scenario, m, oom);
    var s := Series(samples, completed, aborted, m, oom, gates, stop, Unknown);
    var status := ColdSeriesStatus(s);
    PassingIsTheCondition(inp, s);
    FailingIsTheCondition(inp, s);
    series := Some(s.(status := status));
  }

  // ---- what the verdict means -----------------------------------------------------------

  /** A gate's demand on the inputs of the whole run. */
  ghost predicate GateMet(inp: SeriesInputs, g: GateMapping)
    requires WellConfigured(inp)
  {
    if g.id == OOM_GATE then OomDemonstrated(inp) else MeasuredWithin(g, Aggregates(Samples(inp.child, inp.runs)))
  }

  ghost predicate StopRuleHolds(inp: SeriesInputs)
    requires WellConfigured(inp)
  {
    inp.scenario.Loaded? ==> !EvaluateStopRule(inp.scenario.contract.stopRule, MeasurementOf(inp)).triggered
  }

  /** PASS, as a statement about the inputs alone. */
  ghost predicate PassCondition(inp: SeriesInputs) {
    && WellConfigured(inp) && inp.scenario.Loaded?
    && inp.isReference == Some(true) && !IsDirty(inp.measured) && CandidateMatch(inp.measured, inp.candidate.value)
    && inp.runs >= COLD_RUN_MINIMUM && (forall k :: 1 <= k <= inp.runs ==> Measured(inp.child(k)))
    && OwnGates(inp.scenario.contract.gates) != []
    && (forall g :: g in OwnGates(inp.scenario.contract.gates) ==> GateMet(inp, g))
    && StopRuleHolds(inp)
  }

  /** A gate measured as missed: a kill observed, or a sufficient distribution beyond its threshold. */
  ghost predicate GateMissed(inp: SeriesInputs, g: GateMapping)
    requires WellConfigured(inp)
  {
    if g.id == OOM_GATE then OomKilled(inp)
    else MeasurementOf(inp).sufficient && MeasuredBeyond(g, Aggregates(Samples(inp.child, inp.runs)))
  }

  /** FAIL is never a missing measurement: nothing ran, the stop rule fired, or a gate about the candidate was measured
      as missed. */
  ghost predicate FailCondition(inp: SeriesInputs) {
    && WellConfigured(inp)
    && (|| CompletedCount(Samples(inp.child, inp.runs)) == 0
        || !StopRuleHolds(inp)
        || (&& inp.scenario.Loaded? && ProvenanceBlocker(MeasurementOf(inp)) == None
            && exists g :: g in OwnGates(inp.scenario.contract.gates) && GateMissed(inp, g)))
  }

  /** One gate reading, traced to the inputs. */
  lemma ReadingTraced(inp: SeriesInputs, g: GateMapping, oom: OomResult, status: GateStatus)
    requires WellConfigured(inp)
    requires oom.status == Pass <==> OomDemonstrated(inp) && ProvenanceBlocker(MeasurementOf(inp)) == None
    requires oom.status == Fail <==> OomKilled(inp) && ProvenanceBlocker(MeasurementOf(inp)) == None
    requires ReadsAs(g, MeasurementOf(inp), oom, status)
    ensures status == Pass ==> ProvenanceBlocker(MeasurementOf(inp)) == None && GateMet(inp, g)
    ensures status == Fail <==> ProvenanceBlocker(MeasurementOf(inp)) == None && GateMissed(inp, g)
    ensures ProvenanceBlocker(MeasurementOf(inp)) == None && MeasurementOf(inp).sufficient && GateMet(inp, g) ==>
      status == Pass
  {
    hide Samples, Aggregates, EqualFold, IsDirty, CandidateMatch, OomDemonstrated, OomKilled, OOM_GATE, BindingOf,
         Convert;
  }

  /** The record as the run assembles it, before its verdict. */
  ghost predicate Assembled(inp: SeriesInputs, s: Series) {
    && WellConfigured(inp)
    && s.samples == Samples(inp.child, inp.runs) && s.measurement == MeasurementOf(inp)
    && s.completed == CompletedCount(s.samples) && s.completed + s.aborted == inp.runs
    && (s.oom.status == Pass <==> OomDemonstrated(inp) && ProvenanceBlocker(s.measurement) == None)
    && (s.oom.status == Fail <==> OomKilled(inp) && ProvenanceBlocker(s.measurement) == None)
    && IsReading(inp.scenario, s.measurement, s.oom, s.gates, s.stop)
  }

  predicate Unblocked(s: Series) { ProvenanceBlocker(s.measurement) == None }

  lemma GatesTraced(inp: SeriesInputs, s: Series)
    requires Assembled(inp, s) && inp.scenario.Loaded?
    ensures var own := OwnGates(inp.scenario.contract.gates);
            && |own| == |s.gates|
            && (forall i :: 0 <= i < |own| ==> s.gates[i].status == Pass ==> Unblocked(s) && GateMet(inp, own[i]))
            && (forall i :: 0 <= i < |own| ==> (s.gates[i].status == Fail <==> Unblocked(s) && GateMissed(inp, own[i])))
            && (forall i :: 0 <= i < |own| ==>
                  Unblocked(s) && s.measurement.sufficient && GateMet(inp, own[i]) ==> s.gates[i].status == Pass)
  {
    hide Samples, MeasurementOf, OomDemonstrated, OomKilled, EvaluateStopRule, OwnGates, ReadsAs, GateMet, GateMissed,
         ProvenanceBlocker;
    var own := OwnGates(inp.scenario.contract.gates);
    forall i | 0 <= i < |own|
      ensures s.gates[i].status == Pass ==> ProvenanceBlocker(s.measurement) == None && GateMet(inp, own[i])
      ensures s.gates[i].status == Fail <==> ProvenanceBlocker(s.measurement) == None && GateMissed(inp, own[i])
      ensures ProvenanceBlocker(s.measurement) == None && s.measurement.sufficient && GateMet(inp, own[i]) ==>
        s.gates[i].status == Pass
    {
      ReadingTraced(inp, own[i], s.oom, s.gates[i].status);
    }
  }

  lemma PassingIsTheCondition(inp: SeriesInputs, s: Series)
    requires Assembled(inp, s)
    ensures Passing(s) <==> PassCondition(inp)
  {
    hide Samples, Aggregates, EqualFold, IsDirty, CandidateMatch, OomDemonstrated, OomKilled, EvaluateStopRule,
         OwnGates, ReadsAs, GateMet, CompletedCount;
    AllCompleted(inp.child, inp.runs);
    if inp.scenario.Loaded? {
      GatesTraced(inp, s);
      var own := OwnGates(inp.scenario.contract.gates);
      assert forall i :: 0 <= i < |own| ==> own[i] in own;
      if Passing(s) {
        assert s.gates[0].status == Pass;
        forall g | g in own ensures GateMet(inp, g) {
          var i :| 0 <= i < |own| && own[i] == g;
          assert s.gates[i].status == Pass;
        }
      }
      if PassCondition(inp) {
        assert forall i :: 0 <= i < |own| ==> GateMet(inp, own[i]);
      }
    } else {
      assert s.gates == [] || s.gates[0].status == Unknown;
    }
  }

  lemma FailingIsTheCondition(inp: SeriesInputs, s: Series)
    requires Assembled(inp, s)
    ensures Failing(s) <==> FailCondition(inp)
  {
    hide Samples, MeasurementOf, OomDemonstrated, OomKilled, EvaluateStopRule, OwnGates, ReadsAs, GateMissed, GateMet,
         CompletedCount, ProvenanceBlocker;
    if inp.scenario.Loaded? {
      GatesTraced(inp, s);
      var own := OwnGates(inp.scenario.contract.gates);
      if g :| g in own && GateMissed(inp, g) {
        var i :| 0 <= i < |own| && own[i] == g;
        assert s.gates[i].status == Fail <==> ProvenanceBlocker(s.measurement) == None && GateMissed(inp, own[i]);
      }
      if i :| 0 <= i < |s.gates| && s.gates[i].status == Fail {
        assert own[i] in own;
      }
    }
  }

  // ---- consequences of a PASS -----------------------------------------------------------

  lemma EveryChildCounted(inp: SeriesInputs)
    requires PassCondition(inp)
    ensures |SamplesOf(IndexWallclockMS, Samples(inp.child, inp.runs))| == inp.runs
  {
    hide SamplesOf, EqualFold, IsDirty, CandidateMatch, OwnGates, GateMet, StopRuleHolds;
    var samples := Samples(inp.child, inp.runs);
    AllCompleted(inp.child, inp.runs);
    forall r | r in samples && r.completed ensures r.report.wallclockMS > 0 {
      var i :| 0 <= i < |samples| && samples[i] == r;
      EverySampleIsItsChild(inp.child, inp.runs, i);
    }
    WallclockOfEveryRun(samples);
  }

  /** A PASS with the p95 gate: at least 95 of every 100 requested runs indexed within the threshold. */
  lemma PassMeansFastRuns(inp: SeriesInputs, g: GateMapping)
    requires PassCondition(inp) && g in OwnGates(inp.scenario.contract.gates) && g.id == "cold_index_p95"
    ensures 100 * WithinCount(IndexWallclockMS, Samples(inp.child, inp.runs), g.threshold * 1000.0) >= 95 * inp.runs
  {
    hide SamplesOf, EqualFold, IsDirty, CandidateMatch, OwnGates, StopRuleHolds, Samples, Rank, Aggregates, WithinCount;
    EveryChildCounted(inp);
    assert g.id != OOM_GATE;
    PassMeetsEveryGate(inp, g);
    PercentileOfRuns(IndexWallclockMS, Samples(inp.child, inp.runs), g.threshold * 1000.0);
    RankIsCeiling(inp.runs, 95);
  }

  lemma PassMeetsEveryGate(inp: SeriesInputs, g: GateMapping)
    requires PassCondition(inp) && g in OwnGates(inp.scenario.contract.gates)
    ensures GateMet(inp, g)
  {
    hide EqualFold, IsDirty, CandidateMatch, StopRuleHolds, Samples, OwnGates, GateMet;
  }

  lemma PeakBinding(g: GateMapping, aggregates: map<Metric, Aggregate>)
    requires g.id == PEAK_RSS_GATE && MeasuredWithin(g, aggregates)
    ensures g.unit == "GB" && StablePeakRSSMB in aggregates && aggregates[StablePeakRSSMB].max <= g.threshold * 1024.0
  {
    assert BindingOf(PEAK_RSS_GATE) == Some(Binding(StablePeakRSSMB, Max, "GB"));
    hide BindingOf, PEAK_RSS_GATE;
  }

  lemma PeakGateIsNotOom(g: GateMapping)
    ensures g.id == PEAK_RSS_GATE ==> g.id != OOM_GATE
  {
    assert |PEAK_RSS_GATE| != |OOM_GATE|;
  }

  lemma PeakGateMet(inp: SeriesInputs, g: GateMapping)
    requires PassCondition(inp) && g in OwnGates(inp.scenario.contract.gates) && g.id == PEAK_RSS_GATE
    ensures g.unit == "GB" && StablePeakRSSMB in Aggregates(Samples(inp.child, inp.runs))
    ensures Aggregates(Samples(inp.child, inp.runs))[StablePeakRSSMB].max <= g.threshold * 1024.0
  {
    PassMeetsEveryGate(inp, g);
    PeakGateIsNotOom(g);
    hide Samples, Aggregates, MeasuredWithin, PEAK_RSS_GATE, OOM_GATE, OwnGates, StopRuleHolds, EqualFold, IsDirty,
         CandidateMatch;
    PeakBinding(g, Aggregates(Samples(inp.child, inp.runs)));
  }

  /** A PASS with the peak-RSS gate: no run that reported a peak exceeded it. */
  lemma PassBoundsEveryPeak(inp: SeriesInputs, g: GateMapping)
    requires PassCondition(inp) && g in OwnGates(inp.scenario.contract.gates) && g.id == PEAK_RSS_GATE
    ensures var xs := SamplesOf(StablePeakRSSMB, Samples(inp.child, inp.runs));
            xs != [] && forall x :: x in xs ==> x <= g.threshold * 1024.0
  {
    hide *;
    PeakGateMet(inp, g);
    MaximumOfRuns(StablePeakRSSMB, Samples(inp.child, inp.runs), g.threshold * 1024.0);
  }

  /** Under an accepted contract a PASS with the peak-RSS gate also measures the stop rule, strictly inside it. */
  lemma PassIsInsideTheStopRule(inp: SeriesInputs, repos: set<string>, g: GateMapping)
    requires PassCondition(inp) && g in OwnGates(inp.scenario.contract.gates) && g.id == PEAK_RSS_GATE
    requires Accepted(inp.scenario.contract, repos)
    ensures var stop := EvaluateStopRule(inp.scenario.contract.stopRule, MeasurementOf(inp));
            stop.status == Pass && stop.observedPeakGB <= g.threshold < inp.scenario.contract.stopRule.thresholdGB
  {
    hide Samples, Aggregates, OwnGates, PEAK_RSS_GATE, GoodClasses, GoodGates, GoodOomCheck, GoodBudgets;
    PeakGateMet(inp, g);
    OwnIsListed(inp.scenario.contract.gates, g);
    GBIsNotMB();
    assert InGB(g) == g.threshold;
  }

  lemma GBIsNotMB()
    ensures "GB" != "MB"
  {
    assert "GB"[0] != "MB"[0];
  }

  lemma OwnIsListed(gates: seq<GateMapping>, g: GateMapping)
    requires g in OwnGates(gates)
    ensures g in gates
  {
  }

  /** Sufficiency counts completed runs, not samples: a distribution is whole exactly when every completed run reported
      its metric. */
  lemma {:induction false} WholeDistribution(metric: Metric, runs: seq<ColdRunSample>)
    ensures |SamplesOf(metric, runs)| <= CompletedCount(runs)
    ensures |SamplesOf(metric, runs)| == CompletedCount(runs) <==>
      forall r :: r in runs && r.completed ==> ValueOf(metric, r.report).Some?
  {
    hide ValueOf;
    if runs != [] {
      var last, init := runs[|runs| - 1], runs[..|runs| - 1];
      assert runs == init + [last];
      WholeDistribution(metric, init);
      assert forall r :: r in runs <==> r in init || r == last;
    }
  }

  // ---- how many runs a verdict rests on -------------------------------------------------

  predicate Reports(metric: Metric, child: ChildRun) {
    Measured(child) && ValueOf(metric, child.report).Some?
  }

  /** The runs, of the first n, whose child process reported the metric. */
  function Reporting(metric: Metric, child: nat -> ChildRun, n: nat): set<nat> {
    set k: nat | 1 <= k <= n && Reports(metric, child(k))
  }

  lemma ReportingGrows(metric: Metric, child: nat -> ChildRun, n: nat)
    requires n > 0
    ensures |Reporting(metric, child, n)| ==
            |Reporting(metric, child, n - 1)| + (if Reports(metric, child(n)) then 1 else 0)
  {
    hide Reports;
    var before := Reporting(metric, child, n - 1);
    if Reports(metric, child(n)) {
      assert Reporting(metric, child, n) == before + {n};
    } else {
      assert Reporting(metric, child, n) == before;
    }
  }

  lemma SamplesGrow(metric: Metric, child: nat -> ChildRun, n: nat)
    requires n > 0
    ensures |SamplesOf(metric, Samples(child, n))| ==
            |SamplesOf(metric, Samples(child, n - 1))| + (if Reports(metric, child(n)) then 1 else 0)
  {
    hide ValueOf, Measured;
    var runs := Samples(child, n);
    assert runs[..|runs| - 1] == Samples(child, n - 1) && runs[|runs| - 1] == SampleOf(n, child(n));
    hide Samples;
  }

  lemma {:induction false} OneSamplePerReport(metric: Metric, child: nat -> ChildRun, n: nat)
    ensures |SamplesOf(metric, Samples(child, n))| == |Reporting(metric, child, n)|
  {
    hide Reports;
    if n == 0 {
      assert Reporting(metric, child, 0) == {};
    } else {
      hide *;
      OneSamplePerReport(metric, child, n - 1);
      ReportingGrows(metric, child, n);
      SamplesGrow(metric, child, n);
    }
  }

  lemma BoundMetric(g: GateMapping, aggregates: map<Metric, Aggregate>)
    requires MeasuredWithin(g, aggregates)
    ensures BindingOf(g.id).Some? && BindingOf(g.id).value.metric in aggregates
    ensures g.id == "cold_index_p50" || g.id == "cold_index_p95" ==>
      BindingOf(g.id).value.metric == IndexWallclockMS
  {
  }

  /** What a PASS rests on, gate by gate: the published sample count is the number of runs that reported the gate's
      metric. It is at least one, it is every run for the clock gates, and nothing asks that it be the minimum. */
  lemma PassRestsOnReports(inp: SeriesInputs, g: GateMapping)
    requires PassCondition(inp) && g in OwnGates(inp.scenario.contract.gates) && g.id != OOM_GATE
    ensures BindingOf(g.id).Some? && BindingOf(g.id).value.metric in Aggregates(Samples(inp.child, inp.runs))
    ensures var metric := BindingOf(g.id).value.metric;
            var n := Aggregates(Samples(inp.child, inp.runs))[metric].n;
            var reporting := Reporting(metric, inp.child, inp.runs);
            && n > 0 && n == |reporting|
            && (n >= COLD_RUN_MINIMUM <==> |reporting| >= COLD_RUN_MINIMUM)
            && (g.id == "cold_index_p50" || g.id == "cold_index_p95" ==> n == inp.runs)
  {
    PassMeetsEveryGate(inp, g);
    hide PassCondition, Aggregates, Samples, MeasuredWithin, BindingOf, OOM_GATE, SamplesOf, Reporting, OwnGates;
    EveryChildCounted(inp);
    BoundMetric(g, Aggregates(Samples(inp.child, inp.runs)));
    var metric := BindingOf(g.id).value.metric;
    PercentileOfRuns(metric, Samples(inp.child, inp.runs), g.threshold);
    OneSamplePerReport(metric, inp.child, inp.runs);
  }

  /** Run 1 reports a peak of 100 MB and no other run reports one. */
  function OnePeak(k: nat): ChildRun {
    ChildRun(ChildReport("", 1000, 0, if k == 1 then 100 else 0, 0, 0, 0, None), 0, "", false)
  }

  /** Ten runs of the candidate on the reference scenario, read against the contract. */
  function OnePeakSeries(contract: Contract): SeriesInputs {
    SeriesInputs(10, Some(true), Some("abc"), "abc", OnePeak, Loaded(contract), false, "", false, OnePeak(0),
                 Signal(false, false))
  }

  lemma {:induction false} OnePeakSample(n: nat)
    requires n > 0
    ensures SamplesOf(StablePeakRSSMB, Samples(OnePeak, n)) == [100.0]
  {
    var runs := Samples(OnePeak, n);
    assert runs[..|runs| - 1] == Samples(OnePeak, n - 1) && runs[|runs| - 1] == SampleOf(n, OnePeak(n));
    assert Measured(OnePeak(n));
    if n == 1 {
      assert SamplesOf(StablePeakRSSMB, Samples(OnePeak, 0)) == [];
    } else {
      OnePeakSample(n - 1);
    }
  }

  lemma OnePeakAggregate()
    ensures var aggregates := Aggregates(Samples(OnePeak, 10));
            StablePeakRSSMB in aggregates
            && aggregates[StablePeakRSSMB].n == 1 && aggregates[StablePeakRSSMB].max <= 100.0
  {
    OnePeakSample(10);
    assert METRICS[2] == StablePeakRSSMB;
    assert StablePeakRSSMB in Aggregates(Samples(OnePeak, 10)) by { hide METRICS, SamplesOf, Samples, AggregateOf; }
    hide METRICS, SamplesOf, Samples, Aggregates, AggregateOf;
    PercentileOfRuns(StablePeakRSSMB, Samples(OnePeak, 10), 100.0);
    MaximumOfRuns(StablePeakRSSMB, Samples(OnePeak, 10), 100.0);
  }

  lemma PlainRevisionMatches()
    ensures !IsDirty("abc") && CandidateMatch("abc", "abc")
  {
    assert |DIRTY_SUFFIX| == 6;
  }

  lemma SmallPeakIsWithin(g: GateMapping, aggregates: map<Metric, Aggregate>)
    requires g.id == PEAK_RSS_GATE && g.unit == "GB" && g.threshold >= 2.0
    requires StablePeakRSSMB in aggregates && aggregates[StablePeakRSSMB].max <= 100.0
    ensures MeasuredWithin(g, aggregates)
  {
    assert BindingOf(PEAK_RSS_GATE) == Some(Binding(StablePeakRSSMB, Max, "GB"));
    hide BindingOf, PEAK_RSS_GATE;
  }

  /** A PASS on one sample: ten measured runs, a peak gate of at least 2 GB inside a stop rule of at least 2 GB, and a
      single run that reported a peak. */
  lemma PassOnOneSample(contract: Contract)
    requires OwnGates(contract.gates) != [] && contract.stopRule.thresholdGB >= 2.0
    requires forall g :: g in OwnGates(contract.gates) ==>
      g.id == PEAK_RSS_GATE && g.unit == "GB" && g.threshold >= 2.0
    ensures var inp := OnePeakSeries(contract);
            && PassCondition(inp)
            && StablePeakRSSMB in Aggregates(Samples(inp.child, inp.runs))
            && Aggregates(Samples(inp.child, inp.runs))[StablePeakRSSMB].n == 1
  {
    var inp := OnePeakSeries(contract);
    PlainRevisionMatches();
    OnePeakAggregate();
    hide Aggregates, Samples, OwnGates, MeasuredWithin, CandidateMatch, IsDirty, OOM_GATE, PEAK_RSS_GATE;
    forall g | g in OwnGates(contract.gates)
      ensures GateMet(inp, g)
    {
      PeakGateIsNotOom(g);
      SmallPeakIsWithin(g, Aggregates(Samples(inp.child, inp.runs)));
    }
    assert forall k :: 1 <= k <= 10 ==> Measured(OnePeak(k));
  }

  // ---- which revision measured a run ----------------------------------------------------

  /** The same children, each measured by the revision given for its run. */
  function MeasuredBy(inp: SeriesInputs, revision: nat -> string): SeriesInputs {
    inp.(child := (k: nat) => inp.child(k).(report := inp.child(k).report.(commit := revision(k))))
  }

  lemma {:induction false} AlikeRuns(metric: Metric, a: seq<ColdRunSample>, b: seq<ColdRunSample>)
    requires |a| == |b| && forall i :: 0 <= i < |a| ==>
      a[i].completed == b[i].completed && ValueOf(metric, a[i].report) == ValueOf(metric, b[i].report)
    ensures CompletedCount(a) == CompletedCount(b) && SamplesOf(metric, a) == SamplesOf(metric, b)
  {
    hide ValueOf;
    if a != [] {
      AlikeRuns(metric, a[..|a| - 1], b[..|b| - 1]);
    }
  }

  lemma SameValues(metric: Metric, report: ChildReport, revision: string)
    ensures ValueOf(metric, report.(commit := revision)) == ValueOf(metric, report)
  {
  }

  lemma SameSample(inp: SeriesInputs, revision: nat -> string, k: nat, metric: Metric)
    ensures var a, b := SampleOf(k, MeasuredBy(inp, revision).child(k)), SampleOf(k, inp.child(k));
            a.completed == b.completed && ValueOf(metric, a.report) == ValueOf(metric, b.report)
  {
    hide ValueOf;
    SameValues(metric, inp.child(k).report, revision(k));
  }

  lemma RevisionIsNoMetric(inp: SeriesInputs, revision: nat -> string, n: nat, metric: Metric)
    ensures var other := MeasuredBy(inp, revision);
            && CompletedCount(Samples(other.child, n)) == CompletedCount(Samples(inp.child, n))
            && SamplesOf(metric, Samples(other.child, n)) == SamplesOf(metric, Samples(inp.child, n))
  {
    hide Samples, SampleOf, MeasuredBy, ValueOf;
    var a, b := Samples(MeasuredBy(inp, revision).child, n), Samples(inp.child, n);
    forall i | 0 <= i < n
      ensures a[i].completed == b[i].completed && ValueOf(metric, a[i].report) == ValueOf(metric, b[i].report)
    {
      EverySampleIsItsChild(MeasuredBy(inp, revision).child, n, i);
      EverySampleIsItsChild(inp.child, n, i);
      SameSample(inp, revision, i + 1, metric);
    }
    AlikeRuns(metric, a, b);
  }

  lemma RevisionIsNoAggregate(inp: SeriesInputs, revision: nat -> string)
    requires WellConfigured(inp)
    ensures MeasurementOf(MeasuredBy(inp, revision)) == MeasurementOf(inp)
  {
    var other := MeasuredBy(inp, revision);
    var runs, runs' := Samples(inp.child, inp.runs), Samples(other.child, inp.runs);
    hide Samples, SamplesOf, AggregateOf, METRICS, IsDirty, CandidateMatch, CompletedCount;
    forall m
      ensures SamplesOf(m, runs') == SamplesOf(m, runs)
    {
      RevisionIsNoMetric(inp, revision, inp.runs, m);
    }
    assert CompletedCount(runs') == CompletedCount(runs) by { RevisionIsNoMetric(inp, revision, inp.runs, Nodes); }
    assert Aggregates(runs') == Aggregates(runs);
  }

  lemma SameMeasured(inp: SeriesInputs, revision: nat -> string)
    ensures forall k: nat :: Measured(MeasuredBy(inp, revision).child(k)) <==> Measured(inp.child(k))
  {
  }

  lemma SameConstrainedRun(inp: SeriesInputs, child: nat -> ChildRun)
    ensures OomDemonstrated(inp.(child := child)) <==> OomDemonstrated(inp)
    ensures OomKilled(inp.(child := child)) <==> OomKilled(inp)
  {
    hide OomLimitVerified, Measured;
  }

  lemma SameStopRule(inp: SeriesInputs, revision: nat -> string)
    requires WellConfigured(inp)
    ensures StopRuleHolds(MeasuredBy(inp, revision)) <==> StopRuleHolds(inp)
  {
    hide MeasurementOf, EvaluateStopRule;
    RevisionIsNoAggregate(inp, revision);
  }

  lemma SameDemands(inp: SeriesInputs, revision: nat -> string, g: GateMapping)
    requires WellConfigured(inp)
    ensures var other := MeasuredBy(inp, revision);
            && (GateMet(other, g) <==> GateMet(inp, g))
            && (GateMissed(other, g) <==> GateMissed(inp, g))
  {
    hide OomDemonstrated, OomKilled, Samples, Aggregates, MeasuredWithin, MeasuredBeyond, IsDirty, CandidateMatch,
         CompletedCount;
    var other := MeasuredBy(inp, revision);
    SameConstrainedRun(inp, other.child);
    RevisionIsNoAggregate(inp, revision);
    assert Aggregates(Samples(other.child, inp.runs)) == MeasurementOf(other).aggregates;
    assert Aggregates(Samples(inp.child, inp.runs)) == MeasurementOf(inp).aggregates;
    hide MeasurementOf;
  }

  /** A run measured by another revision is warned about and counted all the same: whatever revisions the children were
      measured by, the verdict is the same. */
  lemma VerdictIgnoresRevisions(inp: SeriesInputs, revision: nat -> string)
    ensures PassCondition(MeasuredBy(inp, revision)) <==> PassCondition(inp)
    ensures FailCondition(MeasuredBy(inp, revision)) <==> FailCondition(inp)
  {
    hide GateMet, GateMissed, StopRuleHolds, OwnGates, IsDirty, CandidateMatch, Measured, MeasurementOf, CompletedCount,
         Samples, ProvenanceBlocker;
    var other := MeasuredBy(inp, revision);
    assert other.(child := inp.child) == inp;
    if WellConfigured(inp) {
      forall g
        ensures GateMet(other, g) <==> GateMet(inp, g)
        ensures GateMissed(other, g) <==> GateMissed(inp, g)
      {
        SameDemands(inp, revision, g);
      }
      SameStopRule(inp, revision);
      SameMeasured(inp, revision);
      RevisionIsNoAggregate(inp, revision);
      RevisionIsNoMetric(inp, revision, inp.runs, Nodes);
      hide MeasuredBy;
    }
  }
}
