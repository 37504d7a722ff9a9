/** Reading a cold series against the contract's gates, the stop rule and the out-of-memory check. */
module ColdGates {
  import opened Text
  import opened Decimal
  import opened ColdRuns
  import opened ReferenceScenario

  datatype GateStatus = Pass | Fail | Unknown

  // ---- provenance and distribution ------------------------------------------------------

  datatype Blocker = NotReference | DirtyWorktree | NotTheCandidate | TooFewRuns

  /** The fields of a series that its gates read. */
  datatype Measurement = Measurement(
    referenceScenario: bool, worktreeDirty: bool, candidateMatch: bool, sufficient: bool,
    aggregates: map<Metric, Aggregate>)

  function ProvenanceBlocker(s: Measurement): (b: Option<Blocker>)
    ensures b == None <==> s.referenceScenario && !s.worktreeDirty && s.candidateMatch
  {
    if !s.referenceScenario then Some(NotReference)
    else if s.worktreeDirty then Some(DirtyWorktree)
    else if !s.candidateMatch then Some(NotTheCandidate)
    else None
  }

  function DistributionBlocker(s: Measurement): (b: Option<Blocker>)
    ensures b == None <==> s.sufficient
  {
    if !s.sufficient then Some(TooFewRuns) else None
  }

  // ---- the out-of-memory check ----------------------------------------------------------

  datatype Signal = Signal(collected: bool, fired: bool)

  datatype OomResult = OomResult(
    status: GateStatus, limitVerified: bool, runCompleted: bool, exitCode: int, fired: nat, blockedBy: Option<Blocker>)

  /** What the wiring observed about the constrained run. */
  datatype OomObservation = OomObservation(
    limitBytes: int, cgroup: Option<Cgroup>, exitCode: int, signal: string, indexCompleted: bool, kernelLog: Signal)

  const NOT_EXERCISED := OomResult(Unknown, false, false, 0, 0, None)

  /** The limit read back is the contract's exact figure, and swap is off. */
  predicate OomLimitVerified(cgroup: Option<Cgroup>, limitBytes: int) {
    && cgroup.Some? && cgroup.value.available && limitBytes > 0
    && cgroup.value.memoryMax == Digits(limitBytes) && cgroup.value.memorySwapMax == "0"
  }

  function OomExitSignal(obs: OomObservation): Signal {
    Signal(true, obs.signal == "killed" || obs.exitCode == 137)
  }

  function OomEventsSignal(cgroup: Option<Cgroup>): Signal {
    if cgroup == None || !cgroup.value.oomKillCollected then Signal(false, false)
    else Signal(true, cgroup.value.oomKill > 0)
  }

  function Signals(obs: OomObservation): seq<Signal> {
    [OomExitSignal(obs), OomEventsSignal(obs.cgroup), obs.kernelLog]
  }

  ghost predicate AnyFired(signals: seq<Signal>) {
    exists s :: s in signals && s.fired
  }

  ghost predicate AllCollected(signals: seq<Signal>) {
    forall s :: s in signals ==> s.collected
  }

  /** FAIL on any fired signal, PASS only with everything verified, completed, collected and silent, UNKNOWN otherwise.
      */
  method EvaluateOom(obs: OomObservation) returns (r: OomResult)
    ensures r.status == Fail <==> AnyFired(Signals(obs))
    ensures r.status == Pass <==>
      && OomLimitVerified(obs.cgroup, obs.limitBytes) && obs.indexCompleted
      && AllCollected(Signals(obs)) && !AnyFired(Signals(obs))
    ensures r.limitVerified == OomLimitVerified(obs.cgroup, obs.limitBytes)
    ensures r.runCompleted == obs.indexCompleted && r.exitCode == obs.exitCode && r.blockedBy == None
    ensures r.fired > 0 <==> AnyFired(Signals(obs))
  {
    var verified := OomLimitVerified(obs.cgroup, obs.limitBytes);
    var signals := Signals(obs);
    hide Signals, OomLimitVerified;
    var fired, uncollected := 0, 0;
    for i := 0 to |signals|
      invariant fired > 0 <==> AnyFired(signals[..i])
      invariant fired == uncollected == 0 ==> AllCollected(signals[..i])
      invariant uncollected > 0 ==> !AllCollected(signals[..i])
    {
      assert signals[..i + 1] == signals[..i] + [signals[i]];
      if signals[i].fired {
        assert signals[i] in signals[..i + 1];
        fired := fired + 1;
      } else if !signals[i].collected {
        assert signals[i] in signals[..i + 1];
        uncollected := uncollected + 1;
      }
    }
    assert signals[..|signals|] == signals;
    r := OomResult(Unknown, verified, obs.indexCompleted, obs.exitCode, fired, None);
    if fired > 0 {
      return r.(status := Fail);
    }
    if !verified {
      return;
    }
    if !obs.indexCompleted {
      return;
    }
    if uncollected > 0 {
      return;
    }
    return r.(status := Pass);
  }

  /** A verdict about the wrong artifact becomes UNKNOWN whichever way it landed; the observations stay. */
  function ApplyOomProvenance(r: OomResult, provenance: Option<Blocker>): OomResult {
    if provenance == None || r.status == Unknown then r else r.(status := Unknown, blockedBy := provenance)
  }

  /** Applying it twice, as the series and the gate list do, is applying it once. */
  lemma ProvenanceIsIdempotent(r: OomResult, provenance: Option<Blocker>)
    ensures var once := ApplyOomProvenance(r, provenance);
            && ApplyOomProvenance(once, provenance) == once
            && (once.status == Pass <==> r.status == Pass && provenance == None)
            && (once.status == Fail <==> r.status == Fail && provenance == None)
            && once.(status := r.status, blockedBy := r.blockedBy) == r
  {
  }

  // ---- the percentile gates -------------------------------------------------------------

  datatype Stat = P50 | P95 | Max
  datatype Binding = Binding(metric: Metric, stat: Stat, unit: string)

  function BindingOf(id: string): Option<Binding> {
    match id
    case "cold_index_p50" => Some(Binding(IndexWallclockMS, P50, "s"))
    case "cold_index_p95" => Some(Binding(IndexWallclockMS, P95, "s"))
    case "peak_rss" => Some(Binding(StablePeakRSSMB, Max, "GB"))
    case "db_size" => Some(Binding(DBSizeBytes, Max, "MB"))
    case _ => None
  }

  /** Milliseconds to seconds, megabytes to gigabytes, bytes to megabytes. */
  function Convert(metric: Metric, raw: real): real {
    match metric
    case IndexWallclockMS => raw / 1000.0
    case StablePeakRSSMB => raw / 1024.0
    case _ => raw / 1048576.0
  }

  function StatOf(stat: Stat, a: Aggregate): real {
    match stat
    case P50 => a.p50
    case P95 => a.p95
    case Max => a.max
  }

  datatype GateResult = GateResult(id: string, status: GateStatus, measured: Option<real>)

  /** The gate is bound to a measured aggregate in its own unit, and that aggregate is within the threshold. */
  ghost predicate MeasuredWithin(g: GateMapping, aggregates: map<Metric, Aggregate>) {
    && BindingOf(g.id).Some?
    && var b := BindingOf(g.id).value;
       && b.unit == g.unit && b.metric in aggregates
       && Convert(b.metric, StatOf(b.stat, aggregates[b.metric])) <= g.threshold
  }

  ghost predicate MeasuredBeyond(g: GateMapping, aggregates: map<Metric, Aggregate>) {
    && BindingOf(g.id).Some?
    && var b := BindingOf(g.id).value;
       && b.unit == g.unit && b.metric in aggregates
       && Convert(b.metric, StatOf(b.stat, aggregates[b.metric])) > g.threshold
  }

  /** Neither blocker stands between the series and its percentile gates. */
  predicate Answerable(s: Measurement) {
    ProvenanceBlocker(s) == None && DistributionBlocker(s) == None
  }

  /** One gate read: PASS and FAIL are both measurements of the right thing, everything else is UNKNOWN. */
  method EvaluateColdGate(g: GateMapping, s: Measurement, oom: OomResult) returns (r: GateResult)
    ensures r.id == g.id
    ensures g.id == OOM_GATE ==> r.status == ApplyOomProvenance(oom, ProvenanceBlocker(s)).status && r.measured == None
    ensures g.id != OOM_GATE ==>
      (r.status == Pass <==> Answerable(s) && MeasuredWithin(g, s.aggregates))
    ensures g.id != OOM_GATE ==>
      (r.status == Fail <==> Answerable(s) && MeasuredBeyond(g, s.aggregates))
    ensures g.id != OOM_GATE ==> (r.measured == None <==> r.status == Unknown)
  {
    hide BindingOf, OOM_GATE, ProvenanceBlocker, DistributionBlocker, Convert;
    r := GateResult(g.id, Unknown, None);
    if g.id == OOM_GATE {
      return r.(status := ApplyOomProvenance(oom, ProvenanceBlocker(s)).status);
    }
    var binding := BindingOf(g.id);
    if binding == None {
      return;
    }
    var b := binding.value;
    if b.unit != g.unit {
      return;
    }
    if ProvenanceBlocker(s) != None || DistributionBlocker(s) != None {
      return;
    }
    if b.metric !in s.aggregates {
      return;
    }
    var raw := StatOf(b.stat, s.aggregates[b.metric]);
    var measured := Convert(b.metric, raw);
    r := GateResult(g.id, if measured <= g.threshold then Pass else Fail, Some(measured));
  }

  // ---- the stop rule --------------------------------------------------------------------

  datatype StopRuleResult = StopRuleResult(triggered: bool, status: GateStatus, observedPeakGB: real)

  /** Applies to every measured scenario: neither provenance nor sufficiency is asked. */
  function EvaluateStopRule(rule: StopRule, s: Measurement): (r: StopRuleResult)
    ensures r.triggered <==>
      StablePeakRSSMB in s.aggregates && s.aggregates[StablePeakRSSMB].max > rule.thresholdGB * 1024.0
    ensures r.triggered <==> r.status == Fail
    ensures r.status == Unknown <==> StablePeakRSSMB !in s.aggregates
  {
    if StablePeakRSSMB !in s.aggregates then StopRuleResult(false, Unknown, 0.0)
    else
      var peak := s.aggregates[StablePeakRSSMB].max / 1024.0;
      StopRuleResult(peak > rule.thresholdGB, if peak > rule.thresholdGB then Fail else Pass, peak)
  }

  // ---- the gate list --------------------------------------------------------------------

  /** The contract a series is read against: none supplied, one that could not be read, or its parsed content. */
  datatype Scenario = NotSupplied | Unreadable | Loaded(contract: Contract)

  const OWN_STORY := "SW-124"

  /** What is read when the contract could not be. */
  const UNREADABLE := GateResult("reference_scenario_contract", Unknown, None)

  function OwnGates(gates: seq<GateMapping>): (own: seq<GateMapping>)
    ensures forall g :: g in own <==> g in gates && g.measuredBy == OWN_STORY
  {
    if gates == [] then []
    else
      var last := gates[|gates| - 1];
      assert gates == gates[..|gates| - 1] + [last];
      OwnGates(gates[..|gates| - 1]) + (if last.measuredBy == OWN_STORY then [last] else [])
  }

  /** What the reading of one gate must be. */
  ghost predicate ReadsAs(g: GateMapping, s: Measurement, oom: OomResult, status: GateStatus) {
    if g.id == OOM_GATE then status == ApplyOomProvenance(oom, ProvenanceBlocker(s)).status
    else
      && (status == Pass <==> Answerable(s) && MeasuredWithin(g, s.aggregates))
      && (status == Fail <==> Answerable(s) && MeasuredBeyond(g, s.aggregates))
  }

  /** Without a contract nothing is read; with one, each of this story's gates in contract order, and the stop rule. */
  ghost predicate IsReading(scenario: Scenario, s: Measurement, oom: OomResult,
                            gates: seq<GateResult>, stop: Option<StopRuleResult>)
  {
    match scenario
    case NotSupplied => gates == [] && stop == None
    case Unreadable => gates == [UNREADABLE] && stop == None
    case Loaded(contract) =>
      && stop == Some(EvaluateStopRule(contract.stopRule, s))
      && |gates| == |OwnGates(contract.gates)|
      && (forall i :: 0 <= i < |gates| ==> gates[i].id == OwnGates(contract.gates)[i].id)
      && (forall i :: 0 <= i < |gates| ==> ReadsAs(OwnGates(contract.gates)[i], s, oom, gates[i].status))
  }

  method ReadColdGates(scenario: Scenario, s: Measurement, oom: OomResult)
    returns (gates: seq<GateResult>, stop: Option<StopRuleResult>)
    ensures IsReading(scenario, s, oom, gates, stop)
  {
    hide ReadsAs, EvaluateStopRule, OwnGates;
    if scenario == NotSupplied {
      return [], None;
    }
    if scenario == Unreadable {
      return [UNREADABLE], None;
    }
    gates := ReadOwnGates(scenario.contract.gates, s, oom);
    stop := Some(EvaluateStopRule(scenario.contract.stopRule, s));
  }

  /** The loop over the contract's gates, which skips those of other stories. */
  method ReadOwnGates(all: seq<GateMapping>, s: Measurement, oom: OomResult) returns (gates: seq<GateResult>)
    ensures |gates| == |OwnGates(all)|
    ensures forall j :: 0 <= j < |gates| ==>
      gates[j].id == OwnGates(all)[j].id && ReadsAs(OwnGates(all)[j], s, oom, gates[j].status)
  {
    hide ReadsAs, MeasuredWithin, MeasuredBeyond, OWN_STORY;
    gates := [];
    for i := 0 to |all|
      invariant |gates| == |OwnGates(all[..i])|
      invariant forall j :: 0 <= j < |gates| ==>
        gates[j].id == OwnGates(all[..i])[j].id && ReadsAs(OwnGates(all[..i])[j], s, oom, gates[j].status)
    {
      OneMoreGate(all, i);
      if all[i].measuredBy != OWN_STORY {
        continue;
      }
      hide OwnGates;
      var r := EvaluateColdGate(all[i], s, oom);
      ReadingHolds(all[i], s, oom, r);
      gates := gates + [r];
    }
    assert all[..|all|] == all;
  }

  lemma OneMoreGate(all: seq<GateMapping>, i: nat)
    requires i < |all|
    ensures OwnGates(all[..i + 1]) == OwnGates(all[..i]) + (if all[i].measuredBy == OWN_STORY then [all[i]] else [])
  {
    assert all[..i + 1][..i] == all[..i];
    hide OWN_STORY;
  }

  lemma ReadingHolds(g: GateMapping, s: Measurement, oom: OomResult, r: GateResult)
    requires g.id == OOM_GATE ==> r.status == ApplyOomProvenance(oom, ProvenanceBlocker(s)).status
    requires g.id != OOM_GATE ==>
      (r.status == Pass <==> Answerable(s) && MeasuredWithin(g, s.aggregates))
    requires g.id != OOM_GATE ==>
      (r.status == Fail <==> Answerable(s) && MeasuredBeyond(g, s.aggregates))
    ensures ReadsAs(g, s, oom, r.status)
  {
  }
}
