/** The reference-scenario contract: what an accepted contract is guaranteed to contain. */
module ReferenceScenario {
  import opened Text
  import opened Sorting

  datatype Role = Reference | Comparison | Other(text: string)

  datatype RunnerClass = RunnerClass(
    id: string, role: Role, os: string, cpu: string, cpuCores: int, ramGB: real, kernel: string,
    goVersion: string, filesystem: string, cacheState: string, source: string, notes: string)

  datatype GateMapping = GateMapping(
    id: string, prdMetric: string, threshold: real, unit: string, comparison: string, repo: string, measuredBy: string)

  datatype OomCheck = OomCheck(
    gateId: string, repo: string, host: string, limitBytes: int, impose: string, verify: string, failureSignal: string)

  datatype Observation = Observation(repo: string, peakRSSGB: real, source: string, status: string)

  datatype StopRule = StopRule(id: string, thresholdGB: real, appliesTo: string, observations: seq<Observation>)

  datatype BudgetsRef = BudgetsRef(path: string, historical: bool, ratcheting: bool, reason: string)

  datatype Contract = Contract(
    schemaVersion: int, scopeLimitation: string, classes: seq<RunnerClass>, repo: string, rationale: string,
    gates: seq<GateMapping>, oom: OomCheck, stopRule: StopRule, budgets: BudgetsRef)

  const OOM_GATE := "oom_8gb_host"
  const PEAK_RSS_GATE := "peak_rss"

  /** PRD section 12.2, in order. */
  const PRD_GATES: seq<string> := [
    "cold_index_p50", "cold_index_p95", PEAK_RSS_GATE, OOM_GATE, "db_size", "progress_stall_p95",
    "warm_search_p95", "caller_callee_impact_p95", "agent_context_p95", "freshness_p95"]

  // ---- runner classes -------------------------------------------------------------------

  predicate Documented(c: RunnerClass) {
    && c.cpu != "" && c.cpuCores > 0 && c.ramGB > 0.0 && c.os != "" && c.kernel != ""
    && c.goVersion != "" && c.filesystem != "" && c.cacheState != ""
  }

  /** One acceptable class on its own. */
  predicate GoodClass(c: RunnerClass) {
    && c.id != "" && c.source != ""
    && match c.role
       case Reference => Documented(c)
       case Comparison => c.notes != ""
       case Other(_) => false
  }

  method RequireEnvironment(c: RunnerClass) returns (ok: bool)
    ensures ok <==> Documented(c)
  {
    var missing: seq<string> := [];
    if c.cpu == "" { missing := missing + ["cpu"]; }
    if c.cpuCores <= 0 { missing := missing + ["cpu_cores"]; }
    if c.ramGB <= 0.0 { missing := missing + ["ram_gb"]; }
    if c.os == "" { missing := missing + ["os"]; }
    if c.kernel == "" { missing := missing + ["kernel"]; }
    if c.goVersion == "" { missing := missing + ["go_version"]; }
    if c.filesystem == "" { missing := missing + ["filesystem"]; }
    if c.cacheState == "" { missing := missing + ["cache_state"]; }
    return missing == [];
  }

  function Ids<T>(items: seq<T>, id: T -> string): (ids: seq<string>)
    ensures |ids| == |items| && forall i :: 0 <= i < |ids| ==> ids[i] == id(items[i])
  {
    seq(|items|, i requires 0 <= i < |items| => id(items[i]))
  }

  function ClassId(c: RunnerClass): string { c.id }
  function GateId(g: GateMapping): string { g.id }

  /** Exactly one class is the reference. */
  ghost predicate OneReference(classes: seq<RunnerClass>) {
    exists i :: 0 <= i < |classes| && IsTheReference(classes, i)
  }

  ghost predicate IsTheReference(classes: seq<RunnerClass>, i: int) {
    0 <= i < |classes| && forall j :: 0 <= j < |classes| ==> (classes[j].role == Reference <==> j == i)
  }

  ghost predicate GoodClasses(classes: seq<RunnerClass>) {
    && (forall c :: c in classes ==> GoodClass(c))
    && Distinct(Ids(classes, ClassId))
    && OneReference(classes)
  }

  /** The rules for one class, whose id is new. */
  method CheckClass(c: RunnerClass) returns (ok: bool)
    requires c.id != ""
    ensures ok <==> GoodClass(c)
  {
    hide Documented;
    match c.role {
      case Reference =>
        var documented := RequireEnvironment(c);
        if !documented {
          return false;
        }
      case Comparison =>
        if c.notes == "" {
          return false;
        }
      case Other(_) =>
        return false;
    }
    return c.source != "";
  }

  /** Accepts exactly the class lists with distinct ids, one documented reference and annotated comparisons. */
  method ValidateRunnerClasses(classes: seq<RunnerClass>) returns (ok: bool)
    ensures ok <==> GoodClasses(classes)
  {
    if classes == [] {
      return false;
    }
    hide Documented;
    var seen: set<string> := {};
    var references := 0;
    ghost var ids := Ids(classes, ClassId);
    assert forall i :: 0 <= i < |ids| ==> ids[i] == classes[i].id;
    hide Ids, ClassId, References;
    NoReferences();
    for i := 0 to |classes|
      invariant forall id :: id in seen <==> id in ids[..i]
      invariant Distinct(ids[..i])
      invariant forall j :: 0 <= j < i ==> GoodClass(classes[j])
      invariant references == References(classes[..i])
    {
      var c := classes[i];
      assert c in classes && ids[..i + 1] == ids[..i] + [c.id];
      if c.id == "" {
        return false;
      }
      if c.id in seen {
        ghost var j :| 0 <= j < i && ids[..i][j] == c.id;
        assert ids[j] == ids[i];
        return false;
      }
      var good := CheckClass(c);
      hide GoodClass;
      if !good {
        return false;
      }
      seen := seen + {c.id};
      if c.role == Reference {
        references := references + 1;
      }
      OneMoreClass(classes, i);
    }
    assert ids[..|classes|] == ids && classes[..|classes|] == classes;
    OneReferenceByCount(classes);
    return references == 1;
  }

  /** How many of the classes are references. */
  function References(classes: seq<RunnerClass>): nat {
    if classes == [] then 0
    else References(classes[..|classes| - 1]) + (if classes[|classes| - 1].role == Reference then 1 else 0)
  }

  lemma NoReferences()
    ensures References([]) == 0
  {
  }

  lemma OneMoreClass(classes: seq<RunnerClass>, i: nat)
    requires i < |classes|
    ensures References(classes[..i + 1]) == References(classes[..i]) + (if classes[i].role == Reference then 1 else 0)
  {
    assert classes[..i + 1][..i] == classes[..i];
  }

  lemma {:induction false} ReferencesCounted(classes: seq<RunnerClass>)
    ensures References(classes) == 0 <==> forall i :: 0 <= i < |classes| ==> classes[i].role != Reference
    ensures References(classes) == 1 <==> OneReference(classes)
  {
    if classes != [] {
      var n := |classes| - 1;
      var init := classes[..n];
      ReferencesCounted(init);
      assert forall i :: 0 <= i < n ==> init[i] == classes[i];
      hide References;
      if classes[n].role == Reference {
        assert (forall i :: 0 <= i < n ==> classes[i].role != Reference) <==> IsTheReference(classes, n);
        assert forall i :: IsTheReference(classes, i) ==> (classes[n].role == Reference <==> n == i);
      } else {
        assert forall i :: IsTheReference(classes, i) <==> IsTheReference(init, i);
      }
    }
  }

  lemma OneReferenceByCount(classes: seq<RunnerClass>)
    ensures References(classes) == 1 <==> OneReference(classes)
  {
    hide References, OneReference;
    ReferencesCounted(classes);
  }

  /** The first class whose role is reference. */
  method ReferenceClass(classes: seq<RunnerClass>) returns (c: Option<RunnerClass>)
    ensures c == None <==> forall x :: x in classes ==> x.role != Reference
    ensures c.Some? ==> exists i :: 0 <= i < |classes| && c.value == classes[i] && FirstReference(classes, i)
  {
    for i := 0 to |classes|
      invariant forall j :: 0 <= j < i ==> classes[j].role != Reference
    {
      if classes[i].role == Reference {
        assert FirstReference(classes, i) && classes[i] in classes;
        return Some(classes[i]);
      }
    }
    return None;
  }

  ghost predicate FirstReference(classes: seq<RunnerClass>, i: int) {
    0 <= i < |classes| && classes[i].role == Reference && forall j :: 0 <= j < i ==> classes[j].role != Reference
  }

  /** In an accepted list, the class that lookup finds is the only reference there is, and it is documented. */
  lemma LookupFindsTheReference(classes: seq<RunnerClass>, i: int)
    requires GoodClasses(classes) && FirstReference(classes, i)
    ensures IsTheReference(classes, i) && Documented(classes[i])
    ensures forall j :: 0 <= j < |classes| && j != i ==> classes[j].role == Comparison && classes[j].notes != ""
  {
    assert classes[i].role == Reference && classes[i] in classes && GoodClass(classes[i]);
    var k :| 0 <= k < |classes| && IsTheReference(classes, k);
    assert classes[i].role == Reference <==> i == k;
    hide Documented;
    forall j | 0 <= j < |classes| && j != i
      ensures classes[j].role == Comparison && classes[j].notes != ""
    {
      assert classes[j] in classes;
    }
  }

  // ---- gates ----------------------------------------------------------------------------

  predicate GoodGate(g: GateMapping, repos: set<string>) {
    && g.id != "" && g.id in PRD_GATES && g.prdMetric != "" && g.comparison == "lte" && g.unit != ""
    && g.threshold >= 0.0 && (g.threshold == 0.0 ==> g.id == OOM_GATE)
    && g.repo in repos && g.measuredBy != ""
  }

  ghost predicate GoodGates(gates: seq<GateMapping>, repos: set<string>) {
    && (forall g :: g in gates ==> GoodGate(g, repos))
    && Distinct(Ids(gates, GateId))
    && (forall id :: id in PRD_GATES ==> id in Ids(gates, GateId))
  }

  /** Accepts exactly the gate lists that map the PRD's rows one to one. */
  method ValidateGates(gates: seq<GateMapping>, repos: set<string>) returns (ok: bool)
    ensures ok <==> GoodGates(gates, repos)
  {
    hide PRD_GATES, OOM_GATE;
    var seen: set<string> := {};
    var ids := Ids(gates, GateId);
    for i := 0 to |gates|
      invariant forall id :: id in seen <==> id in ids[..i]
      invariant Distinct(ids[..i])
      invariant forall j :: 0 <= j < i ==> GoodGate(gates[j], repos)
    {
      var g := gates[i];
      assert g in gates && ids[..i + 1] == ids[..i] + [g.id];
      if g.id == "" {
        return false;
      }
      if g.id in seen {
        var j :| 0 <= j < i && ids[..i][j] == g.id;
        assert ids[j] == ids[i];
        return false;
      }
      seen := seen + {g.id};
      if g.id !in PRD_GATES || g.prdMetric == "" || g.comparison != "lte" || g.unit == "" {
        return false;
      }
      if g.threshold < 0.0 || (g.threshold == 0.0 && g.id != OOM_GATE) {
        return false;
      }
      if g.repo !in repos || g.measuredBy == "" {
        return false;
      }
    }
    assert ids[..|gates|] == ids;
    for i := 0 to |PRD_GATES|
      invariant forall j :: 0 <= j < i ==> PRD_GATES[j] in ids
    {
      if PRD_GATES[i] !in seen {
        assert PRD_GATES[i] in PRD_GATES;
        return false;
      }
    }
    return true;
  }

  lemma PrdGatesAreDistinct()
    ensures Distinct(PRD_GATES) && |PRD_GATES| == 10
  {
    var g := PRD_GATES;
    assert |g[2]| == 8 && |g[3]| == 12 && |g[4]| == 7 && |g[5]| == 18;
    assert |g[6]| == 15 && |g[7]| == 24 && |g[8]| == 17 && |g[9]| == 13;
    assert |g[0]| == |g[1]| == 14 && g[0][12] == '5' && g[1][12] == '9';
  }

  /** Distinct lists with the same members are as long as each other. */
  lemma {:induction false} SameLength(a: seq<string>, b: seq<string>)
    requires Distinct(a) && Distinct(b) && forall x :: x in a <==> x in b
    ensures |a| == |b| && multiset(a) == multiset(b)
  {
    DistinctByCount(a);
    DistinctByCount(b);
    forall x ensures multiset(a)[x] == multiset(b)[x] {
      assert x in a <==> x in multiset(a);
      assert x in b <==> x in multiset(b);
    }
    assert multiset(a) == multiset(b);
    assert |multiset(a)| == |multiset(b)|;
  }

  /** One to one: an accepted gate list is a permutation of the PRD's ten rows, no row dropped, none invented. */
  lemma GatesAreAPermutationOfThePrd(gates: seq<GateMapping>, repos: set<string>)
    requires GoodGates(gates, repos)
    ensures multiset(Ids(gates, GateId)) == multiset(PRD_GATES) && |gates| == 10
    ensures forall id :: id in PRD_GATES ==> exists i :: 0 <= i < |gates| && IsTheGate(gates, i, id)
  {
    hide PRD_GATES, GoodGate;
    PrdGatesAreDistinct();
    var ids := Ids(gates, GateId);
    forall x | x in ids ensures x in PRD_GATES {
      var i :| 0 <= i < |ids| && ids[i] == x;
      assert gates[i] in gates;
      assert GoodGate(gates[i], repos);
      GoodGateIsListed(gates[i], repos);
    }
    SameLength(ids, PRD_GATES);
    forall id | id in PRD_GATES
      ensures exists i :: 0 <= i < |gates| && IsTheGate(gates, i, id)
    {
      var i :| 0 <= i < |ids| && ids[i] == id;
      assert IsTheGate(gates, i, id);
    }
  }

  lemma GoodGateIsListed(g: GateMapping, repos: set<string>)
    requires GoodGate(g, repos)
    ensures g.id in PRD_GATES
  {
  }

  /** Entry i, and no other, carries the id. */
  ghost predicate IsTheGate(gates: seq<GateMapping>, i: int, id: string) {
    0 <= i < |gates| && gates[i].id == id && forall j :: 0 <= j < |gates| && j != i ==> gates[j].id != id
  }

  // ---- the rest of the contract ---------------------------------------------------------

  predicate GoodOomCheck(o: OomCheck, repos: set<string>) {
    && o.gateId == OOM_GATE && o.repo in repos && o.host != "" && o.limitBytes > 0
    && o.impose != "" && o.verify != "" && o.failureSignal != ""
  }

  /** The gate's threshold in GB: only "MB" is converted, any other unit is read as GB. */
  function InGB(g: GateMapping): real {
    if g.unit == "MB" then g.threshold / 1024.0 else g.threshold
  }

  predicate GoodObservation(o: Observation) {
    o.repo != "" && o.source != "" && o.status != "" && o.peakRSSGB > 0.0
  }

  predicate GoodStopRule(s: StopRule, gates: seq<GateMapping>) {
    && s.id != "" && s.thresholdGB > 0.0 && s.appliesTo != ""
    && (forall g :: g in gates && g.id == PEAK_RSS_GATE ==> InGB(g) < s.thresholdGB)
    && (forall o :: o in s.observations ==> GoodObservation(o))
  }

  method ValidateStopRule(s: StopRule, gates: seq<GateMapping>) returns (ok: bool)
    ensures ok <==> GoodStopRule(s, gates)
  {
    if s.id == "" || s.thresholdGB <= 0.0 || s.appliesTo == "" {
      return false;
    }
    hide PEAK_RSS_GATE;
    for i := 0 to |gates|
      invariant forall j :: 0 <= j < i && gates[j].id == PEAK_RSS_GATE ==> InGB(gates[j]) < s.thresholdGB
    {
      if gates[i].id != PEAK_RSS_GATE {
        continue;
      }
      var gateGB := gates[i].threshold;
      if gates[i].unit == "MB" {
        gateGB := gates[i].threshold / 1024.0;
      }
      if s.thresholdGB <= gateGB {
        assert gates[i] in gates;
        return false;
      }
    }
    for i := 0 to |s.observations|
      invariant forall j :: 0 <= j < i ==> GoodObservation(s.observations[j])
    {
      var o := s.observations[i];
      assert o in s.observations;
      if o.repo == "" || o.source == "" || o.status == "" {
        return false;
      }
      if o.peakRSSGB <= 0.0 {
        return false;
      }
    }
    return true;
  }

  predicate GoodBudgets(b: BudgetsRef) {
    b.path != "" && !(b.historical && b.ratcheting) && (b.historical ==> b.reason != "")
  }

  ghost predicate Accepted(rs: Contract, repos: set<string>) {
    && rs.schemaVersion == 1 && rs.scopeLimitation != "" && GoodClasses(rs.classes)
    && rs.repo != "" && rs.repo in repos && rs.rationale != ""
    && GoodGates(rs.gates, repos) && GoodOomCheck(rs.oom, repos)
    && GoodStopRule(rs.stopRule, rs.gates) && GoodBudgets(rs.budgets)
  }

  method ValidateReferenceScenario(rs: Contract, repos: set<string>) returns (ok: bool)
    ensures ok <==> Accepted(rs, repos)
  {
    hide GoodClasses, GoodGates, GoodStopRule, GoodOomCheck;
    if rs.schemaVersion != 1 || rs.scopeLimitation == "" {
      return false;
    }
    var classes := ValidateRunnerClasses(rs.classes);
    if !classes {
      return false;
    }
    if rs.repo == "" || rs.repo !in repos || rs.rationale == "" {
      return false;
    }
    var gates := ValidateGates(rs.gates, repos);
    if !gates {
      return false;
    }
    if !GoodOomCheck(rs.oom, repos) {
      return false;
    }
    var stop := ValidateStopRule(rs.stopRule, rs.gates);
    if !stop {
      return false;
    }
    return GoodBudgets(rs.budgets);
  }

  /** An accepted contract has exactly one peak-RSS gate, and its stop rule is strictly wider than it. */
  lemma StopRuleIsWider(rs: Contract, repos: set<string>)
    requires Accepted(rs, repos)
    ensures exists i ::
      0 <= i < |rs.gates| && IsTheGate(rs.gates, i, PEAK_RSS_GATE) && 0.0 < InGB(rs.gates[i]) < rs.stopRule.thresholdGB
  {
    GateIdsDiffer();
    hide GoodClasses, GoodOomCheck, GoodBudgets, Distinct, PRD_GATES, PEAK_RSS_GATE, OOM_GATE;
    GatesAreAPermutationOfThePrd(rs.gates, repos);
    var i :| 0 <= i < |rs.gates| && IsTheGate(rs.gates, i, PEAK_RSS_GATE);
    assert rs.gates[i] in rs.gates;
    assert GoodGate(rs.gates[i], repos);
  }

  /** Nothing in an accepted contract passes by default: every gate is an upper limit that something can exceed, with
      its
      unit, source metric, repository and story, and only the count of kills may be zero. */
  lemma AcceptedGatesAreLimits(rs: Contract, repos: set<string>, g: GateMapping)
    requires Accepted(rs, repos) && g in rs.gates
    ensures g.threshold > 0.0 || (g.threshold == 0.0 && g.id == "oom_8gb_host")
    ensures g.comparison == "lte" && g.unit != "" && g.prdMetric != "" && g.measuredBy != "" && g.repo in repos
  {
    hide GoodClasses, GoodOomCheck, GoodBudgets, Distinct, PRD_GATES;
    assert GoodGate(g, repos);
  }

  /** What else an accepted contract states, item by item. */
  lemma AcceptedContractIsComplete(rs: Contract, repos: set<string>)
    requires Accepted(rs, repos)
    ensures rs.schemaVersion == 1 && rs.scopeLimitation != "" && rs.rationale != "" && rs.repo in repos
    ensures rs.oom.gateId == "oom_8gb_host" && rs.oom.repo in repos && rs.oom.limitBytes > 0 && rs.oom.host != ""
    ensures rs.oom.impose != "" && rs.oom.verify != "" && rs.oom.failureSignal != ""
    ensures forall o :: o in rs.stopRule.observations ==>
      o.peakRSSGB > 0.0 && o.repo != "" && o.source != "" && o.status != ""
    ensures rs.stopRule.id != "" && rs.stopRule.appliesTo != "" && rs.budgets.path != ""
    ensures !(rs.budgets.historical && rs.budgets.ratcheting) && (rs.budgets.historical ==> rs.budgets.reason != "")
    ensures forall c :: c in rs.classes ==> c.id != "" && c.source != "" && !c.role.Other?
    ensures forall c :: c in rs.classes && c.role == Comparison ==> c.notes != ""
    ensures forall c :: c in rs.classes && c.role == Reference ==>
      && c.cpu != "" && c.cpuCores > 0 && c.ramGB > 0.0 && c.os != "" && c.kernel != "" && c.goVersion != ""
      && c.filesystem != "" && c.cacheState != ""
  {
    hide GoodGates, Distinct, PRD_GATES, OneReference;
    assert forall c :: c in rs.classes ==> GoodClass(c);
    assert forall o :: o in rs.stopRule.observations ==> GoodObservation(o);
  }

  lemma GateIdsDiffer()
    ensures PEAK_RSS_GATE in PRD_GATES && PEAK_RSS_GATE != OOM_GATE
  {
    assert PRD_GATES[2] == PEAK_RSS_GATE;
    assert |PEAK_RSS_GATE| != |OOM_GATE|;
  }
}
