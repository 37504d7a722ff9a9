/** The incremental driver: one change at a time, two clocks, a bounded convergence wait. */
module IncrementalDriver {
  import opened ChangeSequence
  import opened Checkout

  datatype Stage = NoStage | ApplyStage | UpdateStage | ConvergeStage

  datatype ChangeSample = ChangeSample(
    step: nat, class_: ChangeClass, path: string, symbol: string,
    completed: bool, failedStage: Stage,
    updateUS: nat, updateMeasured: bool, freshnessUS: nat, freshnessMeasured: bool, probes: nat)

  /** Elapsed whole microseconds between two nanosecond readings, clamped at zero. */
  function MicrosBetween(start: int, end: int): (us: nat)
    ensures start <= end ==> 1000 * us <= end - start < 1000 * us + 1000
    ensures end <= start ==> us == 0
  {
    if end < start then 0 else (end - start) / 1000
  }

  // ---- the measurement as a function ----------------------------------------------------

  /** What does not change during a run; at(k) is the k-th clock reading. */
  datatype Rig = Rig(extract: Extractor, env: Environment, at: nat -> int, maxProbes: nat)

  /** Everything a run changes. */
  datatype World = World(
    tree: Tree, index: Index, applies: nat, ingests: nat, searches: nat, ticks: nat, sleeps: nat)

  /** The answer to the probe that follows j earlier ones. */
  ghost function ProbeAt(rig: Rig, w: World, s: ChangeStep, j: nat): Probe {
    match rig.env.search(w.searches + j)
    case Broken => Errored
    case Lagging => NotYet
    case Healthy => if Converged(w.index, s) then Answered else NotYet
  }

  /** How many probes are issued in all, when the first j only said "not yet". */
  ghost function Issued(rig: Rig, w: World, s: ChangeStep, j: nat): (k: nat)
    requires j <= rig.maxProbes
    ensures j <= k <= rig.maxProbes
    decreases rig.maxProbes - j
  {
    if j == rig.maxProbes then j
    else if ProbeAt(rig, w, s, j) != NotYet then j + 1
    else Issued(rig, w, s, j + 1)
  }

  /** The world after some probes and sleeps. */
  function Waited(w: World, probes: nat, sleeps: nat): World {
    w.(searches := w.searches + probes, sleeps := w.sleeps + sleeps)
  }

  lemma ProbeLater(rig: Rig, w: World, s: ChangeStep, probes: nat, sleeps: nat)
    ensures ProbeAt(rig, Waited(w, probes, sleeps), s, 0) == ProbeAt(rig, w, s, probes)
  {
    hide Converged;
  }

  lemma IssuedNext(rig: Rig, w: World, s: ChangeStep, j: nat)
    requires j <= rig.maxProbes
    ensures j == rig.maxProbes ==> Issued(rig, w, s, j) == j
    ensures j < rig.maxProbes && ProbeAt(rig, w, s, j) == NotYet ==> Issued(rig, w, s, j) == Issued(rig, w, s, j + 1)
    ensures j < rig.maxProbes && ProbeAt(rig, w, s, j) != NotYet ==> Issued(rig, w, s, j) == j + 1
  {
    hide ProbeAt;
  }

  function Blank(s: ChangeStep): ChangeSample {
    ChangeSample(s.index, s.class_, s.path, s.symbol, true, NoStage, 0, false, 0, false, 0)
  }

  function Failed(sample: ChangeSample, stage: Stage): ChangeSample {
    sample.(completed := false, failedStage := stage)
  }

  /** Waiting for the new state, from the instant the update returned. */
  ghost function Converge(rig: Rig, w: World, s: ChangeStep, changedAt: int, sample: ChangeSample)
    : (World, ChangeSample)
  {
    var k := Issued(rig, w, s, 0);
    var slept := if k == 0 then 0 else k - 1;
    var after := w.(searches := w.searches + k, sleeps := w.sleeps + slept);
    if k > 0 && ProbeAt(rig, w, s, k - 1) == Answered then
      (after.(ticks := w.ticks + 1),
       sample.(probes := k, freshnessUS := MicrosBetween(changedAt, rig.at(w.ticks)), freshnessMeasured := true))
    else (after, Failed(sample.(probes := k), ConvergeStage))
  }

  /** The wait's end after k probes. */
  lemma ConvergeEnds(rig: Rig, w: World, s: ChangeStep, changedAt: int, sample: ChangeSample, k: nat)
    ensures Issued(rig, w, s, 0) == k ==>
      var after := Waited(w, k, if k == 0 then 0 else k - 1);
      Converge(rig, w, s, changedAt, sample) ==
        if k > 0 && ProbeAt(rig, w, s, k - 1) == Answered then
          (after.(ticks := w.ticks + 1),
           sample.(probes := k, freshnessUS := MicrosBetween(changedAt, rig.at(w.ticks)), freshnessMeasured := true))
        else (after, Failed(sample.(probes := k), ConvergeStage))
  {
    hide Issued, ProbeAt, MicrosBetween;
  }

  /** One change: mutate, start the freshness clock, time the update, probe. */
  ghost function RunStep(rig: Rig, w: World, s: ChangeStep): (World, ChangeSample) {
    var fault := rig.env.apply(w.applies);
    var w1 := w.(tree := Left(w.tree, s, fault), applies := w.applies + 1);
    if !Applies(w.tree, s, fault) then (w1, Failed(Blank(s), ApplyStage))
    else
      var changedAt := rig.at(w.ticks);
      var ingest := rig.env.ingest(w.ingests);
      var w2 := w1.(index := IngestLeaves(rig.extract, w.index, w1.tree, s.path, ingest),
                    ticks := w.ticks + 1, ingests := w.ingests + 1);
      if ingest != Ingested then (w2, Failed(Blank(s), UpdateStage))
      else
        var w3 := w2.(ticks := w.ticks + 2);
        var update := MicrosBetween(changedAt, rig.at(w.ticks + 1));
        Converge(rig, w3, s, changedAt, Blank(s).(updateUS := update, updateMeasured := true))
  }

  /** The whole sequence; a failed change never cuts it short. */
  ghost function RunAll(rig: Rig, w: World, steps: seq<ChangeStep>): (r: (World, seq<ChangeSample>))
    ensures |r.1| == |steps|
  {
    if steps == [] then (w, [])
    else
      var (before, samples) := RunAll(rig, w, steps[..|steps| - 1]);
      var (after, sample) := RunStep(rig, before, steps[|steps| - 1]);
      (after, samples + [sample])
  }

  // ---- the driver -------------------------------------------------------------------------

  class Driver {
    const target: RepoTarget
    const at: nat -> int
    const maxProbes: nat
    var ticks: nat
    var sleeps: nat

    constructor (target: RepoTarget, at: nat -> int, maxProbes: nat)
      ensures this.target == target && this.at == at && this.maxProbes == maxProbes
      ensures ticks == sleeps == 0
    {
      this.target, this.at, this.maxProbes := target, at, maxProbes;
      ticks, sleeps := 0, 0;
    }

    ghost function TheRig(): Rig { Rig(target.extract, target.env, at, maxProbes) }

    ghost function TheWorld(): World
      reads this, target
    {
      World(target.tree, target.index, target.applies, target.ingests, target.searches, ticks, sleeps)
    }

    method Now() returns (t: int)
      modifies this`ticks
      ensures t == at(old(ticks)) && ticks == old(ticks) + 1
    {
      t := at(ticks);
      ticks := ticks + 1;
    }

    method Sleep()
      modifies this`sleeps
      ensures sleeps == old(sleeps) + 1
    {
      sleeps := sleeps + 1;
    }

    /** The clock is read when the change is on disk, when the ingest returned, and when the answer came: the update
        latency lies between the first two readings, the freshness between the first and the last. */
    method RunOne(s: ChangeStep) returns (sample: ChangeSample)
      modifies this, target
      ensures (TheWorld(), sample) == RunStep(TheRig(), old(TheWorld()), s)
      ensures sample.updateMeasured ==>
        sample.updateUS == MicrosBetween(at(old(ticks)), at(old(ticks) + 1))
      ensures sample.completed ==>
        sample.freshnessUS == MicrosBetween(at(old(ticks)), at(old(ticks) + 2)) && ticks == old(ticks) + 3
    {
      StepIsTimed(TheRig(), TheWorld(), s);
      hide Applies, Left, IngestLeaves, Converged, MicrosBetween;
      sample := Blank(s);
      var ok := target.Apply(s);
      if !ok {
        return Failed(sample, ApplyStage);
      }
      var changedAt := Now();
      ok := target.Update(s);
      if !ok {
        return Failed(sample, UpdateStage);
      }
      var updatedAt := Now();
      sample := sample.(updateUS := MicrosBetween(changedAt, updatedAt), updateMeasured := true);
      sample := Wait(s, changedAt, sample);
    }

    /** One probe of the target. */
    method Probe(s: ChangeStep) returns (answer: Probe)
      modifies target
      ensures answer == ProbeAt(TheRig(), old(TheWorld()), s, 0)
      ensures TheWorld() == Waited(old(TheWorld()), 1, 0)
    {
      hide Converged;
      answer := target.Answers(s);
    }

    /** The probe loop; it only sleeps between two probes. */
    method Wait(s: ChangeStep, changedAt: int, measured: ChangeSample) returns (sample: ChangeSample)
      requires measured.probes == 0
      modifies this, target
      ensures (TheWorld(), sample) == Converge(TheRig(), old(TheWorld()), s, changedAt, measured)
    {
      hide Converged, Issued, MicrosBetween, ProbeAt, Converge;
      sample := measured;
      ghost var rig, w := TheRig(), TheWorld();
      var probe := 1;
      while probe <= maxProbes
        invariant 1 <= probe <= maxProbes + 1
        invariant sample == measured.(probes := probe - 1)
        invariant Issued(rig, w, s, 0) == Issued(rig, w, s, probe - 1)
        invariant TheWorld() == Waited(w, probe - 1, if probe <= maxProbes || probe == 1 then probe - 1 else probe - 2)
        invariant probe > 1 ==> ProbeAt(rig, w, s, probe - 2) == NotYet
      {
        IssuedNext(rig, w, s, probe - 1);
        ProbeLater(rig, w, s, probe - 1, probe - 1);
        sample := sample.(probes := probe);
        var answer := Probe(s);
        ConvergeEnds(rig, w, s, changedAt, measured, probe);
        if answer == Errored {
          return Failed(sample, ConvergeStage);
        }
        if answer == Answered {
          var now := Now();
          return sample.(freshnessUS := MicrosBetween(changedAt, now), freshnessMeasured := true);
        }
        if probe < maxProbes {
          Sleep();
        }
        probe := probe + 1;
      }
      IssuedNext(rig, w, s, probe - 1);
      ConvergeEnds(rig, w, s, changedAt, measured, probe - 1);
      return Failed(sample, ConvergeStage);
    }

    method Run(steps: seq<ChangeStep>) returns (samples: seq<ChangeSample>)
      modifies this, target
      ensures (TheWorld(), samples) == RunAll(TheRig(), old(TheWorld()), steps)
    {
      hide RunStep;
      samples := [];
      for i := 0 to |steps|
        invariant (TheWorld(), samples) == RunAll(TheRig(), old(TheWorld()), steps[..i])
      {
        var sample := RunOne(steps[i]);
        samples := samples + [sample];
        assert steps[..i + 1][..i] == steps[..i];
      }
      assert steps[..|steps|] == steps;
    }
  }

  // ---- what every sample says ---------------------------------------------------------------

  ghost predicate Monotone(at: nat -> int) {
    forall i: nat, j: nat :: i <= j ==> at(i) <= at(j)
  }

  /** The failed stage decides which latencies exist; waiting is bounded; freshness contains the update. */
  ghost predicate Lawful(rig: Rig, s: ChangeStep, sample: ChangeSample) {
    && sample.step == s.index && sample.class_ == s.class_ && sample.path == s.path && sample.symbol == s.symbol
    && (sample.completed <==> sample.failedStage == NoStage)
    && (sample.updateMeasured <==> sample.failedStage == NoStage || sample.failedStage == ConvergeStage)
    && (sample.freshnessMeasured <==> sample.completed)
    && (!sample.updateMeasured ==> sample.updateUS == 0 && sample.probes == 0)
    && (!sample.freshnessMeasured ==> sample.freshnessUS == 0)
    && sample.probes <= rig.maxProbes
    && (sample.completed ==> sample.probes >= 1)
    && (Monotone(rig.at) && sample.completed ==> sample.freshnessUS >= sample.updateUS)
  }

  lemma StepIsLawful(rig: Rig, w: World, s: ChangeStep)
    ensures var (after, sample) := RunStep(rig, w, s);
            && Lawful(rig, s, sample)
            && after.searches == w.searches + sample.probes
            && after.sleeps == w.sleeps + (if sample.probes == 0 then 0 else sample.probes - 1)
  {
    hide Applies, Left, IngestLeaves, Converged;
  }

  /** The latencies of a sample whose step began with clock reading t. */
  ghost predicate TimedFrom(rig: Rig, t: nat, sample: ChangeSample) {
    && (sample.updateMeasured ==> sample.updateUS == MicrosBetween(rig.at(t), rig.at(t + 1)))
    && (sample.freshnessMeasured ==> sample.freshnessUS == MicrosBetween(rig.at(t), rig.at(t + 2)))
  }

  /** How many times the clock is read in a step that ends this way. */
  function Readings(sample: ChangeSample): nat {
    if sample.completed then 3 else if sample.failedStage == ConvergeStage then 2
    else if sample.failedStage == UpdateStage then 1 else 0
  }

  /** Each latency lies between two readings of the step's own, and the step blames the stage that failed. */
  lemma StepIsTimed(rig: Rig, w: World, s: ChangeStep)
    ensures var (after, sample) := RunStep(rig, w, s);
            && TimedFrom(rig, w.ticks, sample) && after.ticks == w.ticks + Readings(sample)
            && (sample.freshnessMeasured <==> sample.completed)
            && (sample.failedStage == ApplyStage <==> !Applies(w.tree, s, rig.env.apply(w.applies)))
            && (sample.failedStage == UpdateStage <==>
                  Applies(w.tree, s, rig.env.apply(w.applies)) && rig.env.ingest(w.ingests) != Ingested)
  {
    hide Applies, Left, IngestLeaves, Converged, MicrosBetween, Issued, ProbeAt;
  }

  /** A step completes on what its index says: a delete only when no indexed name is the symbol any more, any other step
      only when some name is. */
  lemma CompletedIsAnswered(rig: Rig, w: World, s: ChangeStep)
    ensures var (after, sample) := RunStep(rig, w, s);
            sample.completed ==> (s.class_ == Delete <==> !Declared(after.index, s.symbol))
  {
    var fault, ingest := rig.env.apply(w.applies), rig.env.ingest(w.ingests);
    var tree := Left(w.tree, s, fault);
    var index := IngestLeaves(rig.extract, w.index, tree, s.path, ingest);
    var w3 := w.(tree := tree, applies := w.applies + 1, index := index, ticks := w.ticks + 2,
                 ingests := w.ingests + 1);
    var update := MicrosBetween(rig.at(w.ticks), rig.at(w.ticks + 1));
    WaitedAnswers(rig, w3, s, rig.at(w.ticks), Blank(s).(updateUS := update, updateMeasured := true));
    ConvergedByName(index, s);
    hide Applies, Left, IngestLeaves, Converged, Declared, MicrosBetween, Converge;
  }

  lemma WaitedAnswers(rig: Rig, w: World, s: ChangeStep, changedAt: int, sample: ChangeSample)
    ensures var (after, done) := Converge(rig, w, s, changedAt, sample);
            after.index == w.index && (done.completed ==> Converged(w.index, s))
  {
    hide Converged, MicrosBetween, Issued;
  }

  /** Step i is timed by the readings that follow those of the steps before it. */
  ghost predicate TimedAt(rig: Rig, first: nat, samples: seq<ChangeSample>, i: nat)
    requires i < |samples|
  {
    TimedFrom(rig, first + ReadingsOf(samples[..i]), samples[i])
  }

  lemma LastStep(rig: Rig, w: World, steps: seq<ChangeStep>)
    requires steps != []
    ensures var before := RunAll(rig, w, steps[..|steps| - 1]);
            var next := RunStep(rig, before.0, steps[|steps| - 1]);
            RunAll(rig, w, steps) == (next.0, before.1 + [next.1])
  {
    hide RunStep;
  }

  lemma ReadingsAppend(samples: seq<ChangeSample>, sample: ChangeSample)
    ensures ReadingsOf(samples + [sample]) == ReadingsOf(samples) + Readings(sample)
  {
    hide Readings;
    assert (samples + [sample])[..|samples|] == samples;
  }

  lemma TimedAtEnd(rig: Rig, first: nat, samples: seq<ChangeSample>, sample: ChangeSample, i: nat)
    requires i <= |samples|
    ensures TimedAt(rig, first, samples + [sample], i) <==>
      if i < |samples| then TimedAt(rig, first, samples, i) else TimedFrom(rig, first + ReadingsOf(samples), sample)
  {
    hide *;
    var more := samples + [sample];
    assert more[..i] == samples[..i];
    assert i == |samples| ==> samples[..i] == samples && more[i] == sample;
    assert i < |samples| ==> more[i] == samples[i];
    SameTiming(rig, first, more, i);
    if i < |samples| {
      SameTiming(rig, first, samples, i);
    }
  }

  lemma SameTiming(rig: Rig, first: nat, samples: seq<ChangeSample>, i: nat)
    requires i < |samples|
    ensures TimedAt(rig, first, samples, i) == TimedFrom(rig, first + ReadingsOf(samples[..i]), samples[i])
  {
    hide TimedFrom, ReadingsOf;
  }

  /** Sample by sample, along any run. */
  lemma {:induction false} RunIsTimed(rig: Rig, w: World, steps: seq<ChangeStep>)
    ensures var (after, samples) := RunAll(rig, w, steps);
            && (forall i :: 0 <= i < |steps| ==> TimedAt(rig, w.ticks, samples, i))
            && after.ticks == w.ticks + ReadingsOf(samples)
  {
    hide RunStep, TimedAt, TimedFrom, Readings;
    if steps != [] {
      var init, s := steps[..|steps| - 1], steps[|steps| - 1];
      RunIsTimed(rig, w, init);
      LastStep(rig, w, steps);
      hide RunAll, ReadingsOf;
      var before := RunAll(rig, w, init);
      StepIsTimed(rig, before.0, s);
      var sample := RunStep(rig, before.0, s).1;
      ReadingsAppend(before.1, sample);
      forall i | 0 <= i < |steps|
        ensures TimedAt(rig, w.ticks, before.1 + [sample], i)
      {
        TimedAtEnd(rig, w.ticks, before.1, sample, i);
      }
    }
  }

  function ReadingsOf(samples: seq<ChangeSample>): nat {
    if samples == [] then 0 else ReadingsOf(samples[..|samples| - 1]) + Readings(samples[|samples| - 1])
  }

  /** The convergence wait stops at the first decisive probe, and only there or when the budget is spent. */
  lemma WaitStopsAtTheFirstAnswer(rig: Rig, w: World, s: ChangeStep, j: nat)
    requires j <= rig.maxProbes
    ensures var k := Issued(rig, w, s, j);
            && (forall i :: j <= i < k - 1 ==> ProbeAt(rig, w, s, i) == NotYet)
            && (k < rig.maxProbes ==> k > j && ProbeAt(rig, w, s, k - 1) != NotYet)
    decreases rig.maxProbes - j
  {
    hide ProbeAt;
    if j < rig.maxProbes && ProbeAt(rig, w, s, j) == NotYet {
      WaitStopsAtTheFirstAnswer(rig, w, s, j + 1);
    }
  }

  /** One lawful sample per step, in order, whatever the environment does. */
  lemma {:induction false} RunIsLawful(rig: Rig, w: World, steps: seq<ChangeStep>)
    ensures var samples := RunAll(rig, w, steps).1;
            |samples| == |steps| && forall i :: 0 <= i < |steps| ==> Lawful(rig, steps[i], samples[i])
  {
    hide RunStep, Lawful;
    if steps != [] {
      RunIsLawful(rig, w, steps[..|steps| - 1]);
      StepIsLawful(rig, RunAll(rig, w, steps[..|steps| - 1]).0, steps[|steps| - 1]);
    }
  }
}
