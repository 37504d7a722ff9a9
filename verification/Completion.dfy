/** Exactly which steps of a planned run complete, whatever the outside world does. */
module Completion {
  import opened SourceFamily
  import opened ChangeSequence
  import opened ChangePlanner
  import opened Checkout
  import opened IncrementalDriver
  import opened Convergence
  import opened AnyWeather
  import Decimal
  import Paths

  // ---- the probes -------------------------------------------------------------------------

  /** Within the budget a healthy search comes, and only lagging ones before it. */
  ghost predicate HealthyInTime(env: Environment, from: nat, budget: nat) {
    exists k: nat :: from <= k < from + budget && env.search(k) == Healthy && LaggingBetween(env, from, k)
  }

  ghost predicate LaggingBetween(env: Environment, from: nat, to: nat) {
    forall k: nat :: from <= k < to ==> env.search(k) == Lagging
  }

  lemma ConvergedProbe(rig: Rig, w: World, s: ChangeStep, j: nat)
    requires Converged(w.index, s)
    ensures ProbeAt(rig, w, s, j) == Answered <==> rig.env.search(w.searches + j) == Healthy
    ensures ProbeAt(rig, w, s, j) == NotYet <==> rig.env.search(w.searches + j) == Lagging
  {
    hide Converged;
  }

  /** Once the new state is in the index, waiting for it succeeds exactly when the searches let it. */
  lemma WaitingSucceedsIff(rig: Rig, w: World, s: ChangeStep, changedAt: int, sample: ChangeSample)
    requires Converged(w.index, s) && sample.completed
    ensures Converge(rig, w, s, changedAt, sample).1.completed <==> HealthyInTime(rig.env, w.searches, rig.maxProbes)
  {
    hide Converged, Issued, ProbeAt, MicrosBetween;
    var k := Issued(rig, w, s, 0);
    WaitStopsAtTheFirstAnswer(rig, w, s, 0);
    forall i: nat
      ensures ProbeAt(rig, w, s, i) == Answered <==> rig.env.search(w.searches + i) == Healthy
      ensures ProbeAt(rig, w, s, i) == NotYet <==> rig.env.search(w.searches + i) == Lagging
    {
      ConvergedProbe(rig, w, s, i);
    }
    var from := w.searches;
    if k > 0 && ProbeAt(rig, w, s, k - 1) == Answered {
      forall x: nat | from <= x < from + (k - 1)
        ensures rig.env.search(x) == Lagging
      {
        assert ProbeAt(rig, w, s, x - from) == NotYet;
      }
      assert LaggingBetween(rig.env, from, from + (k - 1)) && rig.env.search(from + (k - 1)) == Healthy;
    }
    if x: nat :| from <= x < from + rig.maxProbes && rig.env.search(x) == Healthy && LaggingBetween(rig.env, from, x) {
      assert ProbeAt(rig, w, s, x - from) == Answered;
      forall y: nat | y < x - from
        ensures ProbeAt(rig, w, s, y) == NotYet
      {
        assert rig.env.search(from + y) == Lagging;
      }
      FirstAnswerEnds(rig, w, s, 0, x - from);
    }
  }

  lemma FirstAnswerEnds(rig: Rig, w: World, s: ChangeStep, i: nat, j: nat)
    requires i <= j < rig.maxProbes && ProbeAt(rig, w, s, j) != NotYet
    requires forall x: nat :: i <= x < j ==> ProbeAt(rig, w, s, x) == NotYet
    ensures Issued(rig, w, s, i) == j + 1
    decreases j - i
  {
    hide ProbeAt;
    if i < j {
      FirstAnswerEnds(rig, w, s, i + 1, j);
    }
  }

  // ---- who declares what ------------------------------------------------------------------

  /** Step k writes p. */
  predicate Writes(input: SequenceInput, k: nat, p: string)
    requires input.files != [] && FamilyFiltered(input)
  {
    StepAt(input, k).path == p && StepAt(input, k).class_ != Delete
  }

  /** Only symbols of the first i steps, and only of those that write p. */
  ghost predicate OwnNames(input: SequenceInput, i: nat, p: string, names: set<string>)
    requires input.files != [] && FamilyFiltered(input)
  {
    forall k: nat :: NamesBare(names, ChangeSymbol(k)) ==> 1 <= k <= i && Writes(input, k - 1, p)
  }

  lemma OwnNamesGrow(input: SequenceInput, i: nat, p: string, names: set<string>)
    requires input.files != [] && FamilyFiltered(input) && OwnNames(input, i, p, names)
    ensures OwnNames(input, i + 1, p, names)
  {
    hide FamilyForPath, StepAt, NamesBare, ChangeSymbol;
  }

  /** The step opened a file for writing, and so left it with other text. */
  predicate Wrote(tree: Tree, s: ChangeStep, fault: ApplyFault) {
    s.class_ != Delete && fault != Untouched && Applied(tree, s).Some?
  }

  lemma WroteToItsPath(tree: Tree, s: ChangeStep, fault: ApplyFault)
    ensures Wrote(tree, s, fault) ==> s.path in Left(tree, s, fault)
    ensures !Wrote(tree, s, fault) ==>
      Left(tree, s, fault) == if s.class_ == Delete && Applies(tree, s, fault) then tree - {s.path} else tree
  {
    hide ModifiedFileContent, AddedFileContent, Cut;
  }

  /** What the parser is asked about the text that step i writes, whole or cut short: it names only symbols of steps
      that write that file, and a whole one names the step's own. An ingest that fails leaves no others either. */
  ghost predicate SeesWrite(input: SequenceInput, rig: Rig, w: World, i: nat)
    requires input.files != [] && FamilyFiltered(input)
  {
    var s, fault, ingest := StepAt(input, i), rig.env.apply(w.applies), rig.env.ingest(w.ingests);
    && (Wrote(w.tree, s, fault) ==>
          var left := Left(w.tree, s, fault);
          && s.path in left && OwnNames(input, i + 1, s.path, rig.extract(s.path, left[s.path]))
          && (fault == Completes ==> NamesBare(rig.extract(s.path, left[s.path]), ChangeSymbol(i + 1))))
    && (ingest.Leaves? && ingest.entry.Some? ==> OwnNames(input, i + 1, s.path, ingest.entry.value))
  }

  /** The parser sees the first n steps of this very run. */
  ghost predicate SeesRun(input: SequenceInput, rig: Rig, w: World, n: nat)
    requires input.files != [] && FamilyFiltered(input)
  {
    forall i: nat :: i < n ==> SeesWrite(input, rig, WorldAfter(input, rig, w, i), i)
  }

  /** Tree and index hold nobody's symbols but those of the steps that wrote each file. */
  ghost predicate Attributed(input: SequenceInput, extract: Extractor, i: nat, w: World)
    requires input.files != [] && FamilyFiltered(input)
  {
    && (forall p :: p in w.tree ==> OwnNames(input, i, p, extract(p, w.tree[p])))
    && (forall p :: p in w.index ==> OwnNames(input, i, p, w.index[p]))
  }

  lemma AttributedStep(input: SequenceInput, rig: Rig, i: nat, w: World)
    requires input.files != [] && FamilyFiltered(input)
    requires Attributed(input, rig.extract, i, w) && SeesWrite(input, rig, w, i)
    ensures Attributed(input, rig.extract, i + 1, RunStep(rig, w, StepAt(input, i)).0)
  {
    hide FamilyForPath, StepAt, RunStep, OwnNames, NamesBare, ChangeSymbol, Left, Applies, Wrote;
    var s, fault := StepAt(input, i), rig.env.apply(w.applies);
    StepIndex(rig, w, s);
    WroteToItsPath(w.tree, s, fault);
    var after := RunStep(rig, w, s).0;
    forall p | p in after.tree ensures OwnNames(input, i + 1, p, rig.extract(p, after.tree[p])) {
      if !(Wrote(w.tree, s, fault) && p == s.path) {
        if p != s.path {
          LeftElsewhere(w.tree, s, fault, p);
        }
        OwnNamesGrow(input, i, p, rig.extract(p, w.tree[p]));
      }
    }
    forall p | p in w.index ensures OwnNames(input, i + 1, p, w.index[p]) {
      OwnNamesGrow(input, i, p, w.index[p]);
    }
  }

  /** Along the whole run. */
  lemma {:induction false} AttributedRun(input: SequenceInput, rig: Rig, pinned: Tree, i: nat, w: World)
    requires Pinned(input, rig.extract, pinned) && SeesRun(input, rig, w, i)
    requires w.tree == pinned && w.index == FullIndex(rig.extract, pinned)
    ensures Attributed(input, rig.extract, i, WorldAfter(input, rig, w, i))
  {
    hide FamilyForPath, StepAt, RunStep, WorldAfter, SeesWrite, OwnNames, GeneratedPath;
    if i > 0 {
      AttributedRun(input, rig, pinned, i - 1, w);
      NextWorld(input, rig, w, i - 1);
      AttributedStep(input, rig, i - 1, WorldAfter(input, rig, w, i - 1));
    } else {
      NextWorld(input, rig, w, 0);
      forall p | p in pinned ensures OwnNames(input, 0, p, rig.extract(p, pinned[p])) {
        PinnedOwnsNothing(input, rig.extract, pinned, p);
      }
    }
  }

  lemma PinnedOwnsNothing(input: SequenceInput, extract: Extractor, pinned: Tree, p: string)
    requires Pinned(input, extract, pinned) && p in pinned
    ensures OwnNames(input, 0, p, extract(p, pinned[p]))
  {
    hide FamilyForPath, StepAt, GeneratedPath, NamesBare, ChangeSymbol;
    forall k: nat ensures !NamesBare(extract(p, pinned[p]), ChangeSymbol(k)) {
      assert !Declares(extract, p, pinned[p], k);
    }
  }

  // ---- which files are there to delete ----------------------------------------------------

  /** The step's number can be read off a generated path. */
  lemma GeneratedPathsAreDistinct(dir: string, f: Family, m: nat, dir': string, f': Family, n: nat)
    requires AddedFilePath(dir, f, ChangeSymbol(m), m) == AddedFilePath(dir', f', ChangeSymbol(n), n)
    ensures m == n
  {
    BaseOfGenerated(dir, f, m);
    BaseOfGenerated(dir', f', n);
    AddedFileFamily(dir, f, m);
    AddedFileFamily(dir', f', n);
    hide AddedFilePath, AddedFileBase, FamilyForPath, ChangeSymbol;
    BasesAreDistinct(f, m, n);
  }

  lemma BaseOfGenerated(dir: string, f: Family, n: nat)
    ensures Paths.Base(AddedFilePath(dir, f, ChangeSymbol(n), n)) == AddedFileBase(f, ChangeSymbol(n), n)
  {
    SymbolsArePlain(n);
    AddedFileBaseExt(f, ChangeSymbol(n), n);
    hide AddedFileBase, ChangeSymbol, Paths.Base;
    AddedElement(dir, AddedFileBase(f, ChangeSymbol(n), n), AddedFilePath(dir, f, ChangeSymbol(n), n));
  }

  lemma BasesAreDistinct(f: Family, m: nat, n: nat)
    requires AddedFileBase(f, ChangeSymbol(m), m) == AddedFileBase(f, ChangeSymbol(n), n)
    ensures m == n
  {
    hide Decimal.Padded, Exts;
    var head, tail := if f == Java || f == CSharp then "GraphiEvalStep" else "graphi_eval_step",
                      if f == Java then ".java" else if f == CSharp then ".cs" else Exts(f)[0];
    Middle(head, Decimal.Padded(m), Decimal.Padded(n), tail);
    Decimal.PaddedInjective(m, n);
  }

  lemma Middle(head: string, a: string, b: string, tail: string)
    requires head + a + tail == head + b + tail
    ensures a == b
  {
    assert |a| == |b|;
    assert (head + a + tail)[|head|..][..|a|] == a;
    assert (head + b + tail)[|head|..][..|b|] == b;
  }

  /** No file is in the way of an add, however the earlier steps went. */
  lemma AddsLandOnFreePaths(input: SequenceInput, rig: Rig, pinned: Tree, a: nat, w: World)
    requires input.files != [] && FamilyFiltered(input) && w.tree == pinned && StepAt(input, a).class_ == Add
    requires forall p :: p in pinned ==> !GeneratedPath(p)
    ensures StepAt(input, a).path !in WorldAfter(input, rig, w, a).tree
  {
    hide FamilyForPath, StepAt, WorldAfter, GeneratedPath, AddedFilePath, ChangeSymbol;
    AnyRunKeepsThePinnedPaths(input, rig, pinned, a, w);
    AddsAndDeletesAreGenerated(input, a);
    var p := StepAt(input, a).path;
    if Planned(input, a, p) {
      var j: nat :| j < a && StepAt(input, j).class_ == Add && StepAt(input, j).path == p;
      var dir, f := AddShape(input, a);
      var dir', f' := AddShape(input, j);
      GeneratedPathsAreDistinct(dir, f, a + 1, dir', f', j + 1);
    }
  }

  /** Between a cycle's add and its delete there is at most the cross-package step. */
  lemma BetweenAddAndDelete(input: SequenceInput, i: nat)
    requires input.files != [] && FamilyFiltered(input) && StepAt(input, i).class_ == Delete
    ensures var a := i - SlotOf(input, i) + 1;
            && 0 <= a < i <= a + 2 && StepAt(input, a).class_ == Add && StepAt(input, a).path == StepAt(input, i).path
            && (i == a + 2 ==> StepAt(input, a + 1).class_ == CrossPackage)
  {
    hide FamilyForPath, StepAt;
    StepShape(input, i);
    DeleteUndoesItsAdd(input, i);
    var a := i - SlotOf(input, i) + 1;
    StepShape(input, a + 1);
  }

  lemma LeftOfAdd(tree: Tree, s: ChangeStep, fault: ApplyFault)
    requires s.class_ == Add && s.path !in tree
    ensures s.path in Left(tree, s, fault) <==> fault != Untouched
  {
    hide AddedFileContent, Cut;
  }

  /** A delete finds its file exactly when its own add opened it, cut short or not. */
  lemma DeleteFindsItsFileIff(input: SequenceInput, rig: Rig, pinned: Tree, i: nat, w: World)
    requires Pinned(input, rig.extract, pinned) && w.tree == pinned && StepAt(input, i).class_ == Delete
    ensures StepAt(input, i).path in WorldAfter(input, rig, w, i).tree
      <==> rig.env.apply(w.applies + i - SlotOf(input, i) + 1) != Untouched
  {
    hide FamilyForPath, StepAt, WorldAfter, RunStep, Left, SlotOf, Declares;
    PinnedIsPlannable(input, rig.extract, pinned);
    BetweenAddAndDelete(input, i);
    var a := i - SlotOf(input, i) + 1;
    var p := StepAt(input, a).path;
    AddsLandOnFreePaths(input, rig, pinned, a, w);
    OneApplyPerStep(input, rig, w, a);
    NextWorld(input, rig, w, a);
    StepTree(rig, WorldAfter(input, rig, w, a), StepAt(input, a));
    LeftOfAdd(WorldAfter(input, rig, w, a).tree, StepAt(input, a), rig.env.apply(w.applies + a));
    if i == a + 2 {
      StepShape(input, a + 1);
      AddsAndDeletesAreGenerated(input, a);
      var b := WorldAfter(input, rig, w, a + 1);
      NextWorld(input, rig, w, a + 1);
      StepTree(rig, b, StepAt(input, a + 1));
      LeftElsewhere(b.tree, StepAt(input, a + 1), rig.env.apply(b.applies), p);
    }
  }

  // ---- completion -------------------------------------------------------------------------

  /** Everything step i needs of the outside world: its own apply, for a delete also that its add opened the file, its
      ingest, and its searches. */
  ghost predicate Served(input: SequenceInput, rig: Rig, w: World, i: nat)
    requires input.files != [] && FamilyFiltered(input)
  {
    var now := WorldAfter(input, rig, w, i);
    && rig.env.apply(w.applies + i) == Completes
    && (StepAt(input, i).class_ == Delete ==>
          rig.env.apply(w.applies + i - SlotOf(input, i) + 1) != Untouched)
    && rig.env.ingest(now.ingests) == Ingested
    && HealthyInTime(rig.env, now.searches, rig.maxProbes)
  }

  /** The files a step needs are there, whatever went wrong before. */
  lemma AppliesIff(input: SequenceInput, rig: Rig, pinned: Tree, i: nat, w: World)
    requires Pinned(input, rig.extract, pinned) && w.tree == pinned
    ensures Applied(WorldAfter(input, rig, w, i).tree, StepAt(input, i)).Some? <==>
      (StepAt(input, i).class_ == Delete ==> rig.env.apply(w.applies + i - SlotOf(input, i) + 1) != Untouched)
  {
    hide FamilyForPath, StepAt, WorldAfter, SlotOf, Declares, ModifiedFileContent, AddedFileContent, GeneratedPath;
    StepShape(input, i);
    AnyRunKeepsThePinnedPaths(input, rig, pinned, i, w);
    if StepAt(input, i).class_ == Delete {
      DeleteFindsItsFileIff(input, rig, pinned, i, w);
    }
  }

  /** What was applied and ingested is what a search must now say, even over an index that is stale elsewhere. */
  lemma IngestedIsConverged(input: SequenceInput, rig: Rig, i: nat, w: World)
    requires input.files != [] && FamilyFiltered(input)
    requires Attributed(input, rig.extract, i, w) && SeesWrite(input, rig, w, i)
    requires Applies(w.tree, StepAt(input, i), rig.env.apply(w.applies))
    ensures var s := StepAt(input, i);
            Converged(Reindexed(rig.extract, w.index, Left(w.tree, s, rig.env.apply(w.applies)), s.path), s)
  {
    hide FamilyForPath, StepAt, ModifiedFileContent, AddedFileContent, NamesBare, ChangeSymbol, Cut, SlotOf, OwnNames;
    StepShape(input, i);
    var s := StepAt(input, i);
    var left := Left(w.tree, s, rig.env.apply(w.applies));
    var index := Reindexed(rig.extract, w.index, left, s.path);
    if s.class_ == Delete {
      NobodyElseOwns(input, rig.extract, i, w);
      assert index == w.index - {s.path};
    } else {
      assert s.path in index && NamesBare(index[s.path], s.symbol);
    }
  }

  lemma NobodyElseOwns(input: SequenceInput, extract: Extractor, i: nat, w: World)
    requires input.files != [] && FamilyFiltered(input) && Attributed(input, extract, i, w)
    requires StepAt(input, i).class_ == Delete
    ensures forall q :: q in w.index && q != StepAt(input, i).path ==> !NamesBare(w.index[q], StepAt(input, i).symbol)
  {
    hide FamilyForPath, StepAt, NamesBare, ChangeSymbol, SlotOf;
    DeletedPath(input, i);
    DeleteUndoesItsAdd(input, i);
    var a := i - SlotOf(input, i) + 1;
    forall q | q in w.index && q != StepAt(input, i).path
      ensures !NamesBare(w.index[q], StepAt(input, i).symbol)
    {
      assert OwnNames(input, i, q, w.index[q]);
      assert !Writes(input, a, q);
    }
  }

  /** The sample of a step, stage by stage. */
  lemma SampleCompletes(rig: Rig, w: World, s: ChangeStep)
    requires Applies(w.tree, s, rig.env.apply(w.applies)) && rig.env.ingest(w.ingests) == Ingested ==>
      Converged(Reindexed(rig.extract, w.index, Left(w.tree, s, rig.env.apply(w.applies)), s.path), s)
    ensures RunStep(rig, w, s).1.completed <==>
      && Applies(w.tree, s, rig.env.apply(w.applies)) && rig.env.ingest(w.ingests) == Ingested
      && HealthyInTime(rig.env, w.searches, rig.maxProbes)
  {
    hide Applies, Left, Reindexed, Converged, Converge, HealthyInTime, MicrosBetween;
    var fault := rig.env.apply(w.applies);
    if Applies(w.tree, s, fault) && rig.env.ingest(w.ingests) == Ingested {
      var tree := Left(w.tree, s, fault);
      var w3 := w.(tree := tree, index := Reindexed(rig.extract, w.index, tree, s.path), applies := w.applies + 1,
                   ingests := w.ingests + 1, ticks := w.ticks + 2);
      var changedAt, update := rig.at(w.ticks), MicrosBetween(rig.at(w.ticks), rig.at(w.ticks + 1));
      WaitingSucceedsIff(rig, w3, s, changedAt, Blank(s).(updateUS := update, updateMeasured := true));
    }
  }

  lemma StepCompletesIff(input: SequenceInput, rig: Rig, pinned: Tree, i: nat, w: World)
    requires Pinned(input, rig.extract, pinned) && SeesRun(input, rig, w, i + 1)
    requires w.tree == pinned && w.index == FullIndex(rig.extract, pinned)
    ensures RunStep(rig, WorldAfter(input, rig, w, i), StepAt(input, i)).1.completed <==> Served(input, rig, w, i)
  {
    hide FamilyForPath, StepAt, WorldAfter, RunStep, Left, Applied, SlotOf, Pinned, SeesWrite, Attributed, Converged,
         Reindexed, HealthyInTime;
    PinnedIsPlannable(input, rig.extract, pinned);
    var now := WorldAfter(input, rig, w, i);
    var s := StepAt(input, i);
    OneApplyPerStep(input, rig, w, i);
    AppliesIff(input, rig, pinned, i, w);
    AttributedRun(input, rig, pinned, i, w);
    assert SeesWrite(input, rig, now, i);
    if Applies(now.tree, s, rig.env.apply(now.applies)) {
      IngestedIsConverged(input, rig, i, now);
    }
    SampleCompletes(rig, now, s);
  }

  /** In any weather: a step of the run completes if and only if it was served. Earlier failures reach it in one way
      only, through the add that a delete undoes; what they left stale in the index does not. */
  lemma {:induction false} RunCompletesIff(input: SequenceInput, rig: Rig, pinned: Tree, n: nat, w: World)
    requires Pinned(input, rig.extract, pinned) && SeesRun(input, rig, w, n)
    requires w.tree == pinned && w.index == FullIndex(rig.extract, pinned)
    ensures forall i: nat :: i < n ==>
      (RunAll(rig, w, Prefix(input, n)).1[i].completed <==> Served(input, rig, w, i))
  {
    hide FamilyForPath, StepAt, WorldAfter, RunStep, RunAll, Pinned, SeesWrite, Served;
    PinnedIsPlannable(input, rig.extract, pinned);
    if n > 0 {
      RunCompletesIff(input, rig, pinned, n - 1, w);
      NextWorld(input, rig, w, n - 1);
      StepCompletesIff(input, rig, pinned, n - 1, w);
    }
  }
}
