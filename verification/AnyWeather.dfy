/** A planned run while the outside world misbehaves: what survives of the pinned tree, and what goes stale in the
    index. */
module AnyWeather {
  import opened SourceFamily
  import opened ChangeSequence
  import opened ChangePlanner
  import opened Checkout
  import opened IncrementalDriver
  import opened Convergence
  import Paths

  /** The world after the first i planned steps. */
  ghost function WorldAfter(input: SequenceInput, rig: Rig, w: World, i: nat): World
    requires input.files != [] && FamilyFiltered(input)
  {
    RunAll(rig, w, Prefix(input, i)).0
  }

  lemma NextWorld(input: SequenceInput, rig: Rig, w: World, i: nat)
    requires input.files != [] && FamilyFiltered(input)
    ensures WorldAfter(input, rig, w, 0) == w
    ensures WorldAfter(input, rig, w, i + 1) == RunStep(rig, WorldAfter(input, rig, w, i), StepAt(input, i)).0
    ensures RunAll(rig, w, Prefix(input, i + 1)).1 ==
      RunAll(rig, w, Prefix(input, i)).1 + [RunStep(rig, WorldAfter(input, rig, w, i), StepAt(input, i)).1]
  {
    hide FamilyForPath, StepAt, RunStep;
    assert Prefix(input, i + 1)[..i] == Prefix(input, i);
    assert Prefix(input, 0) == [];
  }

  /** A step applies once, and leaves the tree its fault decides. */
  lemma StepTree(rig: Rig, w: World, s: ChangeStep)
    ensures var after := RunStep(rig, w, s).0;
            after.tree == Left(w.tree, s, rig.env.apply(w.applies)) && after.applies == w.applies + 1
  {
    hide Applies, Left, IngestLeaves, Issued, ProbeAt;
  }

  /** Step i is the i-th apply of the run. */
  lemma {:induction false} OneApplyPerStep(input: SequenceInput, rig: Rig, w: World, i: nat)
    requires input.files != [] && FamilyFiltered(input)
    ensures WorldAfter(input, rig, w, i).applies == w.applies + i
  {
    hide FamilyForPath, StepAt, RunStep, WorldAfter;
    if i > 0 {
      OneApplyPerStep(input, rig, w, i - 1);
      NextWorld(input, rig, w, i - 1);
      StepTree(rig, WorldAfter(input, rig, w, i - 1), StepAt(input, i - 1));
    } else {
      NextWorld(input, rig, w, 0);
    }
  }

  // ---- paths ------------------------------------------------------------------------------

  /** No pinned path is gone, and every other file is one an earlier add planned. */
  ghost predicate PathsKept(input: SequenceInput, pinned: Tree, i: nat, tree: Tree)
    requires input.files != [] && FamilyFiltered(input)
  {
    && (forall p :: p in pinned ==> p in tree)
    && (forall p :: p in tree && p !in pinned ==> Planned(input, i, p))
  }

  ghost predicate Planned(input: SequenceInput, i: nat, p: string)
    requires input.files != [] && FamilyFiltered(input)
  {
    exists j: nat :: j < i && StepAt(input, j).class_ == Add && StepAt(input, j).path == p
  }

  lemma AddsAndDeletesAreGenerated(input: SequenceInput, i: nat)
    requires input.files != [] && FamilyFiltered(input)
    ensures StepAt(input, i).class_ == Add || StepAt(input, i).class_ == Delete ==> GeneratedPath(StepAt(input, i).path)
  {
    hide FamilyForPath, StepAt, AddedFilePath, ChangeSymbol;
    if StepAt(input, i).class_ == Delete {
      DeletesAreGenerated(input, i);
    } else if StepAt(input, i).class_ == Add {
      var dir, f := AddShape(input, i);
      GeneratedAt(dir, f, i + 1);
    }
  }

  lemma PathsStep(input: SequenceInput, pinned: Tree, i: nat, tree: Tree, fault: ApplyFault)
    requires input.files != [] && FamilyFiltered(input) && PathsKept(input, pinned, i, tree)
    requires forall p :: p in pinned ==> !GeneratedPath(p)
    ensures PathsKept(input, pinned, i + 1, Left(tree, StepAt(input, i), fault))
  {
    hide FamilyForPath, StepAt, ModifiedFileContent, AddedFileContent, GeneratedPath, Cut;
    AddsAndDeletesAreGenerated(input, i);
    var s := StepAt(input, i);
    forall p ensures Planned(input, i, p) ==> Planned(input, i + 1, p) {}
    assert s.class_ == Add ==> Planned(input, i + 1, s.path);
  }

  /** Whatever fails outside, cut-short writes included: no pinned path is ever deleted, and every other path is one
      that an earlier add planned. */
  lemma {:induction false} AnyRunKeepsThePinnedPaths(input: SequenceInput, rig: Rig, pinned: Tree, i: nat, w: World)
    requires input.files != [] && FamilyFiltered(input) && w.tree == pinned
    requires forall p :: p in pinned ==> !GeneratedPath(p)
    ensures PathsKept(input, pinned, i, WorldAfter(input, rig, w, i).tree)
  {
    hide FamilyForPath, StepAt, RunStep, WorldAfter, GeneratedPath, PathsKept, Left;
    if i > 0 {
      AnyRunKeepsThePinnedPaths(input, rig, pinned, i - 1, w);
      NextWorld(input, rig, w, i - 1);
      var before := WorldAfter(input, rig, w, i - 1);
      StepTree(rig, before, StepAt(input, i - 1));
      PathsStep(input, pinned, i - 1, before.tree, rig.env.apply(before.applies));
    } else {
      NextWorld(input, rig, w, 0);
      NothingYet(input, pinned);
    }
  }

  lemma NothingYet(input: SequenceInput, pinned: Tree)
    requires input.files != [] && FamilyFiltered(input)
    ensures PathsKept(input, pinned, 0, pinned)
  {
    hide FamilyForPath, StepAt;
  }

  // ---- texts ------------------------------------------------------------------------------

  /** Every pinned file still begins with its pinned text. */
  ghost predicate TextsKept(pinned: Tree, tree: Tree) {
    forall p :: p in pinned ==> p in tree && pinned[p] <= tree[p]
  }

  /** An append to a pinned file whose write stops before the pinned text is back. */
  predicate CutsInto(pinned: Tree, s: ChangeStep, fault: ApplyFault) {
    && (s.class_ == Modify || s.class_ == CrossPackage)
    && s.path in pinned && fault.CutShort? && fault.kept < |pinned[s.path]|
  }

  lemma ModifyExtends(existing: string, s: ChangeStep)
    ensures existing <= ModifiedFileContent(existing, s)
  {
    hide FamilyForPath, AppendTo;
    if FamilyForPath(s.path).Some? {
      AppendToExtends(FamilyForPath(s.path).value, existing, s.symbol, s.index);
    }
  }

  lemma CutPrefix(text: string, content: string, kept: nat)
    requires text <= content
    ensures text <= Cut(content, kept) <==> kept >= |text|
  {
  }

  lemma TextsStep(input: SequenceInput, pinned: Tree, i: nat, tree: Tree, fault: ApplyFault)
    requires input.files != [] && FamilyFiltered(input) && TextsKept(pinned, tree)
    requires forall p :: p in pinned ==> !GeneratedPath(p)
    ensures TextsKept(pinned, Left(tree, StepAt(input, i), fault)) <==> !CutsInto(pinned, StepAt(input, i), fault)
  {
    hide FamilyForPath, StepAt, ModifiedFileContent, AddedFileContent, GeneratedPath, Cut;
    AddsAndDeletesAreGenerated(input, i);
    var s := StepAt(input, i);
    var t := Left(tree, s, fault);
    if (s.class_ == Modify || s.class_ == CrossPackage) && s.path in pinned {
      ModifyExtends(tree[s.path], s);
      if fault.CutShort? {
        CutPrefix(pinned[s.path], ModifiedFileContent(tree[s.path], s), fault.kept);
      }
      assert forall p :: p in pinned && p != s.path ==> t[p] == tree[p];
    } else {
      assert forall p :: p in pinned ==> p in t && t[p] == tree[p];
    }
  }

  /** Every prefix of a run keeps every pinned text, if and only if no append to a pinned file was cut short of it. */
  lemma {:induction false} PinnedTextsSurviveIff(input: SequenceInput, rig: Rig, pinned: Tree, n: nat, w: World)
    requires input.files != [] && FamilyFiltered(input) && w.tree == pinned
    requires forall p :: p in pinned ==> !GeneratedPath(p)
    ensures (forall i: nat :: i <= n ==> TextsKept(pinned, WorldAfter(input, rig, w, i).tree))
      <==> (forall i: nat :: i < n ==> !CutsInto(pinned, StepAt(input, i), rig.env.apply(w.applies + i)))
  {
    hide FamilyForPath, StepAt, RunStep, WorldAfter, GeneratedPath, Left, CutsInto;
    if n > 0 {
      PinnedTextsSurviveIff(input, rig, pinned, n - 1, w);
      NextWorld(input, rig, w, n - 1);
      var before := WorldAfter(input, rig, w, n - 1);
      OneApplyPerStep(input, rig, w, n - 1);
      StepTree(rig, before, StepAt(input, n - 1));
      if TextsKept(pinned, before.tree) {
        TextsStep(input, pinned, n - 1, before.tree, rig.env.apply(before.applies));
      }
    } else {
      NextWorld(input, rig, w, 0);
    }
  }

  /** One write cut at its very start: the first listed file, pinned and not empty, has lost its text. */
  lemma CutFirstWriteLosesTheText(input: SequenceInput, rig: Rig, pinned: Tree, w: World)
    requires input.files != [] && FamilyFiltered(input) && w.tree == pinned
    requires forall p :: p in pinned ==> !GeneratedPath(p)
    requires input.files[0] in pinned && pinned[input.files[0]] != ""
    requires rig.env.apply(w.applies) == CutShort(0)
    ensures var tree := WorldAfter(input, rig, w, 1).tree;
            input.files[0] in tree && tree[input.files[0]] == "" && !TextsKept(pinned, tree)
  {
    FirstStep(input);
    hide FamilyForPath, StepAt, RunStep, WorldAfter, ModifiedFileContent;
    NextWorld(input, rig, w, 0);
    StepTree(rig, w, StepAt(input, 0));
  }

  lemma FirstStep(input: SequenceInput)
    requires input.files != [] && FamilyFiltered(input)
    ensures StepAt(input, 0).class_ == Modify && StepAt(input, 0).path == input.files[0]
  {
    hide FamilyForPath, ChangeSymbol, AddedFilePath, PackageKey, Paths.Dir;
  }

  // ---- what goes stale --------------------------------------------------------------------

  /** Paths the index may have missed: the last write was cut short, or the last ingest failed. */
  ghost function Stale(rig: Rig, w: World, steps: seq<ChangeStep>): set<string> {
    if steps == [] then {}
    else
      var init, s := steps[..|steps| - 1], steps[|steps| - 1];
      var b, before := RunAll(rig, w, init).0, Stale(rig, w, init);
      var fault := rig.env.apply(b.applies);
      if Applies(b.tree, s, fault) && rig.env.ingest(b.ingests) == Ingested then before - {s.path}
      else if !Applies(b.tree, s, fault) && Left(b.tree, s, fault) == b.tree then before
      else before + {s.path}
  }

  ghost predicate FreshAt(rig: Rig, w: World, p: string) {
    (p in w.index <==> p in w.tree) && (p in w.tree ==> w.index[p] == rig.extract(p, w.tree[p]))
  }

  /** What a step leaves in tree and index. */
  lemma StepIndex(rig: Rig, w: World, s: ChangeStep)
    ensures var fault, after := rig.env.apply(w.applies), RunStep(rig, w, s).0;
            && after.tree == Left(w.tree, s, fault)
            && after.index == (if Applies(w.tree, s, fault)
                               then IngestLeaves(rig.extract, w.index, after.tree, s.path, rig.env.ingest(w.ingests))
                               else w.index)
  {
    hide Applies, Left, IngestLeaves, Issued, ProbeAt;
  }

  lemma LeftElsewhere(tree: Tree, s: ChangeStep, fault: ApplyFault, p: string)
    requires p != s.path
    ensures p in Left(tree, s, fault) <==> p in tree
    ensures p in tree ==> Left(tree, s, fault)[p] == tree[p]
  {
    hide ModifiedFileContent, AddedFileContent, Cut;
  }

  /** After any run of any steps, in any weather, the index is fresh at every path that is not stale. */
  lemma {:induction false} FreshOutsideTheStale(rig: Rig, w: World, steps: seq<ChangeStep>, p: string)
    requires w.index == FullIndex(rig.extract, w.tree) && p !in Stale(rig, w, steps)
    ensures FreshAt(rig, RunAll(rig, w, steps).0, p)
  {
    hide RunStep, Left, Applies;
    if steps != [] {
      var init, s := steps[..|steps| - 1], steps[|steps| - 1];
      var b := RunAll(rig, w, init).0;
      StepIndex(rig, b, s);
      if p != s.path {
        LeftElsewhere(b.tree, s, rig.env.apply(b.applies), p);
        FreshOutsideTheStale(rig, w, init, p);
      } else if !Applies(b.tree, s, rig.env.apply(b.applies)) {
        FreshOutsideTheStale(rig, w, init, p);
      }
    }
  }
}
