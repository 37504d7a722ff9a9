/** The planner and the driver together: every planned change applies and is answerable at once. */
module Convergence {
  import opened Text
  import opened Decimal
  import opened SourceFamily
  import opened ChangeSequence
  import opened ChangePlanner
  import opened Checkout
  import opened IncrementalDriver

  // ---- generated names ------------------------------------------------------------------

  lemma SymbolsAreInjective(m: nat, n: nat)
    requires ChangeSymbol(m) == ChangeSymbol(n)
    ensures m == n
  {
    var head := "GraphiEvalStep";
    assert ChangeSymbol(m)[|head|..] == Padded(m) && ChangeSymbol(n)[|head|..] == Padded(n);
    PaddedInjective(m, n);
  }

  ghost predicate GeneratedPath(p: string) {
    exists dir: string, f: Family, n: nat :: p == AddedFilePath(dir, f, ChangeSymbol(n), n)
  }

  lemma AddedFileFamily(dir: string, f: Family, n: nat)
    ensures FamilyForPath(AddedFilePath(dir, f, ChangeSymbol(n), n)) == Some(f)
  {
    hide FamilyForPath, AddedFileBase;
    SymbolsArePlain(n);
    AddedFileKeepsItsFamily(f, dir, ChangeSymbol(n), n, AddedFilePath(dir, f, ChangeSymbol(n), n));
  }

  // ---- what is asked of the extraction and of the pinned tree ------------------------------

  /** Does a file with this content declare the symbol of step k? */
  ghost predicate Declares(extract: Extractor, p: string, content: string, k: nat) {
    NamesBare(extract(p, content), ChangeSymbol(k))
  }

  /** Step j appends to p. */
  predicate Edits(input: SequenceInput, j: nat, p: string)
    requires input.files != [] && FamilyFiltered(input)
  {
    var s := StepAt(input, j);
    s.path == p && (s.class_ == Modify || s.class_ == CrossPackage)
  }

  /** What a pinned file holds after i steps: its pinned text and what the steps so far appended to it. */
  function ContentAfter(input: SequenceInput, pinned: Tree, i: nat, p: string): string
    requires input.files != [] && FamilyFiltered(input) && p in pinned
  {
    if i == 0 then pinned[p]
    else
      var before := ContentAfter(input, pinned, i - 1, p);
      if Edits(input, i - 1, p) then ModifiedFileContent(before, StepAt(input, i - 1)) else before
  }

  /** Appending step i to the content it meets adds its symbol and no other generated one. */
  ghost predicate SeesAppend(input: SequenceInput, extract: Extractor, pinned: Tree, i: nat, p: string)
    requires input.files != [] && FamilyFiltered(input) && p in pinned
  {
    var before, after := ContentAfter(input, pinned, i, p), ContentAfter(input, pinned, i + 1, p);
    forall k: nat :: Declares(extract, p, after, k) <==> Declares(extract, p, before, k) || k == i + 1
  }

  /** The file that step i adds declares its own symbol and no other generated one. */
  ghost predicate SeesAddition(input: SequenceInput, extract: Extractor, i: nat)
    requires input.files != [] && FamilyFiltered(input)
  {
    var s := StepAt(input, i);
    forall k: nat :: Declares(extract, s.path, AddedFileContent(s), k) <==> k == i + 1
  }

  ghost predicate SeesAppends(input: SequenceInput, extract: Extractor, pinned: Tree, n: nat)
    requires input.files != [] && FamilyFiltered(input)
  {
    forall p, i: nat :: p in pinned && i < n && Edits(input, i, p) ==> SeesAppend(input, extract, pinned, i, p)
  }

  ghost predicate SeesAdditions(input: SequenceInput, extract: Extractor, n: nat)
    requires input.files != [] && FamilyFiltered(input)
  {
    forall i: nat :: i < n && StepAt(input, i).class_ == Add ==> SeesAddition(input, extract, i)
  }

  /** The parser sees n steps of the plan: nothing is asked of it on a text that those steps do not write. */
  ghost predicate Faithful(input: SequenceInput, extract: Extractor, pinned: Tree, n: nat)
    requires input.files != [] && FamilyFiltered(input)
  {
    SeesAppends(input, extract, pinned, n) && SeesAdditions(input, extract, n)
  }

  lemma FaithfulBefore(input: SequenceInput, extract: Extractor, pinned: Tree, m: nat, n: nat)
    requires input.files != [] && FamilyFiltered(input)
    requires m <= n && Faithful(input, extract, pinned, n)
    ensures Faithful(input, extract, pinned, m)
  {
    hide FamilyForPath, StepAt, Edits, SeesAppend, SeesAddition;
  }

  /** The planned files exist and can be changed; nothing the repository ships looks generated. */
  ghost predicate Pinned(input: SequenceInput, extract: Extractor, pinned: Tree) {
    && input.files != [] && FamilyFiltered(input)
    && (forall p :: p in input.files || p in input.targets ==> p in pinned)
    && (forall p :: p in input.targets ==> Mutable(p))
    && (forall p :: p in pinned ==> !GeneratedPath(p))
    && (forall p, k: nat :: p in pinned ==> !Declares(extract, p, pinned[p], k))
  }

  // ---- the tree after i steps ---------------------------------------------------------------

  /** The added file that is in the tree after i steps: between a cycle's add and its delete. */
  function Outstanding(input: SequenceInput, i: nat): set<string>
    requires input.files != [] && FamilyFiltered(input)
  {
    if SlotOf(input, i) < 2 then {} else {StepAt(input, i - SlotOf(input, i) + 1).path}
  }

  ghost predicate PathsAsPlanned(input: SequenceInput, pinned: Tree, i: nat, tree: Tree)
    requires input.files != [] && FamilyFiltered(input)
  {
    tree.Keys == pinned.Keys + Outstanding(input, i)
  }

  /** Every pinned file holds exactly what the plan wrote to it. */
  ghost predicate ContentAsPlanned(input: SequenceInput, pinned: Tree, i: nat, tree: Tree)
    requires input.files != [] && FamilyFiltered(input)
  {
    forall p :: p in pinned ==> p in tree && tree[p] == ContentAfter(input, pinned, i, p)
  }

  /** A pinned file declares exactly the symbols of the steps that appended to it. */
  ghost predicate PinnedNames(input: SequenceInput, extract: Extractor, pinned: Tree, i: nat, tree: Tree)
    requires input.files != [] && FamilyFiltered(input)
  {
    forall p, k: nat :: p in pinned && p in tree ==>
      (Declares(extract, p, tree[p], k) <==> 1 <= k <= i && Edits(input, k - 1, p))
  }

  /** The added file declares exactly the symbol of its add. */
  ghost predicate AddedNames(input: SequenceInput, extract: Extractor, i: nat, tree: Tree)
    requires input.files != [] && FamilyFiltered(input)
  {
    forall p, k: nat :: p in Outstanding(input, i) && p in tree ==>
      (Declares(extract, p, tree[p], k) <==> k == i - SlotOf(input, i) + 2)
  }

  ghost predicate TreeAsPlanned(input: SequenceInput, extract: Extractor, pinned: Tree, i: nat, tree: Tree)
    requires input.files != [] && FamilyFiltered(input)
  {
    && PathsAsPlanned(input, pinned, i, tree)
    && ContentAsPlanned(input, pinned, i, tree)
    && PinnedNames(input, extract, pinned, i, tree)
    && AddedNames(input, extract, i, tree)
  }

  /** What an add plans: a generated path, and a recorded or empty clause. */
  lemma AddShape(input: SequenceInput, i: nat) returns (dir: string, f: Family)
    requires input.files != [] && FamilyFiltered(input) && StepAt(input, i).class_ == Add
    ensures var s := StepAt(input, i);
            && s.path == AddedFilePath(dir, f, ChangeSymbol(i + 1), i + 1)
            && (s.pkg == "" || exists key :: key in input.packages && s.pkg == input.packages[key])
  {
    hide FamilyForPath, Paths.Dir, AddedFilePath, ChangeSymbol, PackageKey;
    var base := Anchor(input, CycleOf(input, i));
    assert base in input.files && Mutable(base);
    StepShape(input, i);
    dir, f := Paths.Dir(base), FamilyForPath(base).value;
  }

  lemma OutstandingIsGenerated(input: SequenceInput, i: nat, p: string)
    requires input.files != [] && FamilyFiltered(input) && p in Outstanding(input, i)
    ensures GeneratedPath(p)
  {
    hide FamilyForPath, StepAt, AddedFilePath, ChangeSymbol;
    var a := i - SlotOf(input, i) + 1;
    assert SlotOf(input, a) == 1;
    StepShape(input, a);
    var dir, f := AddShape(input, a);
    assert p == AddedFilePath(dir, f, ChangeSymbol(a + 1), a + 1);
  }

  // ---- one step keeps the tree as planned ----------------------------------------------------

  /** A pinned file still begins with what it was pinned with. */
  lemma {:induction false} ContentGrows(input: SequenceInput, pinned: Tree, i: nat, p: string)
    requires input.files != [] && FamilyFiltered(input) && p in pinned
    ensures pinned[p] <= ContentAfter(input, pinned, i, p)
  {
    hide FamilyForPath, StepAt, AppendTo;
    if i > 0 {
      ContentGrows(input, pinned, i - 1, p);
      var before, s := ContentAfter(input, pinned, i - 1, p), StepAt(input, i - 1);
      if FamilyForPath(s.path).Some? {
        AppendToExtends(FamilyForPath(s.path).value, before, s.symbol, s.index);
      }
    }
  }

  lemma OutstandingAfterEdit(input: SequenceInput, i: nat)
    requires input.files != [] && FamilyFiltered(input)
    requires StepAt(input, i).class_ == Modify || StepAt(input, i).class_ == CrossPackage
    ensures Outstanding(input, i + 1) == Outstanding(input, i)
    ensures Outstanding(input, i) != {} ==> i + 1 - SlotOf(input, i + 1) == i - SlotOf(input, i)
  {
    hide FamilyForPath, StepAt;
    StepShape(input, i);
  }

  /** What a planned append does to the paths. */
  lemma EditedPath(input: SequenceInput, extract: Extractor, pinned: Tree, i: nat)
    requires Pinned(input, extract, pinned)
    requires StepAt(input, i).class_ == Modify || StepAt(input, i).class_ == CrossPackage
    ensures var p := StepAt(input, i).path;
            && p in pinned && Edits(input, i, p) && p !in Outstanding(input, i)
            && Outstanding(input, i + 1) == Outstanding(input, i)
            && (Outstanding(input, i) != {} ==> i + 1 - SlotOf(input, i + 1) == i - SlotOf(input, i))
  {
    hide FamilyForPath, StepAt, GeneratedPath, Declares, SlotOf, CycleLength, Outstanding;
    StepShape(input, i);
    OutstandingAfterEdit(input, i);
    var p := StepAt(input, i).path;
    if p in Outstanding(input, i) {
      OutstandingIsGenerated(input, i, p);
    }
  }

  lemma EditStep(input: SequenceInput, extract: Extractor, pinned: Tree, i: nat, tree: Tree)
    requires Pinned(input, extract, pinned) && Faithful(input, extract, pinned, i + 1)
    requires TreeAsPlanned(input, extract, pinned, i, tree)
    requires StepAt(input, i).class_ == Modify || StepAt(input, i).class_ == CrossPackage
    ensures var s := StepAt(input, i);
            && Applied(tree, s).Some?
            && TreeAsPlanned(input, extract, pinned, i + 1, Applied(tree, s).value)
            && s.path in Applied(tree, s).value
            && Declares(extract, s.path, Applied(tree, s).value[s.path], i + 1)
  {
    hide FamilyForPath, StepAt, ModifiedFileContent, AddedFileContent, Declares, GeneratedPath, Outstanding, SlotOf,
         SeesAppend, SeesAdditions, Pinned, Edits, ContentAfter, PinnedNames;
    PinnedIsPlannable(input, extract, pinned);
    EditedPath(input, extract, pinned, i);
    var s := StepAt(input, i);
    var p := s.path;
    var t := Applied(tree, s).value;
    assert t == tree[p := ModifiedFileContent(tree[p], s)] && SeesAppend(input, extract, pinned, i, p);
    EditedContent(input, pinned, i, tree);
    EditedNames(input, extract, pinned, i, tree, t);
  }

  lemma EditedContent(input: SequenceInput, pinned: Tree, i: nat, tree: Tree)
    requires input.files != [] && FamilyFiltered(input) && ContentAsPlanned(input, pinned, i, tree)
    requires StepAt(input, i).path in pinned && Edits(input, i, StepAt(input, i).path)
    ensures var s := StepAt(input, i);
            ContentAsPlanned(input, pinned, i + 1, tree[s.path := ModifiedFileContent(tree[s.path], s)])
  {
    hide FamilyForPath, StepAt, ModifiedFileContent;
  }

  lemma EditedNames(input: SequenceInput, extract: Extractor, pinned: Tree, i: nat, tree: Tree, t: Tree)
    requires input.files != [] && FamilyFiltered(input)
    requires ContentAsPlanned(input, pinned, i, tree) && ContentAsPlanned(input, pinned, i + 1, t)
    requires PinnedNames(input, extract, pinned, i, tree)
    requires var p := StepAt(input, i).path;
             p in pinned && Edits(input, i, p) && SeesAppend(input, extract, pinned, i, p)
    requires forall q :: q in pinned && q != StepAt(input, i).path ==> t[q] == tree[q]
    ensures PinnedNames(input, extract, pinned, i + 1, t)
    ensures Declares(extract, StepAt(input, i).path, t[StepAt(input, i).path], i + 1)
  {
    hide FamilyForPath, StepAt, Declares, ContentAfter;
    var p := StepAt(input, i).path;
    forall q, k: nat | q in pinned
      ensures Declares(extract, q, t[q], k) <==> 1 <= k <= i + 1 && Edits(input, k - 1, q)
    {
      assert Declares(extract, q, tree[q], k) <==> 1 <= k <= i && Edits(input, k - 1, q);
      if q == p {
        assert Declares(extract, p, t[p], k) <==> Declares(extract, p, tree[p], k) || k == i + 1;
      }
    }
  }

  lemma AppendToExtends(f: Family, existing: string, symbol: string, n: nat)
    ensures existing <= AppendTo(f, existing, symbol, n)
  {
    hide Appended;
  }

  /** A step that appends to no pinned file and leaves them all as they were keeps their part of the plan. */
  lemma PinnedUntouched(input: SequenceInput, extract: Extractor, pinned: Tree, i: nat, tree: Tree, t: Tree)
    requires input.files != [] && FamilyFiltered(input)
    requires StepAt(input, i).class_ == Add || StepAt(input, i).class_ == Delete
    requires ContentAsPlanned(input, pinned, i, tree) && PinnedNames(input, extract, pinned, i, tree)
    requires forall q :: q in pinned ==> q in t && t[q] == tree[q]
    ensures ContentAsPlanned(input, pinned, i + 1, t) && PinnedNames(input, extract, pinned, i + 1, t)
  {
    hide FamilyForPath, StepAt, ModifiedFileContent, Declares;
    forall q, k: nat | q in pinned
      ensures Declares(extract, q, t[q], k) <==> 1 <= k <= i + 1 && Edits(input, k - 1, q)
    {
      assert Declares(extract, q, tree[q], k) <==> 1 <= k <= i && Edits(input, k - 1, q);
      assert !Edits(input, i, q);
    }
  }

  /** Where a step that adds, or deletes, leaves the paths. */
  lemma AddedPath(input: SequenceInput, i: nat)
    requires input.files != [] && FamilyFiltered(input) && StepAt(input, i).class_ == Add
    ensures Outstanding(input, i) == {} && Outstanding(input, i + 1) == {StepAt(input, i).path}
    ensures GeneratedPath(StepAt(input, i).path) && i + 1 - SlotOf(input, i + 1) + 2 == i + 1
  {
    hide FamilyForPath, StepAt, ChangeSymbol, AddedFilePath;
    StepShape(input, i);
    var dir, f := AddShape(input, i);
  }

  lemma DeletedPath(input: SequenceInput, i: nat)
    requires input.files != [] && FamilyFiltered(input) && StepAt(input, i).class_ == Delete
    ensures var s, a := StepAt(input, i), i - SlotOf(input, i) + 1;
            && Outstanding(input, i) == {s.path} && Outstanding(input, i + 1) == {}
            && GeneratedPath(s.path) && s.symbol == ChangeSymbol(a + 1)
            && forall p :: !Edits(input, a, p)
  {
    hide FamilyForPath, StepAt, ChangeSymbol, GeneratedPath;
    StepShape(input, i);
    DeleteUndoesItsAdd(input, i);
    StepShape(input, i - SlotOf(input, i) + 1);
    OutstandingIsGenerated(input, i, StepAt(input, i).path);
  }

  lemma AddStep(input: SequenceInput, extract: Extractor, pinned: Tree, i: nat, tree: Tree)
    requires Pinned(input, extract, pinned) && Faithful(input, extract, pinned, i + 1)
    requires TreeAsPlanned(input, extract, pinned, i, tree)
    requires StepAt(input, i).class_ == Add
    ensures var s := StepAt(input, i);
            && Applied(tree, s).Some?
            && TreeAsPlanned(input, extract, pinned, i + 1, Applied(tree, s).value)
            && s.path in Applied(tree, s).value && s.path !in tree
            && Declares(extract, s.path, Applied(tree, s).value[s.path], i + 1)
  {
    hide FamilyForPath, StepAt, AddedFileContent, ModifiedFileContent, SeesAppends, ContentAfter, Declares,
         GeneratedPath,
         Outstanding, SlotOf, Edits;
    var s := StepAt(input, i);
    var t := Applied(tree, s).value;
    AddedPath(input, i);
    assert t == tree[s.path := AddedFileContent(s)] && SeesAddition(input, extract, i);
    PinnedUntouched(input, extract, pinned, i, tree, t);
    hide ContentAsPlanned, PinnedNames;
    AddedFileNames(input, extract, i, t);
  }

  lemma AddedFileNames(input: SequenceInput, extract: Extractor, i: nat, t: Tree)
    requires input.files != [] && FamilyFiltered(input)
    requires StepAt(input, i).class_ == Add && SeesAddition(input, extract, i)
    requires var s := StepAt(input, i); s.path in t && t[s.path] == AddedFileContent(s)
    ensures AddedNames(input, extract, i + 1, t)
    ensures Declares(extract, StepAt(input, i).path, t[StepAt(input, i).path], i + 1)
  {
    hide FamilyForPath, StepAt, AddedFileContent, Declares, GeneratedPath, Outstanding, SlotOf;
    AddedPath(input, i);
  }

  lemma DeleteStep(input: SequenceInput, extract: Extractor, pinned: Tree, i: nat, tree: Tree)
    requires Pinned(input, extract, pinned)
    requires TreeAsPlanned(input, extract, pinned, i, tree)
    requires StepAt(input, i).class_ == Delete
    ensures var s := StepAt(input, i);
            && Applied(tree, s).Some?
            && TreeAsPlanned(input, extract, pinned, i + 1, Applied(tree, s).value)
            && Applied(tree, s).value.Keys == tree.Keys - {s.path} && s.path !in pinned
            && !exists p :: p in Applied(tree, s).value && NamesBare(extract(p, Applied(tree, s).value[p]), s.symbol)
  {
    hide FamilyForPath, StepAt, ModifiedFileContent, AddedFileContent, ContentAfter, Declares, GeneratedPath,
         Outstanding,
         SlotOf, Edits;
    var s := StepAt(input, i);
    DeletedPath(input, i);
    var t := Applied(tree, s).value;
    assert s.path !in pinned && t == tree - {s.path};
    PinnedUntouched(input, extract, pinned, i, tree, t);
    assert t.Keys == pinned.Keys;
    hide ContentAsPlanned;
    DeletedSymbolIsGone(input, extract, pinned, i, t);
  }

  /** Back at the pinned paths, nobody declares what the deleted file declared. */
  lemma DeletedSymbolIsGone(input: SequenceInput, extract: Extractor, pinned: Tree, i: nat, t: Tree)
    requires input.files != [] && FamilyFiltered(input) && StepAt(input, i).class_ == Delete
    requires t.Keys == pinned.Keys && PinnedNames(input, extract, pinned, i + 1, t)
    ensures !exists p :: p in t && NamesBare(extract(p, t[p]), StepAt(input, i).symbol)
  {
    hide FamilyForPath, StepAt, ChangeSymbol, NamesBare, GeneratedPath, Outstanding, Edits;
    DeletedPath(input, i);
    var a := i - SlotOf(input, i) + 1;
    forall p | p in t
      ensures !NamesBare(extract(p, t[p]), StepAt(input, i).symbol)
    {
      assert Declares(extract, p, t[p], a + 1) <==> 1 <= a + 1 <= i + 1 && Edits(input, a, p);
    }
  }

  // ---- the run -----------------------------------------------------------------------------------

  /** Nothing outside interferes. */
  ghost predicate Quiet(env: Environment) {
    && (forall k: nat :: env.apply(k) == Completes)
    && (forall k: nat :: env.ingest(k) == Ingested)
    && (forall k: nat :: env.search(k) == Healthy)
  }

  ghost predicate AsPlanned(input: SequenceInput, extract: Extractor, pinned: Tree, i: nat, w: World)
    requires input.files != [] && FamilyFiltered(input)
  {
    TreeAsPlanned(input, extract, pinned, i, w.tree) && w.index == FullIndex(extract, w.tree)
  }

  /** The change took, and the first question about it was answered. */
  ghost predicate AnsweredAtOnce(sample: ChangeSample) {
    sample.completed && sample.probes == 1 && sample.updateMeasured && sample.freshnessMeasured
  }

  /** Sample i of an undisturbed run is timed by readings 3 * i, 3 * i + 1 and 3 * i + 2 after the first. */
  ghost predicate TimedInOrder(at: nat -> int, first: nat, samples: seq<ChangeSample>) {
    forall i :: 0 <= i < |samples| ==> TimedBy(at, first + 3 * i, samples[i])
  }

  predicate TimedBy(at: nat -> int, t: nat, sample: ChangeSample) {
    && sample.updateUS == MicrosBetween(at(t), at(t + 1))
    && sample.freshnessUS == MicrosBetween(at(t), at(t + 2))
  }

  lemma {:induction false} ThreeReadingsEach(samples: seq<ChangeSample>)
    requires forall i :: 0 <= i < |samples| ==> AnsweredAtOnce(samples[i])
    ensures ReadingsOf(samples) == 3 * |samples|
  {
    if samples != [] {
      ThreeReadingsEach(samples[..|samples| - 1]);
    }
  }

  lemma TimedByThrees(rig: Rig, first: nat, samples: seq<ChangeSample>)
    requires forall i :: 0 <= i < |samples| ==> AnsweredAtOnce(samples[i])
    requires forall i :: 0 <= i < |samples| ==> TimedAt(rig, first, samples, i)
    ensures TimedInOrder(rig.at, first, samples)
  {
    hide MicrosBetween, TimedBy, ReadingsOf, TimedAt;
    forall i | 0 <= i < |samples|
      ensures TimedBy(rig.at, first + 3 * i, samples[i])
    {
      assert TimedAt(rig, first, samples, i) && AnsweredAtOnce(samples[i]);
      ThreeReadingsEach(samples[..i]);
      TimedAtOnce(rig, first, samples, i);
    }
  }

  lemma TimedAtOnce(rig: Rig, first: nat, samples: seq<ChangeSample>, i: nat)
    requires i < |samples| && TimedAt(rig, first, samples, i) && AnsweredAtOnce(samples[i])
    ensures TimedBy(rig.at, first + ReadingsOf(samples[..i]), samples[i])
  {
    hide MicrosBetween, ReadingsOf;
  }

  lemma QuietRunIsTimed(rig: Rig, w: World, steps: seq<ChangeStep>)
    requires forall i :: 0 <= i < |steps| ==> AnsweredAtOnce(RunAll(rig, w, steps).1[i])
    ensures TimedInOrder(rig.at, w.ticks, RunAll(rig, w, steps).1)
    ensures RunAll(rig, w, steps).0.ticks == w.ticks + 3 * |steps|
  {
    hide *;
    RunIsTimed(rig, w, steps);
    ThreeReadingsEach(RunAll(rig, w, steps).1);
    TimedByThrees(rig, w.ticks, RunAll(rig, w, steps).1);
  }

  lemma TreeStep(input: SequenceInput, extract: Extractor, pinned: Tree, i: nat, tree: Tree)
    requires Pinned(input, extract, pinned) && Faithful(input, extract, pinned, i + 1)
    requires TreeAsPlanned(input, extract, pinned, i, tree)
    ensures var s := StepAt(input, i);
            && Applied(tree, s).Some?
            && TreeAsPlanned(input, extract, pinned, i + 1, Applied(tree, s).value)
            && Converged(FullIndex(extract, Applied(tree, s).value), s)
  {
    hide FamilyForPath, StepAt, TreeAsPlanned, Pinned, Faithful, Applied, ChangeSymbol;
    PinnedIsPlannable(input, extract, pinned);
    StepShape(input, i);
    var s := StepAt(input, i);
    match s.class_ {
      case Delete =>
        DeleteStep(input, extract, pinned, i, tree);
      case Add =>
        AddStep(input, extract, pinned, i, tree);
        assert NamesBare(FullIndex(extract, Applied(tree, s).value)[s.path], s.symbol);
      case _ =>
        EditStep(input, extract, pinned, i, tree);
        assert NamesBare(FullIndex(extract, Applied(tree, s).value)[s.path], s.symbol);
    }
  }

  /** In quiet weather a planned step completes on its first probe and leaves everything as planned. */
  lemma WorldStep(input: SequenceInput, rig: Rig, pinned: Tree, i: nat, w: World)
    requires Pinned(input, rig.extract, pinned) && Faithful(input, rig.extract, pinned, i + 1)
    requires Quiet(rig.env) && rig.maxProbes >= 1
    requires AsPlanned(input, rig.extract, pinned, i, w)
    ensures var (after, sample) := RunStep(rig, w, StepAt(input, i));
            && AnsweredAtOnce(sample) && after.sleeps == w.sleeps
            && AsPlanned(input, rig.extract, pinned, i + 1, after)
  {
    hide FamilyForPath, StepAt, TreeAsPlanned, Pinned, Faithful, Applied, Reindexed, Converged;
    PinnedIsPlannable(input, rig.extract, pinned);
    var s := StepAt(input, i);
    TreeStep(input, rig.extract, pinned, i, w.tree);
    IncrementalEqualsFull(rig.extract, w.tree, s);
  }

  /** After i steps of a quiet run: i immediate answers, no sleep, and the tree as planned. */
  lemma {:induction false} QuietRun(input: SequenceInput, rig: Rig, pinned: Tree, i: nat, w: World)
    requires Pinned(input, rig.extract, pinned) && Faithful(input, rig.extract, pinned, i)
    requires Quiet(rig.env) && rig.maxProbes >= 1
    requires w.tree == pinned && w.index == FullIndex(rig.extract, pinned)
    ensures var (after, samples) := RunAll(rig, w, Prefix(input, i));
            && AsPlanned(input, rig.extract, pinned, i, after)
            && after.sleeps == w.sleeps
            && forall j :: 0 <= j < i ==> AnsweredAtOnce(samples[j])
  {
    hide FamilyForPath, StepAt, AsPlanned, Pinned, Faithful, RunStep, AnsweredAtOnce;
    PinnedIsPlannable(input, rig.extract, pinned);
    if i == 0 {
      StartsAsPlanned(input, rig.extract, pinned, w);
    } else {
      FaithfulBefore(input, rig.extract, pinned, i - 1, i);
      QuietRun(input, rig, pinned, i - 1, w);
      var steps := Prefix(input, i);
      assert steps[..i - 1] == Prefix(input, i - 1);
      WorldStep(input, rig, pinned, i - 1, RunAll(rig, w, steps[..i - 1]).0);
    }
  }

  lemma StartsAsPlanned(input: SequenceInput, extract: Extractor, pinned: Tree, w: World)
    requires Pinned(input, extract, pinned)
    requires w.tree == pinned && w.index == FullIndex(extract, pinned)
    ensures AsPlanned(input, extract, pinned, 0, w)
  {
    hide FamilyForPath, StepAt;
  }

  /** At every prefix: the pinned paths plus at most one generated file, every pinned file extended only at its end,
      and each pinned file declaring exactly the symbols the steps so far appended to it. */
  lemma EveryPrefixIsPinnedPlusOne(input: SequenceInput, rig: Rig, pinned: Tree, i: nat, w: World)
    requires Pinned(input, rig.extract, pinned) && Faithful(input, rig.extract, pinned, i)
    requires Quiet(rig.env) && rig.maxProbes >= 1
    requires w.tree == pinned && w.index == FullIndex(rig.extract, pinned)
    ensures var tree := RunAll(rig, w, Prefix(input, i)).0.tree;
            && (exists extra: set<string> ::
                  tree.Keys == pinned.Keys + extra && |extra| <= 1 && forall p :: p in extra ==> GeneratedPath(p))
            && (forall p :: p in pinned ==> p in tree && tree[p] == ContentAfter(input, pinned, i, p))
            && (forall p :: p in pinned ==> pinned[p] <= tree[p])
            && (forall p, k: nat :: p in pinned ==>
                  (Declares(rig.extract, p, tree[p], k) <==> 1 <= k <= i && Edits(input, k - 1, p)))
            && (SlotOf(input, i) == 0 ==> tree.Keys == pinned.Keys)
  {
    hide FamilyForPath, StepAt, Pinned, Faithful, GeneratedPath, RunAll;
    PinnedIsPlannable(input, rig.extract, pinned);
    QuietRun(input, rig, pinned, i, w);
    var extra := Outstanding(input, i);
    forall p | p in extra
      ensures GeneratedPath(p)
    {
      OutstandingIsGenerated(input, i, p);
    }
    hide ContentAfter;
    forall p | p in pinned
      ensures pinned[p] <= ContentAfter(input, pinned, i, p)
    {
      ContentGrows(input, pinned, i, p);
    }
    var tree := RunAll(rig, w, Prefix(input, i)).0.tree;
    assert tree.Keys == pinned.Keys + extra && |extra| <= 1;
  }

  /** How many changes are asked for. */
  function Wanted(input: SequenceInput): nat { if input.count <= 0 then 0 else input.count }

  /** Plan and measure: over every filtered input and every count, each change completes at its first probe. */
  method MeasureIncremental(input: SequenceInput, driver: Driver, ghost pinned: Tree)
    returns (samples: seq<ChangeSample>)
    requires Pinned(input, driver.target.extract, pinned)
    requires Faithful(input, driver.target.extract, pinned, Wanted(input))
    requires Quiet(driver.target.env) && driver.maxProbes >= 1
    requires driver.target.tree == pinned && driver.target.index == FullIndex(driver.target.extract, pinned)
    modifies driver, driver.target
    ensures |samples| == Wanted(input)
    ensures forall i :: 0 <= i < |samples| ==>
      AnsweredAtOnce(samples[i]) && samples[i].step == i + 1 && samples[i].class_ == StepAt(input, i).class_
    ensures TimedInOrder(driver.at, old(driver.ticks), samples)
    ensures driver.sleeps == old(driver.sleeps) && driver.ticks == old(driver.ticks) + 3 * |samples|
    ensures forall p :: p in pinned ==>
      p in driver.target.tree && driver.target.tree[p] == ContentAfter(input, pinned, Wanted(input), p)
    ensures forall p :: p in pinned ==> pinned[p] <= driver.target.tree[p]
    ensures driver.target.index == FullIndex(driver.target.extract, driver.target.tree)
  {
    hide FamilyForPath, StepAt, Pinned, Faithful, Quiet, RunAll, Lawful, AnsweredAtOnce, TimedInOrder;
    hide ContentAfter;
    PinnedIsPlannable(input, driver.target.extract, pinned);
    forall p | p in pinned
      ensures pinned[p] <= ContentAfter(input, pinned, Wanted(input), p)
    {
      ContentGrows(input, pinned, Wanted(input), p);
    }
    var steps := BuildChangeSequence(input);
    assert steps == Prefix(input, |steps|);
    ghost var rig, w := driver.TheRig(), driver.TheWorld();
    samples := driver.Run(steps);
    QuietRun(input, rig, pinned, |steps|, w);
    RunIsLawful(rig, w, steps);
    QuietRunIsTimed(rig, w, steps);
    forall i | 0 <= i < |samples|
      ensures samples[i].step == i + 1 && samples[i].class_ == StepAt(input, i).class_
    {
      StepShape(input, i);
      LawfulNames(rig, steps[i], samples[i]);
    }
  }

  lemma LawfulNames(rig: Rig, s: ChangeStep, sample: ChangeSample)
    requires Lawful(rig, s, sample)
    ensures sample.step == s.index && sample.class_ == s.class_
  {
  }

  lemma PinnedIsPlannable(input: SequenceInput, extract: Extractor, pinned: Tree)
    requires Pinned(input, extract, pinned)
    ensures Plannable(input) && FamilyFiltered(input) && input.files != []
  {
    hide FamilyForPath;
    assert input.files[0] in input.files && Mutable(input.files[0]);
  }

  // ---- generated paths of the plan ---------------------------------------------------------------

  lemma DeletesAreGenerated(input: SequenceInput, i: nat)
    requires input.files != [] && FamilyFiltered(input)
    requires StepAt(input, i).class_ == Delete
    ensures GeneratedPath(StepAt(input, i).path)
  {
    hide FamilyForPath, StepAt, AddedFilePath, ChangeSymbol;
    DeleteUndoesItsAdd(input, i);
    var a := i - SlotOf(input, i) + 1;
    var dir, f := AddShape(input, a);
  }

  lemma GeneratedAt(dir: string, f: Family, n: nat)
    ensures GeneratedPath(AddedFilePath(dir, f, ChangeSymbol(n), n))
  {
    hide AddedFilePath, ChangeSymbol;
  }
}
