/** The planning loop: when it terminates, how far it gets, and the closed form it computes. */
module ChangePlanner {
  import opened Text
  import opened SourceFamily
  import opened ChangeSequence
  import Paths

  // ---- any file list: termination and length ---------------------------------------

  /** How many of the first k cycles find a file to change. */
  function Productive(input: SequenceInput, k: nat): nat
    requires input.files != []
  {
    if k == 0 then 0
    else Productive(input, k - 1) + (if Mutable(Anchor(input, k - 1)) then 1 else 0)
  }

  /** While the loop runs, its length counts the productive cycles; none lies beyond the break. */
  lemma {:induction false} RunningShape(input: SequenceInput, k: nat)
    requires input.files != [] && Running(input, After(input, k))
    ensures var st := After(input, k);
            && st.cycle == k
            && |st.steps| == Cycles(input, Productive(input, k))
            && (k > input.count + 1 ==> Productive(input, k) == Productive(input, input.count + 1))
  {
    hide FamilyForPath, FullCycle;
    if k > 0 {
      RunningShape(input, k - 1);
    }
  }

  lemma {:induction false} FruitlessShape(input: SequenceInput, k: nat)
    requires input.files != [] && 0 < input.count
    requires forall p :: p in input.files ==> !Mutable(p)
    ensures After(input, k) == LoopState(k, [], false)
  {
    hide FamilyForPath, FullCycle;
    if k > 0 {
      FruitlessShape(input, k - 1);
    }
  }

  lemma ReachesTheEnd(input: SequenceInput, k: nat, u: nat)
    requires u < |input.files| && Mutable(input.files[u])
    ensures Terminates(input)
    decreases input.count - |After(input, k).steps|, Distance(input, k, u)
  {
    hide FamilyForPath, FullCycle;
    if Running(input, After(input, k)) {
      RunningShape(input, k);
      if !Mutable(Anchor(input, k)) {
        DistanceShrinks(input, k, u);
      }
      ReachesTheEnd(input, k + 1, u);
    }
  }

  /** The loop ends exactly on the inputs that leave it something to plan, although it is documented as total. */
  lemma TerminatesIffPlannable(input: SequenceInput)
    requires input.files != []
    ensures Terminates(input) <==> Plannable(input)
  {
    hide FamilyForPath, FullCycle;
    if exists p :: p in input.files && Mutable(p) {
      var u: nat :| u < |input.files| && Mutable(input.files[u]);
      ReachesTheEnd(input, 0, u);
    } else if input.count <= 0 {
      assert !Running(input, After(input, 0));
    } else {
      forall k: nat ensures Running(input, After(input, k)) {
        FruitlessShape(input, k);
      }
    }
  }

  lemma ProductiveGrows(input: SequenceInput, j: nat, k: nat)
    requires input.files != [] && j <= k
    ensures Productive(input, j) <= Productive(input, k)
    decreases k
  {
    if j < k {
      ProductiveGrows(input, j, k - 1);
    }
  }

  /** The break cuts the plan short exactly when too few of the first count + 1 cycles had a file to change. */
  lemma {:induction false} FullLengthIff(input: SequenceInput, k: nat)
    requires input.files != [] && 0 < input.count && !Running(input, After(input, k))
    ensures |After(input, k).steps| <= input.count
    ensures |After(input, k).steps| == input.count
      <==> Cycles(input, Productive(input, input.count + 1) + 1) >= input.count
  {
    hide FamilyForPath, FullCycle, Turn, Cycles, Productive;
    if !Running(input, After(input, k - 1)) {
      FullLengthIff(input, k - 1);
    } else {
      LastTurn(input, k - 1);
    }
  }

  /** The pass that ends the loop: it was productive, and the plan is full exactly when one more cycle than the
      productive ones before the break would fill it. */
  lemma LastTurn(input: SequenceInput, k: nat)
    requires input.files != [] && Running(input, After(input, k)) && !Running(input, Turn(input, After(input, k)))
    ensures |Turn(input, After(input, k)).steps| <= input.count
    ensures |Turn(input, After(input, k)).steps| == input.count
      <==> Cycles(input, Productive(input, input.count + 1) + 1) >= input.count
  {
    hide *;
    RunningShape(input, k);
    TurnLength(input, After(input, k));
    var p, b := Productive(input, k), Productive(input, input.count + 1);
    NextCycle(input, p);
    if k <= input.count {
      ProductiveGrows(input, k, input.count + 1);
      CyclesGrow(input, p + 1, b + 1);
    }
  }

  /** A pass that ends the loop appends a cycle, cut at the wanted length, and stops exactly beyond the break's bound.
      */
  lemma TurnLength(input: SequenceInput, st: LoopState)
    requires input.files != [] && Running(input, st) && !Running(input, Turn(input, st))
    ensures var full, next := |st.steps| + CycleLength(input), Turn(input, st);
            && |next.steps| == (if full <= input.count then full else input.count)
            && (st.cycle > input.count || |next.steps| == input.count)
  {
    hide FamilyForPath, FullCycle;
  }

  lemma NextCycle(input: SequenceInput, k: nat)
    ensures Cycles(input, k + 1) == Cycles(input, k) + CycleLength(input)
  {
  }

  lemma CyclesGrow(input: SequenceInput, j: int, k: int)
    requires j <= k
    ensures Cycles(input, j) <= Cycles(input, k)
  {
  }

  // ---- family-filtered lists: the closed form ---------------------------------------

  /** The first m steps of the closed form. */
  function Prefix(input: SequenceInput, m: nat): (steps: seq<ChangeStep>)
    requires FamilyFiltered(input) && input.files != []
    ensures |steps| == m && forall i :: 0 <= i < m ==> steps[i] == StepAt(input, i)
  {
    seq(m, i requires 0 <= i => StepAt(input, i))
  }

  function Min(a: int, b: int): int { if a <= b then a else b }

  lemma CycleIsTheClosedForm(input: SequenceInput, k: nat, j: nat)
    requires FamilyFiltered(input) && input.files != [] && j < CycleLength(input)
    ensures 0 <= Cycles(input, k)
    ensures FullCycle(input, k, Cycles(input, k))[j] == StepAt(input, Cycles(input, k) + j)
  {
    hide FamilyForPath, FullCycle;
    var i := Cycles(input, k) + j;
    assert CycleOf(input, i) == k && SlotOf(input, i) == j;
  }

  /** What one cycle appends continues the closed form. */
  lemma CycleExtendsThePrefix(input: SequenceInput, k: nat)
    requires FamilyFiltered(input) && input.files != [] && Cycles(input, k) < input.count
    ensures var done := Cycles(input, k);
            done >= 0 && Prefix(input, done) + Fitting(FullCycle(input, k, done), input.count - done)
              == Prefix(input, Min(input.count, Cycles(input, k + 1)))
  {
    hide FamilyForPath, FullCycle, StepAt, Cycles;
    NextCycle(input, k);
    var done := Cycles(input, k);
    CycleIsTheClosedForm(input, k, 0);
    var block := FullCycle(input, k, done);
    var steps := Prefix(input, done) + Fitting(block, input.count - done);
    forall i | 0 <= i < |steps|
      ensures steps[i] == StepAt(input, i)
    {
      if i >= done {
        CycleIsTheClosedForm(input, k, i - done);
      }
    }
  }

  lemma {:induction false} CyclesAreTheClosedForm(input: SequenceInput, k: nat)
    requires FamilyFiltered(input) && input.files != [] && 0 < input.count
    requires k == 0 || Cycles(input, k - 1) < input.count
    ensures After(input, k) == LoopState(k, Prefix(input, Min(input.count, Cycles(input, k))), false)
  {
    hide FamilyForPath, FullCycle, StepAt, Fitting;
    if k > 0 {
      CyclesAreTheClosedForm(input, k - 1);
      CycleExtendsThePrefix(input, k - 1);
    }
  }

  /** The four guarded slots of one cycle. */
  method AppendCycle(input: SequenceInput, cycle: nat, before: seq<ChangeStep>) returns (steps: seq<ChangeStep>)
    requires input.files != [] && |before| < input.count && Mutable(Anchor(input, cycle))
    ensures steps == before + Fitting(FullCycle(input, cycle, |before|), input.count - |before|)
  {
    hide FamilyForPath, Paths.Dir, AddedFilePath, ChangeSymbol, PackageKey;
    WrapIsModulo(cycle, |input.files|);
    var base := input.files[cycle % |input.files|];
    var dir := Paths.Dir(base);
    var f := FamilyForPath(base).value;
    steps := before;
    if |steps| < input.count {
      steps := steps + [ChangeStep(|steps| + 1, Modify, base, "", ChangeSymbol(|steps| + 1), 0)];
    }
    var addIndex := 0;
    if |steps| < input.count {
      var index := |steps| + 1;
      var symbol := ChangeSymbol(index);
      steps := steps + [ChangeStep(index, Add, AddedFilePath(dir, f, symbol, index),
                                   Lookup(input.packages, PackageKey(dir, f)), symbol, 0)];
      addIndex := index;
    }
    if |steps| < input.count && |input.targets| > 0 {
      WrapIsModulo(cycle, |input.targets|);
      var index := |steps| + 1;
      steps := steps + [ChangeStep(index, CrossPackage, input.targets[cycle % |input.targets|], "",
                                   ChangeSymbol(index), 0)];
    }
    if |steps| < input.count && addIndex > 0 {
      var index := |steps| + 1;
      steps := steps + [ChangeStep(index, Delete, AddedFilePath(dir, f, ChangeSymbol(addIndex), addIndex), "",
                                   ChangeSymbol(addIndex), addIndex)];
    }
  }

  /** The planner: `input.count` steps come out of a filtered list, in the closed form. */
  method BuildChangeSequence(input: SequenceInput) returns (steps: seq<ChangeStep>)
    requires Plannable(input)
    ensures input.count <= 0 || input.files == [] ==> steps == []
    ensures 0 < input.count && input.files != [] ==>
      exists k: nat :: !Running(input, After(input, k)) && steps == After(input, k).steps
    ensures FamilyFiltered(input) ==> steps == Plan(input)
  {
    hide FamilyForPath, FullCycle, StepAt, After;
    AfterZero(input);
    if input.count <= 0 || input.files == [] {
      return [];
    }
    ghost var u: nat :| u < |input.files| && Mutable(input.files[u]);
    steps := [];
    var cycle := 0;
    var stopped := false;
    while |steps| < input.count
      invariant 0 <= cycle && |steps| <= input.count && !stopped
      invariant After(input, cycle) == LoopState(cycle, steps, stopped)
      decreases input.count - |steps|, Distance(input, cycle, u)
    {
      AfterNext(input, cycle);
      WrapIsModulo(cycle, |input.files|);
      var family := FamilyForPath(input.files[cycle % |input.files|]);
      if family == None {
        DistanceShrinks(input, cycle, u);
        cycle := cycle + 1;
        continue;
      }
      steps := AppendCycle(input, cycle, steps);
      stopped := cycle > input.count;
      cycle := cycle + 1;
      if stopped {
        break;
      }
    }
    // buildChangeSequence's final truncation is unreachable here: no cycle appends more than fits.
    assert |steps| <= input.count;
    if FamilyFiltered(input) {
      FilteredRunEndsWithThePlan(input, cycle);
    }
  }

  lemma AfterZero(input: SequenceInput)
    ensures input.files != [] ==> After(input, 0) == LoopState(0, [], false)
  {
    hide FamilyForPath, FullCycle;
  }

  lemma AfterNext(input: SequenceInput, k: nat)
    requires input.files != [] && Running(input, After(input, k))
    ensures After(input, k + 1) == Turn(input, After(input, k))
  {
    hide FamilyForPath, FullCycle;
  }

  /** Over a filtered list the loop can only stop with the whole closed form. */
  lemma {:induction false} FilteredRunEndsWithThePlan(input: SequenceInput, k: nat)
    requires FamilyFiltered(input) && input.files != [] && 0 < input.count
    requires !Running(input, After(input, k))
    ensures After(input, k).steps == Plan(input)
  {
    hide FamilyForPath, FullCycle, StepAt, Turn, Productive;
    if !Running(input, After(input, k - 1)) {
      FilteredRunEndsWithThePlan(input, k - 1);
    } else {
      RunningShape(input, k - 1);
      AllProductive(input, k - 1);
      CyclesAreTheClosedForm(input, k);
    }
  }

  lemma {:induction false} AllProductive(input: SequenceInput, k: nat)
    requires FamilyFiltered(input) && input.files != []
    ensures Productive(input, k) == k
  {
    hide FamilyForPath, FullCycle;
    if k > 0 {
      AllProductive(input, k - 1);
    }
  }

  // ---- what the closed form says ----------------------------------------------------

  /** A shorter run is the beginning of a longer one. */
  lemma PlansArePrefixes(input: SequenceInput, m: int, n: int)
    requires FamilyFiltered(input) && m <= n
    ensures Plan(input.(count := m)) <= Plan(input.(count := n))
  {
    hide FamilyForPath, FullCycle;
    if 0 < m && input.files != [] {
      forall i | 0 <= i < m
        ensures Plan(input.(count := m))[i] == Plan(input.(count := n))[i]
      {
        assert StepAt(input.(count := m), i) == StepAt(input.(count := n), i) by { SameInputs(input, m, n, i); }
      }
    }
  }

  lemma SameInputs(input: SequenceInput, m: int, n: int, i: nat)
    requires FamilyFiltered(input) && input.files != []
    ensures StepAt(input.(count := m), i) == StepAt(input.(count := n), i)
  {
    hide FamilyForPath, Paths.Dir, AddedFilePath, ChangeSymbol, PackageKey;
  }

  /** The slot a class occupies in its cycle; None for the class that is skipped. */
  function SlotOfClass(input: SequenceInput, c: ChangeClass): Option<nat> {
    match c
    case Modify => Some(0)
    case Add => Some(1)
    case CrossPackage => if input.targets == [] then None else Some(2)
    case Delete => Some(CycleLength(input) - 1)
  }

  /** What step i is: its number, its class by slot, and the step a delete undoes. */
  lemma StepShape(input: SequenceInput, i: nat)
    requires FamilyFiltered(input) && input.files != []
    ensures var s := StepAt(input, i);
            && s.index == i + 1
            && SlotOfClass(input, s.class_) == Some(SlotOf(input, i))
            && (s.class_ != Delete ==> s.symbol == ChangeSymbol(i + 1) && s.deleteTargets == 0)
            && (s.class_ == Modify ==> s.path in input.files)
            && (s.class_ == CrossPackage ==> s.path in input.targets)
  {
    hide FamilyForPath, Paths.Dir, AddedFilePath, ChangeSymbol, PackageKey;
  }

  /** What step i is, from the step number alone: its class by the remainder, and by the quotient the listed file it
      edits or sets its new file beside, or the target it edits. A new file takes the family of the listed file and the
      clause recorded for that file's directory and family. */
  lemma StepByNumber(input: SequenceInput, i: nat)
    requires FamilyFiltered(input) && input.files != []
    ensures var n := if input.targets == [] then 3 else 4;
            var s, base := StepAt(input, i), input.files[(i / n) % |input.files|];
            && (s.class_ == Modify <==> i % n == 0)
            && (s.class_ == Add <==> i % n == 1)
            && (s.class_ == CrossPackage <==> n == 4 && i % n == 2)
            && (s.class_ == Delete <==> i % n == n - 1)
            && (s.class_ == Modify ==> s.path == base)
            && (s.class_ == CrossPackage ==> s.path == input.targets[(i / n) % |input.targets|])
            && FamilyForPath(base).Some?
            && (s.class_ == Add ==>
                  var dir, f := Paths.Dir(base), FamilyForPath(base).value;
                  && s.path == AddedFilePath(dir, f, ChangeSymbol(i + 1), i + 1)
                  && s.pkg == Lookup(input.packages, PackageKey(dir, f)))
  {
    hide FamilyForPath, Paths.Dir, AddedFilePath, ChangeSymbol, PackageKey, Lookup;
    var n := if input.targets == [] then 3 else 4;
    var cycle := CycleOf(input, i);
    WrapIsModulo(cycle, |input.files|);
    if input.targets != [] {
      WrapIsModulo(cycle, |input.targets|);
    }
    assert cycle == i / n && SlotOf(input, i) == i % n;
    assert Anchor(input, cycle) in input.files && Mutable(Anchor(input, cycle));
  }

  /** An added file lies beside the listed file of its cycle, belongs to that file's family, and carries the clause
      recorded for its own directory and family. */
  lemma AddJoinsItsDirectory(input: SequenceInput, i: nat)
    requires FamilyFiltered(input) && input.files != [] && StepAt(input, i).class_ == Add
    ensures var n := if input.targets == [] then 3 else 4;
            var s, base := StepAt(input, i), input.files[(i / n) % |input.files|];
            && Paths.Dir(s.path) == Paths.Dir(base)
            && FamilyForPath(s.path) == FamilyForPath(base) && FamilyForPath(base).Some?
            && s.pkg == Lookup(input.packages, PackageKey(Paths.Dir(s.path), FamilyForPath(s.path).value))
  {
    hide FamilyForPath, StepAt, Paths.Dir, AddedFilePath, ChangeSymbol, PackageKey, Lookup;
    StepByNumber(input, i);
    var base := input.files[(i / (if input.targets == [] then 3 else 4)) % |input.files|];
    AddedFileIsASibling(base, FamilyForPath(base).value, i + 1);
  }

  lemma AddedFileIsASibling(base: string, f: Family, n: nat)
    ensures var p := AddedFilePath(Paths.Dir(base), f, ChangeSymbol(n), n);
            Paths.Dir(p) == Paths.Dir(base) && FamilyForPath(p) == Some(f)
  {
    var dir, name := Paths.Dir(base), AddedFileBase(f, ChangeSymbol(n), n);
    var p := AddedFilePath(dir, f, ChangeSymbol(n), n);
    SymbolsArePlain(n);
    AddedFileBaseExt(f, ChangeSymbol(n), n);
    AddedFileKeepsItsFamily(f, dir, ChangeSymbol(n), n, p);
    hide FamilyForPath, AddedFileBase, ChangeSymbol;
    SiblingDir(base, name);
  }

  lemma SiblingDir(base: string, name: string)
    requires '/' !in name
    ensures var dir := Paths.Dir(base);
            Paths.Dir(if dir == "." || dir == "" then name else dir + "/" + name) == dir
  {
    var dir := Paths.Dir(base);
    Paths.DirOfJoined(base[..Paths.LastSlash(base)], name);
    Paths.LastSlashOfElement(name);
    assert name[..0] == "";
    Paths.CleanIsNotEmpty(base[..Paths.LastSlash(base)]);
    hide Paths.Clean, Paths.LastSlash;
    assert Paths.Clean("") == "." by { Paths.CleanOfNothing(); }
  }

  /** A delete names exactly the file, the symbol and the number of the add that precedes it in its own cycle. */
  lemma DeleteUndoesItsAdd(input: SequenceInput, i: nat)
    requires FamilyFiltered(input) && input.files != [] && StepAt(input, i).class_ == Delete
    ensures var a := i - SlotOf(input, i) + 1;
            && a < i && StepAt(input, a).class_ == Add
            && StepAt(input, a).path == StepAt(input, i).path
            && StepAt(input, a).symbol == StepAt(input, i).symbol
            && StepAt(input, a).index == StepAt(input, i).deleteTargets
  {
    hide FamilyForPath, Paths.Dir, AddedFilePath, ChangeSymbol, PackageKey;
    StepShape(input, i);
    var a := i - SlotOf(input, i) + 1;
    assert CycleOf(input, a) == CycleOf(input, i) && SlotOf(input, a) == 1;
  }

  /** How many of the first m steps are of class c. */
  function CountClass(input: SequenceInput, c: ChangeClass, m: nat): nat
    requires FamilyFiltered(input) && input.files != []
  {
    if m == 0 then 0
    else CountClass(input, c, m - 1) + (if StepAt(input, m - 1).class_ == c then 1 else 0)
  }

  lemma {:induction false} CountClosed(input: SequenceInput, c: ChangeClass, m: nat)
    requires FamilyFiltered(input) && input.files != [] && SlotOfClass(input, c).Some?
    ensures var slot := SlotOfClass(input, c).value;
            CountClass(input, c, m) == CycleOf(input, m) + (if SlotOf(input, m) > slot then 1 else 0)
  {
    hide FamilyForPath, FullCycle, StepAt, CycleOf, SlotOf;
    if m > 0 {
      CountClosed(input, c, m - 1);
      StepShape(input, m - 1);
      SlotsAdvance(input, m - 1);
      SlotTellsTheClass(input, StepAt(input, m - 1).class_, c);
    } else {
      FirstSlot(input);
    }
  }

  lemma FirstSlot(input: SequenceInput)
    ensures CycleOf(input, 0) == 0 && SlotOf(input, 0) == 0
  {
  }

  lemma SlotsAdvance(input: SequenceInput, i: nat)
    ensures SlotOf(input, i + 1) == if SlotOf(input, i) + 1 == CycleLength(input) then 0 else SlotOf(input, i) + 1
    ensures CycleOf(input, i + 1) == CycleOf(input, i) + if SlotOf(input, i) + 1 == CycleLength(input) then 1 else 0
  {
  }

  /** Two classes with the same slot are the same, and every slot lies in the cycle. */
  lemma SlotTellsTheClass(input: SequenceInput, c: ChangeClass, d: ChangeClass)
    requires SlotOfClass(input, c).Some? && SlotOfClass(input, d).Some?
    ensures SlotOfClass(input, c) == SlotOfClass(input, d) <==> c == d
    ensures SlotOfClass(input, d).value < CycleLength(input)
  {
  }

  /** After any number of steps the classes in use are within one of each other; a skipped class stays at zero. */
  lemma ClassesStayBalanced(input: SequenceInput, c: ChangeClass, d: ChangeClass, m: nat)
    requires FamilyFiltered(input) && input.files != []
    requires SlotOfClass(input, c).Some? && SlotOfClass(input, d).Some?
    ensures CountClass(input, c, m) <= CountClass(input, d, m) + 1
    ensures input.targets == [] ==> CountClass(input, CrossPackage, m) == 0
  {
    hide FamilyForPath, FullCycle, StepAt;
    CountClosed(input, c, m);
    CountClosed(input, d, m);
    if input.targets == [] {
      NoSubstitute(input, m);
    }
  }

  lemma {:induction false} NoSubstitute(input: SequenceInput, m: nat)
    requires FamilyFiltered(input) && input.files != [] && input.targets == []
    ensures CountClass(input, CrossPackage, m) == 0
  {
    hide FamilyForPath, FullCycle, StepAt;
    if m > 0 {
      NoSubstitute(input, m - 1);
      StepShape(input, m - 1);
    }
  }
}
