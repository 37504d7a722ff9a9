/** The change sequence: a fixed cycle of changes over a file list, planned as data. */
module ChangeSequence {
  import opened Decimal
  import opened Paths
  import opened SourceFamily

  datatype ChangeClass = Modify | Add | CrossPackage | Delete

  datatype ChangeStep = ChangeStep(
    index: nat, class_: ChangeClass, path: string, pkg: string, symbol: string, deleteTargets: nat)

  /** files are canonical repo-relative paths, targets the paths of the ranked cross-package files. */
  datatype SequenceInput = SequenceInput(
    files: seq<string>, packages: map<string, string>, targets: seq<string>, count: int)

  function ChangeSymbol(n: nat): string { "GraphiEvalStep" + Padded(n) }

  /** Step n's symbol is the fixed word and the number in at least four places, no more than it needs. */
  lemma SymbolForm(n: nat)
    ensures var digits := ChangeSymbol(n)[14..];
            && ChangeSymbol(n)[..14] == "GraphiEvalStep"
            && AllDigits(digits) && Value(digits) == n && |digits| >= 4 && (|digits| == 4 <==> n < 10000)
  {
    assert ChangeSymbol(n)[14..] == Padded(n);
    hide Padded, Value;
    ValueOfPadded(n);
    PaddedWidth(n);
  }

  lemma SymbolsArePlain(n: nat)
    ensures '/' !in ChangeSymbol(n) && '\n' !in ChangeSymbol(n) && '.' !in ChangeSymbol(n)
  {
    assert AllDigits(Padded(n));
    var head := "GraphiEvalStep";
    assert '/' !in head && '\n' !in head && '.' !in head;
  }

  function AddedFilePath(dir: string, f: Family, symbol: string, n: nat): string {
    var name := AddedFileBase(f, symbol, n);
    if dir == "." || dir == "" then name else dir + "/" + name
  }

  function PackageKey(dir: string, f: Family): string { Name(f) + "\0" + dir }

  function Lookup(packages: map<string, string>, key: string): string {
    if key in packages then packages[key] else ""
  }

  // ---- the closed form -----------------------------------------------------------

  /** Steps per cycle: the cross-package slot is skipped, never substituted, when no target qualified. */
  function CycleLength(input: SequenceInput): (l: nat)
    ensures l == 3 || l == 4
  {
    if input.targets == [] then 3 else 4
  }

  /** k whole cycles, in steps. */
  function Cycles(input: SequenceInput, k: int): int {
    if input.targets == [] then 3 * k else 4 * k
  }

  function CycleOf(input: SequenceInput, i: nat): nat {
    if input.targets == [] then i / 3 else i / 4
  }

  function SlotOf(input: SequenceInput, i: nat): (s: nat)
    ensures s < CycleLength(input) && s <= i
  {
    if input.targets == [] then i % 3 else i % 4
  }

  predicate Mutable(p: string) { FamilyForPath(p).Some? }

  /** cycle modulo n. */
  function Wrap(cycle: nat, n: nat): (r: nat)
    requires n > 0
    ensures r < n
  {
    if cycle < n then cycle else Wrap(cycle - n, n)
  }

  function Anchor(input: SequenceInput, cycle: nat): string
    requires input.files != []
  {
    input.files[Wrap(cycle, |input.files|)]
  }

  /** The whole cycle that starts after `done` steps. */
  function FullCycle(input: SequenceInput, cycle: nat, done: nat): (block: seq<ChangeStep>)
    requires input.files != [] && Mutable(Anchor(input, cycle))
    ensures |block| == CycleLength(input)
  {
    var base := Anchor(input, cycle);
    var dir := Dir(base);
    var f := FamilyForPath(base).value;
    var add := done + 2;
    var cross := if input.targets == [] then [] else
      [ChangeStep(done + 3, CrossPackage, input.targets[Wrap(cycle, |input.targets|)], "", ChangeSymbol(done + 3), 0)];
    var added := AddedFilePath(dir, f, ChangeSymbol(add), add);
    [ChangeStep(done + 1, Modify, base, "", ChangeSymbol(done + 1), 0),
     ChangeStep(add, Add, added, Lookup(input.packages, PackageKey(dir, f)), ChangeSymbol(add), 0)]
    + cross
    + [ChangeStep(done + CycleLength(input), Delete, added, "", ChangeSymbol(add), add)]
  }

  /** Every listed file has a mutation contract: what the caller's filter guarantees. */
  ghost predicate FamilyFiltered(input: SequenceInput) {
    forall p :: p in input.files ==> Mutable(p)
  }

  /** Step i (from 0) in closed form: the cycle and the slot are i divided by the cycle length. */
  function StepAt(input: SequenceInput, i: nat): ChangeStep
    requires input.files != [] && FamilyFiltered(input)
  {
    FullCycle(input, CycleOf(input, i), i - SlotOf(input, i))[SlotOf(input, i)]
  }

  function Plan(input: SequenceInput): (steps: seq<ChangeStep>)
    requires FamilyFiltered(input)
  {
    if input.count <= 0 || input.files == [] then []
    else seq(input.count, i requires 0 <= i => StepAt(input, i))
  }

  // ---- the loop --------------------------------------------------------------------

  /** The planning loop's variables; `stopped` records the break. */
  datatype LoopState = LoopState(cycle: nat, steps: seq<ChangeStep>, stopped: bool)

  /** What is left of a block when only `room` more steps are wanted. */
  function Fitting(block: seq<ChangeStep>, room: nat): (fit: seq<ChangeStep>)
    ensures |fit| == if |block| <= room then |block| else room
  {
    if |block| <= room then block else block[..room]
  }

  /** One pass of the loop body. */
  function Turn(input: SequenceInput, st: LoopState): LoopState
    requires input.files != [] && |st.steps| < input.count
  {
    if !Mutable(Anchor(input, st.cycle)) then st.(cycle := st.cycle + 1)
    else
      var block := FullCycle(input, st.cycle, |st.steps|);
      var room := input.count - |st.steps|;
      LoopState(st.cycle + 1, st.steps + Fitting(block, room), st.cycle > input.count)
  }

  predicate Running(input: SequenceInput, st: LoopState) { !st.stopped && |st.steps| < input.count }

  /** The loop's variables after k passes; once the loop has stopped they no longer change. */
  function After(input: SequenceInput, k: nat): LoopState
    requires input.files != []
  {
    if k == 0 then LoopState(0, [], false)
    else
      var st := After(input, k - 1);
      if Running(input, st) then Turn(input, st) else st
  }

  ghost predicate Terminates(input: SequenceInput)
    requires input.files != []
  {
    exists k: nat :: !Running(input, After(input, k))
  }

  /** The file list has something to change, or nothing was asked for. */
  ghost predicate Plannable(input: SequenceInput) {
    input.count <= 0 || input.files == [] || exists p :: p in input.files && Mutable(p)
  }

  /** How many of the next files, from cycle on, must be skipped before u's turn. */
  function Distance(input: SequenceInput, cycle: nat, u: nat): (d: nat)
    requires u < |input.files|
  {
    var at := Wrap(cycle, |input.files|);
    if at <= u then u - at else u - at + |input.files|
  }

  lemma DistanceShrinks(input: SequenceInput, cycle: nat, u: nat)
    requires u < |input.files| && Wrap(cycle, |input.files|) != u
    ensures Distance(input, cycle + 1, u) < Distance(input, cycle, u)
  {
    NextIndex(cycle, |input.files|);
  }

  lemma {:induction false} NextIndex(cycle: nat, n: nat)
    requires n > 0
    ensures Wrap(cycle + 1, n) == if Wrap(cycle, n) == n - 1 then 0 else Wrap(cycle, n) + 1
  {
    if cycle >= n {
      NextIndex(cycle - n, n);
    }
  }

  lemma {:induction false} WrapIsModulo(cycle: nat, n: nat)
    requires n > 0
    ensures Wrap(cycle, n) == cycle % n
  {
    if cycle >= n {
      WrapIsModulo(cycle - n, n);
      ModuloStep(cycle - n, n);
    } else {
      Quotient(0, n, cycle);
    }
  }

  lemma ModuloStep(x: nat, n: nat)
    requires n > 0
    ensures (x + n) % n == x % n
  {
    var q, r := x / n, x % n;
    assert q * n + n == (q + 1) * n;
    Quotient(q + 1, n, r);
  }

  lemma Quotient(q: nat, n: nat, r: nat)
    requires r < n
    ensures 0 <= q * n && (q * n + r) / n == q && (q * n + r) % n == r
  {
    assert 0 <= q * n;
    var x := q * n + r;
    var q', r' := x / n, x % n;
    assert x == q' * n + r' && 0 <= r' < n;
    Multiple(q - q', n);
    assert (q - q') * n == r' - r;
  }

  lemma Multiple(d: int, n: int)
    requires n > 0
    ensures d == 0 || d * n >= n || d * n <= 0 - n
  {
    if d >= 1 {
      assert (d - 1) * n >= 0;
    } else if d <= -1 {
      assert (0 - d - 1) * n >= 0;
    }
  }
}
