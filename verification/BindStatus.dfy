/** The MCP bind status and its throttled "still waiting" announcements. */
module BindStatus {

  /** lockWaitingAnnounceGap, in nanoseconds. */
  const AnnounceGap := 60_000_000_000

  /** time.Time{}: the reading that means "never". */
  const Never := 0

  datatype Mode = Idle | Binding | Waiting | Indexing

  datatype BindEvent = RootResolved(root: string) | LockWaiting(root: string) | LockAcquired

  datatype Line =
    BindingRoot(root: string) | FirstWaiting(root: string) | StillWaiting(root: string, waited: int) | Acquired

  ghost predicate Monotone(at: nat -> int) {
    forall i: nat, j: nat :: i <= j ==> at(i) <= at(j)
  }

  ghost predicate NeverReadsZero(at: nat -> int) {
    forall i: nat :: at(i) != Never
  }

  /** Consecutive announcements are at least the gap apart. */
  ghost predicate Spaced(times: seq<int>) {
    forall i :: 0 <= i < |times| - 1 ==> times[i] + AnnounceGap <= times[i + 1]
  }

  // ---- the machine as a function ------------------------------------------------------------

  /** The fields that decide what is printed, and the instants recorded for the waiting lines of this attempt. */
  datatype Trace = Trace(ticks: nat, mode: Mode, root: string, waitStart: int, last: int, announced: seq<int>)

  /** Only the first busy observation of a wait stamps its start. */
  function Heard(at: nat -> int, t: Trace, ev: BindEvent): Trace {
    match ev
    case RootResolved(root) => t.(root := root)
    case LockWaiting(root) =>
      if t.mode == Waiting then t.(root := root)
      else t.(mode := Waiting, waitStart := at(t.ticks), ticks := t.ticks + 1, root := root)
    case LockAcquired => t.(mode := Binding)
  }

  /** A waiting line is due when it is the attempt's first or the gap has passed at the next reading. */
  predicate Due(at: nat -> int, t: Trace) {
    t.last == Never || at(t.ticks) - t.last >= AnnounceGap
  }

  /** A due line is stamped at the reading after the one that found it due; each announcement reads once more. */
  function Announced(at: nat -> int, t: Trace, ev: BindEvent): Trace {
    if !ev.LockWaiting? then t
    else
      var k := if t.last == Never then t.ticks else t.ticks + 1;
      if Due(at, t) then t.(last := at(k), announced := t.announced + [at(k)], ticks := k + 2)
      else t.(ticks := k + 1)
  }

  const Second := 1_000_000_000

  /** Truncate(time.Second), toward zero. */
  function WholeSeconds(d: int): (w: int)
    ensures d >= 0 ==> w <= d < w + 1_000_000_000
    ensures d < 0 ==> w - 1_000_000_000 < d <= w
    ensures w % 1_000_000_000 == 0
  {
    if d >= 0 then
      WholeMultiple(d / Second);
      d / Second * Second
    else
      WholeMultiple(-(-d / Second));
      -(-d / Second) * Second
  }

  lemma WholeMultiple(q: int)
    ensures q * Second % 1_000_000_000 == 0
  {
  }

  function Printed(at: nat -> int, t: Trace, ev: BindEvent): seq<Line> {
    match ev
    case RootResolved(root) => [BindingRoot(root)]
    case LockWaiting(root) =>
      if !Due(at, t) then []
      else if t.last == Never then [FirstWaiting(root)]
      else [StillWaiting(root, WholeSeconds(at(t.ticks + 2) - t.waitStart))]
    case LockAcquired => [Acquired]
  }

  class Status {
    const at: nat -> int
    var ticks: nat
    var mode: Mode
    var root: string
    var phase: string
    var done: int
    var total: int
    var start: int
    var waitStart: int
    var lastWaitAnnounce: int
    /** The instants recorded for the waiting lines of this attempt. */
    ghost var announced: seq<int>

    constructor (at: nat -> int)
      ensures this.at == at && ticks == 0 && mode == Idle && lastWaitAnnounce == Never && announced == []
    {
      this.at := at;
      ticks, mode, root, phase, done, total := 0, Idle, "", "", 0, 0;
      start, waitStart, lastWaitAnnounce, announced := Never, Never, Never, [];
    }

    /** The throttle's memory is the last announcement of the attempt, and it lies in the past. */
    ghost predicate Valid()
      reads this
    {
      && lastWaitAnnounce == (if announced == [] then Never else announced[|announced| - 1])
      && Spaced(announced)
      && (forall i :: 0 <= i < |announced| ==> Never != announced[i] <= at(ticks))
    }

    ghost function TheTrace(): Trace
      reads this
    {
      Trace(ticks, mode, root, waitStart, lastWaitAnnounce, announced)
    }

    method Now() returns (t: int)
      requires Monotone(at)
      modifies this`ticks
      ensures t == at(old(ticks)) && ticks == old(ticks) + 1
      ensures old(Valid()) ==> Valid()
    {
      t := at(ticks);
      ticks := ticks + 1;
      assert at(ticks - 1) <= at(ticks);
    }

    method BeginAttempt()
      requires Monotone(at)
      modifies this
      ensures Valid() && mode == Binding && root == "" && announced == []
      ensures start == at(old(ticks)) && TheTrace() == Trace(old(ticks) + 1, Binding, "", Never, Never, [])
    {
      mode, root, phase, done, total := Binding, "", "", 0, 0;
      start := at(ticks);
      ticks := ticks + 1;
      waitStart := Never;
      lastWaitAnnounce, announced := Never, [];
    }

    /** Only the first busy observation of a wait stamps its start. */
    method HandleEvent(ev: BindEvent)
      requires Monotone(at) && Valid()
      modifies this`ticks, this`mode, this`root, this`waitStart
      ensures Valid() && TheTrace() == Heard(at, old(TheTrace()), ev)
      ensures old(mode) == Waiting || !ev.LockWaiting? ==> waitStart == old(waitStart) && ticks == old(ticks)
      ensures old(mode) != Waiting && ev.LockWaiting? ==> waitStart == at(old(ticks)) && ticks == old(ticks) + 1
      ensures mode ==
        match ev case RootResolved(_) => old(mode) case LockWaiting(_) => Waiting case LockAcquired => Binding
      ensures root == if ev.LockAcquired? then old(root) else ev.root
    {
      match ev {
        case RootResolved(r) =>
          root := r;
        case LockWaiting(r) =>
          if mode != Waiting {
            mode := Waiting;
            waitStart := Now();
          }
          root := r;
        case LockAcquired =>
          mode := Binding;
      }
    }

    method HandleProgress(phase: string, done: int, total: int)
      requires Valid()
      modifies this`mode, this`phase, this`done, this`total
      ensures Valid() && mode == Indexing && this.phase == phase && this.done == done && this.total == total
    {
      mode, this.phase, this.done, this.total := Indexing, phase, done, total;
    }

    method Clear()
      requires Valid()
      modifies this`mode
      ensures Valid() && mode == Idle
    {
      mode := Idle;
    }

    /** Records the next reading as an announcement. */
    method Stamp()
      requires Monotone(at) && Valid()
      modifies this`ticks, this`lastWaitAnnounce, this`announced
      ensures ticks == old(ticks) + 1 && lastWaitAnnounce == at(old(ticks))
      ensures announced == old(announced) + [at(old(ticks))]
      ensures old(lastWaitAnnounce) == Never || lastWaitAnnounce - old(lastWaitAnnounce) >= AnnounceGap ==>
        (NeverReadsZero(at) ==> Valid())
    {
      hide Spaced;
      ghost var earlier := announced;
      var now := at(ticks);
      ticks := ticks + 1;
      assert at(ticks - 1) <= at(ticks);
      lastWaitAnnounce, announced := now, announced + [now];
      SpacedBefore(earlier, now);
    }

    /** A busy lock: nothing within the gap, otherwise one line and one recorded instant. */
    method AnnounceWait(root: string) returns (lines: seq<Line>)
      requires Monotone(at) && Valid()
      modifies this`ticks, this`lastWaitAnnounce, this`announced
      ensures TheTrace() == Announced(at, old(TheTrace()), LockWaiting(root))
      ensures lines == Printed(at, old(TheTrace()), LockWaiting(root))
      ensures NeverReadsZero(at) ==> Valid()
    {
      hide Spaced, WholeSeconds;
      var first := lastWaitAnnounce == Never;
      var throttled := false;
      if !first {
        var now := Now();
        throttled := now - lastWaitAnnounce < AnnounceGap;
      }
      if throttled {
        var now := Now();
        return [];
      }
      assert old(ticks) < ticks ==> at(old(ticks)) <= at(ticks);
      Stamp();
      var now := Now();
      lines := if first then [FirstWaiting(root)] else [StillWaiting(root, WholeSeconds(now - waitStart))];
    }

    /** Prints at most one line. A waiting line is printed exactly when it is the attempt's first or the gap has
        passed. */
    method AnnounceBindEvent(ev: BindEvent) returns (lines: seq<Line>)
      requires Monotone(at) && Valid()
      modifies this`ticks, this`lastWaitAnnounce, this`announced
      ensures TheTrace() == Announced(at, old(TheTrace()), ev) && lines == Printed(at, old(TheTrace()), ev)
      ensures NeverReadsZero(at) ==> Valid()
      ensures !ev.LockWaiting? ==> |lines| == 1 && lastWaitAnnounce == old(lastWaitAnnounce)
      ensures ev.LockWaiting? && old(lastWaitAnnounce) == Never ==>
        lines == [FirstWaiting(ev.root)] && lastWaitAnnounce == at(old(ticks))
      ensures ev.LockWaiting? && old(lastWaitAnnounce) != Never ==>
        if at(old(ticks)) - old(lastWaitAnnounce) < 60_000_000_000 then
          lines == [] && lastWaitAnnounce == old(lastWaitAnnounce)
        else
          && lines == [StillWaiting(ev.root, WholeSeconds(at(old(ticks) + 2) - waitStart))]
          && lastWaitAnnounce == at(old(ticks) + 1)
    {
      hide Spaced;
      match ev {
        case RootResolved(r) =>
          lines := [BindingRoot(r)];
        case LockWaiting(r) =>
          lines := AnnounceWait(r);
        case LockAcquired =>
          lines := [Acquired];
      }
    }
  }

  lemma SpacedBefore(times: seq<int>, t: int)
    requires Spaced(times)
    ensures times == [] || times[|times| - 1] + AnnounceGap <= t ==> Spaced(times + [t])
  {
    var all := times + [t];
    if times == [] || times[|times| - 1] + AnnounceGap <= t {
      forall i | 0 <= i < |all| - 1
        ensures all[i] + AnnounceGap <= all[i + 1]
      {
        if i < |times| - 1 {
          assert times[i] + AnnounceGap <= times[i + 1];
        }
      }
    }
  }

  /** Spaced instants in a window of length t number at most 1 + t / gap. */
  lemma {:induction false} SpacedIsFew(times: seq<int>, from: int, to: int)
    requires Spaced(times) && times != []
    requires forall i :: 0 <= i < |times| ==> from <= times[i] <= to
    ensures from + AnnounceGap * (|times| - 1) <= times[|times| - 1]
    ensures |times| <= 1 + (to - from) / AnnounceGap
  {
    var n := |times|;
    if n > 1 {
      var init := times[..n - 1];
      forall i | 0 <= i < |init| - 1
        ensures init[i] + AnnounceGap <= init[i + 1]
      {
        assert times[i] + AnnounceGap <= times[i + 1];
      }
      SpacedIsFew(init, from, to);
      assert times[n - 2] + AnnounceGap <= times[n - 1];
    }
  }

  // ---- a whole bind attempt -----------------------------------------------------------------

  datatype Input = Bind(ev: BindEvent) | Progress(phase: string, done: int, total: int) | Cleared

  /** How many of the printed lines report waiting. */
  function WaitingLines(lines: seq<Line>): nat {
    if lines == [] then 0
    else WaitingLines(lines[..|lines| - 1])
         + (if lines[|lines| - 1].FirstWaiting? || lines[|lines| - 1].StillWaiting? then 1 else 0)
  }

  lemma {:induction false} WaitingLinesAppend(a: seq<Line>, b: seq<Line>)
    requires |b| <= 1
    ensures WaitingLines(a + b) == WaitingLines(a) + WaitingLines(b)
  {
    if b == [] {
      assert a + b == a;
    } else {
      assert (a + b)[..|a + b| - 1] == a;
      assert b[..0] == [];
    }
  }

  predicate Waits(input: Input) { input.Bind? && input.ev.LockWaiting? }

  /** One callback of the binder: a status event is recorded, then announced. */
  function Stepped(at: nat -> int, t: Trace, input: Input): (Trace, seq<Line>) {
    match input
    case Bind(ev) => (Announced(at, Heard(at, t, ev), ev), Printed(at, Heard(at, t, ev), ev))
    case Progress(_, _, _) => (t.(mode := Indexing), [])
    case Cleared => (t.(mode := Idle), [])
  }

  /** A whole attempt, from the reading that begins it. */
  function Attempt(at: nat -> int, inputs: seq<Input>): (Trace, seq<Line>) {
    if inputs == [] then (Trace(1, Binding, "", Never, Never, []), [])
    else
      var (t, lines) := Attempt(at, inputs[..|inputs| - 1]);
      var (after, printed) := Stepped(at, t, inputs[|inputs| - 1]);
      (after, lines + printed)
  }

  /** From the first busy observation of a wait to its end, the wait is timed from that observation, however often the
      lock is found busy again. */
  lemma {:induction false} WaitIsTimedFromItsFirst(at: nat -> int, before: seq<Input>, w: Input, more: seq<Input>)
    requires Waits(w) && Attempt(at, before).0.mode != Waiting
    requires forall x :: x in more ==> x.Bind? && !x.ev.LockAcquired?
    ensures var t := Attempt(at, before + [w] + more).0;
            t.mode == Waiting && t.waitStart == at(Attempt(at, before).0.ticks)
  {
    hide Attempt, Stepped;
    if more == [] {
      assert before + [w] + more == before + [w];
      NextInput(at, before, w);
    } else {
      var init, x := more[..|more| - 1], more[|more| - 1];
      WaitIsTimedFromItsFirst(at, before, w, init);
      assert x in more;
      assert before + [w] + more == (before + [w] + init) + [x];
      NextInput(at, before + [w] + init, x);
    }
  }

  /** What one more callback does to a wait: busy observations begin it and keep it, progress, the lock and the end of
      the
      attempt end it. */
  lemma NextInput(at: nat -> int, inputs: seq<Input>, x: Input)
    ensures var t, after := Attempt(at, inputs).0, Attempt(at, inputs + [x]).0;
            && (Waits(x) && t.mode != Waiting ==> after.mode == Waiting && after.waitStart == at(t.ticks))
            && (x.Bind? && !x.ev.LockAcquired? && t.mode == Waiting ==>
                  after.mode == Waiting && after.waitStart == t.waitStart)
            && (!x.Bind? || x.ev.LockAcquired? ==> after.mode != Waiting)
  {
    assert (inputs + [x])[..|inputs|] == inputs;
    AttemptOfMore(at, inputs, x);
    hide Attempt, Printed;
  }

  lemma AttemptOfMore(at: nat -> int, inputs: seq<Input>, x: Input)
    ensures Attempt(at, inputs + [x]).0 == Stepped(at, Attempt(at, inputs).0, x).0
  {
    hide Stepped;
    assert (inputs + [x])[..|inputs|] == inputs;
  }

  /** Every recorded instant is one of the readings taken so far. */
  ghost predicate Read(at: nat -> int, t: Trace) {
    forall i :: 0 <= i < |t.announced| ==> ReadBy(at, t.ticks, t.announced[i])
  }

  ghost predicate ReadBy(at: nat -> int, ticks: nat, instant: int) {
    exists k: nat :: k < ticks && instant == at(k)
  }

  /** A step prints at most one line, records an instant exactly for a waiting line, and records only readings. */
  lemma StepRecords(at: nat -> int, t: Trace, input: Input)
    requires Read(at, t) && (t.last == Never <==> t.announced == []) && NeverReadsZero(at)
    ensures var (after, printed) := Stepped(at, t, input);
            && |printed| <= 1 && t.ticks <= after.ticks && Read(at, after)
            && |after.announced| == |t.announced| + WaitingLines(printed)
            && (after.last == Never <==> after.announced == [])
            && (after.announced != [] <==> t.announced != [] || Waits(input))
  {
    var (after, printed) := Stepped(at, t, input);
    PrintedMatches(printed);
    forall i | 0 <= i < |after.announced|
      ensures ReadBy(at, after.ticks, after.announced[i])
    {
      if i < |t.announced| {
        assert after.announced[i] == t.announced[i] && ReadBy(at, t.ticks, t.announced[i]);
        var k: nat :| k < t.ticks && t.announced[i] == at(k);
        assert k < after.ticks;
      }
    }
  }

  lemma {:induction false} AttemptRecords(at: nat -> int, inputs: seq<Input>)
    requires NeverReadsZero(at)
    ensures var (t, lines) := Attempt(at, inputs);
            && Read(at, t) && (t.last == Never <==> t.announced == []) && t.ticks >= 1
            && |t.announced| == WaitingLines(lines)
            && (t.announced != [] <==> exists i :: 0 <= i < |inputs| && Waits(inputs[i]))
  {
    hide Stepped, WaitingLines, Read;
    if inputs == [] {
      NothingRead(at);
    } else {
      var init, last := inputs[..|inputs| - 1], inputs[|inputs| - 1];
      AttemptRecords(at, init);
      var (t, lines) := Attempt(at, init);
      StepRecords(at, t, last);
      WaitingLinesAppend(lines, Stepped(at, t, last).1);
      assert forall i :: 0 <= i < |init| ==> inputs[i] == init[i];
    }
  }

  lemma NothingRead(at: nat -> int)
    ensures Read(at, Trace(1, Binding, "", Never, Never, [])) && WaitingLines([]) == 0
  {
  }

  method Step(s: Status, input: Input) returns (printed: seq<Line>)
    requires Monotone(s.at) && NeverReadsZero(s.at) && s.Valid()
    modifies s
    ensures s.Valid() && (s.TheTrace(), printed) == Stepped(s.at, old(s.TheTrace()), input)
  {
    printed := [];
    match input {
      case Bind(ev) =>
        s.HandleEvent(ev);
        printed := s.AnnounceBindEvent(ev);
      case Progress(phase, done, total) =>
        s.HandleProgress(phase, done, total);
      case Cleared =>
        s.Clear();
    }
  }

  /** Over one attempt, under a monotone clock that never reads the zero time: state and lines are the specified ones,
      the waiting lines are recorded at clock readings at least a minute apart, so they number at most one more than the
      minutes elapsed, and the first wait always prints. */
  method RunAttempt(at: nat -> int, inputs: seq<Input>) returns (s: Status, lines: seq<Line>)
    requires Monotone(at) && NeverReadsZero(at)
    ensures fresh(s) && s.at == at && s.Valid() && (s.TheTrace(), lines) == Attempt(at, inputs)
    ensures Spaced(s.announced) && WaitingLines(lines) == |s.announced|
    ensures forall i :: 0 <= i < |s.announced| ==> exists k: nat :: k < s.ticks && s.announced[i] == at(k)
    ensures WaitingLines(lines) <= 1 + (at(s.ticks) - at(0)) / AnnounceGap
    ensures WaitingLines(lines) > 0 <==> exists i :: 0 <= i < |inputs| && Waits(inputs[i])
  {
    s := new Status(at);
    s.BeginAttempt();
    lines := [];
    for i := 0 to |inputs|
      invariant fresh(s) && s.at == at && s.Valid() && (s.TheTrace(), lines) == Attempt(at, inputs[..i])
    {
      hide Stepped;
      assert inputs[..i + 1][..i] == inputs[..i];
      var printed := Step(s, inputs[i]);
      lines := lines + printed;
    }
    assert inputs[..|inputs|] == inputs;
    hide Attempt, WaitingLines, Spaced;
    AttemptRecords(at, inputs);
    forall i | 0 <= i < |s.announced|
      ensures at(0) <= s.announced[i] <= at(s.ticks)
    {
      assert ReadBy(at, s.ticks, s.TheTrace().announced[i]);
      var k: nat :| k < s.ticks && s.announced[i] == at(k);
      assert at(0) <= at(k) <= at(s.ticks);
    }
    assert at(0) <= at(s.ticks);
    if s.announced != [] {
      SpacedIsFew(s.announced, at(0), at(s.ticks));
    }
  }

  lemma PrintedMatches(printed: seq<Line>)
    requires |printed| <= 1
    ensures WaitingLines(printed) ==
            if printed == [] || printed[0].BindingRoot? || printed[0].Acquired? then 0 else 1
  {
    if printed != [] {
      assert printed[..0] == [];
    }
  }
}
