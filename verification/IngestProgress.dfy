/** The ingest progress renderer: per-phase wall-clock accounting under a clock that is read several times per call. */
module IngestProgress {
  import opened Sums

  const RedrawMinGap := 33_000_000

  datatype ProgressEvent = ProgressEvent(phase: string, done: int, total: int)

  /** at(c, k) is the k-th reading during call c. */
  type Clock = (nat, nat) -> int

  ghost predicate Monotone(at: Clock) {
    forall c: nat, k: nat, c': nat, k': nat :: c < c' || (c == c' && k <= k') ==> at(c, k) <= at(c', k')
  }

  /** No time passes between two readings of the same call. */
  ghost predicate Instantaneous(at: Clock) {
    forall c: nat, k: nat, k': nat :: at(c, k) == at(c, k')
  }

  /** Time is only ever lost, never gained, and none is lost when a call takes no time. */
  ghost predicate Accounted(at: Clock, before: int, after: int) {
    (Monotone(at) ==> before <= after) && (Instantaneous(at) ==> before == after)
  }

  /** d more nanoseconds on a phase's account. */
  function Credited(durations: map<string, int>, phase: string, d: int): map<string, int> {
    durations[phase := (if phase in durations then durations[phase] else 0) + d]
  }

  lemma CreditedSum(durations: map<string, int>, phase: string, d: int)
    ensures Sum(Credited(durations, phase, d)) == Sum(durations) + d
    ensures Credited(durations, phase, d).Keys == durations.Keys + {phase}
  {
    SumAfterAdding(durations, phase, d);
  }

  /** The durations after a call whose first reading closes the open phase. */
  function Closed(durations: map<string, int>, phases: seq<string>, start: int, now: int): map<string, int> {
    if phases == [] then durations else Credited(durations, phases[|phases| - 1], now - start)
  }

  ghost predicate Quarters(s: seq<int>) {
    forall b :: b in s ==> b <= 4
  }

  ghost predicate Increasing(s: seq<int>) {
    forall i, j :: 0 <= i < j < |s| ==> s[i] < s[j]
  }

  function LastMark(marks: seq<int>): int { if marks == [] then 0 else marks[|marks| - 1] }

  /** The quarter marks announced once an event is shown: one more exactly when a parse event newly reaches it. */
  function Marks(marks: seq<int>, ev: ProgressEvent): seq<int> {
    if ev.phase == "parse" && ev.total > 0 && ev.done > 0 && ev.done * 4 / ev.total > LastMark(marks)
    then marks + [ev.done * 4 / ev.total]
    else marks
  }

  class Progress {
    const at: Clock
    const tty: bool

    var call: nat
    var ticks: nat
    var last: ProgressEvent
    var seen: bool
    var sawDrift: bool
    var lastDraw: int
    var draws: nat
    var parseStart: int
    var lastMilestone: int
    /** The buckets announced since the last phase line. */
    var milestones: seq<int>
    var finished: bool
    var phaseStart: int
    var phaseSeq: seq<string>
    var phaseDur: map<string, int>

    /** The instant the first event opened the first phase. */
    ghost var firstAt: int
    /** Time that passed between two readings of one closing call, credited to no phase. */
    ghost var lost: int

    /** All time since the first event is credited to a phase, except what a call itself took. */
    ghost predicate Valid()
      reads `seen, `phaseSeq, `phaseDur, `phaseStart, `firstAt, `lost, `milestones, `lastMilestone
    {
      && (seen <==> phaseSeq != [])
      && (phaseSeq == [] ==> phaseDur == map[] && lost == 0)
      && (phaseSeq != [] ==> Sum(phaseDur) + lost == phaseStart - firstAt)
      && (forall p :: p in phaseDur ==> p in phaseSeq)
      && Increasing(milestones) && (forall b :: b in milestones ==> 0 < b)
      && lastMilestone == if milestones == [] then 0 else milestones[|milestones| - 1]
    }

    constructor (at: Clock, tty: bool)
      ensures Valid() && this.at == at && this.tty == tty && !seen && !finished && lost == 0 && milestones == []
      ensures call == 0 && phaseSeq == [] && phaseDur == map[] && phaseStart == 0
    {
      this.at, this.tty := at, tty;
      call, ticks, last, seen, sawDrift := 0, 0, ProgressEvent("", 0, 0), false, false;
      lastDraw, draws, parseStart, lastMilestone, milestones := 0, 0, 0, 0, [];
      finished, phaseStart, phaseSeq, phaseDur := false, 0, [], map[];
      firstAt, lost := 0, 0;
    }

    method Now() returns (t: int)
      modifies this`ticks
      ensures t == at(call, old(ticks)) && ticks == old(ticks) + 1
    {
      t := at(call, ticks);
      ticks := ticks + 1;
    }

    /** Folds the open phase's time into its total; the clock is read twice. */
    method ClosePhase()
      requires Valid()
      modifies this`ticks, this`phaseDur, this`phaseStart, this`lost
      ensures Valid()
      ensures phaseSeq == [] ==> ticks == old(ticks) && phaseStart == old(phaseStart) && lost == old(lost)
      ensures phaseSeq == [] ==> phaseDur == old(phaseDur)
      ensures phaseSeq != [] ==> ticks == old(ticks) + 2 && phaseStart == at(call, old(ticks) + 1)
      ensures phaseSeq != [] ==> lost == old(lost) + phaseStart - at(call, old(ticks))
      ensures phaseDur == Closed(old(phaseDur), phaseSeq, old(phaseStart), at(call, old(ticks)))
    {
      hide Sum, Credited, Increasing;
      if |phaseSeq| == 0 {
        return;
      }
      var p := phaseSeq[|phaseSeq| - 1];
      var closed := Now();
      CreditedSum(phaseDur, p, closed - phaseStart);
      phaseDur := Credited(phaseDur, p, closed - phaseStart);
      phaseStart := Now();
      lost := lost + phaseStart - closed;
    }

    /** Redraws the status line; a parse line also reads the clock for its estimate. */
    method Draw()
      requires Valid()
      modifies this`ticks, this`lastDraw, this`draws
      ensures Valid() && ticks > old(ticks) && draws == old(draws) + 1
    {
      lastDraw := Now();
      if last.phase == "parse" && last.total > 0 {
        var elapsed := Now();
      }
      draws := draws + 1;
    }

    /** Closes the open phase, if any, and opens the next one at a further reading. */
    method EnterPhase(phase: string)
      requires Valid()
      modifies this`ticks, this`phaseDur, this`phaseStart, this`lost, this`phaseSeq, this`firstAt, this`seen
      ensures Valid() && seen && phaseSeq == old(phaseSeq) + [phase]
      ensures phaseDur == Closed(old(phaseDur), old(phaseSeq), old(phaseStart), at(call, old(ticks)))
      ensures phaseStart == at(call, old(ticks) + if old(phaseSeq) == [] then 0 else 2)
      ensures old(phaseSeq) == [] ==> firstAt == at(call, old(ticks))
      ensures old(phaseSeq) != [] ==> firstAt == old(firstAt)
      ensures Accounted(at, old(lost), lost)
    {
      hide Sum, Increasing, Closed;
      EmptySum();
      ClosePhase();
      var now := Now();
      if phaseSeq == [] {
        firstAt := now;
      } else {
        lost := lost + now - phaseStart;
      }
      phaseStart := now;
      phaseSeq := phaseSeq + [phase];
      seen := true;
    }

    /** Shows the event: a throttled redraw on a terminal, otherwise a phase line and quarter marks of the parse. */
    method Render(ev: ProgressEvent, phaseChanged: bool)
      requires Valid()
      modifies this`ticks, this`lastDraw, this`draws, this`lastMilestone, this`milestones
      ensures Valid()
      ensures tty ==> milestones == old(milestones)
      ensures !tty ==> milestones == Marks(if phaseChanged then [] else old(milestones), ev)
      ensures Quarters(old(milestones)) && ev.done <= ev.total ==> Quarters(milestones)
      ensures draws > old(draws) <==> tty && (phaseChanged || at(call, old(ticks)) - old(lastDraw) >= 33_000_000)
    {
      hide Sum, Accounted;
      if tty {
        var due := phaseChanged;
        if !due {
          var now := Now();
          due := now - lastDraw >= RedrawMinGap;
        }
        if due {
          Draw();
        }
        return;
      }
      if phaseChanged {
        lastMilestone, milestones := 0, [];
      }
      if ev.phase == "parse" && ev.total > 0 && ev.done > 0 {
        Announce(ev.done, ev.total);
      }
    }

    /** Announces a quarter mark the parse has newly reached. */
    method Announce(done: int, total: int)
      requires Valid() && done > 0 && total > 0
      modifies this`lastMilestone, this`milestones
      ensures Valid()
      ensures milestones ==
        if done * 4 / total > LastMark(old(milestones)) then old(milestones) + [done * 4 / total] else old(milestones)
      ensures Quarters(old(milestones)) && done <= total ==> Quarters(milestones)
      ensures milestones != old(milestones) ==>
        Reaches(done, total, LastMark(milestones)) && !Reaches(done, total, LastMark(milestones) + 1)
      ensures milestones == old(milestones) ==> !Reaches(done, total, LastMark(milestones) + 1)
    {
      hide Sum;
      var bucket := done * 4 / total;
      QuotientReaches(done, total, bucket);
      if done <= total {
        AtMostFourQuarters(done, total);
      }
      if bucket > lastMilestone {
        Extended(milestones, bucket);
        assert milestones != [] ==> milestones[|milestones| - 1] in milestones;
        lastMilestone, milestones := bucket, milestones + [bucket];
      }
    }

    /** The accounting half of an event: a change of phase closes the open one. */
    method Account(phase: string) returns (phaseChanged: bool)
      requires Valid()
      modifies this`ticks, this`phaseDur, this`phaseStart, this`lost, this`phaseSeq, this`firstAt, this`seen,
               this`parseStart
      ensures Valid() && seen
      ensures phaseChanged <==> !old(seen) || phase != last.phase
      ensures phaseSeq == if phaseChanged then old(phaseSeq) + [phase] else old(phaseSeq)
      ensures !phaseChanged ==> phaseDur == old(phaseDur) && phaseStart == old(phaseStart)
      ensures phaseChanged ==> phaseDur == Closed(old(phaseDur), old(phaseSeq), old(phaseStart), at(call, old(ticks)))
      ensures phaseChanged ==> phaseStart == at(call, old(ticks) + if old(seen) then 2 else 0)
      ensures firstAt == if old(seen) then old(firstAt) else at(call, old(ticks))
      ensures Accounted(at, old(lost), lost)
    {
      phaseChanged := !seen || phase != last.phase;
      if phaseChanged {
        EnterPhase(phase);
        if phase == "parse" {
          parseStart := Now();
        }
      }
    }

    /** One progress event. */
    method Handle(ev: ProgressEvent)
      requires Valid()
      modifies this
      ensures Valid()
      ensures old(finished) ==> unchanged(this)
      ensures !old(finished) ==> call == old(call) + 1 && seen && !finished && last == ev
      ensures !old(finished) ==>
        phaseSeq == if !old(seen) || ev.phase != old(last).phase then old(phaseSeq) + [ev.phase] else old(phaseSeq)
      ensures !old(finished) && phaseSeq == old(phaseSeq) ==> phaseDur == old(phaseDur)
      ensures !old(finished) && phaseSeq != old(phaseSeq) ==>
        phaseDur == Closed(old(phaseDur), old(phaseSeq), old(phaseStart), at(call, 0))
      ensures !old(finished) && phaseSeq == old(phaseSeq) ==> phaseStart == old(phaseStart)
      ensures !old(finished) && phaseSeq != old(phaseSeq) ==> phaseStart == at(call, if old(seen) then 2 else 0)
      ensures !old(finished) ==> firstAt == if old(seen) then old(firstAt) else at(call, 0)
      ensures Accounted(at, old(lost), lost)
      ensures Quarters(old(milestones)) && ev.done <= ev.total ==> Quarters(milestones)
    {
      hide Accounted, Increasing, Sum, Valid, Quarters, Closed;
      if finished {
        NothingAccounted(at, lost);
        return;
      }
      Process(ev);
    }

    /** An event of a run that is not finished. */
    method Process(ev: ProgressEvent)
      requires Valid() && !finished
      modifies this
      ensures Valid() && call == old(call) + 1 && seen && !finished && last == ev
      ensures var changed := !old(seen) || ev.phase != old(last).phase;
              && phaseSeq == (if changed then old(phaseSeq) + [ev.phase] else old(phaseSeq))
              && phaseDur == (if !changed then old(phaseDur)
                              else Closed(old(phaseDur), old(phaseSeq), old(phaseStart), at(call, 0)))
              && phaseStart == (if changed then at(call, if old(seen) then 2 else 0) else old(phaseStart))
      ensures firstAt == if old(seen) then old(firstAt) else at(call, 0)
      ensures Accounted(at, old(lost), lost)
      ensures Quarters(old(milestones)) && ev.done <= ev.total ==> Quarters(milestones)
    {
      hide Accounted, Increasing, Sum, Valid, Quarters, Closed, Marks;
      var phaseChanged := Book(ev);
      if ev.phase != "done" {
        Render(ev, phaseChanged);
      }
    }

    /** A new call: the account, and the event it is about. */
    method Book(ev: ProgressEvent) returns (phaseChanged: bool)
      requires Valid() && !finished
      modifies this`call, this`ticks, this`sawDrift, this`last, this`phaseDur, this`phaseStart, this`lost,
               this`phaseSeq,
               this`firstAt, this`seen, this`parseStart
      ensures Valid() && call == old(call) + 1 && seen && last == ev
      ensures phaseChanged <==> !old(seen) || ev.phase != old(last).phase
      ensures phaseSeq == if phaseChanged then old(phaseSeq) + [ev.phase] else old(phaseSeq)
      ensures phaseDur ==
        if phaseChanged then Closed(old(phaseDur), old(phaseSeq), old(phaseStart), at(call, 0)) else old(phaseDur)
      ensures phaseStart == if phaseChanged then at(call, if old(seen) then 2 else 0) else old(phaseStart)
      ensures firstAt == if old(seen) then old(firstAt) else at(call, 0)
      ensures Accounted(at, old(lost), lost)
    {
      hide Accounted, Increasing, Sum, Valid, Closed;
      call, ticks := call + 1, 0;
      sawDrift := sawDrift || ev.phase == "drift";
      phaseChanged := Account(ev.phase);
      last := ev;
    }

    /** The animation ticker. */
    method Tick()
      requires Valid()
      modifies this`call, this`ticks, this`lastDraw, this`draws
      ensures Valid()
      ensures draws == if old(seen) && !old(finished) then old(draws) + 1 else old(draws)
      ensures call == if old(seen) && !old(finished) then old(call) + 1 else old(call)
    {
      if seen && !finished {
        call, ticks := call + 1, 0;
        Draw();
      }
    }

    /** Ends the run. Every instant from the first event to this call's first reading is then credited. */
    method Finish()
      requires Valid()
      modifies this
      ensures Valid() && finished
      ensures old(finished) ==> unchanged(this)
      ensures seen == old(seen) && phaseSeq == old(phaseSeq) && firstAt == old(firstAt) && milestones == old(milestones)
      ensures call == if !old(finished) && seen then old(call) + 1 else old(call)
      ensures !old(finished) && seen ==>
        phaseDur == Closed(old(phaseDur), phaseSeq, old(phaseStart), at(call, 0))
      ensures !old(finished) && seen ==> Sum(phaseDur) + old(lost) == at(call, 0) - firstAt
      ensures Accounted(at, old(lost), lost)
    {
      if finished {
        return;
      }
      finished := true;
      if !seen {
        return;
      }
      call, ticks := call + 1, 0;
      ClosePhase();
    }
  }

  /** So many quarters of the total are done. */
  predicate Reaches(done: int, total: int, quarters: int) { quarters * total <= 4 * done }

  lemma QuotientReaches(done: int, total: int, bucket: int)
    requires done > 0 && total > 0 && bucket == done * 4 / total
    ensures Reaches(done, total, bucket)
    ensures forall q :: bucket < q ==> !Reaches(done, total, q)
  {
    QuotientBounds(done * 4, total, bucket);
    forall q | bucket < q
      ensures !Reaches(done, total, q)
    {
      AtLeast(bucket + 1, q, total);
    }
  }

  lemma QuotientBounds(a: int, b: int, q: int)
    requires b > 0 && q == a / b
    ensures q * b <= a < (q + 1) * b
  {
  }

  lemma AtLeast(x: int, y: int, b: int)
    requires x <= y && b > 0
    ensures x * b <= y * b
  {
  }

  lemma NothingAccounted(at: Clock, lost: int)
    ensures Accounted(at, lost, lost)
  {
  }

  lemma Extended(s: seq<int>, b: int)
    requires Increasing(s) && (s == [] || s[|s| - 1] < b)
    ensures Increasing(s + [b])
  {
    forall i, j | 0 <= i < j < |s + [b]|
      ensures (s + [b])[i] < (s + [b])[j]
    {
      if j == |s| && i < |s| - 1 {
        assert s[i] < s[|s| - 1];
      }
    }
  }

  lemma AtMostFourQuarters(done: int, total: int)
    requires 0 < done <= total
    ensures 0 <= done * 4 / total <= 4
  {
  }

  // ---- whole runs ------------------------------------------------------------------------

  datatype Call = Event(ev: ProgressEvent) | TickerDraw

  /** The account that a stream of calls must leave: how many calls did something, the phases in order, when the
      open one began, and what the closed ones lasted. Draws before the first event do nothing. */
  datatype Ledger = Ledger(calls: nat, phases: seq<string>, start: int, durations: map<string, int>)

  function LedgerOf(at: Clock, calls: seq<Call>): Ledger {
    if calls == [] then Ledger(0, [], 0, map[])
    else
      var b := LedgerOf(at, calls[..|calls| - 1]);
      match calls[|calls| - 1]
      case TickerDraw => if b.phases == [] then b else b.(calls := b.calls + 1)
      case Event(ev) =>
        var c := b.calls + 1;
        if b.phases != [] && b.phases[|b.phases| - 1] == ev.phase then b.(calls := c)
        else
          Ledger(c, b.phases + [ev.phase], at(c, if b.phases == [] then 0 else 2),
                 Closed(b.durations, b.phases, b.start, at(c, 0)))
  }

  // ---- which phase is credited with what ---------------------------------------------------

  ghost predicate AreEvents(calls: seq<Call>, opens: seq<nat>) {
    forall j :: 0 <= j < |opens| ==> opens[j] < |calls| && calls[opens[j]].Event? && opens[0] <= opens[j]
  }

  /** The phase opened last goes by this name. */
  predicate Continues(calls: seq<Call>, opens: seq<nat>, phase: string) {
    opens != [] && var k := opens[|opens| - 1]; k < |calls| && calls[k].Event? && calls[k].ev.phase == phase
  }

  /** The positions in the stream of the events that open a phase: the first event, and each that names another phase
      than the event before it. */
  function Openings(calls: seq<Call>): (opens: seq<nat>)
    ensures AreEvents(calls, opens)
  {
    if calls == [] then []
    else
      var init, c := calls[..|calls| - 1], calls[|calls| - 1];
      var before := Openings(init);
      if Opens(init, before, c) then
        EventsGrow(init, before, c);
        assert calls == init + [c];
        before + [|init|]
      else
        assert forall j :: 0 <= j < |before| ==> calls[before[j]] == init[before[j]];
        before
  }

  /** Does this call open a phase? */
  predicate Opens(calls: seq<Call>, opens: seq<nat>, c: Call) {
    c.Event? && !Continues(calls, opens, c.ev.phase)
  }

  lemma EventsGrow(calls: seq<Call>, opens: seq<nat>, c: Call)
    requires AreEvents(calls, opens) && c.Event?
    ensures AreEvents(calls + [c], opens + [|calls|])
  {
  }

  /** The reading that opens phase j: draws before the first event read nothing, every later call is numbered, and a
      call that closes a phase before has read the clock twice by then. */
  function OpenedAt(at: Clock, opens: seq<nat>, j: nat): int
    requires j < |opens| && opens[0] <= opens[j]
  {
    at(opens[j] - opens[0] + 1, if j == 0 then 0 else 2)
  }

  /** The reading that closes phase j: the first one of the call that opens the next. */
  function ClosedAt(at: Clock, opens: seq<nat>, j: nat): int
    requires j + 1 < |opens| && opens[0] <= opens[j + 1]
  {
    at(opens[j + 1] - opens[0] + 1, 0)
  }

  /** The time for which the phase was open and closed again, over the first n phases of the run. */
  function TimeIn(at: Clock, calls: seq<Call>, opens: seq<nat>, phase: string, n: nat): int
    requires n == 0 || n < |opens|
    requires AreEvents(calls, opens)
  {
    if n == 0 then 0
    else
      TimeIn(at, calls, opens, phase, n - 1)
      + (if calls[opens[n - 1]].ev.phase == phase then ClosedAt(at, opens, n - 1) - OpenedAt(at, opens, n - 1) else 0)
  }

  function Spent(durations: map<string, int>, phase: string): int {
    if phase in durations then durations[phase] else 0
  }

  lemma SpentAfterClosing(durations: map<string, int>, phases: seq<string>, start: int, now: int, phase: string)
    ensures Spent(Closed(durations, phases, start, now), phase) ==
            Spent(durations, phase) + (if phases != [] && phases[|phases| - 1] == phase then now - start else 0)
  {
  }

  lemma {:induction false} TimeInPrefix(
      at: Clock, calls: seq<Call>, more: seq<Call>, opens: seq<nat>, next: seq<nat>, phase: string, n: nat)
    requires n == 0 || n < |opens|
    requires calls <= more && opens <= next
    requires AreEvents(calls, opens)
    requires AreEvents(more, next)
    ensures TimeIn(at, more, next, phase, n) == TimeIn(at, calls, opens, phase, n)
  {
    if n > 0 {
      TimeInPrefix(at, calls, more, opens, next, phase, n - 1);
      assert next[n - 1] == opens[n - 1] && next[n] == opens[n];
    }
  }

  /** Each phase of the run is one opening, calls are numbered from the first event, and the open phase began where its
      opening says. */
  ghost predicate Shaped(at: Clock, calls: seq<Call>, opens: seq<nat>, l: Ledger)
    requires AreEvents(calls, opens)
  {
    && |l.phases| == |opens| && (forall j :: 0 <= j < |opens| ==> l.phases[j] == calls[opens[j]].ev.phase)
    && l.calls == (if opens == [] then 0 else |calls| - opens[0])
    && (opens != [] ==> l.start == OpenedAt(at, opens, |opens| - 1))
  }

  /** The ledger, phase by phase: an account holds exactly the stretches for which its phase was open, closed again. */
  ghost predicate BySegments(at: Clock, calls: seq<Call>, l: Ledger) {
    var opens := Openings(calls);
    && Shaped(at, calls, opens, l)
    && (forall phase :: Spent(l.durations, phase) ==
          TimeIn(at, calls, opens, phase, if opens == [] then 0 else |opens| - 1))
  }

  lemma {:induction false} LedgerBySegments(at: Clock, calls: seq<Call>)
    ensures BySegments(at, calls, LedgerOf(at, calls))
  {
    hide TimeIn, Closed;
    if calls == [] {
      assert forall phase :: TimeIn(at, calls, [], phase, 0) == 0 by { NoTime(at, calls); }
    } else {
      var init, c := calls[..|calls| - 1], calls[|calls| - 1];
      LedgerBySegments(at, init);
      LedgerGrows(at, init, c);
      assert init + [c] == calls;
    }
  }

  lemma NoTime(at: Clock, calls: seq<Call>)
    ensures forall phase :: TimeIn(at, calls, [], phase, 0) == 0
  {
  }

  lemma OpeningsGrow(init: seq<Call>, c: Call)
    ensures Openings(init + [c]) == if Opens(init, Openings(init), c) then Openings(init) + [|init|] else Openings(init)
  {
    hide Opens, AreEvents;
    assert (init + [c])[..|init|] == init;
  }

  lemma LastOpening(calls: seq<Call>, opens: seq<nat>)
    requires AreEvents(calls, opens) && opens != []
    ensures opens[|opens| - 1] < |calls| && calls[opens[|opens| - 1]].Event?
  {
  }

  /** The ledger's open phase is the one opened last. */
  lemma OpenPhase(at: Clock, calls: seq<Call>, l: Ledger, phase: string)
    requires BySegments(at, calls, l)
    ensures Continues(calls, Openings(calls), phase) <==> l.phases != [] && l.phases[|l.phases| - 1] == phase
  {
    hide Openings, Spent, TimeIn, OpenedAt;
    var opens := Openings(calls);
    if opens != [] {
      LastOpening(calls, opens);
      assert l.phases[|opens| - 1] == calls[opens[|opens| - 1]].ev.phase;
    }
  }

  /** One more call in the ledger. */
  lemma LedgerStep(at: Clock, init: seq<Call>, c: Call)
    ensures var b, l := LedgerOf(at, init), LedgerOf(at, init + [c]);
            if c.Event? && !(b.phases != [] && b.phases[|b.phases| - 1] == c.ev.phase) then
              && l.calls == b.calls + 1 && l.phases == b.phases + [c.ev.phase]
              && l.start == at(l.calls, if b.phases == [] then 0 else 2)
              && l.durations == Closed(b.durations, b.phases, b.start, at(l.calls, 0))
            else
              && l.calls == (if c.TickerDraw? && b.phases == [] then b.calls else b.calls + 1)
              && l.phases == b.phases && l.start == b.start && l.durations == b.durations
  {
    hide Closed;
    assert (init + [c])[..|init|] == init;
  }

  lemma LedgerNext(at: Clock, init: seq<Call>, c: Call)
    requires BySegments(at, init, LedgerOf(at, init))
    ensures var b, l := LedgerOf(at, init), LedgerOf(at, init + [c]);
            if Opens(init, Openings(init), c) then
              && l.calls == b.calls + 1 && l.phases == b.phases + [c.ev.phase]
              && l.start == at(l.calls, if b.phases == [] then 0 else 2)
              && l.durations == Closed(b.durations, b.phases, b.start, at(l.calls, 0))
            else
              && l.calls == (if b.phases == [] then b.calls else b.calls + 1)
              && l.phases == b.phases && l.start == b.start && l.durations == b.durations
  {
    hide Closed, LedgerOf, Openings, Continues, BySegments;
    LedgerStep(at, init, c);
    if c.Event? {
      OpenPhase(at, init, LedgerOf(at, init), c.ev.phase);
    }
  }

  /** The open phase of a ledger kept by segments. */
  lemma OpenSegment(at: Clock, calls: seq<Call>, l: Ledger, phase: string)
    requires BySegments(at, calls, l)
    ensures var opens := Openings(calls);
            && (opens == [] <==> l.phases == []) && AreEvents(calls, opens)
            && (opens == [] ==> Spent(l.durations, phase) == 0 && l.calls == 0)
            && (opens != [] ==>
                  var n := |opens| - 1;
                  && opens[n] < |calls| && calls[opens[n]].Event? && opens[0] <= opens[n]
                  && l.phases[|l.phases| - 1] == calls[opens[n]].ev.phase
                  && l.start == OpenedAt(at, opens, n) && l.calls == |calls| - opens[0]
                  && Spent(l.durations, phase) == TimeIn(at, calls, opens, phase, n))
  {
    hide Openings, Spent, OpenedAt;
    var opens := Openings(calls);
    assert opens == [] ==> TimeIn(at, calls, opens, phase, 0) == 0;
    hide TimeIn;
  }

  /** The account of one phase when the open one is closed. */
  lemma AccountGrows(at: Clock, init: seq<Call>, c: Call, phase: string)
    requires BySegments(at, init, LedgerOf(at, init)) && Opens(init, Openings(init), c)
    ensures var b := LedgerOf(at, init);
            Spent(Closed(b.durations, b.phases, b.start, at(b.calls + 1, 0)), phase) ==
              TimeIn(at, init + [c], Openings(init + [c]), phase, |Openings(init)|)
  {
    hide Closed, TimeIn, LedgerOf, BySegments, Openings, Spent, AreEvents, Opens;
    var calls, opens, b := init + [c], Openings(init), LedgerOf(at, init);
    OpenSegment(at, init, b, phase);
    OpeningsGrow(init, c);
    var next := Openings(calls);
    SpentAfterClosing(b.durations, b.phases, b.start, at(b.calls + 1, 0), phase);
    if opens == [] {
      NoTimeYet(at, calls, next, phase);
    } else {
      var n := |opens| - 1;
      TimeInPrefix(at, init, calls, opens, next, phase, n);
      OneMoreSegment(at, calls, next, phase, n + 1);
      assert next[n] == opens[n] && next[n + 1] == |init| && next[0] == opens[0] && calls[opens[n]] == init[opens[n]];
    }
  }

  lemma NoTimeYet(at: Clock, calls: seq<Call>, opens: seq<nat>, phase: string)
    requires AreEvents(calls, opens)
    ensures TimeIn(at, calls, opens, phase, 0) == 0
  {
  }

  lemma AccountAfter(at: Clock, init: seq<Call>, c: Call, phase: string)
    requires BySegments(at, init, LedgerOf(at, init))
    ensures var calls := init + [c];
            var next := Openings(calls);
            AreEvents(calls, next) &&
            Spent(LedgerOf(at, calls).durations, phase) ==
              TimeIn(at, calls, next, phase, if next == [] then 0 else |next| - 1)
  {
    hide Closed, TimeIn, LedgerOf, Spent, Openings, BySegments, AreEvents, Opens;
    var calls, opens, b := init + [c], Openings(init), LedgerOf(at, init);
    OpeningsGrow(init, c);
    LedgerNext(at, init, c);
    if Opens(init, Openings(init), c) {
      AccountGrows(at, init, c, phase);
    } else {
      OpenSegment(at, init, b, phase);
      if opens == [] {
        NoTimeYet(at, calls, opens, phase);
      } else {
        TimeInPrefix(at, init, calls, opens, Openings(calls), phase, |opens| - 1);
      }
    }
  }

  lemma ShapeGrows(at: Clock, init: seq<Call>, opens: seq<nat>, b: Ledger, c: Call, l: Ledger)
    requires AreEvents(init, opens) && Shaped(at, init, opens, b) && c.Event?
    requires l.calls == b.calls + 1 && l.phases == b.phases + [c.ev.phase]
    requires l.start == at(l.calls, if b.phases == [] then 0 else 2)
    ensures AreEvents(init + [c], opens + [|init|]) && Shaped(at, init + [c], opens + [|init|], l)
  {
    var calls, next := init + [c], opens + [|init|];
    EventsGrow(init, opens, c);
    assert forall j :: 0 <= j < |opens| ==> next[j] == opens[j] && calls[next[j]] == init[opens[j]];
    assert calls[next[|opens|]] == c;
  }

  lemma ShapeStays(at: Clock, init: seq<Call>, opens: seq<nat>, b: Ledger, c: Call, l: Ledger)
    requires AreEvents(init, opens) && Shaped(at, init, opens, b)
    requires l.calls == (if b.phases == [] then b.calls else b.calls + 1) && l.phases == b.phases && l.start == b.start
    ensures AreEvents(init + [c], opens) && Shaped(at, init + [c], opens, l)
  {
    assert forall j :: 0 <= j < |opens| ==> (init + [c])[opens[j]] == init[opens[j]];
  }

  /** The phases, the number of calls and the open phase's start, after one more call. */
  lemma ShapeAfter(at: Clock, init: seq<Call>, c: Call)
    requires BySegments(at, init, LedgerOf(at, init))
    ensures Shaped(at, init + [c], Openings(init + [c]), LedgerOf(at, init + [c]))
  {
    hide Closed, TimeIn, LedgerOf, Spent, Openings, Opens, Shaped, AreEvents;
    var opens := Openings(init);
    var b, l := LedgerOf(at, init), LedgerOf(at, init + [c]);
    OpeningsGrow(init, c);
    LedgerNext(at, init, c);
    OnlyEventsOpen(init, opens, c);
    hide BySegments;
    if Opens(init, opens, c) {
      ShapeGrows(at, init, opens, b, c, l);
    } else {
      ShapeStays(at, init, opens, b, c, l);
    }
  }

  lemma OnlyEventsOpen(calls: seq<Call>, opens: seq<nat>, c: Call)
    ensures Opens(calls, opens, c) ==> c.Event?
  {
  }

  lemma LedgerGrows(at: Clock, init: seq<Call>, c: Call)
    requires BySegments(at, init, LedgerOf(at, init))
    ensures BySegments(at, init + [c], LedgerOf(at, init + [c]))
  {
    hide Closed, TimeIn, LedgerOf, Spent, Openings, Shaped;
    var calls := init + [c];
    ShapeAfter(at, init, c);
    forall phase
      ensures Spent(LedgerOf(at, calls).durations, phase) ==
              TimeIn(at, calls, Openings(calls), phase, if Openings(calls) == [] then 0 else |Openings(calls)| - 1)
    {
      AccountAfter(at, init, c, phase);
    }
  }

  lemma OneMoreSegment(at: Clock, calls: seq<Call>, opens: seq<nat>, phase: string, n: nat)
    requires 0 < n < |opens|
    requires AreEvents(calls, opens)
    ensures TimeIn(at, calls, opens, phase, n) ==
            TimeIn(at, calls, opens, phase, n - 1)
            + (if calls[opens[n - 1]].ev.phase == phase then ClosedAt(at, opens, n - 1) - OpenedAt(at, opens, n - 1)
               else 0)
  {
  }

  /** The time for which the phase was open by the finish, the last open stretch included. */
  function TimeToFinish(at: Clock, calls: seq<Call>, phase: string): int {
    var opens := Openings(calls);
    if opens == [] then 0
    else
      var n := |opens| - 1;
      TimeIn(at, calls, opens, phase, n)
      + (if calls[opens[n]].ev.phase == phase then at(|calls| - opens[0] + 1, 0) - OpenedAt(at, opens, n) else 0)
  }

  /** What the finish leaves on each phase's account. */
  lemma FinishedAccount(at: Clock, calls: seq<Call>)
    ensures var l := LedgerOf(at, calls);
            && |l.phases| == |Openings(calls)|
            && (forall j :: 0 <= j < |l.phases| ==> l.phases[j] == calls[Openings(calls)[j]].ev.phase)
            && (l.phases != [] ==> forall phase ::
                  Spent(Closed(l.durations, l.phases, l.start, at(l.calls + 1, 0)), phase) ==
                  TimeToFinish(at, calls, phase))
  {
    hide Closed, TimeIn, LedgerOf;
    LedgerBySegments(at, calls);
    var l, opens := LedgerOf(at, calls), Openings(calls);
    hide Openings;
    if l.phases != [] {
      forall phase
        ensures Spent(Closed(l.durations, l.phases, l.start, at(l.calls + 1, 0)), phase) ==
                TimeToFinish(at, calls, phase)
      {
        SpentAfterClosing(l.durations, l.phases, l.start, at(l.calls + 1, 0), phase);
        assert Spent(l.durations, phase) == TimeIn(at, calls, opens, phase, |opens| - 1);
      }
    }
  }

  /** The observer's fields are the ledger's. */
  ghost predicate Booked(p: Progress, l: Ledger)
    reads p
  {
    && p.call == l.calls && p.phaseSeq == l.phases && p.phaseDur == l.durations && p.phaseStart == l.start
    && (p.seen ==> p.phaseSeq != [] && p.last.phase == p.phaseSeq[|p.phaseSeq| - 1])
    && (!p.seen ==> p.call == 0)
    && (p.seen ==> p.firstAt == p.at(1, 0))
  }

  /** One more call keeps the books. */
  method Receive(p: Progress, c: Call, ghost before: seq<Call>)
    requires p.Valid() && !p.finished && Booked(p, LedgerOf(p.at, before))
    modifies p
    ensures p.Valid() && !p.finished && Booked(p, LedgerOf(p.at, before + [c]))
    ensures p.seen <==> old(p.seen) || c.Event?
    ensures Accounted(p.at, old(p.lost), p.lost)
    ensures Quarters(old(p.milestones)) && (c.Event? ==> c.ev.done <= c.ev.total) ==> Quarters(p.milestones)
  {
    hide Sum, Closed, Accounted, Quarters, Increasing;
    assert (before + [c])[..|before|] == before;
    match c
    case Event(ev) => p.Handle(ev);
    case TickerDraw =>
      NothingAccounted(p.at, p.lost);
      p.Tick();
  }

  lemma AccountedTwice(at: Clock, a: int, b: int, c: int)
    requires Accounted(at, a, b) && Accounted(at, b, c)
    ensures Accounted(at, a, c)
  {
  }

  /** Any stream of events and ticker draws, then Finish, then Finish again: one phase per opening, each account holds
      exactly the stretches for which its phase was open, and the durations sum to the finish time minus the first
      event's time when the clock stands still within a call, and to at most that under any monotone clock. */
  method Replay(at: Clock, tty: bool, calls: seq<Call>) returns (p: Progress)
    ensures fresh(p) && p.Valid() && p.finished && p.at == at && p.tty == tty
    ensures p.seen <==> exists i :: 0 <= i < |calls| && calls[i].Event?
    ensures p.phaseSeq == LedgerOf(at, calls).phases && |p.phaseSeq| == |Openings(calls)|
    ensures forall j :: 0 <= j < |p.phaseSeq| ==> p.phaseSeq[j] == calls[Openings(calls)[j]].ev.phase
    ensures p.seen ==> forall phase :: Spent(p.phaseDur, phase) == TimeToFinish(at, calls, phase)
    ensures p.seen ==>
      var l := LedgerOf(at, calls);
      p.call == l.calls + 1 && p.phaseDur == Closed(l.durations, l.phases, l.start, at(l.calls + 1, 0))
    ensures p.seen && Monotone(at) ==> Sum(p.phaseDur) <= at(LedgerOf(at, calls).calls + 1, 0) - at(1, 0)
    ensures p.seen && Instantaneous(at) ==> Sum(p.phaseDur) == at(LedgerOf(at, calls).calls + 1, 0) - at(1, 0)
    ensures !p.tty && (forall i :: 0 <= i < |calls| && calls[i].Event? ==> calls[i].ev.done <= calls[i].ev.total) ==>
      |p.milestones| <= 4
  {
    hide Quarters, Increasing, Accounted, Sum, Closed, Monotone, Instantaneous, LedgerOf, Openings, Spent, TimeToFinish;
    FinishedAccount(at, calls);
    p := new Progress(at, tty);
    ghost var bounded := forall i :: 0 <= i < |calls| && calls[i].Event? ==> calls[i].ev.done <= calls[i].ev.total;
    NoMarks();
    NothingAccounted(at, 0);
    NothingBooked(at);
    for i := 0 to |calls|
      invariant fresh(p) && p.Valid() && p.at == at && p.tty == tty && !p.finished
      invariant p.seen <==> exists j :: 0 <= j < i && calls[j].Event?
      invariant Booked(p, LedgerOf(at, calls[..i]))
      invariant Accounted(at, 0, p.lost)
      invariant bounded ==> Quarters(p.milestones)
    {
      assert calls[..i + 1] == calls[..i] + [calls[i]];
      ghost var lost := p.lost;
      Receive(p, calls[i], calls[..i]);
      AccountedTwice(at, 0, lost, p.lost);
    }
    assert calls[..|calls|] == calls;
    ghost var lost := p.lost;
    p.Finish();
    ghost var milestones := p.milestones;
    p.Finish();
    if p.seen {
      NothingLost(at, lost, Sum(p.phaseDur), at(p.call, 0) - at(1, 0));
    }
    if bounded {
      FourMarks(milestones);
    }
  }

  lemma NoMarks()
    ensures Quarters([])
  {
  }

  lemma NothingBooked(at: Clock)
    ensures LedgerOf(at, []) == Ledger(0, [], 0, map[])
  {
  }

  /** What the lost time means for the sum. */
  lemma NothingLost(at: Clock, lost: int, sum: int, span: int)
    requires Accounted(at, 0, lost) && sum + lost == span
    ensures Monotone(at) ==> sum <= span
    ensures Instantaneous(at) ==> sum == span
  {
  }

  lemma FourMarks(s: seq<int>)
    requires Increasing(s) && Quarters(s) && forall b :: b in s ==> 0 < b
    ensures |s| <= 4
  {
    MilestonesAreFew(s);
  }

  /** At most four quarter marks are announced per phase. */
  lemma {:induction false} FewBelow(s: seq<int>, top: int)
    requires Increasing(s) && top >= 0 && forall b :: b in s ==> 0 < b <= top
    ensures |s| <= top
  {
    if s != [] {
      var init := s[..|s| - 1];
      assert s[|s| - 1] in s;
      forall b | b in init
        ensures 0 < b <= s[|s| - 1] - 1
      {
        var i :| 0 <= i < |init| && init[i] == b;
        assert s[i] < s[|s| - 1];
        assert s[i] in s;
      }
      FewBelow(init, s[|s| - 1] - 1);
    }
  }

  lemma MilestonesAreFew(s: seq<int>)
    requires Increasing(s) && forall b :: b in s ==> 0 < b <= 4
    ensures |s| <= 4
  {
    FewBelow(s, 4);
  }
}
