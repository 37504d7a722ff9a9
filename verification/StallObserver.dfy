/** The progress-stall observer: inter-arrival gaps that reconcile with the wall clock. */
module StallObserver {
  import opened IncrementalDriver

  datatype StallInterval = StallInterval(seq_: nat, phase: string, us: nat)

  function Sum(intervals: seq<StallInterval>): nat {
    if intervals == [] then 0 else Sum(intervals[..|intervals| - 1]) + intervals[|intervals| - 1].us
  }

  /** The observer's fields; at(k) is the k-th clock reading in nanoseconds. */
  class Observer {
    const at: nat -> int
    var ticks: nat
    var started: int
    var stopped: int
    var last: int
    var events: nat
    var leadInUS: nat
    var intervals: seq<StallInterval>
    var begun: bool
    var ended: bool
    var tailUS: nat

    constructor (at: nat -> int)
      ensures this.at == at && ticks == 0 && !begun && !ended
      ensures events == 0 && intervals == [] && leadInUS == tailUS == 0
    {
      this.at := at;
      ticks, started, stopped, last, events := 0, 0, 0, 0, 0;
      leadInUS, intervals, begun, ended, tailUS := 0, [], false, false, 0;
    }

    /** Within an open window: one interval per event after the first, numbered in order, and at most one
        microsecond lost per measured gap. */
    ghost predicate Reconciled()
      reads this
    {
      && begun && started <= last
      && |intervals| == (if events == 0 then 0 else events - 1)
      && (forall i :: 0 <= i < |intervals| ==> intervals[i].seq_ == i + 1)
      && (events == 0 ==> leadInUS == 0 && last == started)
      && var measured := leadInUS + Sum(intervals);
         1000 * measured <= last - started <= 1000 * measured + 999 * events
    }

    method Begin(now: int)
      modifies this
      ensures started == last == now && begun
      ensures unchanged(`ticks, `events, `intervals, `leadInUS, `tailUS, `ended)
      ensures events == 0 && intervals == [] && leadInUS == 0 ==> Reconciled()
    {
      started := now;
      last := now;
      begun := true;
    }

    /** One progress event; the clock is read once. */
    method Observe(phase: string)
      modifies this`ticks, this`events, this`leadInUS, this`last, this`intervals
      ensures ticks == old(ticks) + 1 && events == old(events) + 1 && last == at(old(ticks))
      ensures old(events) == 0 ==> leadInUS == MicrosBetween(started, last) && intervals == old(intervals)
      ensures old(events) > 0 ==> leadInUS == old(leadInUS)
      ensures old(events) > 0 ==>
        intervals == old(intervals) + [StallInterval(|old(intervals)| + 1, phase, MicrosBetween(old(last), last))]
      ensures old(Reconciled()) && old(last) <= last ==> Reconciled()
    {
      var now := at(ticks);
      ticks := ticks + 1;
      events := events + 1;
      if events == 1 {
        leadInUS := MicrosBetween(started, now);
        last := now;
        return;
      }
      ghost var before := intervals;
      intervals := intervals + [StallInterval(|intervals| + 1, phase, MicrosBetween(last, now))];
      assert intervals[..|intervals| - 1] == before;
      last := now;
    }

    method End(now: int)
      modifies this`stopped, this`ended, this`tailUS
      ensures stopped == now && ended
      ensures tailUS == if events > 0 then MicrosBetween(last, now) else old(tailUS)
    {
      stopped := now;
      ended := true;
      if events > 0 {
        tailUS := MicrosBetween(last, now);
      }
    }

    /** The published wall clock of the window. */
    function WallclockUS(): nat
      reads this
    {
      MicrosBetween(started, stopped)
    }

    /** Lead-in, intervals and tail add up to the wall clock, short of it by at most one microsecond per event. */
    lemma Conservation()
      requires Reconciled() && events > 0 && last <= stopped && tailUS == MicrosBetween(last, stopped)
      ensures var total := leadInUS + Sum(intervals) + tailUS;
              WallclockUS() - events <= total <= WallclockUS()
      ensures |intervals| == events - 1
    {
      var measured := leadInUS + Sum(intervals);
    }
  }

  /** A whole measured window over any event stream and any monotone clock. */
  method MeasureWindow(at: nat -> int, start: int, stop: int, phases: seq<string>) returns (o: Observer)
    requires Monotone(at)
    requires if phases == [] then start <= stop else start <= at(0) && at(|phases| - 1) <= stop
    ensures fresh(o) && o.events == |phases| && o.ended
    ensures |o.intervals| == if phases == [] then 0 else |phases| - 1
    ensures forall i :: 0 <= i < |o.intervals| ==>
      o.intervals[i] == StallInterval(i + 1, phases[i + 1], MicrosBetween(at(i), at(i + 1)))
    ensures phases != [] ==>
      o.leadInUS == MicrosBetween(start, at(0)) && o.tailUS == MicrosBetween(at(|phases| - 1), stop)
    ensures phases != [] ==>
      MicrosBetween(start, stop) - |phases| <= o.leadInUS + Sum(o.intervals) + o.tailUS <= MicrosBetween(start, stop)
    ensures phases == [] ==> o.leadInUS == o.tailUS == 0 && o.intervals == []
  {
    o := new Observer(at);
    o.Begin(start);
    for i := 0 to |phases|
      invariant fresh(o) && o.at == at && o.Reconciled() && o.ticks == o.events == i && o.started == start
      invariant o.last == if i == 0 then start else at(i - 1)
      invariant i > 0 ==> o.leadInUS == MicrosBetween(start, at(0))
      invariant o.tailUS == 0 && (i == 0 ==> o.leadInUS == 0)
      invariant forall j :: 0 <= j < |o.intervals| ==>
        o.intervals[j] == StallInterval(j + 1, phases[j + 1], MicrosBetween(at(j), at(j + 1)))
    {
      assert i > 0 ==> at(i - 1) <= at(i);
      assert at(0) <= at(i);
      o.Observe(phases[i]);
    }
    o.End(stop);
    if phases != [] {
      o.Conservation();
    }
  }
}
