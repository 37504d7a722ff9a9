/** Publishing a snapshot as a list of atomic file steps that a crash may cut short anywhere. */
module Snapshot {
  import opened Text

  /** A main file holds part of a store, all of it but what is still in its journal, or all of it. */
  datatype Content = Partial | Unfolded(version: nat) | Whole(version: nat)

  /** The journal beside a main file: that file's own, or one left behind by a file that was there before. */
  datatype Journal = NoJournal | Own | Stale

  /** A SQLite database file and its two sidecars. */
  datatype DbFiles = DbFiles(main: Option<Content>, wal: Journal, shm: bool)

  /** What a reader finds under a name: a stale journal spoils any store, and an unfolded one needs its own. */
  datatype Found = Nothing | Torn | Complete(version: nat)

  function Reading(d: DbFiles): Found {
    match d.main
    case None => Nothing
    case Some(Partial) => Torn
    case Some(Unfolded(v)) => if d.wal == Own then Complete(v) else Torn
    case Some(Whole(v)) => if d.wal == Stale then Torn else Complete(v)
  }

  /** Which of the three removals the file system refuses; removeDBFiles ignores that answer. */
  datatype RemoveFaults = RemoveFaults(main: bool, wal: bool, shm: bool)

  const NO_FAULTS := RemoveFaults(false, false, false)

  /** d after the first `steps` of its three removals. */
  function Removed(d: DbFiles, faults: RemoveFaults, steps: nat): DbFiles {
    DbFiles(if steps >= 1 && !faults.main then None else d.main,
            if steps >= 2 && !faults.wal then NoJournal else d.wal,
            if steps >= 3 && !faults.shm then false else d.shm)
  }

  function Spent(fuel: nat, steps: nat): nat {
    if fuel < steps then 0 else fuel - steps
  }

  const BUILDING := DbFiles(Some(Partial), Own, true)
  const GONE := DbFiles(None, NoJournal, false)

  /** What closing a finished store leaves: the journal folded in, or the journal still beside the main file. */
  function Closed(version: nat, fails: bool): DbFiles {
    if fails then DbFiles(Some(Unfolded(version)), Own, true) else DbFiles(Some(Whole(version)), NoJournal, false)
  }

  /** The main file of `tmp` under the final name; a journal that was there is not its own. */
  function Renamed(final: DbFiles, tmp: DbFiles): DbFiles {
    final.(main := tmp.main, wal := if final.wal == NoJournal then NoJournal else Stale)
  }

  class SnapshotDir {
    var final: DbFiles
    var tmp: DbFiles
    /** How many more file steps happen before the machine stops; steps after that have no effect. */
    var fuel: nat

    constructor (final: DbFiles, tmp: DbFiles, fuel: nat)
      ensures this.final == final && this.tmp == tmp && this.fuel == fuel
    {
      this.final, this.tmp, this.fuel := final, tmp, fuel;
    }

    method RemoveTmp(faults: RemoveFaults)
      modifies this`tmp, this`fuel
      ensures tmp == Removed(old(tmp), faults, old(fuel)) && fuel == Spent(old(fuel), 3)
    {
      for p := 0 to 3
        invariant fuel == Spent(old(fuel), p)
        invariant tmp == Removed(old(tmp), faults, if p < old(fuel) then p else old(fuel))
      {
        if fuel > 0 {
          fuel := fuel - 1;
          if p == 0 && !faults.main { tmp := tmp.(main := None); }
          if p == 1 && !faults.wal { tmp := tmp.(wal := NoJournal); }
          if p == 2 && !faults.shm { tmp := tmp.(shm := false); }
        }
      }
    }

    method RemoveFinal(faults: RemoveFaults)
      modifies this`final, this`fuel
      ensures final == Removed(old(final), faults, old(fuel)) && fuel == Spent(old(fuel), 3)
    {
      for p := 0 to 3
        invariant fuel == Spent(old(fuel), p)
        invariant final == Removed(old(final), faults, if p < old(fuel) then p else old(fuel))
      {
        if fuel > 0 {
          fuel := fuel - 1;
          if p == 0 && !faults.main { final := final.(main := None); }
          if p == 1 && !faults.wal { final := final.(wal := NoJournal); }
          if p == 2 && !faults.shm { final := final.(shm := false); }
        }
      }
    }

    /** Opening the store creates its files; a finished pass closes it, and what closing answers is discarded. */
    method Build(version: nat, fails: bool, closeFails: bool)
      modifies this`tmp, this`fuel
      ensures fuel == Spent(old(fuel), if fails then 1 else 2)
      ensures tmp ==
        if old(fuel) == 0 then old(tmp)
        else if old(fuel) == 1 || fails then BUILDING
        else Closed(version, closeFails)
    {
      if fuel > 0 {
        tmp, fuel := BUILDING, fuel - 1;
      }
      if !fails && fuel > 0 {
        tmp, fuel := Closed(version, closeFails), fuel - 1;
      }
    }

    /** Renames the main file alone. */
    method Rename(fails: bool)
      modifies this`final, this`tmp, this`fuel
      ensures fuel == Spent(old(fuel), 1)
      ensures old(fuel) > 0 && !fails ==> final == Renamed(old(final), old(tmp)) && tmp == old(tmp).(main := None)
      ensures old(fuel) == 0 || fails ==> final == old(final) && tmp == old(tmp)
    {
      if fuel > 0 {
        fuel := fuel - 1;
        if !fails {
          final := Renamed(final, tmp);
          tmp := tmp.(main := None);
        }
      }
    }

    /** Build aside, clear the final name, swap. The exit code is what an uninterrupted run returns. */
    method CreateSnapshot(r: Run) returns (code: nat)
      modifies this
      ensures Disk(final, tmp) == Stopped(Disk(old(final), old(tmp)), r, old(fuel))
      ensures code == if r.buildFails || r.renameFails then 1 else 0
    {
      hide Play;
      StoppedIsAfter(Disk(final, tmp), r, fuel);
      RemoveTmp(r.tmpFaults);
      Build(r.version, r.buildFails, r.closeFails);
      if r.buildFails {
        RemoveTmp(r.tmpFaults);
        return 1;
      }
      RemoveFinal(r.finalFaults);
      Rename(r.renameFails);
      if r.renameFails {
        RemoveTmp(r.tmpFaults);
        return 1;
      }
      return 0;
    }
  }

  // ---- the disk after a run stopped at any step -----------------------------------------

  datatype Disk = Disk(final: DbFiles, tmp: DbFiles)

  datatype Run = Run(
    version: nat, buildFails: bool, closeFails: bool, renameFails: bool, finalFaults: RemoveFaults,
    tmpFaults: RemoveFaults)

  /** Nothing fails, except perhaps folding the journal in. */
  predicate FaultFreeButClose(r: Run) {
    !r.buildFails && !r.renameFails && r.finalFaults == r.tmpFaults == NO_FAULTS
  }

  predicate FaultFree(r: Run) {
    FaultFreeButClose(r) && !r.closeFails
  }

  datatype Part = Main | Wal | Shm
  datatype Step = Unlink(tmp: bool, part: Part) | Open | Close | Swap

  /** The file steps of a run, in program order. */
  function Steps(r: Run): seq<Step> {
    var sweep := [Unlink(true, Main), Unlink(true, Wal), Unlink(true, Shm)];
    if r.buildFails then sweep + [Open] + sweep
    else
      var swap := sweep + [Open, Close] + [Unlink(false, Main), Unlink(false, Wal), Unlink(false, Shm)] + [Swap];
      if r.renameFails then swap + sweep else swap
  }

  function Unlinked(d: DbFiles, part: Part, faults: RemoveFaults): DbFiles {
    match part
    case Main => if faults.main then d else d.(main := None)
    case Wal => if faults.wal then d else d.(wal := NoJournal)
    case Shm => if faults.shm then d else d.(shm := false)
  }

  /** One atomic file step. */
  function Do(d: Disk, step: Step, r: Run): Disk {
    match step
    case Unlink(true, part) => d.(tmp := Unlinked(d.tmp, part, r.tmpFaults))
    case Unlink(false, part) => d.(final := Unlinked(d.final, part, r.finalFaults))
    case Open => d.(tmp := BUILDING)
    case Close => d.(tmp := Closed(r.version, r.closeFails))
    case Swap => if r.renameFails then d else Disk(Renamed(d.final, d.tmp), d.tmp.(main := None))
  }

  /** A run cut short after k of its steps. */
  function Play(d: Disk, r: Run, k: nat): Disk
    requires k <= |Steps(r)|
  {
    if k == 0 then d else Do(Play(d, r, k - 1), Steps(r)[k - 1], r)
  }

  /** The closed form of the disk after k file steps: three removals, two build steps, three removals, the rename,
      and the three clean-up removals of an error branch. */
  function After(d: Disk, r: Run, k: nat): Disk {
    if k <= 3 then d.(tmp := Removed(d.tmp, r.tmpFaults, k))
    else if r.buildFails then d.(tmp := Removed(BUILDING, r.tmpFaults, k - 4))
    else if k == 4 then d.(tmp := BUILDING)
    else
      var built := Closed(r.version, r.closeFails);
      var cleared := Removed(d.final, r.finalFaults, k - 5);
      if k <= 8 then Disk(cleared, built)
      else if r.renameFails then Disk(cleared, Removed(built, r.tmpFaults, k - 9))
      else Disk(Renamed(cleared, built), built.(main := None))
  }

  /** Playing the steps one at a time is the closed form, at every cut. */
  lemma {:induction false} StepByStep(d: Disk, r: Run, k: nat)
    requires k <= |Steps(r)|
    ensures Play(d, r, k) == After(d, r, k)
  {
    if k > 0 {
      StepByStep(d, r, k - 1);
      OneStep(d, r, k - 1);
    } else {
      assert Removed(d.tmp, r.tmpFaults, 0) == d.tmp;
    }
  }

  lemma OneStep(d: Disk, r: Run, k: nat)
    requires k < |Steps(r)|
    ensures Do(After(d, r, k), Steps(r)[k], r) == After(d, r, k + 1)
  {
    var s := Steps(r);
    assert s[0] == Unlink(true, Main) && s[1] == Unlink(true, Wal) && s[2] == Unlink(true, Shm) && s[3] == Open;
  }

  /** The disk a run leaves when it may take `fuel` steps: all of them, or the first `fuel`. */
  function Stopped(d: Disk, r: Run, fuel: nat): Disk {
    Play(d, r, if fuel < |Steps(r)| then fuel else |Steps(r)|)
  }

  lemma StoppedIsAfter(d: Disk, r: Run, fuel: nat)
    ensures Stopped(d, r, fuel) == After(d, r, fuel)
  {
    hide Play;
    StepByStep(d, r, if fuel < |Steps(r)| then fuel else |Steps(r)|);
  }

  // ---- what a crash can and cannot do ---------------------------------------------------

  /** The rename publishes a store that reads whole: its journal was folded in, and no older one stays in its place. */
  predicate Publishes(d: Disk, r: Run) {
    !r.closeFails && !(r.finalFaults.wal && d.final.wal != NoJournal)
  }

  /** Stopped between any two steps, the final name reads as it did, as nothing, or as the whole new store: never
      partial. Before the rename it matters only that a main file which stays keeps what it needs to be read. */
  lemma FinalIsNeverPartial(d: Disk, r: Run, k: nat)
    requires Publishes(d, r) || r.buildFails || r.renameFails || k <= 8
    requires r.finalFaults.main ==> Reading(d.final) != Torn && (d.final.main.Some? ==> d.final.main.value.Whole?)
    ensures Reading(Stopped(d, r, k).final) in {Reading(d.final), Nothing, Complete(r.version)}
    ensures Reading(d.final) != Torn ==> Reading(Stopped(d, r, k).final) != Torn
  {
    hide Stopped;
    StoppedIsAfter(d, r, k);
  }

  /** Two answers are ignored and matter: a stale journal that cannot be removed, and a store that cannot be closed with
      its journal folded in. In either case the run answers 0 and what it published is torn. */
  lemma PublishedIff(d: Disk, r: Run)
    requires !r.buildFails && !r.renameFails
    ensures var end := Play(d, r, |Steps(r)|);
            && (Reading(end.final) == Complete(r.version) <==> Publishes(d, r))
            && (Reading(end.final) == Torn <==> !Publishes(d, r))
            && end.tmp.main == None
  {
    hide Play;
    StepByStep(d, r, |Steps(r)|);
  }

  /** A failed build leaves the final name exactly as it was, and no temporary files when they can be removed. */
  lemma FailedBuildKeepsFinal(d: Disk, r: Run, k: nat)
    requires r.buildFails
    ensures Stopped(d, r, k).final == d.final
    ensures k >= |Steps(r)| && r.tmpFaults == NO_FAULTS ==> Stopped(d, r, k).tmp == GONE
  {
    hide Stopped;
    StoppedIsAfter(d, r, k);
  }

  /** If a snapshot existed and the rename itself does not err, a complete store remains under one of the two names
      exactly when the run stopped short of the rename, or did not get that far, or the rename publishes. */
  lemma SomeCopySurvivesIff(d: Disk, r: Run, k: nat)
    requires Reading(d.final).Complete? && !r.renameFails
    ensures var end := Stopped(d, r, k);
            && (Reading(end.final).Complete? || Reading(end.tmp).Complete? <==>
                k <= 8 || r.buildFails || Publishes(d, r))
            && (5 <= k <= 8 && !r.buildFails ==> Reading(end.tmp) == Complete(r.version))
            && (k >= 9 && !r.buildFails && Publishes(d, r) ==> Reading(end.final) == Complete(r.version))
  {
    hide Stopped;
    StoppedIsAfter(d, r, k);
  }

  /** The rename's error branch runs after the old store is gone and removes the new one. Stopped after k steps, such a
      run leaves a complete store exactly until it removes the new one: the old one before the sixth step, the new one
      from the fifth step to the ninth; a finished run leaves nothing under either name. */
  lemma RenameErrorLosesBoth(d: Disk, r: Run, k: nat)
    requires !r.buildFails && r.renameFails && r.finalFaults == r.tmpFaults == NO_FAULTS
    ensures var end := Stopped(d, r, k);
            && (Reading(end.final).Complete? || Reading(end.tmp).Complete? <==>
                (k <= 5 && Reading(d.final).Complete?) || (k == 0 && Reading(d.tmp).Complete?) || 5 <= k <= 9)
            && (k >= 10 ==> Reading(end.final) == Nothing && Reading(end.tmp) == Nothing)
            && |Steps(r)| == 12
  {
    hide Stopped;
    StoppedIsAfter(d, r, k);
  }

  /** Exactly when a run in which at most the closing fails, stopped after k steps, leaves a complete store somewhere.
      The copy that an earlier crash left under the temporary name does not count, because it is the first thing
      removed; a store that was not folded reads whole only until the rename parts it from its journal. */
  lemma CopyLeftIff(d: Disk, r: Run, k: nat)
    requires FaultFreeButClose(r)
    ensures Reading(Stopped(d, r, k).final).Complete? || Reading(Stopped(d, r, k).tmp).Complete? <==>
      || (Reading(d.final).Complete? && k <= 5) || (k == 0 && Reading(d.tmp).Complete?)
      || (k >= 5 && (k <= 8 || !r.closeFails))
  {
    hide Stopped;
    StoppedIsAfter(d, r, k);
  }

  /** So two crashes lose a snapshot that one crash cannot: the first inside the swap, the second before the next build
      ends. */
  lemma TwoCrashesLoseIff(d: Disk, r: Run, j: nat, s: Run, k: nat)
    requires FaultFree(r) && FaultFree(s) && Reading(d.final).Complete?
    ensures var end := Stopped(Stopped(d, r, j), s, k);
            Reading(end.final).Complete? || Reading(end.tmp).Complete? <==> !(6 <= j <= 8 && 1 <= k <= 4)
  {
    hide Stopped;
    var mid := Stopped(d, r, j);
    StoppedIsAfter(d, r, j);
    CopyLeftIff(mid, s, k);
    assert Reading(mid.final).Complete? <==> !(6 <= j <= 8);
    assert 6 <= j <= 8 ==> Reading(mid.tmp).Complete?;
  }
}
