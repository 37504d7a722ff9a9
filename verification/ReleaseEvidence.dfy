/** The release run: gates, measured scores and baseline folded into one verdict, and the evidence it may publish. */
module ReleaseEvidence {
  import opened Text
  import opened Sorting
  import opened Scorecard
  import opened ReleaseGate

  // ---- the inputs of a run --------------------------------------------------------------

  /** The eval report: its score per area and its tier-1 regressions. It is consumed even when the runner also errs. */
  datatype Report = Report(breakdown: map<string, real>, regressions: seq<string>, commit: string)

  /** Everything the injected runners answer during one run. */
  datatype Answers = Answers(
    gates: map<string, Answer>,
    report: Report, evalFailed: bool,
    ux: Option<real>,
    removed: seq<string>, baselineFailed: bool)

  datatype Problem = GateBlocked(outcome: GateOutcome) | EvalReportFailed | UxFailed | BaselineFailed

  datatype GateResult = GateResult(
    context: Context, gates: seq<GateOutcome>, errors: seq<Problem>, warnings: seq<GateOutcome>,
    report: Report, ux: Option<real>, card: Card, removed: seq<string>, pass: bool)

  /** The scores the card is computed from: the report's, the measured ux over them, zero for a missing area. */
  function FinalScores(a: Answers): map<string, real> {
    map area | area in a.report.breakdown.Keys + (set x | x in AREAS) ::
      if area == "ux" && a.ux.Some? then a.ux.value
      else if area in a.report.breakdown then a.report.breakdown[area]
      else 0.0
  }

  /** The scores are six known areas, each at the floor or above, and their weighted sum reaches the target. */
  ghost predicate ScoresPass(scores: map<string, real>) {
    && Complete(scores)
    && Weighted(scores, |AREAS|) >= TARGET
    && forall a :: a in AREAS ==> scores[a] >= FLOOR
  }

  /** Nothing but the gates stands in the way. */
  ghost predicate MeasurementsPass(a: Answers) {
    && ScoresPass(FinalScores(a))
    && !a.evalFailed && a.ux.Some? && !a.baselineFailed
    && a.removed == [] && a.report.regressions == []
  }

  /** The whole verdict, as a statement about the runners' answers alone. */
  ghost predicate Passes(ctx: Context, a: Answers) {
    && MeasurementsPass(a)
    && forall n :: n in a.gates || n in REQUIRED ==> !Blocks(ctx, StateOf(a.gates, n))
  }

  /** Every supplied and every required gate ran and reported PASS. */
  ghost predicate FullyVerified(gates: map<string, Answer>) {
    forall n :: n in gates || n in REQUIRED ==> n in gates && gates[n] == None
  }

  // ---- the verdict ----------------------------------------------------------------------

  /** Splits the outcomes: blocking ones are errors, other non-PASS ones are warnings. */
  method Fold(ctx: Context, outcomes: seq<GateOutcome>) returns (errors: seq<Problem>, warnings: seq<GateOutcome>)
    requires forall o :: o in outcomes ==> (o.blocking <==> Blocks(ctx, o.state))
    ensures errors == Blocking(outcomes)
    ensures warnings == Warned(outcomes)
  {
    errors, warnings := [], [];
    for i := 0 to |outcomes|
      invariant errors == Blocking(outcomes[..i]) && warnings == Warned(outcomes[..i])
    {
      var o := outcomes[i];
      assert outcomes[..i + 1][..i] == outcomes[..i];
      if o.state == Pass {
      } else if o.blocking {
        errors := errors + [GateBlocked(o)];
      } else {
        warnings := warnings + [o];
      }
    }
    assert outcomes[..|outcomes|] == outcomes;
  }

  function Blocking(outcomes: seq<GateOutcome>): seq<Problem> {
    if outcomes == [] then []
    else
      var o := outcomes[|outcomes| - 1];
      Blocking(outcomes[..|outcomes| - 1]) + (if o.state != Pass && o.blocking then [GateBlocked(o)] else [])
  }

  function Warned(outcomes: seq<GateOutcome>): seq<GateOutcome> {
    if outcomes == [] then []
    else
      var o := outcomes[|outcomes| - 1];
      Warned(outcomes[..|outcomes| - 1]) + (if o.state != Pass && !o.blocking then [o] else [])
  }

  /** Every outcome that is not PASS is an error or a warning, as it blocks or not, and there is nothing else. */
  lemma {:induction false} SplitIsExact(outcomes: seq<GateOutcome>)
    ensures forall p :: p in Blocking(outcomes) <==>
      p.GateBlocked? && p.outcome in outcomes && p.outcome.state != Pass && p.outcome.blocking
    ensures forall o :: o in Warned(outcomes) <==> o in outcomes && o.state != Pass && !o.blocking
  {
    if outcomes != [] {
      var init, last := outcomes[..|outcomes| - 1], outcomes[|outcomes| - 1];
      SplitIsExact(init);
      assert outcomes == init + [last];
      assert forall o :: o in outcomes <==> o in init || o == last;
    }
  }

  lemma {:induction false} NothingBlocks(outcomes: seq<GateOutcome>)
    ensures Blocking(outcomes) == [] <==> forall o :: o in outcomes ==> o.state == Pass || !o.blocking
  {
    if outcomes != [] {
      NothingBlocks(outcomes[..|outcomes| - 1]);
      assert outcomes == outcomes[..|outcomes| - 1] + [outcomes[|outcomes| - 1]];
    }
  }

  /** No outcome blocks exactly when no gate's state does. */
  lemma CleanOutcomes(ctx: Context, gates: map<string, Answer>, outcomes: seq<GateOutcome>)
    requires IsEvaluation(ctx, gates, outcomes)
    ensures Blocking(outcomes) == [] <==> forall n :: n in gates || n in REQUIRED ==> !Blocks(ctx, StateOf(gates, n))
  {
    hide REQUIRED, Blocking, IsEvaluation, AsUnverified, AsGateError;
    NothingBlocks(outcomes);
    if Blocking(outcomes) == [] {
      forall n | n in gates || n in REQUIRED
        ensures !Blocks(ctx, StateOf(gates, n))
      {
        EvaluationCovers(ctx, gates, outcomes, n);
      }
    } else {
      var o :| o in outcomes && o.state != Pass && o.blocking;
      OutcomeComesFromAGate(ctx, gates, outcomes, o);
    }
  }

  lemma OutcomeComesFromAGate(ctx: Context, gates: map<string, Answer>, outcomes: seq<GateOutcome>, o: GateOutcome)
    requires IsEvaluation(ctx, gates, outcomes) && o in outcomes
    ensures (o.name in gates || o.name in REQUIRED) && o == OutcomeOf(ctx, gates, o.name)
  {
    hide REQUIRED, OutcomeOf, Sorted;
    var i :| 0 <= i < |outcomes| && outcomes[i] == o;
    assert Names(outcomes)[i] == o.name;
  }

  /** The split, when every outcome blocks as the policy says. */
  lemma SplitByPolicy(ctx: Context, outcomes: seq<GateOutcome>)
    requires forall o :: o in outcomes ==> (o.blocking <==> Blocks(ctx, o.state))
    ensures forall o :: o in Warned(outcomes) <==> o in outcomes && o.state == Unverified && ctx == Pr
    ensures forall p :: p in Blocking(outcomes) <==>
      p.GateBlocked? && p.outcome in outcomes && Blocks(ctx, p.outcome.state)
  {
    hide Warned, Blocking;
    SplitIsExact(outcomes);
  }

  /** The failed measurements join the blocked gates. */
  method WithMeasurements(blocked: seq<Problem>, a: Answers) returns (errors: seq<Problem>)
    requires forall p :: p in blocked ==> p.GateBlocked?
    ensures errors == [] <==> blocked == [] && !a.evalFailed && a.ux.Some? && !a.baselineFailed
    ensures forall o :: GateBlocked(o) in errors <==> GateBlocked(o) in blocked
    ensures EvalReportFailed in errors <==> a.evalFailed
    ensures UxFailed in errors <==> a.ux == None
    ensures BaselineFailed in errors <==> a.baselineFailed
  {
    errors := blocked;
    if a.evalFailed {
      errors := errors + [EvalReportFailed];
    }
    if a.ux == None {
      errors := errors + [UxFailed];
    }
    if a.baselineFailed {
      errors := errors + [BaselineFailed];
    }
  }

  /** Runs the gate; None is the run that dies because the score set is not a scorecard at all. */
  method Run(ctx: Context, a: Answers, order: seq<string>) returns (result: Option<GateResult>)
    requires RangesOver(order, a.gates)
    ensures result.Some? <==> Complete(FinalScores(a))
    ensures result.Some? ==> result.value.context == ctx && IsEvaluation(ctx, a.gates, result.value.gates)
    ensures result.Some? ==> forall o ::
      o in result.value.warnings <==> o in result.value.gates && o.state == Unverified && ctx == Pr
    ensures result.Some? ==> forall o ::
      GateBlocked(o) in result.value.errors <==> o in result.value.gates && Blocks(ctx, o.state)
    ensures result.Some? ==>
      && (EvalReportFailed in result.value.errors <==> a.evalFailed)
      && (UxFailed in result.value.errors <==> a.ux == None)
      && (BaselineFailed in result.value.errors <==> a.baselineFailed)
    ensures result.Some? ==> (result.value.pass <==> Passes(ctx, a))
    ensures result.Some? ==> result.value.report == a.report && result.value.ux == a.ux
    ensures result.Some? ==> result.value.card.overall == Weighted(FinalScores(a), |AREAS|)
  {
    hide REQUIRED, AREAS, Weighted, IsEvaluation, Complete, FinalScores;
    var outcomes := EvaluateGates(ctx, a.gates, order);
    forall o | o in outcomes
      ensures o.blocking <==> Blocks(ctx, o.state)
    {
      OutcomeComesFromAGate(ctx, a.gates, outcomes, o);
    }
    var errors, warnings := Fold(ctx, outcomes);
    CleanOutcomes(ctx, a.gates, outcomes);
    SplitByPolicy(ctx, outcomes);
    hide Blocking, Warned, Blocks;
    errors := WithMeasurements(errors, a);
    var card := Calculate(FinalScores(a));
    if card == None {
      return None;
    }
    var pass := card.value.pass && errors == [] && a.removed == [] && a.report.regressions == [];
    result := Some(GateResult(ctx, outcomes, errors, warnings, a.report, a.ux, card.value, a.removed, pass));
  }

  /** A pass means every area was measured: nothing that defaults to zero clears the floor. */
  lemma PassMeansMeasured(ctx: Context, a: Answers)
    requires Passes(ctx, a)
    ensures forall area :: area in AREAS && area != "ux" ==>
      area in a.report.breakdown && a.report.breakdown[area] >= FLOOR
    ensures a.ux.Some? && a.ux.value >= FLOOR
    ensures forall area :: area in a.report.breakdown ==> area in AREAS
  {
    hide Weighted, REQUIRED, StateOf, Blocks;
    var scores := FinalScores(a);
    assert "ux" in AREAS by { assert AREAS[5] == "ux"; }
    forall area | area in a.report.breakdown
      ensures area in AREAS
    {
      assert area in scores;
    }
    forall area | area in AREAS && area != "ux"
      ensures area in a.report.breakdown && a.report.breakdown[area] >= FLOOR
    {
      assert scores[area] >= FLOOR;
    }
    assert scores["ux"] >= FLOOR;
  }

  /** Release passes exactly when pr passes on the same answers and no gate is UNVERIFIED. */
  lemma ReleaseIsPrPlusVerified(a: Answers)
    ensures Passes(Release, a) <==>
      Passes(Pr, a) && forall n :: n in a.gates || n in REQUIRED ==> StateOf(a.gates, n) != Unverified
    ensures Passes(Release, a) <==> MeasurementsPass(a) && FullyVerified(a.gates)
  {
    hide MeasurementsPass, REQUIRED, AsUnverified, AsGateError;
    forall n | n in a.gates || n in REQUIRED
      ensures Blocks(Release, StateOf(a.gates, n)) <==>
        Blocks(Pr, StateOf(a.gates, n)) || StateOf(a.gates, n) == Unverified
      ensures !Blocks(Release, StateOf(a.gates, n)) <==> n in a.gates && a.gates[n] == None
    {
      OneCellDiffers(StateOf(a.gates, n));
    }
  }

  /** Exactly what a run needs to pass, in terms of the runners' answers. The four declared gates, and every other
      supplied one, answered; in the pr context an answer may be an error that holds an UnverifiedError, in release, or
      in a context nobody has heard of, it may not. */
  lemma PassesByAnswers(a: Answers, unheard: string)
    ensures var names := a.gates.Keys + {"bench-budget", "coverage", "privacy", "testgate"};
            && (Passes(Release, a) <==>
                  MeasurementsPass(a) && forall n :: n in names ==> n in a.gates && a.gates[n] == None)
            && (Passes(Pr, a) <==>
                  MeasurementsPass(a) && forall n :: n in names ==>
                    n in a.gates && (a.gates[n] == None || HoldsUnverified(a.gates[n].value)))
            && (Passes(Unheard(unheard), a) <==> Passes(Release, a))
  {
    FourAreRequired();
    hide MeasurementsPass, REQUIRED, AsUnverified, AsGateError, HoldsUnverified, HoldsGateError;
    forall n | n in a.gates || n in REQUIRED
      ensures !Blocks(Release, StateOf(a.gates, n)) <==> n in a.gates && a.gates[n] == None
      ensures !Blocks(Pr, StateOf(a.gates, n)) <==>
        n in a.gates && (a.gates[n] == None || HoldsUnverified(a.gates[n].value))
      ensures Blocks(Unheard(unheard), StateOf(a.gates, n)) <==> Blocks(Release, StateOf(a.gates, n))
    {
      if n in a.gates && a.gates[n].Some? {
        StateByCauses(a.gates[n].value);
      }
    }
  }

  lemma FourAreRequired()
    ensures forall n :: n in REQUIRED <==> n in {"bench-budget", "coverage", "privacy", "testgate"}
  {
  }

  // ---- publishing -----------------------------------------------------------------------

  /** The names of the UNVERIFIED outcomes, in order. */
  function UnverifiedNames(outcomes: seq<GateOutcome>): seq<string> {
    if outcomes == [] then []
    else
      var o := outcomes[|outcomes| - 1];
      UnverifiedNames(outcomes[..|outcomes| - 1]) + (if o.state == Unverified then [o.name] else [])
  }

  lemma {:induction false} UnverifiedNamesAreAll(outcomes: seq<GateOutcome>)
    ensures forall n :: n in UnverifiedNames(outcomes) <==>
      exists o :: o in outcomes && o.state == Unverified && o.name == n
    ensures UnverifiedNames(outcomes) == [] <==> forall o :: o in outcomes ==> o.state != Unverified
  {
    if outcomes != [] {
      var init, last := outcomes[..|outcomes| - 1], outcomes[|outcomes| - 1];
      assert outcomes == init + [last];
      UnverifiedNamesAreAll(init);
    }
  }

  method UnverifiedGateNames(outcomes: seq<GateOutcome>) returns (names: seq<string>)
    ensures names == UnverifiedNames(outcomes)
    ensures forall n :: n in names <==> exists o :: o in outcomes && o.state == Unverified && o.name == n
    ensures names == [] <==> forall o :: o in outcomes ==> o.state != Unverified
  {
    names := [];
    for i := 0 to |outcomes|
      invariant names == UnverifiedNames(outcomes[..i])
    {
      assert outcomes[..i + 1][..i] == outcomes[..i];
      if outcomes[i].state == Unverified {
        names := names + [outcomes[i].name];
      }
    }
    assert outcomes[..|outcomes|] == outcomes;
    UnverifiedNamesAreAll(outcomes);
  }

  /** The published document: the result and the commit it is stamped with. */
  datatype Document = Document(result: GateResult, version: string, commit: string)

  function StampedCommit(result: GateResult, commit: string): string {
    if (commit == "" || commit == "unknown") && result.report.commit != "" then result.report.commit else commit
  }

  /** A file write ends complete, fails before touching the file, or fails with the file cut short. */
  datatype WriteFault = Completes | Untouched | CutShort
  datatype File = Absent | Partial | Whole(document: Document)

  /** How the two writes end, and which document something else removes before it is looked for. */
  datatype Weather = Weather(json: WriteFault, markdown: WriteFault, jsonGone: bool, markdownGone: bool)

  datatype PublishOutcome = Published | Refused(gates: seq<string>) | WriteFailed | MissingAfterwards

  class DocsDir {
    var json: File
    var markdown: File

    constructor (json: File, markdown: File)
      ensures this.json == json && this.markdown == markdown
    {
      this.json, this.markdown := json, markdown;
    }

    /** Writes both documents, unless any gate is UNVERIFIED, and looks for both afterwards. */
    method Publish(result: GateResult, version: string, commit: string, w: Weather) returns (outcome: PublishOutcome)
      modifies this
      ensures outcome.Refused? <==> exists o :: o in result.gates && o.state == Unverified
      ensures outcome.Refused? ==> outcome.gates == UnverifiedNames(result.gates) && unchanged(this)
      ensures var d := Document(result, version, StampedCommit(result, commit));
              !outcome.Refused? ==>
                && json == Kept(Written(old(json), w.json, d), w, w.jsonGone)
                && var second := if w.json == Completes then Written(old(markdown), w.markdown, d) else old(markdown);
                   markdown == Kept(second, w, w.markdownGone)
      ensures outcome == Published ==> json == markdown && json.Whole?
      ensures outcome == Published <==> !outcome.Refused? && BothWritten(w) && !w.jsonGone && !w.markdownGone
      ensures outcome == MissingAfterwards ==> json == Absent || markdown == Absent
      ensures !outcome.Refused? && w.json == CutShort ==> json == Partial && markdown == old(markdown)
      ensures !outcome.Refused? && w.json == Untouched ==> json == old(json) && markdown == old(markdown)
      ensures !outcome.Refused? && w.json == Completes && w.markdown == CutShort ==> json.Whole? && markdown == Partial
      ensures outcome == WriteFailed <==> !outcome.Refused? && !BothWritten(w)
      ensures outcome == Published ==>
        && json.document.result == result && json.document.version == version
        && (commit != "" && commit != "unknown" ==> json.document.commit == commit)
        && (result.report.commit != "" && (commit == "" || commit == "unknown") ==>
              json.document.commit == result.report.commit)
    {
      var unverified := UnverifiedGateNames(result.gates);
      if unverified != [] {
        return Refused(unverified);
      }
      var d := Document(result, version, StampedCommit(result, commit));
      json := Written(json, w.json, d);
      if w.json != Completes {
        return WriteFailed;
      }
      markdown := Written(markdown, w.markdown, d);
      if w.markdown != Completes {
        return WriteFailed;
      }
      json, markdown := Kept(json, w, w.jsonGone), Kept(markdown, w, w.markdownGone);
      if json == Absent {
        return MissingAfterwards;
      }
      if markdown == Absent {
        return MissingAfterwards;
      }
      return Published;
    }
  }

  predicate Clear(w: Weather) { BothWritten(w) && !w.jsonGone && !w.markdownGone }

  predicate BothWritten(w: Weather) { w.json == w.markdown == Completes }

  /** A document that something else removes once both are written. */
  function Kept(file: File, w: Weather, gone: bool): File {
    if BothWritten(w) && gone then Absent else file
  }

  function Written(was: File, fault: WriteFault, d: Document): File {
    match fault
    case Completes => Whole(d)
    case Untouched => was
    case CutShort => Partial
  }

  // ---- the command ----------------------------------------------------------------------

  /** -context: blank is the strict default, an unknown word is refused. */
  function ParseContext(raw: string): Option<Context> {
    var word := TrimSpace(raw);
    if word == "" || word == "release" then Some(Release)
    else if word == "pr" then Some(Pr)
    else None
  }

  /** The pass/publish decision of the command; `exit` is its exit code. */
  method ReleaseGateCommand(contextFlag: string, publish: bool, a: Answers, order: seq<string>, docs: DocsDir,
                            version: string, commit: string, w: Weather)
    returns (exit: nat)
    requires RangesOver(order, a.gates)
    modifies docs
    ensures docs.json != old(docs.json) || docs.markdown != old(docs.markdown) ==>
      publish && MeasurementsPass(a) && FullyVerified(a.gates)
    ensures publish && ParseContext(contextFlag).Some? && MeasurementsPass(a) && FullyVerified(a.gates) && Clear(w) ==>
      docs.json == docs.markdown && docs.json.Whole? && docs.json.document.result.pass
    ensures exit <= 2
    ensures exit == 0 ==> ParseContext(contextFlag).Some? && Passes(ParseContext(contextFlag).value, a)
    ensures exit == 0 && TrimSpace(contextFlag) != "pr" ==> MeasurementsPass(a) && FullyVerified(a.gates)
    ensures TrimSpace(contextFlag) !in {"", "pr", "release"} ==> exit == 2 && unchanged(docs)
    ensures exit == 0 && publish ==>
      (docs.json.Whole? && docs.json == docs.markdown) || (ParseContext(contextFlag) == Some(Pr) && unchanged(docs))
    ensures exit == 1 <==>
      ParseContext(contextFlag).Some? && Complete(FinalScores(a)) && !Passes(ParseContext(contextFlag).value, a)
    ensures !publish && ParseContext(contextFlag).Some? && Passes(ParseContext(contextFlag).value, a) ==> exit == 0
  {
    hide REQUIRED, AREAS, Weighted, IsEvaluation, Complete, FinalScores, TrimSpace, AsUnverified, AsGateError;
    var parsed := ParseContext(contextFlag);
    if parsed == None {
      return 2;
    }
    var ctx := parsed.value;
    var result := Run(ctx, a, order);
    if result == None {
      return 2;
    }
    if !result.value.pass {
      return 1;
    }
    if !publish {
      return 0;
    }
    UnverifiedShows(ctx, a.gates, result.value.gates);
    PassingIsVerifiedUnlessRefused(ctx, a);
    var outcome := docs.Publish(result.value, version, commit, w);
    exit := if outcome == Published || (outcome.Refused? && !Blocks(ctx, Unverified)) then 0 else 2;
  }

  /** The outcome list shows an UNVERIFIED gate exactly when there is one. */
  lemma UnverifiedShows(ctx: Context, gates: map<string, Answer>, outcomes: seq<GateOutcome>)
    requires IsEvaluation(ctx, gates, outcomes)
    ensures (exists o :: o in outcomes && o.state == Unverified) <==>
      exists n :: (n in gates || n in REQUIRED) && StateOf(gates, n) == Unverified
  {
    hide REQUIRED, IsEvaluation, AsUnverified, AsGateError;
    if exists o :: o in outcomes && o.state == Unverified {
      var o :| o in outcomes && o.state == Unverified;
      OutcomeComesFromAGate(ctx, gates, outcomes, o);
    }
    if exists n :: (n in gates || n in REQUIRED) && StateOf(gates, n) == Unverified {
      var n :| (n in gates || n in REQUIRED) && StateOf(gates, n) == Unverified;
      EvaluationCovers(ctx, gates, outcomes, n);
    }
  }

  /** In either context, a passing run without an UNVERIFIED gate is a fully verified one, and conversely. */
  lemma PassingIsVerifiedUnlessRefused(ctx: Context, a: Answers)
    requires ctx == Pr || ctx == Release
    ensures Passes(ctx, a) && (forall n :: n in a.gates || n in REQUIRED ==> StateOf(a.gates, n) != Unverified) <==>
      MeasurementsPass(a) && FullyVerified(a.gates)
  {
    hide MeasurementsPass, REQUIRED, AsUnverified, AsGateError;
    ReleaseIsPrPlusVerified(a);
  }
}
