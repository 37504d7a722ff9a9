/** The release gate: four gate states, two contexts, one verdict, and what may be published as evidence. */
module ReleaseGate {
  import opened Text
  import opened Sorting

  // ---- the policy ----------------------------------------------------------------------

  datatype Context = Pr | Release | Unheard(name: string)
  datatype GateState = Pass | Fail | Unverified | Error

  /** A Go error value; Wraps is any error that unwraps to others, one or several. */
  datatype Failure =
    | Plain(text: string)
    | UnverifiedError(text: string)
    | GateError(text: string)
    | Wraps(causes: seq<Failure>)

  /** A runner's answer: no error, or the error it returned. */
  type Answer = Option<Failure>

  /** errors.As over the whole tree of causes. */
  predicate AsUnverified(e: Failure) {
    e.UnverifiedError? || (e.Wraps? && exists i :: 0 <= i < |e.causes| && AsUnverified(e.causes[i]))
  }

  predicate AsGateError(e: Failure) {
    e.GateError? || (e.Wraps? && exists i :: 0 <= i < |e.causes| && AsGateError(e.causes[i]))
  }

  function ClassifyGate(answer: Answer): GateState {
    if answer == None then Pass
    else if AsUnverified(answer.value) then Unverified
    else if AsGateError(answer.value) then Error
    else Fail
  }

  /** The error found by following one unwrapping after another, position by position. */
  function Cause(e: Failure, route: seq<nat>): Option<Failure> {
    if route == [] then Some(e)
    else if e.Wraps? && route[0] < |e.causes| then Cause(e.causes[route[0]], route[1..])
    else None
  }

  ghost predicate HoldsUnverified(e: Failure) {
    exists route: seq<nat> :: Cause(e, route).Some? && Cause(e, route).value.UnverifiedError?
  }

  ghost predicate HoldsGateError(e: Failure) {
    exists route: seq<nat> :: Cause(e, route).Some? && Cause(e, route).value.GateError?
  }

  lemma {:induction false} AsFollowsRoutes(e: Failure, route: seq<nat>)
    requires Cause(e, route).Some?
    ensures Cause(e, route).value.UnverifiedError? ==> AsUnverified(e)
    ensures Cause(e, route).value.GateError? ==> AsGateError(e)
    decreases |route|
  {
    if route != [] {
      AsFollowsRoutes(e.causes[route[0]], route[1..]);
    }
  }

  lemma {:induction false} UnverifiedHasARoute(e: Failure) returns (route: seq<nat>)
    requires AsUnverified(e)
    ensures Cause(e, route).Some? && Cause(e, route).value.UnverifiedError?
    decreases e
  {
    route := [];
    if !e.UnverifiedError? {
      var i: nat :| i < |e.causes| && AsUnverified(e.causes[i]);
      var rest := UnverifiedHasARoute(e.causes[i]);
      route := [i] + rest;
      assert route[1..] == rest;
    }
  }

  lemma {:induction false} GateErrorHasARoute(e: Failure) returns (route: seq<nat>)
    requires AsGateError(e)
    ensures Cause(e, route).Some? && Cause(e, route).value.GateError?
    decreases e
  {
    route := [];
    if !e.GateError? {
      var i: nat :| i < |e.causes| && AsGateError(e.causes[i]);
      var rest := GateErrorHasARoute(e.causes[i]);
      route := [i] + rest;
      assert route[1..] == rest;
    }
  }

  /** The state of an answer, from the errors that its unwrapping reaches. */
  lemma StateByCauses(e: Failure)
    ensures ClassifyGate(None) == Pass
    ensures ClassifyGate(Some(e)) == Unverified <==> HoldsUnverified(e)
    ensures ClassifyGate(Some(e)) == Error <==> HoldsGateError(e) && !HoldsUnverified(e)
    ensures ClassifyGate(Some(e)) == Fail <==> !HoldsGateError(e) && !HoldsUnverified(e)
  {
    if AsUnverified(e) {
      var route := UnverifiedHasARoute(e);
    }
    if AsGateError(e) {
      var route := GateErrorHasARoute(e);
    }
    forall route: seq<nat> | Cause(e, route).Some?
      ensures Cause(e, route).value.UnverifiedError? ==> AsUnverified(e)
      ensures Cause(e, route).value.GateError? ==> AsGateError(e)
    {
      AsFollowsRoutes(e, route);
    }
  }

  /** The four answers a runner can give without wrapping: each has its own state. */
  lemma OneStatePerAnswer(text: string)
    ensures ClassifyGate(None) == Pass && ClassifyGate(Some(Plain(text))) == Fail
    ensures ClassifyGate(Some(UnverifiedError(text))) == Unverified && ClassifyGate(Some(GateError(text))) == Error
  {
  }

  predicate Blocks(ctx: Context, state: GateState) {
    match state
    case Pass => false
    case Unverified => ctx != Pr
    case _ => true
  }

  /** Adding context around an error never moves its gate to another state. */
  lemma WrappingKeepsTheState(e: Failure)
    ensures ClassifyGate(Some(Wraps([e]))) == ClassifyGate(Some(e))
  {
    var w := Wraps([e]);
    assert w.causes[0] == e;
    assert AsUnverified(w) <==> AsUnverified(e);
    assert AsGateError(w) <==> AsGateError(e);
  }

  /** Joining errors is not the worst of their states: one UNVERIFIED cause absorbs every FAIL and ERROR beside it. */
  lemma UnverifiedAbsorbs(causes: seq<Failure>)
    requires causes != []
    ensures ClassifyGate(Some(Wraps(causes))) == Unverified <==>
      exists i :: 0 <= i < |causes| && ClassifyGate(Some(causes[i])) == Unverified
    ensures ClassifyGate(Some(Wraps(causes))) == Fail <==>
      forall i :: 0 <= i < |causes| ==> ClassifyGate(Some(causes[i])) == Fail
    ensures ClassifyGate(Some(Wraps(causes))) == Error <==>
      && (exists i :: 0 <= i < |causes| && ClassifyGate(Some(causes[i])) == Error)
      && (forall i :: 0 <= i < |causes| ==> ClassifyGate(Some(causes[i])) != Unverified)
  {
    var w := Wraps(causes);
    assert forall i :: 0 <= i < |causes| ==> w.causes[i] == causes[i];
    if ClassifyGate(Some(w)) == Error {
      var i :| 0 <= i < |w.causes| && AsGateError(w.causes[i]);
      assert ClassifyGate(Some(causes[i])) == Error;
    }
    if ClassifyGate(Some(w)) == Unverified {
      var i :| 0 <= i < |w.causes| && AsUnverified(w.causes[i]);
      assert ClassifyGate(Some(causes[i])) == Unverified;
    }
  }

  /** The two contexts differ in one cell: whatever pr blocks, release blocks, and only UNVERIFIED is lost to the
      difference. */
  lemma OneCellDiffers(state: GateState)
    ensures Blocks(Release, state) <==> Blocks(Pr, state) || state == Unverified
    ensures !Blocks(Release, state) <==> state == Pass
  {
  }

  const REQUIRED: seq<string> := ["bench-budget", "coverage", "privacy", "testgate"]

  datatype GateOutcome = GateOutcome(name: string, state: GateState, required: bool, blocking: bool)

  function StateOf(gates: map<string, Answer>, name: string): GateState {
    if name in gates then ClassifyGate(gates[name]) else Error
  }

  function OutcomeOf(ctx: Context, gates: map<string, Answer>, name: string): GateOutcome {
    var state := StateOf(gates, name);
    GateOutcome(name, state, name in REQUIRED, Blocks(ctx, state))
  }

  function Names(outcomes: seq<GateOutcome>): (names: seq<string>)
    ensures |names| == |outcomes| && forall i :: 0 <= i < |names| ==> names[i] == outcomes[i].name
  {
    seq(|outcomes|, i requires 0 <= i < |outcomes| => outcomes[i].name)
  }

  /** The sorted duplicate-free union of supplied and required gates, each with its own outcome. */
  ghost predicate IsEvaluation(ctx: Context, gates: map<string, Answer>, outcomes: seq<GateOutcome>) {
    && Sorted(Names(outcomes)) && Distinct(Names(outcomes))
    && (forall n :: n in Names(outcomes) <==> n in gates || n in REQUIRED)
    && (forall i :: 0 <= i < |outcomes| ==> outcomes[i] == OutcomeOf(ctx, gates, outcomes[i].name))
  }

  /** `order` is the order in which the runtime happens to range over the gate map. */
  ghost predicate RangesOver(order: seq<string>, gates: map<string, Answer>) {
    Distinct(order) && forall n :: n in order <==> n in gates
  }

  /** One name appended to the list unless it was seen. */
  method Note(names: seq<string>, name: string) returns (r: seq<string>)
    requires Distinct(names)
    ensures Distinct(r) && forall n :: n in r <==> n in names || n == name
  {
    r := if name in names then names else names + [name];
  }

  method GateNames(gates: map<string, Answer>, order: seq<string>) returns (names: seq<string>)
    requires RangesOver(order, gates)
    ensures Sorted(names) && Distinct(names) && forall n :: n in names <==> n in gates || n in REQUIRED
  {
    hide REQUIRED, Sorted;
    names := [];
    for i := 0 to |order|
      invariant Distinct(names) && forall n :: n in names <==> n in order[..i]
    {
      names := Note(names, order[i]);
    }
    assert order[..|order|] == order;
    for i := 0 to |REQUIRED|
      invariant Distinct(names) && forall n :: n in names <==> n in gates || n in REQUIRED[..i]
    {
      names := Note(names, REQUIRED[i]);
    }
    assert REQUIRED[..|REQUIRED|] == REQUIRED;
    var sorted := Sort(names);
    SameElements(sorted, names);
    DistinctByCount(names);
    DistinctByCount(sorted);
    names := sorted;
  }

  /** Runs every gate once; a required gate that was not supplied is ERROR. */
  method EvaluateGates(ctx: Context, gates: map<string, Answer>, order: seq<string>)
    returns (outcomes: seq<GateOutcome>)
    requires RangesOver(order, gates)
    ensures IsEvaluation(ctx, gates, outcomes)
  {
    hide REQUIRED, Sorted, AsUnverified, AsGateError;
    var names := GateNames(gates, order);
    outcomes := [];
    for i := 0 to |names|
      invariant |outcomes| == i
      invariant forall j :: 0 <= j < i ==> outcomes[j] == OutcomeOf(ctx, gates, names[j])
    {
      var state := Error;
      if names[i] in gates {
        state := ClassifyGate(gates[names[i]]);
      }
      outcomes := outcomes + [GateOutcome(names[i], state, names[i] in REQUIRED, Blocks(ctx, state))];
    }
    assert Names(outcomes) == names;
  }

  /** The runtime's map order never shows: two evaluations of the same answers are the same list. */
  lemma EvaluationIsUnique(ctx: Context, gates: map<string, Answer>, a: seq<GateOutcome>, b: seq<GateOutcome>)
    requires IsEvaluation(ctx, gates, a) && IsEvaluation(ctx, gates, b)
    ensures a == b
  {
    hide REQUIRED, Sorted, OutcomeOf;
    SortedIsUnique(Names(a), Names(b));
    assert forall i :: 0 <= i < |a| ==> Names(a)[i] == Names(b)[i];
  }

  /** Every gate that must or may run is in the list under its own state. */
  lemma EvaluationCovers(ctx: Context, gates: map<string, Answer>, outcomes: seq<GateOutcome>, name: string)
    requires IsEvaluation(ctx, gates, outcomes) && (name in gates || name in REQUIRED)
    ensures OutcomeOf(ctx, gates, name) in outcomes
  {
    hide REQUIRED, Sorted, OutcomeOf;
    assert name in Names(outcomes);
    var i :| 0 <= i < |outcomes| && Names(outcomes)[i] == name;
    assert outcomes[i] in outcomes;
  }
}
