/** The weighted scorecard the release verdict rests on. Scores are real numbers, so rounding is not modelled. */
module Scorecard {
  import opened Text
  import opened Sorting

  /** The six milestone areas, in the order the calculation visits them. */
  const AREAS: seq<string> := ["agent_mcp", "signal", "performance", "setup_trust", "evaluation", "ux"]

  function Weight(area: string): nat {
    match area
    case "agent_mcp" => 25
    case "signal" => 20
    case "performance" => 20
    case "setup_trust" => 15
    case "evaluation" => 10
    case "ux" => 10
    case _ => 0
  }

  datatype Card = Card(overall: real, pass: bool, floored: seq<string>)

  const FLOOR := 80.0
  const TARGET := 90.0

  /** Exactly the six areas, each scored between 0 and 100. */
  ghost predicate Complete(scores: map<string, real>) {
    && (forall a :: a in scores <==> a in AREAS)
    && (forall a :: a in scores ==> 0.0 <= scores[a] <= 100.0)
  }

  function Contribution(score: real, weight: nat): real {
    score * weight as real / 100.0
  }

  /** The contributions of the first n areas. */
  function Weighted(scores: map<string, real>, n: nat): real
    requires n <= |AREAS| && forall a :: a in AREAS ==> a in scores
  {
    if n == 0 then 0.0 else Weighted(scores, n - 1) + Contribution(scores[AREAS[n - 1]], Weight(AREAS[n - 1]))
  }

  lemma AreasAreDistinct()
    ensures Distinct(AREAS) && |AREAS| == 6
  {
    assert |AREAS[0]| == 9 && |AREAS[1]| == 6 && |AREAS[4]| == 10 && |AREAS[5]| == 2;
    assert AREAS[2][0] == 'p' && AREAS[3][0] == 's' && |AREAS[2]| == |AREAS[3]| == 11;
  }

  lemma {:induction false} DistinctCardinality(s: seq<string>)
    requires Distinct(s)
    ensures |set x | x in s| == |s|
  {
    if s != [] {
      DistinctCardinality(s[1..]);
      assert (set x | x in s) == {s[0]} + (set x | x in s[1..]);
    }
  }

  /** As many keys as areas, none of them unknown, is all the areas. */
  lemma SixKnownKeysAreTheAreas(scores: map<string, real>)
    requires |scores| == |AREAS| && forall a :: a in scores ==> a in AREAS
    ensures forall a :: a in AREAS ==> a in scores
  {
    AreasAreDistinct();
    DistinctCardinality(AREAS);
    var all := set x | x in AREAS;
    assert scores.Keys <= all && |scores.Keys| == |scores|;
    if scores.Keys != all {
      SmallerSubset(scores.Keys, all);
    }
  }

  lemma SmallerSubset(a: set<string>, b: set<string>)
    requires a <= b && a != b
    ensures |a| < |b|
  {
    assert a < b;
    var rest := b - a;
    assert b == a + rest && a !! rest && rest != {};
  }

  lemma CompleteCount(scores: map<string, real>)
    requires forall a :: a in scores <==> a in AREAS
    ensures |scores| == |AREAS|
  {
    AreasAreDistinct();
    DistinctCardinality(AREAS);
    assert scores.Keys == set x | x in AREAS;
    assert |scores.Keys| == |scores|;
  }

  method AllInRange(scores: map<string, real>) returns (ok: bool)
    requires forall a :: a in AREAS ==> a in scores
    ensures ok <==> forall a :: a in AREAS ==> 0.0 <= scores[a] <= 100.0
  {
    hide AREAS;
    for i := 0 to |AREAS|
      invariant forall j :: 0 <= j < i ==> 0.0 <= scores[AREAS[j]] <= 100.0
    {
      if scores[AREAS[i]] < 0.0 || scores[AREAS[i]] > 100.0 {
        assert AREAS[i] in AREAS;
        return false;
      }
    }
    return true;
  }

  method Accumulate(scores: map<string, real>) returns (overall: real, floored: seq<string>)
    requires forall a :: a in AREAS ==> a in scores
    ensures overall == Weighted(scores, |AREAS|)
    ensures forall a :: a in floored <==> a in AREAS && scores[a] < FLOOR
  {
    hide AREAS, Weight, Contribution;
    overall, floored := 0.0, [];
    for i := 0 to |AREAS|
      invariant overall == Weighted(scores, i)
      invariant forall a :: a in floored <==> a in AREAS[..i] && scores[a] < FLOOR
    {
      var s := scores[AREAS[i]];
      assert AREAS[..i + 1] == AREAS[..i] + [AREAS[i]];
      if s < FLOOR {
        floored := floored + [AREAS[i]];
      }
      overall := overall + Contribution(s, Weight(AREAS[i]));
    }
    assert AREAS[..|AREAS|] == AREAS;
  }

  /** An incomplete or out-of-range score set is an error; otherwise the card is the weighted sum with its floors
      named. */
  method Calculate(scores: map<string, real>) returns (card: Option<Card>)
    ensures card.Some? <==> Complete(scores)
    ensures card.Some? ==> card.value.overall == Weighted(scores, |AREAS|)
    ensures card.Some? ==> Sorted(card.value.floored) && forall a :: a in card.value.floored <==>
      a in AREAS && scores[a] < FLOOR
    ensures card.Some? ==>
      (card.value.pass <==> card.value.overall >= TARGET && forall a :: a in AREAS ==> scores[a] >= FLOOR)
  {
    hide Weighted, AREAS, Sorted;
    if |scores| != |AREAS| {
      if Complete(scores) { CompleteCount(scores); }
      return None;
    }
    if exists a :: a in scores && a !in AREAS {
      return None;
    }
    SixKnownKeysAreTheAreas(scores);
    var ok := AllInRange(scores);
    if !ok {
      return None;
    }
    var overall, floored := Accumulate(scores);
    var sorted := Sort(floored);
    SameElements(sorted, floored);
    assert floored != [] ==> floored[0] in floored;
    card := Some(Card(overall, overall >= TARGET && floored == [], sorted));
  }

  /** The overall score, area by area, in hundredths; and the pass, in those terms. */
  lemma OverallInFull(scores: map<string, real>)
    requires Complete(scores)
    ensures Weighted(scores, |AREAS|) * 100.0 ==
            25.0 * scores["agent_mcp"] + 20.0 * scores["signal"] + 20.0 * scores["performance"]
            + 15.0 * scores["setup_trust"] + 10.0 * scores["evaluation"] + 10.0 * scores["ux"]
    ensures Weighted(scores, |AREAS|) >= TARGET <==>
            25.0 * scores["agent_mcp"] + 20.0 * scores["signal"] + 20.0 * scores["performance"]
            + 15.0 * scores["setup_trust"] + 10.0 * scores["evaluation"] + 10.0 * scores["ux"] >= 9000.0
    ensures (forall a :: a in AREAS ==> scores[a] >= FLOOR) <==> forall a :: a in scores ==> scores[a] >= 80.0
  {
    assert AREAS[0] == "agent_mcp" && AREAS[1] == "signal" && AREAS[2] == "performance" && AREAS[3] == "setup_trust"
           && AREAS[4] == "evaluation" && AREAS[5] == "ux";
    assert forall i :: 0 <= i < 6 ==> AREAS[i] in scores;
    assert Weighted(scores, 0) == 0.0;
    assert Weighted(scores, 1) == Weighted(scores, 0) + Contribution(scores["agent_mcp"], 25);
    assert Weighted(scores, 2) == Weighted(scores, 1) + Contribution(scores["signal"], 20);
    assert Weighted(scores, 3) == Weighted(scores, 2) + Contribution(scores["performance"], 20);
    assert Weighted(scores, 4) == Weighted(scores, 3) + Contribution(scores["setup_trust"], 15);
    assert Weighted(scores, 5) == Weighted(scores, 4) + Contribution(scores["evaluation"], 10);
    assert Weighted(scores, 6) == Weighted(scores, 5) + Contribution(scores["ux"], 10);
  }

  function WeightSum(n: nat): nat
    requires n <= |AREAS|
  {
    if n == 0 then 0 else WeightSum(n - 1) + Weight(AREAS[n - 1])
  }

  lemma WeightsSumToOneHundred()
    ensures WeightSum(|AREAS|) == 100
  {
    assert WeightSum(1) == 25;
    assert WeightSum(2) == 45;
    assert WeightSum(3) == 65;
    assert WeightSum(4) == 80;
    assert WeightSum(5) == 90;
  }

  lemma ContributionIsBetween(lo: real, score: real, hi: real, weight: nat)
    requires lo <= score <= hi
    ensures lo * weight as real <= Contribution(score, weight) * 100.0 <= hi * weight as real
  {
  }

  lemma Spread(x: real, m: nat, n: nat)
    ensures x * (m + n) as real == x * m as real + x * n as real
  {
  }

  /** The weights are a convex combination: the overall score lies between any bounds all six areas obey. */
  lemma {:induction false} OverallIsBetween(scores: map<string, real>, n: nat, lo: real, hi: real)
    requires n <= |AREAS| && forall a :: a in AREAS ==> a in scores && lo <= scores[a] <= hi
    ensures lo * WeightSum(n) as real <= Weighted(scores, n) * 100.0 <= hi * WeightSum(n) as real
  {
    hide Weight, AREAS, Contribution;
    if n > 0 {
      OverallIsBetween(scores, n - 1, lo, hi);
      assert AREAS[n - 1] in AREAS;
      var s, w := scores[AREAS[n - 1]], Weight(AREAS[n - 1]);
      ContributionIsBetween(lo, s, hi, w);
      Spread(lo, WeightSum(n - 1), w);
      Spread(hi, WeightSum(n - 1), w);
    }
  }

  /** Six areas at the target always pass, however the weights fall. */
  lemma TargetEverywherePasses(scores: map<string, real>)
    requires forall a :: a in AREAS ==> a in scores && scores[a] >= TARGET && scores[a] <= 100.0
    ensures Weighted(scores, |AREAS|) >= TARGET
  {
    hide AREAS;
    WeightsSumToOneHundred();
    OverallIsBetween(scores, |AREAS|, TARGET, 100.0);
  }
}
