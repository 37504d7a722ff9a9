/** The nearest-rank percentile, and what it says about the samples without sorting them. */
module Percentile {

  predicate Ascending(xs: seq<real>) {
    |xs| <= 1 || (xs[0] <= xs[1] && Ascending(xs[1..]))
  }

  function Insert(x: real, xs: seq<real>): (r: seq<real>)
    requires Ascending(xs)
    ensures Ascending(r) && r != [] && r[0] == if xs == [] || x <= xs[0] then x else xs[0]
    ensures multiset(r) == multiset{x} + multiset(xs)
  {
    if xs == [] || x <= xs[0] then
      assert ([x] + xs)[1..] == xs;
      [x] + xs
    else
      assert xs == [xs[0]] + xs[1..];
      var t := Insert(x, xs[1..]);
      assert ([xs[0]] + t)[1..] == t;
      [xs[0]] + t
  }

  function SortReals(xs: seq<real>): (r: seq<real>)
    ensures Ascending(r) && multiset(r) == multiset(xs) && |r| == |xs|
  {
    if xs == [] then []
    else
      assert xs == [xs[0]] + xs[1..];
      var r := Insert(xs[0], SortReals(xs[1..]));
      assert |multiset(r)| == |multiset(xs)|;
      r
  }

  /** The 1-based nearest rank, clamped into 1..n. */
  function Clamp(p: int): (q: int)
    ensures 1 <= q <= 100
  {
    if p < 1 then 1 else if p > 100 then 100 else p
  }

  function Rank(n: nat, p: int): (rank: nat)
    requires n > 0
    ensures 1 <= rank <= n
  {
    var rank := (Clamp(p) * n + 99) / 100;
    if rank < 1 then 1 else if rank > n then n else rank
  }

  /** The rank is the least count of samples that makes up p percent of n. */
  lemma RankIsCeiling(n: nat, p: int)
    requires n > 0 && 1 <= p <= 100
    ensures 100 * (Rank(n, p) - 1) < p * n <= 100 * Rank(n, p)
  {
    assert p * n <= 100 * n;
    assert p * n >= 1;
  }

  /** PercentileFloat64: an observed sample, or 0 when there are none. */
  function PercentileOf(xs: seq<real>, p: int): real {
    if xs == [] then 0.0 else SortReals(xs)[Rank(|xs|, p) - 1]
  }

  function CountAtMost(xs: seq<real>, t: real): (c: nat)
    ensures c <= |xs|
  {
    if xs == [] then 0 else CountAtMost(xs[1..], t) + (if xs[0] <= t then 1 else 0)
  }

  lemma {:induction false} CountAppend(xs: seq<real>, ys: seq<real>, t: real)
    ensures CountAtMost(xs + ys, t) == CountAtMost(xs, t) + CountAtMost(ys, t)
  {
    if xs == [] {
      assert xs + ys == ys;
    } else {
      CountAppend(xs[1..], ys, t);
      assert (xs + ys)[1..] == xs[1..] + ys;
    }
  }

  /** Counting ignores order. */
  lemma {:induction false} CountOfPermutation(xs: seq<real>, ys: seq<real>, t: real)
    requires multiset(xs) == multiset(ys)
    ensures CountAtMost(xs, t) == CountAtMost(ys, t)
    decreases |xs|
  {
    if xs == [] {
      assert |multiset(ys)| == 0;
    } else {
      assert xs[0] in multiset(xs);
      assert xs[0] in multiset(ys);
      var i :| 0 <= i < |ys| && ys[i] == xs[0];
      SmallerPermutation(xs, ys, i);
      CountOfPermutation(xs[1..], Without(ys, i), t);
      CountWithout(ys, i, t);
    }
  }

  function Without(ys: seq<real>, i: nat): seq<real>
    requires i < |ys|
  {
    ys[..i] + ys[i + 1..]
  }

  lemma CountWithout(ys: seq<real>, i: nat, t: real)
    requires i < |ys|
    ensures CountAtMost(ys, t) == CountAtMost(Without(ys, i), t) + (if ys[i] <= t then 1 else 0)
  {
    var tail := ys[i..];
    assert ys == ys[..i] + tail && tail[1..] == ys[i + 1..];
    CountAppend(ys[..i], ys[i + 1..], t);
    CountAppend(ys[..i], tail, t);
  }

  lemma SmallerPermutation(xs: seq<real>, ys: seq<real>, i: nat)
    requires multiset(xs) == multiset(ys) && xs != [] && i < |ys| && ys[i] == xs[0]
    ensures multiset(xs[1..]) == multiset(Without(ys, i))
  {
    assert xs == [xs[0]] + xs[1..];
    assert ys == ys[..i] + [ys[i]] + ys[i + 1..];
    assert multiset(ys) == multiset(Without(ys, i)) + multiset{ys[i]};
    assert multiset(xs) == multiset(xs[1..]) + multiset{xs[0]};
    assert multiset(xs[1..]) == multiset(xs) - multiset{xs[0]};
    assert multiset(Without(ys, i)) == multiset(ys) - multiset{ys[i]};
  }

  /** In an ascending list, the k-th element is at most t exactly when more than k elements are. */
  lemma {:induction false} CountInAscending(xs: seq<real>, k: nat, t: real)
    requires Ascending(xs) && k < |xs|
    ensures xs[k] <= t <==> CountAtMost(xs, t) > k
  {
    NoneBelow(xs, t);
    if k > 0 {
      CountInAscending(xs[1..], k - 1, t);
    }
  }

  lemma {:induction false} NoneBelow(xs: seq<real>, t: real)
    requires Ascending(xs) && xs != []
    ensures t < xs[0] ==> CountAtMost(xs, t) == 0
  {
    if |xs| > 1 {
      NoneBelow(xs[1..], t);
    }
  }

  /** A percentile is within a limit exactly when at least its rank of the samples is. */
  lemma PercentileWithin(xs: seq<real>, p: int, t: real)
    requires xs != []
    ensures PercentileOf(xs, p) <= t <==> CountAtMost(xs, t) >= Rank(|xs|, p)
  {
    hide Rank;
    CountInAscending(SortReals(xs), Rank(|xs|, p) - 1, t);
    CountOfPermutation(xs, SortReals(xs), t);
  }

  lemma {:induction false} AllWithin(xs: seq<real>, t: real)
    ensures CountAtMost(xs, t) == |xs| <==> forall x :: x in xs ==> x <= t
  {
    if xs != [] {
      AllWithin(xs[1..], t);
      assert xs == [xs[0]] + xs[1..];
      assert xs[0] in xs;
      assert forall x :: x in xs[1..] ==> x in xs;
    }
  }

  /** The last of the sorted samples is within a limit exactly when all are. */
  lemma MaximumWithin(xs: seq<real>, t: real)
    requires xs != []
    ensures SortReals(xs)[|xs| - 1] <= t <==> forall x :: x in xs ==> x <= t
  {
    CountInAscending(SortReals(xs), |xs| - 1, t);
    CountOfPermutation(xs, SortReals(xs), t);
    AllWithin(xs, t);
  }

  lemma Scaled(a: int, b: int, n: nat)
    requires a <= b
    ensures a * n <= b * n
  {
  }

  lemma RankIsMonotone(n: nat, p: int, q: int)
    requires n > 0 && p <= q
    ensures Rank(n, p) <= Rank(n, q)
  {
    Scaled(Clamp(p), Clamp(q), n);
    var a, b := Clamp(p) * n, Clamp(q) * n;
    assert (a + 99) / 100 <= (b + 99) / 100;
  }

  /** A higher percentile is never smaller; the p50 never exceeds the p95. */
  lemma PercentilesAreMonotone(xs: seq<real>, p: int, q: int)
    requires p <= q
    ensures PercentileOf(xs, p) <= PercentileOf(xs, q)
  {
    if xs != [] {
      hide *;
      RankIsMonotone(|xs|, p, q);
      PercentileWithin(xs, q, PercentileOf(xs, q));
      PercentileWithin(xs, p, PercentileOf(xs, q));
    }
  }

  /** With ten samples the p95 is the maximum: a property of the sample size. */
  lemma TenSamplesP95IsMaximum(xs: seq<real>)
    requires 0 < |xs| < 20
    ensures PercentileOf(xs, 95) == SortReals(xs)[|xs| - 1]
  {
    assert Rank(|xs|, 95) == |xs|;
  }
}
