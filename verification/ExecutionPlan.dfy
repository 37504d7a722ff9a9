/** The query execution plan: how many timed executions each operation gets so that every pool clears a floor. */
module ExecutionPlan {
  import opened Sorting
  import opened Sums

  datatype QueryPool = QueryPool(id: string, operations: seq<string>)

  /** (a + b - 1) / b, and 0 for an empty divisor. */
  function CeilDiv(a: int, b: int): int {
    if b <= 0 then 0 else (a + b - 1) / b
  }

  lemma Scale(m: int, n: int, share: int)
    requires m <= n && share >= 0
    ensures m * share <= n * share
  {
    assert (n - m) * share >= 0;
  }

  /** The ceiling is the least number of executions per operation that reaches a over b operations. */
  lemma CeilDivIsLeast(a: int, b: int, q: int)
    requires a > 0 && b > 0
    ensures 1 <= CeilDiv(a, b) && a <= CeilDiv(a, b) * b <= a + b - 1
    ensures a <= q * b <==> CeilDiv(a, b) <= q
  {
    var c := CeilDiv(a, b);
    CeilDivSpan(a, b);
    if q < c {
      Scale(q, c - 1, b);
      OneMore(c - 1, b);
    } else {
      Scale(c, q, b);
    }
    if c < 1 {
      Scale(c, 0, b);
    }
  }

  lemma CeilDivSpan(a: int, b: int)
    requires a > 0 && b > 0
    ensures a <= CeilDiv(a, b) * b <= a + b - 1
  {
    var x := a + b - 1;
    assert x == (x / b) * b + x % b;
  }

  lemma OneMore(n: int, share: int)
    ensures (n + 1) * share == n * share + share
  {
  }

  /** What one pool asks of each of its operations. */
  function Share(minimum: int, p: QueryPool): int { CeilDiv(minimum, |p.operations|) }

  // ---- what a plan is ---------------------------------------------------------------

  predicate Planned(minimum: int, pools: seq<QueryPool>, op: string) {
    0 < minimum && exists p :: p in pools && op in p.operations
  }

  /** Each operation gets the largest share any pool containing it asks for. */
  ghost predicate IsPlan(minimum: int, pools: seq<QueryPool>, plan: map<string, int>) {
    && (forall op :: op in plan <==> Planned(minimum, pools, op))
    && (forall op, p :: op in plan && p in pools && op in p.operations ==> Share(minimum, p) <= plan[op])
    && (forall op :: op in plan ==> exists p :: p in pools && op in p.operations && plan[op] == Share(minimum, p))
  }

  /** One pool's demand folded into a plan. */
  function Raised(plan: map<string, int>, operations: seq<string>, share: int): map<string, int> {
    map op | op in plan.Keys + (set o | o in operations) ::
      if op !in plan then share
      else if op in operations && plan[op] < share then share
      else plan[op]
  }

  method QueryExecutionPlan(minimum: int, pools: seq<QueryPool>) returns (plan: map<string, int>)
    ensures IsPlan(minimum, pools, plan)
    ensures plan == PlanOf(minimum, pools)
  {
    hide CeilDiv, Raised;
    plan := map[];
    if minimum <= 0 {
      return;
    }
    for i := 0 to |pools|
      invariant plan == PlanOf(minimum, pools[..i])
    {
      assert pools[..i + 1][..i] == pools[..i];
      var p := pools[i];
      if |p.operations| == 0 {
        continue;
      }
      CeilDivIsLeast(minimum, |p.operations|, 0);
      plan := RaiseAll(plan, p.operations, CeilDiv(minimum, |p.operations|));
    }
    assert pools[..|pools|] == pools;
    PlanOfIsPlan(minimum, pools);
  }

  /** The inner loop: an operation's count only ever rises to the share. */
  method RaiseAll(before: map<string, int>, operations: seq<string>, share: int) returns (plan: map<string, int>)
    requires share > 0
    ensures plan == Raised(before, operations, share)
  {
    plan := before;
    assert plan == Raised(before, operations[..0], share);
    hide Raised;
    for k := 0 to |operations|
      invariant plan == Raised(before, operations[..k], share)
    {
      var op := operations[k];
      assert operations[..k + 1] == operations[..k] + [op];
      RaisedByOne(before, operations[..k], op, share);
      if share > (if op in plan then plan[op] else 0) {
        plan := plan[op := share];
      }
    }
    assert operations[..|operations|] == operations;
  }

  lemma RaisedByOne(before: map<string, int>, operations: seq<string>, op: string, share: int)
    requires share > 0
    ensures var plan := Raised(before, operations, share);
            Raised(before, operations + [op], share) ==
              if share > (if op in plan then plan[op] else 0) then plan[op := share] else plan
  {
    var plan, next := Raised(before, operations, share), Raised(before, operations + [op], share);
    assert next.Keys == plan.Keys + {op};
    assert forall o :: o in plan && o != op ==> next[o] == plan[o];
  }

  function PlanOf(minimum: int, pools: seq<QueryPool>): (plan: map<string, int>)
    ensures forall op :: op in plan ==> plan[op] > 0
  {
    if minimum <= 0 || pools == [] then map[]
    else
      var before := PlanOf(minimum, pools[..|pools| - 1]);
      var p := pools[|pools| - 1];
      if p.operations == [] then before
      else
        CeilDivIsLeast(minimum, |p.operations|, 0);
        Raised(before, p.operations, Share(minimum, p))
  }

  lemma {:induction false} PlanOfIsPlan(minimum: int, pools: seq<QueryPool>)
    ensures IsPlan(minimum, pools, PlanOf(minimum, pools))
  {
    hide CeilDiv;
    if 0 < minimum && pools != [] {
      var init, last := pools[..|pools| - 1], pools[|pools| - 1];
      PlanOfIsPlan(minimum, init);
      assert pools == init + [last];
      OneMorePool(minimum, init, last, PlanOf(minimum, init));
    }
  }

  /** Folding in one more pool keeps a plan a plan. */
  lemma OneMorePool(minimum: int, pools: seq<QueryPool>, last: QueryPool, before: map<string, int>)
    requires 0 < minimum && IsPlan(minimum, pools, before)
    ensures last.operations == [] ==> IsPlan(minimum, pools + [last], before)
    ensures last.operations != [] ==>
      IsPlan(minimum, pools + [last], Raised(before, last.operations, Share(minimum, last)))
  {
    hide CeilDiv, Share;
    var all := pools + [last];
    var plan := if last.operations == [] then before else Raised(before, last.operations, Share(minimum, last));
    assert last in all && forall p :: p in pools ==> p in all;
    forall op ensures op in plan <==> Planned(minimum, all, op) {
      assert op in before <==> Planned(minimum, pools, op);
    }
    forall op | op in plan
      ensures exists p :: p in all && op in p.operations && plan[op] == Share(minimum, p)
    {
      if op in before && plan[op] == before[op] {
        var p :| p in pools && op in p.operations && before[op] == Share(minimum, p);
        assert p in all;
      } else {
        assert last in all && op in last.operations;
      }
    }
  }

  // ---- what the plan guarantees --------------------------------------------------------

  /** Only the set of pools matters: neither their order nor repetition shows in the plan. */
  lemma PlanIgnoresPoolOrder(minimum: int, a: seq<QueryPool>, b: seq<QueryPool>)
    requires forall p :: p in a <==> p in b
    ensures PlanOf(minimum, a) == PlanOf(minimum, b)
  {
    hide CeilDiv, PlanOf;
    NeverAbove(minimum, a, b);
    NeverAbove(minimum, b, a);
    hide *;
    assert PlanOf(minimum, a).Keys == PlanOf(minimum, b).Keys;
  }

  lemma NeverAbove(minimum: int, a: seq<QueryPool>, b: seq<QueryPool>)
    requires forall p :: p in a ==> p in b
    ensures forall op :: op in PlanOf(minimum, a) ==>
      op in PlanOf(minimum, b) && PlanOf(minimum, a)[op] <= PlanOf(minimum, b)[op]
  {
    hide CeilDiv, PlanOf, Share;
    PlanOfIsPlan(minimum, b);
    var y := PlanOf(minimum, b);
    if 0 < minimum {
      forall p, op | p in a && op in p.operations
        ensures op in y && Share(minimum, p) <= y[op]
      {
        assert Planned(minimum, b, op);
      }
    }
    PlanIsLeast(minimum, a, y);
  }

  /** The plan is the pointwise least table that gives every operation its share in every pool. */
  lemma PlanIsLeast(minimum: int, pools: seq<QueryPool>, other: map<string, int>)
    requires 0 < minimum ==> forall p, op :: p in pools && op in p.operations ==>
      op in other && Share(minimum, p) <= other[op]
    ensures forall op :: op in PlanOf(minimum, pools) ==> op in other && PlanOf(minimum, pools)[op] <= other[op]
  {
    hide CeilDiv, PlanOf;
    PlanOfIsPlan(minimum, pools);
  }

  /** Planned executions of a list of operations, repetitions counted. */
  function Executions(plan: map<string, int>, operations: seq<string>): int
    requires forall op :: op in operations ==> op in plan
  {
    if operations == [] then 0
    else plan[operations[0]] + Executions(plan, operations[1..])
  }

  lemma {:induction false} ExecutionsAtLeast(plan: map<string, int>, operations: seq<string>, share: int)
    requires forall op :: op in operations ==> op in plan && share <= plan[op]
    ensures share * |operations| <= Executions(plan, operations)
  {
    if operations != [] {
      ExecutionsAtLeast(plan, operations[1..], share);
      assert share * |operations| == share + share * |operations[1..]|;
    }
  }

  /** Every non-empty pool reaches the minimum. */
  lemma EveryPoolClearsTheFloor(minimum: int, pools: seq<QueryPool>, p: QueryPool)
    requires 0 < minimum && p in pools && p.operations != []
    ensures forall op :: op in p.operations ==> op in PlanOf(minimum, pools)
    ensures Executions(PlanOf(minimum, pools), p.operations) >= minimum
  {
    hide CeilDiv, PlanOf;
    PlanOfIsPlan(minimum, pools);
    var plan := PlanOf(minimum, pools);
    forall op | op in p.operations
      ensures op in plan && Share(minimum, p) <= plan[op]
    {
      assert Planned(minimum, pools, op);
    }
    ExecutionsAtLeast(plan, p.operations, Share(minimum, p));
    CeilDivIsLeast(minimum, |p.operations|, 0);
  }

  /** For a pool without repetitions, counting each operation once is counting the list. */
  lemma {:induction false} DistinctExecutions(plan: map<string, int>, operations: seq<string>)
    requires Distinct(operations) && forall op :: op in operations ==> op in plan
    ensures Total(plan, set op | op in operations) == Executions(plan, operations)
  {
    if operations != [] {
      var rest := operations[1..];
      assert operations == [operations[0]] + rest;
      DistinctExecutions(plan, rest);
      var ops := set op | op in operations;
      assert ops - {operations[0]} == set op | op in rest;
      TotalWithout(plan, ops, operations[0]);
    }
  }

  /** So a pool of distinct operations runs at least the minimum; one that names an operation twice need not. */
  lemma DistinctPoolClearsTheFloor(minimum: int, pools: seq<QueryPool>, p: QueryPool)
    requires 0 < minimum && p in pools && p.operations != [] && Distinct(p.operations)
    ensures (set op | op in p.operations) <= PlanOf(minimum, pools).Keys
    ensures Total(PlanOf(minimum, pools), set op | op in p.operations) >= minimum
  {
    EveryPoolClearsTheFloor(minimum, pools, p);
    DistinctExecutions(PlanOf(minimum, pools), p.operations);
  }

  lemma {:induction false} TotalBounds(plan: map<string, int>, ops: set<string>, share: int)
    requires ops <= plan.Keys
    ensures (forall op :: op in ops ==> plan[op] >= share) ==> Total(plan, ops) >= |ops| * share
    ensures (forall op :: op in ops ==> plan[op] == share) ==> Total(plan, ops) == |ops| * share
    decreases ops
  {
    if ops != {} {
      var op :| op in ops;
      TotalWithout(plan, ops, op);
      TotalBounds(plan, ops - {op}, share);
      OneMore(|ops| - 1, share);
    }
  }

  /** Counting each operation once, the shares of a pool's distinct operations are enough, whatever the other pools. */
  lemma DistinctSharesClearTheFloor(minimum: int, pools: seq<QueryPool>, p: QueryPool)
    requires 0 < minimum && p in pools
    requires var ops := set op | op in p.operations; |ops| * Share(minimum, p) >= minimum
    ensures (set op | op in p.operations) <= PlanOf(minimum, pools).Keys
    ensures Total(PlanOf(minimum, pools), set op | op in p.operations) >= minimum
  {
    hide CeilDiv, PlanOf, Share, Total;
    PlanOfIsPlan(minimum, pools);
    var plan := PlanOf(minimum, pools);
    forall op | op in p.operations
      ensures op in plan && Share(minimum, p) <= plan[op]
    {
      assert Planned(minimum, pools, op);
    }
    TotalBounds(plan, (set op | op in p.operations), Share(minimum, p));
  }

  /** Planned alone, a pool runs exactly its shares. */
  lemma AlonePlansItsShares(minimum: int, p: QueryPool)
    requires 0 < minimum
    ensures var ops := set op | op in p.operations;
            ops == PlanOf(minimum, [p]).Keys && Total(PlanOf(minimum, [p]), ops) == |ops| * Share(minimum, p)
  {
    hide CeilDiv, PlanOf, Share, Total;
    PlanOfIsPlan(minimum, [p]);
    var plan, ops := PlanOf(minimum, [p]), set op | op in p.operations;
    assert p in [p];
    forall op ensures op in plan <==> op in ops {
      assert op in plan <==> Planned(minimum, [p], op);
    }
    assert forall op :: op in ops ==> plan[op] == Share(minimum, p);
    TotalBounds(plan, ops, Share(minimum, p));
  }

  /** Exactly when a pool that may repeat operations clears the floor, each operation counted once: alone, and beside
      every choice of other pools, if and only if its distinct operations' shares add up to the minimum. */
  lemma FloorIffDistinctShares(minimum: int, p: QueryPool)
    requires 0 < minimum
    ensures var ops := set op | op in p.operations;
            && ops <= PlanOf(minimum, [p]).Keys
            && (Total(PlanOf(minimum, [p]), ops) >= minimum <==> |ops| * Share(minimum, p) >= minimum)
    ensures var ops := set op | op in p.operations;
            (forall pools :: p in pools ==> ClearsOnce(minimum, pools, p)) <==> |ops| * Share(minimum, p) >= minimum
  {
    hide PlanOf, Share, Total;
    var ops := set op | op in p.operations;
    AlonePlansItsShares(minimum, p);
    if |ops| * Share(minimum, p) >= minimum {
      forall pools | p in pools
        ensures ClearsOnce(minimum, pools, p)
      {
        DistinctSharesClearTheFloor(minimum, pools, p);
      }
    } else {
      assert p in [p] && !ClearsOnce(minimum, [p], p);
    }
  }

  /** The pool's operations, each counted once, run at least the minimum. */
  ghost predicate ClearsOnce(minimum: int, pools: seq<QueryPool>, p: QueryPool) {
    var ops := set op | op in p.operations;
    ops <= PlanOf(minimum, pools).Keys && Total(PlanOf(minimum, pools), ops) >= minimum
  }

  // ---- the floor over a given list of pools ------------------------------------------------

  /** The largest share any pool of the list asks of the operation; 0 when none names it. */
  function LargestShare(minimum: int, pools: seq<QueryPool>, op: string): int {
    if pools == [] then 0
    else
      var p, before := pools[|pools| - 1], LargestShare(minimum, pools[..|pools| - 1], op);
      if op in p.operations && before < Share(minimum, p) then Share(minimum, p) else before
  }

  lemma {:induction false} LargestShareIsLargest(minimum: int, pools: seq<QueryPool>, op: string)
    ensures LargestShare(minimum, pools, op) >= 0
    ensures forall p :: p in pools && op in p.operations ==> Share(minimum, p) <= LargestShare(minimum, pools, op)
    ensures LargestShare(minimum, pools, op) == 0 ||
      exists p :: p in pools && op in p.operations && Share(minimum, p) == LargestShare(minimum, pools, op)
  {
    hide Share;
    if pools != [] {
      var init, last := pools[..|pools| - 1], pools[|pools| - 1];
      LargestShareIsLargest(minimum, init, op);
      assert pools == init + [last];
      assert last in pools && forall p :: p in init ==> p in pools;
    }
  }

  lemma SharesArePositive(minimum: int, p: QueryPool)
    requires 0 < minimum && p.operations != []
    ensures Share(minimum, p) > 0
  {
    CeilDivIsLeast(minimum, |p.operations|, 0);
  }

  /** What the plan gives an operation is the largest share asked of it. */
  lemma PlanIsLargestShare(minimum: int, pools: seq<QueryPool>, p: QueryPool, op: string)
    requires 0 < minimum && p in pools && op in p.operations
    ensures op in PlanOf(minimum, pools) && PlanOf(minimum, pools)[op] == LargestShare(minimum, pools, op)
  {
    hide PlanOf, Share, LargestShare;
    PlanOfIsPlan(minimum, pools);
    LargestShareIsLargest(minimum, pools, op);
    SharesArePositive(minimum, p);
    assert Planned(minimum, pools, op);
  }

  /** The sum of the largest shares, each operation of a list counted once. */
  function LargestSum(minimum: int, pools: seq<QueryPool>, operations: seq<string>): int {
    if operations == [] then 0
    else
      LargestSum(minimum, pools, operations[1..])
      + (if operations[0] in operations[1..] then 0 else LargestShare(minimum, pools, operations[0]))
  }

  lemma {:induction false} TotalIsLargestSum(
      minimum: int, pools: seq<QueryPool>, plan: map<string, int>, operations: seq<string>)
    requires forall op :: op in operations ==> op in plan && plan[op] == LargestShare(minimum, pools, op)
    ensures Total(plan, set op | op in operations) == LargestSum(minimum, pools, operations)
  {
    hide LargestShare;
    if operations != [] {
      var op, rest := operations[0], operations[1..];
      assert operations == [op] + rest;
      TotalIsLargestSum(minimum, pools, plan, rest);
      var all, others := set o | o in operations, set o | o in rest;
      if op in rest {
        assert all == others;
      } else {
        assert all - {op} == others;
        TotalWithout(plan, all, op);
      }
    }
  }

  /** Exactly when a pool clears the floor beside the other pools of a given list, each operation counted once: when the
      largest shares that the list asks of its distinct operations add up to the minimum. */
  lemma FloorIffLargestSharesAddUp(minimum: int, pools: seq<QueryPool>, p: QueryPool)
    requires 0 < minimum && p in pools
    ensures ClearsOnce(minimum, pools, p) <==> LargestSum(minimum, pools, p.operations) >= minimum
  {
    hide PlanOf, LargestShare, LargestSum, Total;
    var plan := PlanOf(minimum, pools);
    forall op | op in p.operations
      ensures op in plan && plan[op] == LargestShare(minimum, pools, op)
    {
      PlanIsLargestShare(minimum, pools, p, op);
    }
    TotalIsLargestSum(minimum, pools, plan, p.operations);
  }

  // ---- the pools the harness always plans --------------------------------------------------

  const AgentToolsPool :=
    QueryPool("agent_tools", ["agent_brief", "change_risk", "explain_symbol", "related_files"])
  const SearchPool := QueryPool("search", ["search"])
  const StructuralPool :=
    QueryPool("structural", ["callees", "callers", "definition", "impact", "neighborhood", "references"])

  const ClassPools: seq<QueryPool> := [AgentToolsPool, SearchPool, StructuralPool]

  lemma ClassShares()
    ensures Share(1000, AgentToolsPool) == 250 && Share(1000, SearchPool) == 1000 && Share(1000, StructuralPool) == 167
    ensures forall p :: p in ClassPools <==> p == AgentToolsPool || p == SearchPool || p == StructuralPool
    ensures forall op :: op in SearchPool.operations <==> op == "search"
  {
    assert ClassPools[0] == AgentToolsPool && ClassPools[1] == SearchPool && ClassPools[2] == StructuralPool;
  }

  /** A gate that names one operation twice, beside the class pools that are always planned, at the floor of 1000: it is
      missed for every operation but the one whose class pool holds it alone. */
  lemma RepeatedOperationMissesTheFloor(op: string)
    ensures var gate := QueryPool("gate", [op, op]);
            ClearsOnce(1000, ClassPools + [gate], gate) <==> op == "search"
  {
    ClassShares();
    var gate := QueryPool("gate", [op, op]);
    var pools := ClassPools + [gate];
    assert Share(1000, gate) == 500;
    assert LargestSum(1000, pools, [op, op]) == LargestShare(1000, pools, op) by { TwiceIsOnce(1000, pools, op); }
    hide ClassPools, AgentToolsPool, SearchPool, StructuralPool, Share, LargestShare, LargestSum, PlanOf, ClearsOnce;
    assert gate in pools && forall p :: p in pools <==> p in ClassPools || p == gate;
    FloorIffLargestSharesAddUp(1000, pools, gate);
    LargestShareIsLargest(1000, pools, op);
    if op == "search" {
      assert SearchPool in pools;
    }
  }

  lemma TwiceIsOnce(minimum: int, pools: seq<QueryPool>, op: string)
    ensures LargestSum(minimum, pools, [op, op]) == LargestShare(minimum, pools, op)
  {
    hide LargestShare;
    var one, two := [op], [op, op];
    assert two[1..] == one && one[1..] == [] && op in one;
    assert LargestSum(minimum, pools, one) == LargestShare(minimum, pools, op);
  }

  /** At the floor of 1000, beside the class pools and any pools that do not name it, a structural operation runs 167
      times; the largest target is 1000, so its symbol sample is 250. */
  lemma UngatedStructuralAtTheFloor(pools: seq<QueryPool>, op: string)
    requires (forall p :: p in ClassPools ==> p in pools) && op in StructuralPool.operations
    requires forall p :: p in pools && op in p.operations ==> p == StructuralPool
    ensures op in PlanOf(1000, pools) && PlanOf(1000, pools)[op] == 167
    ensures "search" in PlanOf(1000, pools) && PlanOf(1000, pools)["search"] == 1000
    ensures forall o :: o in PlanOf(1000, pools) ==> PlanOf(1000, pools)[o] <= 1000
    ensures SymbolSample(1000) == 250
  {
    ClassShares();
    hide ClassPools, AgentToolsPool, SearchPool, StructuralPool, PlanOf, CeilDiv;
    assert StructuralPool in pools && SearchPool in pools;
    PlanOfIsPlan(1000, pools);
    assert Planned(1000, pools, op) && Planned(1000, pools, "search");
    forall o | o in PlanOf(1000, pools)
      ensures PlanOf(1000, pools)[o] <= 1000
    {
      var p :| p in pools && o in p.operations && PlanOf(1000, pools)[o] == Share(1000, p);
      ShareAtMost(1000, |p.operations|);
    }
    assert PlanOf(1000, pools)["search"] >= 1000;
  }

  // ---- what the plan costs ---------------------------------------------------------------

  /** The sum over the non-empty pools of minimum + size - 1. */
  function Budget(minimum: int, pools: seq<QueryPool>): int {
    if pools == [] then 0
    else
      var p := pools[|pools| - 1];
      Budget(minimum, pools[..|pools| - 1]) + (if p.operations == [] then 0 else minimum + |p.operations| - 1)
  }

  lemma KeptWithout(before: map<string, int>, ops: set<string>, op: string)
    requires op in ops
    ensures Total(before, ops * before.Keys) ==
            Total(before, (ops - {op}) * before.Keys) + (if op in before then before[op] else 0)
  {
    hide Total;
    var kept, kept' := ops * before.Keys, (ops - {op}) * before.Keys;
    if op in before {
      TotalWithout(before, kept, op);
      assert kept - {op} == kept';
    } else {
      assert kept == kept';
    }
  }

  lemma HitWithout(ops: set<string>, hit: set<string>, op: string, share: int)
    requires op in ops
    ensures |ops * hit| * share == |(ops - {op}) * hit| * share + (if op in hit then share else 0)
  {
    if op in hit {
      assert ops * hit == (ops - {op}) * hit + {op};
      OneMore(|(ops - {op}) * hit|, share);
    } else {
      assert ops * hit == (ops - {op}) * hit;
    }
  }

  lemma {:induction false} TotalOfRaised(
      before: map<string, int>, after: map<string, int>, ops: set<string>, hit: set<string>, share: int)
    requires ops <= after.Keys
    requires forall op :: op in ops ==>
      after[op] <= (if op in before then before[op] else 0) + (if op in hit then share else 0)
    ensures Total(after, ops) <= Total(before, ops * before.Keys) + |ops * hit| * share
    decreases ops
  {
    if ops == {} {
      assert ops * before.Keys == {} && ops * hit == {};
    } else {
      var op :| op in ops;
      TotalWithout(after, ops, op);
      hide Total;
      TotalOfRaised(before, after, ops - {op}, hit, share);
      KeptWithout(before, ops, op);
      HitWithout(ops, hit, op, share);
    }
  }

  /** Taking the maximum rather than the sum keeps the whole plan within one ceiling per pool. */
  lemma {:induction false} PlanStaysWithinBudget(minimum: int, pools: seq<QueryPool>)
    requires 0 < minimum
    ensures Total(PlanOf(minimum, pools), PlanOf(minimum, pools).Keys) <= Budget(minimum, pools)
  {
    hide CeilDiv;
    if pools != [] {
      var init, p := pools[..|pools| - 1], pools[|pools| - 1];
      PlanStaysWithinBudget(minimum, init);
      if p.operations != [] {
        var before, after := PlanOf(minimum, init), PlanOf(minimum, pools);
        var hit := set op | op in p.operations;
        var share := Share(minimum, p);
        CeilDivIsLeast(minimum, |p.operations|, 0);
        assert after == Raised(before, p.operations, share);
        hide PlanOf, Share, Total;
        TotalOfRaised(before, after, after.Keys, hit, share);
        hide Raised;
        assert after.Keys * before.Keys == before.Keys && after.Keys * hit == hit;
        SetOfSeqIsSmall(p.operations);
        Scale(|hit|, |p.operations|, share);
      }
    }
  }

  lemma {:induction false} SetOfSeqIsSmall(s: seq<string>)
    ensures |set x | x in s| <= |s|
  {
    if s != [] {
      SetOfSeqIsSmall(s[1..]);
      assert (set x | x in s) == (set x | x in s[1..]) + {s[0]} by {
        assert s == [s[0]] + s[1..];
      }
    }
  }

  // ---- the symbol sample -------------------------------------------------------------------

  const FullRunSymbolSample := 25
  const QuerySymbolSampleCap := 250

  function Max(a: int, b: int): int { if a < b then b else a }
  function Min(a: int, b: int): int { if a < b then a else b }

  /** The sample size for the largest per-operation target. */
  function SymbolSample(largest: int): int { Max(FullRunSymbolSample, Min(largest, QuerySymbolSampleCap)) }

  /** The sample follows the largest target between 25 and 250 symbols. */
  lemma SampleIsClamped(largest: int)
    ensures 25 <= SymbolSample(largest) <= 250
    ensures 25 <= largest <= 250 ==> SymbolSample(largest) == largest
    ensures largest < 25 ==> SymbolSample(largest) == 25
    ensures largest > 250 ==> SymbolSample(largest) == 250
  {
  }

  /** The largest planned count, as the range over the plan computes it. */
  method LargestTarget(plan: map<string, int>) returns (largest: int)
    ensures largest >= 0 && forall op :: op in plan ==> plan[op] <= largest
    ensures largest == 0 || exists op :: op in plan && plan[op] == largest
  {
    largest := 0;
    var rest := plan.Keys;
    while rest != {}
      invariant rest <= plan.Keys && largest >= 0
      invariant forall op :: op in plan && op !in rest ==> plan[op] <= largest
      invariant largest == 0 || exists op :: op in plan && plan[op] == largest
      decreases rest
    {
      var op :| op in rest;
      if plan[op] > largest {
        largest := plan[op];
      }
      rest := rest - {op};
    }
  }

  /** An operation that only the six-operation structural pool asks for walks its whole symbol sample exactly from
      1495 requested executions on. At the 1000 floor it runs 167 times over 250 symbols. */
  lemma UngatedStructuralCoverage(requested: int, pools: seq<QueryPool>, op: string)
    requires 0 < requested && StructuralPool in pools && op in StructuralPool.operations
    requires forall p :: p in pools && op in p.operations ==> p == StructuralPool
    requires exists p :: p in pools && |p.operations| == 1
    ensures op in PlanOf(requested, pools)
    ensures forall largest: int ::
      (forall o :: o in PlanOf(requested, pools) ==> PlanOf(requested, pools)[o] <= largest) &&
      (exists o :: o in PlanOf(requested, pools) && PlanOf(requested, pools)[o] == largest) ==>
        (SymbolSample(largest) <= PlanOf(requested, pools)[op] <==> 1495 <= requested)
  {
    PlanOfIsPlan(requested, pools);
    var plan := PlanOf(requested, pools);
    hide PlanOf;
    assert Planned(requested, pools, op);
    assert plan[op] == CeilDiv(requested, 6);
    var single :| single in pools && |single.operations| == 1;
    var o1 := single.operations[0];
    assert o1 in single.operations && Planned(requested, pools, o1);
    assert Share(requested, single) == requested;
    forall o | o in plan
      ensures plan[o] <= requested
    {
      var p :| p in pools && o in p.operations && plan[o] == Share(requested, p);
      ShareAtMost(requested, |p.operations|);
    }
    assert plan[o1] == requested;
  }

  lemma ShareAtMost(a: int, b: int)
    requires a > 0 && b > 0
    ensures CeilDiv(a, b) <= a
  {
    Scale(1, b, a);
    CeilDivIsLeast(a, b, a);
  }
}
