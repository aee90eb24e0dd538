/** The pre-flight budget: the forks a Shapley run makes and the tail calls it can be billed for. */
module Budget {
  import opened Seqs
  import opened ShapleyWalk
  import ForkTheorems
  import ShapleyBlocks
  import ShapleyEfficiency
  import Tapes
  import Transports

  /** `_block_cost_factor`: the largest batch's number of join orders. */
  function CostFactor(batches: seq<seq<int>>): (f: nat)
    ensures f >= 1
  {
    if batches == [] then 1
    else
      var f := CostFactor(batches[..|batches| - 1]);
      var b := Factorial(|Members(batches[|batches| - 1])|);
      if b > f then b else f
  }

  /** Calls the tail of every single-step fork can make, summed over the steps: n-1, n-2, ..., 0. */
  function TailSum(n: nat, upTo: nat): nat
    requires upTo <= n
  {
    if upTo == 0 then 0 else TailSum(n, upTo - 1) + (n - upTo)
  }

  datatype Estimate = Estimate(forks: nat, billedCalls: nat)

  function EstimateFor(n: nat, k: nat, samples: nat, batches: seq<seq<int>>): Estimate {
    Estimate(EstimatedForks(n, k, samples, CostFactor(batches)),
             EstimatedForks(TailSum(n, n), k, samples, CostFactor(batches)))
  }

  /** `units * k * multiplier` */
  function EstimatedForks(units: nat, k: nat, samples: nat, factor: nat): nat {
    units * k * (1 + samples * factor)
  }

  // ---- products as repeated addition ----------------------------------------------------------------------

  function Prod(a: nat, b: nat): nat {
    if a == 0 then 0 else Prod(a - 1, b) + b
  }

  lemma {:induction false} ProdIsProduct(a: nat, b: nat)
    ensures Prod(a, b) == a * b
  {
    if a > 0 {
      ProdIsProduct(a - 1, b);
      assert a * b == (a - 1) * b + b;
    }
  }

  lemma {:induction false} ProdAddRight(a: nat, b: nat, c: nat)
    ensures Prod(a, b + c) == Prod(a, b) + Prod(a, c)
  {
    if a > 0 {
      ProdAddRight(a - 1, b, c);
    }
  }

  lemma {:induction false} ProdAddLeft(a: nat, b: nat, c: nat)
    ensures Prod(a + b, c) == Prod(a, c) + Prod(b, c)
  {
    if b > 0 {
      ProdAddLeft(a, b - 1, c);
    }
  }

  /** A smaller multiplier gives at most as much, and as much only if nothing is multiplied. */
  lemma {:induction false} ProdGrows(a: nat, b: nat, c: nat)
    requires a <= b
    ensures Prod(a, c) <= Prod(b, c)
    ensures Prod(a, c) == Prod(b, c) <==> a == b || c == 0
  {
    ProdAddLeft(a, b - a, c);
    ProdPositive(b - a, c);
  }

  lemma {:induction false} ProdPositive(a: nat, b: nat)
    ensures Prod(a, b) == 0 <==> a == 0 || b == 0
  {
    if a > 0 {
      ProdPositive(a - 1, b);
    }
  }

  // ---- exact fork counts ----------------------------------------------------------------------------------

  /** Estimates one repeat asks for: `b!` join orders of `b` members for each block. */
  function Evaluations(blocks: seq<seq<nat>>): nat {
    if blocks == [] then 0
    else Evaluations(blocks[..|blocks| - 1]) + Prod(Factorial(|blocks[|blocks| - 1]|), |blocks[|blocks| - 1]|)
  }

  lemma {:induction false} StartOfIsProduct(clock: nat, i: nat, width: nat)
    ensures StartOf(clock, i, width) == clock + Prod(i, width)
  {
    if i > 0 {
      StartOfIsProduct(clock, i - 1, width);
    }
  }

  lemma {:induction false} WalkClock(g: Game, clock: nat, blocks: seq<seq<nat>>)
    ensures WalkBlocks(g, clock, blocks).clock == clock + Evaluations(blocks)
  {
    if blocks != [] {
      var last := |blocks| - 1;
      WalkClock(g, clock, blocks[..last]);
      PermutationsCount(blocks[last]);
      StartOfIsProduct(WalkBlocks(g, clock, blocks[..last]).clock, |Permutations(blocks[last])|, |blocks[last]|);
    }
  }

  lemma {:induction false} RunClock(g: Game, blocks: seq<seq<nat>>, m: nat)
    ensures ShapleyEfficiency.StartClock(g, blocks, m) == Prod(m, Evaluations(blocks))
  {
    if m > 0 {
      RunClock(g, blocks, m - 1);
      WalkClock(g, ShapleyEfficiency.StartClock(g, blocks, m - 1), blocks);
    }
  }

  ghost predicate FactorBound(blocks: seq<seq<nat>>, factor: nat) {
    forall b :: b in blocks ==> Factorial(|b|) <= factor
  }

  ghost predicate AllAtFactor(blocks: seq<seq<nat>>, factor: nat) {
    forall b :: b in blocks ==> b == [] || Factorial(|b|) == factor
  }

  lemma FactorsOfLast(blocks: seq<seq<nat>>, factor: nat)
    requires blocks != []
    ensures var before, b := blocks[..|blocks| - 1], blocks[|blocks| - 1];
            && (FactorBound(blocks, factor) <==> FactorBound(before, factor) && Factorial(|b|) <= factor)
            && (AllAtFactor(blocks, factor) <==> AllAtFactor(before, factor) && (b == [] || Factorial(|b|) == factor))
  {
    assert forall c :: c in blocks <==> c in blocks[..|blocks| - 1] || c == blocks[|blocks| - 1];
  }

  lemma {:induction false} EvaluationsBound(blocks: seq<seq<nat>>, factor: nat)
    requires FactorBound(blocks, factor)
    ensures Evaluations(blocks) <= Prod(factor, |Flatten(blocks)|)
    ensures Evaluations(blocks) == Prod(factor, |Flatten(blocks)|) <==> AllAtFactor(blocks, factor)
  {
    if blocks == [] {
      ProdPositive(factor, 0);
    } else {
      var last := |blocks| - 1;
      var before, b := blocks[..last], blocks[last];
      FactorsOfLast(blocks, factor);
      EvaluationsBound(before, factor);
      ProdGrows(Factorial(|b|), factor, |b|);
      ProdAddRight(factor, |Flatten(before)|, |b|);
      SumsCompare(Evaluations(before), Prod(factor, |Flatten(before)|),
                  Prod(Factorial(|b|), |b|), Prod(factor, |b|));
    }
  }

  lemma SumsCompare(a: nat, b: nat, c: nat, d: nat)
    requires a <= b && c <= d
    ensures a + c <= b + d && (a + c == b + d <==> a == b && c == d)
  {
  }

  lemma {:induction false} BatchFactor(batches: seq<seq<int>>, i: nat)
    requires i < |batches|
    ensures Factorial(|Members(batches[i])|) <= CostFactor(batches)
  {
    var last := |batches| - 1;
    if i < last {
      BatchFactor(batches[..last], i);
    }
  }

  /** The cost factor is the largest batch's number of join orders, and 1 without batches. */
  lemma {:induction false} CostFactorIsMost(batches: seq<seq<int>>)
    ensures forall i :: 0 <= i < |batches| ==> Factorial(|Members(batches[i])|) <= CostFactor(batches)
    ensures CostFactor(batches) == 1
            || exists i :: 0 <= i < |batches| && CostFactor(batches) == Factorial(|Members(batches[i])|)
  {
    forall i | 0 <= i < |batches| ensures Factorial(|Members(batches[i])|) <= CostFactor(batches) {
      BatchFactor(batches, i);
    }
    if batches != [] {
      var front, last := batches[..|batches| - 1], batches[|batches| - 1];
      CostFactorIsMost(front);
      if CostFactor(batches) == CostFactor(front) && CostFactor(front) != 1 {
        var i :| 0 <= i < |front| && CostFactor(front) == Factorial(|Members(front[i])|);
        assert batches[i] == front[i];
      }
    }
  }

  /** The cost factor bounds the join orders of every block the batches are turned into. */
  lemma BlocksWithinFactor(n: nat, batches: seq<seq<int>>, blocks: seq<seq<nat>>)
    requires ShapleyBlocks.WellFormed(n, batches)
    requires forall b :: b in blocks ==> ShapleyBlocks.FromBatches(b, n, batches)
    ensures FactorBound(blocks, CostFactor(batches))
  {
    forall b | b in blocks ensures Factorial(|b|) <= CostFactor(batches) {
      if |b| == 1 {
        assert Factorial(1) == 1;
      } else {
        var i :| 0 <= i < |batches| && ShapleyBlocks.SameElements(b, batches[i]);
        assert |multiset(b)| == |b| && |multiset(batches[i])| == |batches[i]|;
        ShapleyBlocks.NotWellFormed(n, batches, i);
        DistinctCount(batches[i]);
        BatchFactor(batches, i);
      }
    }
  }

  lemma PartitionSize(n: nat, blocks: seq<seq<nat>>)
    requires Partition(n, blocks)
    ensures |Flatten(blocks)| == n
  {
    ShapleyEfficiency.PartitionPermutesSteps(n, blocks);
    assert |multiset(ShapleyEfficiency.UpTo(n))| == n && |multiset(Flatten(blocks))| == |Flatten(blocks)|;
  }

  /** `total_forks`: the single-step pass and `k` forks for every estimate of every repeat. */
  function Forks(g: Game, n: nat, k: nat, m: nat, blocks: seq<seq<nat>>): nat {
    TotalForks(n, k, ShapleyEfficiency.StartClock(g, blocks, m))
  }

  function TotalForks(n: nat, k: nat, evaluations: nat): nat {
    n * k + k * evaluations
  }

  /** The estimate bounds a run whose `m` repeats ask for `e` estimates each, at most `factor` per step. */
  lemma EstimateArithmetic(n: nat, k: nat, m: nat, e: nat, factor: nat)
    requires e <= Prod(factor, n)
    ensures TotalForks(n, k, Prod(m, e)) == n * k + m * k * e
    ensures TotalForks(n, k, Prod(m, e)) <= EstimatedForks(n, k, m, factor)
    ensures TotalForks(n, k, Prod(m, e)) == EstimatedForks(n, k, m, factor) <==>
              m == 0 || k == 0 || e == Prod(factor, n)
  {
    ProdIsProduct(m, e);
    ProdIsProduct(factor, n);
    ProductsCompare(n, k, m, e, factor, Prod(m, e), Prod(factor, n));
  }

  lemma ProductsCompare(n: nat, k: nat, m: nat, e: nat, factor: nat, evaluations: nat, most: nat)
    requires e <= most && evaluations == m * e && most == factor * n
    ensures TotalForks(n, k, evaluations) == n * k + m * k * e
    ensures TotalForks(n, k, evaluations) <= EstimatedForks(n, k, m, factor)
    ensures TotalForks(n, k, evaluations) == EstimatedForks(n, k, m, factor) <==> m == 0 || k == 0 || e == most
  {
    var mk, gap := m * k, most - e;
    assert k * evaluations == mk * e;
    assert EstimatedForks(n, k, m, factor) == n * k + mk * most;
    assert mk * most == mk * e + mk * gap;
    NoGap(m, k, gap);
  }

  lemma NoGap(m: nat, k: nat, gap: nat)
    ensures m * k * gap >= 0 && (m * k * gap == 0 <==> m == 0 || k == 0 || gap == 0)
  {
    if m > 0 && k > 0 {
      assert m * k > 0;
    }
  }

  lemma EvaluationsWithin(n: nat, batches: seq<seq<int>>, blocks: seq<seq<nat>>)
    requires ShapleyBlocks.WellFormed(n, batches) && Partition(n, blocks)
    requires forall b :: b in blocks ==> ShapleyBlocks.FromBatches(b, n, batches)
    ensures Evaluations(blocks) <= Prod(CostFactor(batches), n)
    ensures Evaluations(blocks) == Prod(CostFactor(batches), n) <==> AllAtFactor(blocks, CostFactor(batches))
  {
    BlocksWithinFactor(n, batches, blocks);
    EvaluationsBound(blocks, CostFactor(batches));
    PartitionSize(n, blocks);
  }

  /** A run makes exactly `n k + m k sum(b b!)` forks: at most the estimate, and exactly the estimate when
      no repeats are asked for or every block has as many join orders as the largest. */
  lemma ForksWithinEstimate(g: Game, n: nat, k: nat, m: nat, batches: seq<seq<int>>, blocks: seq<seq<nat>>)
    requires ShapleyBlocks.WellFormed(n, batches) && Partition(n, blocks)
    requires forall b :: b in blocks ==> ShapleyBlocks.FromBatches(b, n, batches)
    ensures Forks(g, n, k, m, blocks) == n * k + m * k * Evaluations(blocks)
    ensures Forks(g, n, k, m, blocks) <= EstimateFor(n, k, m, batches).forks
    ensures Forks(g, n, k, m, blocks) == EstimateFor(n, k, m, batches).forks <==>
              m == 0 || k == 0 || AllAtFactor(blocks, CostFactor(batches))
  {
    EvaluationsWithin(n, batches, blocks);
    RunClock(g, blocks, m);
    EstimateArithmetic(n, k, m, Evaluations(blocks), CostFactor(batches));
  }

  /** Without batches the estimate is exact. */
  lemma ExactWithoutBatches(g: Game, n: nat, k: nat, m: nat, blocks: seq<seq<nat>>)
    requires Partition(n, blocks) && forall b :: b in blocks ==> ShapleyBlocks.FromBatches(b, n, [])
    ensures Forks(g, n, k, m, blocks) == EstimateFor(n, k, m, []).forks
  {
    assert Factorial(1) == 1;
    assert AllAtFactor(blocks, CostFactor([]));
    ForksWithinEstimate(g, n, k, m, [], blocks);
  }

  // ---- billed calls ---------------------------------------------------------------------------------------

  /** Upstream calls made by trial `t` of estimate `e`, which forces the given coalition. */
  type Calls = (nat, nat, set<nat>) -> nat

  /** A coalition fork pays for no more steps than the coalition leaves. */
  ghost predicate Affordable(calls: Calls, n: nat) {
    forall e: nat, t: nat, s: set<nat> :: WithinTape(calls, e, t, s, n)
  }

  ghost predicate WithinTape(calls: Calls, e: nat, t: nat, s: set<nat>, n: nat) {
    s != {} && InRange(s, n) ==> calls(e, t, s) + |s| <= n
  }

  ghost predicate InRange(s: set<nat>, n: nat) {
    forall x :: x in s ==> x < n
  }

  /** A single-step fork at `step` has at most the steps after it left to pay for. */
  ghost predicate AffordableSingles(calls: Calls, n: nat) {
    forall step: nat, t: nat :: step < n ==> calls(step, t, {step}) <= n - 1 - step
  }

  /** What a coalition fork pays, whatever the agent does: at most `n - |S|` exactly when the agent makes at most
      `first` requests more than the `n` of the tape, and from `n` requests on one call for each further request. */
  lemma CoalitionForkPays(
    p: Transports.Plan, inner: Tapes.Upstream, m: Tapes.Matcher, agent: Tapes.Agent, n: nat, requests: nat)
    requires p.Coalition? && p.Valid() && forall s :: s in p.forced ==> s < n
    ensures var s := Transports.Drive(p, inner, m, agent, requests).state;
            && (|s.sent| + |p.forced.Keys| <= n <==> s.i <= n + p.first)
            && (n <= s.i ==> |s.sent| + |p.forced.Keys| + p.first == s.i)
  {
    var s := Transports.Drive(p, inner, m, agent, requests).state;
    if s.i < n {
      ForkTheorems.TailCallBound(p, inner, m, agent, n, requests);
    } else {
      ForkTheorems.TailAccounting(p, inner, m, agent, requests);
      assert ForkTheorems.Below(p.forced.Keys, s.i) == p.forced.Keys;
    }
  }

  /** A single-step fork stays within its own term of the estimate exactly when the agent makes at most `n` requests. */
  lemma SingleForkPays(
    p: Transports.Plan, inner: Tapes.Upstream, m: Tapes.Matcher, agent: Tapes.Agent, n: nat, requests: nat)
    requires p.ForkAt? && p.step < n
    ensures var s := Transports.Drive(p, inner, m, agent, requests).state;
            && (|s.sent| <= n - 1 - p.step <==> s.i <= n)
            && (n <= s.i ==> |s.sent| == s.i - 1 - p.step)
  {
    var single := Transports.Coalition(p.parent, map[p.step := p.mutated], p.step);
    assert single.forced.Keys == {p.step};
    ForkTheorems.SingleCoalitionIsFork(p.parent, p.step, p.mutated, inner, m, agent, requests);
    CoalitionForkPays(single, inner, m, agent, n, requests);
    if Transports.Drive(p, inner, m, agent, requests).state.i < n {
      ForkTheorems.TailCallBound(single, inner, m, agent, n, requests);
    }
  }

  function TrialCalls(calls: Calls, e: nat, s: set<nat>, k: nat): nat {
    if k == 0 then 0 else TrialCalls(calls, e, s, k - 1) + calls(e, k - 1, s)
  }

  function OrderCalls(calls: Calls, k: nat, e: nat, coalition: set<nat>, order: seq<nat>, p: nat): nat
    requires p <= |order|
  {
    if p == 0 then 0
    else OrderCalls(calls, k, e, coalition, order, p - 1)
         + TrialCalls(calls, e + p - 1, coalition + Members(order[..p]), k)
  }

  function OrdersCalls(calls: Calls, k: nat, e: nat, coalition: set<nat>, orders: seq<seq<nat>>, width: nat): nat {
    if orders == [] then 0
    else
      var last := |orders| - 1;
      OrdersCalls(calls, k, e, coalition, orders[..last], width)
      + OrderCalls(calls, k, StartOf(e, last, width), coalition, orders[last], |orders[last]|)
  }

  /** Calls made for a block, given the estimates before it and the steps already placed. */
  type BlockCost = (nat, seq<nat>, seq<nat>) -> nat

  function BlockCalls(calls: Calls, k: nat): BlockCost {
    (e: nat, placed: seq<nat>, block: seq<nat>) =>
      OrdersCalls(calls, k, e, Members(placed), Permutations(block), |block|)
  }

  function RepeatCalls(cost: BlockCost, e: nat, blocks: seq<seq<nat>>): nat {
    if blocks == [] then 0
    else
      var before, block := blocks[..|blocks| - 1], blocks[|blocks| - 1];
      RepeatCalls(cost, e, before) + cost(e + Evaluations(before), Flatten(before), block)
  }

  function RunCalls(cost: BlockCost, blocks: seq<seq<nat>>, m: nat): nat {
    if m == 0 then 0
    else RunCalls(cost, blocks, m - 1) + RepeatCalls(cost, Prod(m - 1, Evaluations(blocks)), blocks)
  }

  /** The single-step pass of `rank`. */
  function RankCalls(calls: Calls, k: nat, n: nat): nat {
    if n == 0 then 0 else RankCalls(calls, k, n - 1) + TrialCalls(calls, n - 1, {n - 1}, k)
  }

  lemma {:induction false} TrialCallsBound(calls: Calls, e: nat, s: set<nat>, k: nat, most: nat)
    requires forall t: nat :: calls(e, t, s) <= most
    ensures TrialCalls(calls, e, s, k) <= Prod(k, most)
  {
    if k > 0 {
      TrialCallsBound(calls, e, s, k - 1, most);
    }
  }

  /** Most calls of `k` trials each of coalitions of sizes `i + 1 .. j`. */
  function SizesCost(n: nat, k: nat, i: nat, j: nat): nat
    requires i <= j <= n
  {
    if i == j then 0 else SizesCost(n, k, i, j - 1) + Prod(k, n - j)
  }

  lemma {:induction false} SizesCostAdds(n: nat, k: nat, i: nat, j: nat, l: nat)
    requires i <= j <= l <= n
    ensures SizesCost(n, k, i, l) == SizesCost(n, k, i, j) + SizesCost(n, k, j, l)
  {
    if j < l {
      SizesCostAdds(n, k, i, j, l - 1);
    }
  }

  lemma {:induction false} SizesCostIsTailSum(n: nat, k: nat, j: nat)
    requires j <= n
    ensures SizesCost(n, k, 0, j) == Prod(k, TailSum(n, j))
  {
    if j == 0 {
      ProdPositive(k, 0);
    } else {
      SizesCostIsTailSum(n, k, j - 1);
      ProdAddRight(k, TailSum(n, j - 1), n - j);
    }
  }

  lemma JoinedSize(coalition: set<nat>, order: seq<nat>, p: nat)
    requires p <= |order| && Distinct(order) && coalition !! Members(order)
    ensures |coalition + Members(order[..p])| == |coalition| + p
  {
    DistinctCount(order[..p]);
    forall x | x in Members(order[..p]) ensures x !in coalition {
      assert x in Members(order);
    }
  }

  /** After `p` members of `order` have joined, the coalition has `size + p` steps of an `n`-step tape. */
  ghost predicate SizeAt(n: nat, coalition: set<nat>, size: nat, order: seq<nat>, p: nat)
    requires p <= |order|
  {
    var s := coalition + Members(order[..p]);
    |s| == size + p <= n && InRange(s, n)
  }

  ghost predicate CanJoin(n: nat, coalition: set<nat>, size: nat, order: seq<nat>) {
    && size + |order| <= n
    && forall p :: 0 <= p <= |order| ==> SizeAt(n, coalition, size, order, p)
  }

  lemma OneEstimate(calls: Calls, n: nat, k: nat, e: nat, coalition: set<nat>, size: nat, order: seq<nat>, p: nat)
    requires Affordable(calls, n) && p < |order| && CanJoin(n, coalition, size, order)
    ensures TrialCalls(calls, e, coalition + Members(order[..p + 1]), k) <= Prod(k, n - (size + p + 1))
  {
    var s := coalition + Members(order[..p + 1]);
    assert SizeAt(n, coalition, size, order, p + 1);
    assert order[..p + 1][p] in s;
    var most := n - |s|;
    forall t: nat ensures calls(e, t, s) <= most {
      assert WithinTape(calls, e, t, s, n);
    }
    TrialCallsBound(calls, e, s, k, most);
  }

  lemma {:induction false} OrderCallsBound(
    calls: Calls, n: nat, k: nat, e: nat, coalition: set<nat>, size: nat, order: seq<nat>, p: nat)
    requires Affordable(calls, n) && p <= |order| && CanJoin(n, coalition, size, order)
    ensures OrderCalls(calls, k, e, coalition, order, p) <= SizesCost(n, k, size, size + p)
  {
    if p > 0 {
      OrderCallsBound(calls, n, k, e, coalition, size, order, p - 1);
      OneEstimate(calls, n, k, e + p - 1, coalition, size, order, p - 1);
    }
  }

  lemma {:induction false} OrdersCallsBound(
    calls: Calls, n: nat, k: nat, e: nat, coalition: set<nat>, size: nat, orders: seq<seq<nat>>, width: nat, each: nat)
    requires Affordable(calls, n) && size + width <= n && each == SizesCost(n, k, size, size + width)
    requires forall o :: o in orders ==> |o| == width && CanJoin(n, coalition, size, o)
    ensures OrdersCalls(calls, k, e, coalition, orders, width) <= Prod(|orders|, each)
  {
    if orders != [] {
      var last := |orders| - 1;
      OrdersCallsBound(calls, n, k, e, coalition, size, orders[..last], width, each);
      assert orders[last] in orders;
      OrderCallsBound(calls, n, k, StartOf(e, last, width), coalition, size, orders[last], width);
    }
  }

  lemma OrderCanJoin(n: nat, placed: seq<nat>, block: seq<nat>, order: seq<nat>)
    requires Distinct(placed) && Distinct(block) && forall x :: x in placed ==> x !in block
    requires |placed| + |block| <= n && forall x :: x in placed || x in block ==> x < n
    requires Permutes(order, block)
    ensures |order| == |block| && CanJoin(n, Members(placed), |placed|, order)
  {
    ShapleyEfficiency.PermutedDistinct(order, block);
    DistinctCount(placed);
    assert Members(placed) !! Members(block);
    forall p | 0 <= p <= |order| ensures SizeAt(n, Members(placed), |placed|, order, p) {
      JoinedSize(Members(placed), order, p);
      forall x | x in Members(placed) + Members(order[..p]) ensures x < n {
        assert x in Members(placed) || x in Members(order);
      }
    }
  }

  lemma BlockOrdersCanJoin(n: nat, placed: seq<nat>, block: seq<nat>)
    requires Distinct(placed) && Distinct(block) && forall x :: x in placed ==> x !in block
    requires |placed| + |block| <= n && forall x :: x in placed || x in block ==> x < n
    ensures forall o :: o in Permutations(block) ==> |o| == |block| && CanJoin(n, Members(placed), |placed|, o)
  {
    PermutationsPermute(block);
    forall o | o in Permutations(block)
      ensures |o| == |block| && CanJoin(n, Members(placed), |placed|, o)
    {
      OrderCanJoin(n, placed, block, o);
    }
  }

  /** A block that fits costs at most `factor` times one pass over its sizes. */
  ghost predicate Bounded(cost: BlockCost, n: nat, k: nat, factor: nat) {
    forall e: nat, placed: seq<nat>, block: seq<nat> :: BlockBounded(cost, n, k, factor, e, placed, block)
  }

  ghost predicate BlockBounded(
    cost: BlockCost, n: nat, k: nat, factor: nat, e: nat, placed: seq<nat>, block: seq<nat>)
  {
    BlockFits(n, factor, placed, block) ==>
      cost(e, placed, block) <= Prod(factor, SizesCost(n, k, |placed|, |placed| + |block|))
  }

  lemma BlockCallsBounded(calls: Calls, n: nat, k: nat, factor: nat)
    requires Affordable(calls, n)
    ensures Bounded(BlockCalls(calls, k), n, k, factor)
  {
    forall e: nat, placed: seq<nat>, block: seq<nat>
      ensures BlockBounded(BlockCalls(calls, k), n, k, factor, e, placed, block)
    {
      if BlockFits(n, factor, placed, block) {
        NextBlock(calls, n, k, e, placed, block, factor);
      }
    }
  }

  lemma NextBlock(calls: Calls, n: nat, k: nat, e: nat, placed: seq<nat>, block: seq<nat>, factor: nat)
    requires Affordable(calls, n) && BlockFits(n, factor, placed, block)
    ensures BlockCalls(calls, k)(e, placed, block) <= Prod(factor, SizesCost(n, k, |placed|, |placed| + |block|))
  {
    var each := SizesCost(n, k, |placed|, |placed| + |block|);
    PermutationsCount(block);
    OrdersCallsBound(calls, n, k, e, Members(placed), |placed|, Permutations(block), |block|, each);
    ProdGrows(Factorial(|block|), factor, each);
  }

  /** Every block's join orders fit behind the blocks before it, and there are at most `factor` of them. */
  ghost predicate Fits(n: nat, factor: nat, blocks: seq<seq<nat>>) {
    blocks == []
    || (&& Fits(n, factor, blocks[..|blocks| - 1])
        && BlockFits(n, factor, Flatten(blocks[..|blocks| - 1]), blocks[|blocks| - 1]))
  }

  ghost predicate BlockFits(n: nat, factor: nat, placed: seq<nat>, block: seq<nat>) {
    && |placed| + |block| <= n && Factorial(|block|) <= factor
    && forall o :: o in Permutations(block) ==> |o| == |block| && CanJoin(n, Members(placed), |placed|, o)
  }

  ghost predicate Listed(n: nat, placed: seq<nat>) {
    Distinct(placed) && |placed| <= n && forall x :: x in placed ==> x < n
  }

  lemma ListedPrefix(n: nat, placed: seq<nat>, block: seq<nat>)
    requires Listed(n, placed + block)
    ensures Listed(n, placed) && Distinct(block) && |placed| + |block| <= n
    ensures forall x :: x in placed ==> x !in block
    ensures forall x :: x in placed || x in block ==> x < n
  {
    DistinctAppend(placed, block);
    assert forall x :: x in placed || x in block ==> x in placed + block;
  }

  lemma {:induction false} PartitionFits(n: nat, factor: nat, blocks: seq<seq<nat>>)
    requires Listed(n, Flatten(blocks)) && FactorBound(blocks, factor)
    ensures Fits(n, factor, blocks)
  {
    if blocks != [] {
      var before, block := blocks[..|blocks| - 1], blocks[|blocks| - 1];
      assert Factorial(|block|) <= factor && FactorBound(before, factor) by {
        assert block in blocks;
        assert forall b :: b in before ==> b in blocks;
      }
      assert BlockFits(n, factor, Flatten(before), block) && Listed(n, Flatten(before)) by {
        assert Flatten(blocks) == Flatten(before) + block;
        ListedPrefix(n, Flatten(before), block);
        BlockOrdersCanJoin(n, Flatten(before), block);
      }
      PartitionFits(n, factor, before);
    }
  }

  lemma {:induction false} RepeatCallsBound(
    cost: BlockCost, n: nat, k: nat, e: nat, blocks: seq<seq<nat>>, factor: nat)
    requires Bounded(cost, n, k, factor) && Fits(n, factor, blocks)
    ensures |Flatten(blocks)| <= n
    ensures RepeatCalls(cost, e, blocks) <= Prod(factor, SizesCost(n, k, 0, |Flatten(blocks)|))
  {
    if blocks != [] {
      var before, block := blocks[..|blocks| - 1], blocks[|blocks| - 1];
      var placed := Flatten(before);
      RepeatCallsBound(cost, n, k, e, before, factor);
      assert BlockBounded(cost, n, k, factor, e + Evaluations(before), placed, block);
      AddCosts(n, k, factor, |placed|, |placed| + |block|);
    }
  }

  lemma AddCosts(n: nat, k: nat, factor: nat, i: nat, j: nat)
    requires i <= j <= n
    ensures Prod(factor, SizesCost(n, k, 0, j)) == Prod(factor, SizesCost(n, k, 0, i)) + Prod(factor, SizesCost(n, k, i, j))
  {
    SizesCostAdds(n, k, 0, i, j);
    ProdAddRight(factor, SizesCost(n, k, 0, i), SizesCost(n, k, i, j));
  }

  lemma {:induction false} RunCallsBound(
    cost: BlockCost, n: nat, k: nat, blocks: seq<seq<nat>>, factor: nat, m: nat)
    requires Bounded(cost, n, k, factor) && Fits(n, factor, blocks) && |Flatten(blocks)| == n
    ensures RunCalls(cost, blocks, m) <= Prod(m, Prod(factor, Prod(k, TailSum(n, n))))
  {
    if m > 0 {
      RunCallsBound(cost, n, k, blocks, factor, m - 1);
      RepeatCallsBound(cost, n, k, Prod(m - 1, Evaluations(blocks)), blocks, factor);
      SizesCostIsTailSum(n, k, n);
    }
  }

  lemma {:induction false} RankCallsBound(calls: Calls, k: nat, n: nat, i: nat)
    requires i <= n && AffordableSingles(calls, n)
    ensures RankCalls(calls, k, i) <= Prod(k, TailSum(n, i))
  {
    if i > 0 {
      RankCallsBound(calls, k, n, i - 1);
      TrialCallsBound(calls, i - 1, {i - 1}, k, n - i);
      ProdAddRight(k, TailSum(n, i - 1), n - i);
    }
  }

  lemma BilledArithmetic(m: nat, factor: nat, k: nat, tail: nat)
    ensures Prod(k, tail) + Prod(m, Prod(factor, Prod(k, tail))) == EstimatedForks(tail, k, m, factor)
  {
    ProdIsProduct(k, tail);
    ProdIsProduct(factor, Prod(k, tail));
    ProdIsProduct(m, Prod(factor, Prod(k, tail)));
    Distribute(m, factor, k * tail, tail * k);
  }

  lemma Distribute(m: nat, factor: nat, x: nat, y: nat)
    requires x == y
    ensures x + m * (factor * x) == y * (1 + m * factor)
  {
    assert m * (factor * x) == x * (m * factor);
  }

  /** Spend never outruns the estimate: the calls of the single-step pass and of every coalition trial of
      every repeat stay within the billed calls. */
  lemma CallsWithinEstimate(
    singles: Calls, coalitions: Calls, n: nat, k: nat, m: nat, batches: seq<seq<int>>, blocks: seq<seq<nat>>)
    requires ShapleyBlocks.WellFormed(n, batches) && Partition(n, blocks)
    requires forall b :: b in blocks ==> ShapleyBlocks.FromBatches(b, n, batches)
    requires AffordableSingles(singles, n) && Affordable(coalitions, n)
    ensures RankCalls(singles, k, n) + RunCalls(BlockCalls(coalitions, k), blocks, m) <= EstimateFor(n, k, m, batches).billedCalls
  {
    BlocksWithinFactor(n, batches, blocks);
    RankCallsBound(singles, k, n, n);
    PartitionSize(n, blocks);
    PartitionFits(n, CostFactor(batches), blocks);
    BlockCallsBounded(coalitions, n, k, CostFactor(batches));
    RunCallsBound(BlockCalls(coalitions, k), n, k, blocks, CostFactor(batches), m);
    BilledIsEstimate(n, k, m, batches);
  }

  lemma BilledIsEstimate(n: nat, k: nat, m: nat, batches: seq<seq<int>>)
    ensures var tail := Prod(k, TailSum(n, n));
            tail + Prod(m, Prod(CostFactor(batches), tail)) == EstimateFor(n, k, m, batches).billedCalls
  {
    BilledArithmetic(m, CostFactor(batches), k, TailSum(n, n));
  }

  // ---- forks of driven agents ------------------------------------------------------------------------------

  /** One trial: an agent driven for up to `requests` requests against a fork transport. */
  datatype Trial = Trial(
    plan: Transports.Plan, inner: Tapes.Upstream, m: Tapes.Matcher, agent: Tapes.Agent, requests: nat)
  {
    function End(): Transports.State {
      Transports.Drive(plan, inner, m, agent, requests).state
    }

    /** How many requests the agent makes. */
    function Asked(): nat {
      End().i
    }

    /** Forces the coalition `s`. */
    ghost predicate Plays(s: set<nat>) {
      plan.Coalition? && plan.Valid() && plan.forced.Keys == s
    }

    /** The classic fork at `step`. */
    ghost predicate Forks(step: nat) {
      plan.ForkAt? && plan.step == step
    }

    /** Forces the coalition `s`, on an agent that makes at most `n` requests from the first forced step on. */
    ghost predicate Forces(s: set<nat>, n: nat) {
      Plays(s) && Asked() <= n + plan.first
    }

    /** The classic fork at `step` of an agent that makes at most `n` requests. */
    ghost predicate ForksAt(step: nat, n: nat) {
      Forks(step) && Asked() <= n
    }
  }

  /** Trial `t` of estimate `e` of a coalition. */
  type TrialTable = (nat, nat, set<nat>) -> Trial

  function PaidCalls(trials: TrialTable): Calls {
    (e: nat, t: nat, s: set<nat>) => |trials(e, t, s).End().sent|
  }

  lemma ForcedTrialsAfford(trials: TrialTable, n: nat)
    requires forall e: nat, t: nat, s: set<nat> :: s != {} && InRange(s, n) ==> trials(e, t, s).Forces(s, n)
    ensures Affordable(PaidCalls(trials), n)
  {
    forall e: nat, t: nat, s: set<nat> ensures WithinTape(PaidCalls(trials), e, t, s, n) {
      if s != {} && InRange(s, n) {
        var f := trials(e, t, s);
        assert f.Forces(s, n);
        CoalitionForkPays(f.plan, f.inner, f.m, f.agent, n, f.requests);
      }
    }
  }

  lemma SingleTrialsAfford(trials: TrialTable, n: nat)
    requires forall step: nat, t: nat :: step < n ==> trials(step, t, {step}).ForksAt(step, n)
    ensures AffordableSingles(PaidCalls(trials), n)
  {
    forall step: nat, t: nat | step < n ensures PaidCalls(trials)(step, t, {step}) <= n - 1 - step {
      var f := trials(step, t, {step});
      assert f.ForksAt(step, n);
      SingleForkPays(f.plan, f.inner, f.m, f.agent, n, f.requests);
    }
  }

  /** The paid calls of a run: whatever its trials force and whatever their upstreams and matchers are, as long as no
      agent makes more requests than its fork affords, they stay within the billed calls of the estimate. */
  lemma RunStaysWithinEstimate(
    singles: TrialTable, coalitions: TrialTable, n: nat, k: nat, m: nat, batches: seq<seq<int>>, blocks: seq<seq<nat>>)
    requires ShapleyBlocks.WellFormed(n, batches) && Partition(n, blocks)
    requires forall b :: b in blocks ==> ShapleyBlocks.FromBatches(b, n, batches)
    requires forall step: nat, t: nat :: step < n ==> singles(step, t, {step}).ForksAt(step, n)
    requires forall e: nat, t: nat, s: set<nat> :: s != {} && InRange(s, n) ==> coalitions(e, t, s).Forces(s, n)
    ensures RankCalls(PaidCalls(singles), k, n) + RunCalls(BlockCalls(PaidCalls(coalitions), k), blocks, m)
         <= EstimateFor(n, k, m, batches).billedCalls
  {
    SingleTrialsAfford(singles, n);
    ForcedTrialsAfford(coalitions, n);
    CallsWithinEstimate(PaidCalls(singles), PaidCalls(coalitions), n, k, m, batches, blocks);
  }
}
