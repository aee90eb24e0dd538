/** Where the paid calls of a run leave its estimate: forks of agents that ask for more than the tape has. */
module Spend {
  import opened Seqs
  import opened ShapleyWalk
  import opened Budget
  import ForkTheorems
  import ShapleyBlocks
  import opened ShapleyEfficiency
  import Tapes
  import Transports

  // ---- one pass over the steps ----------------------------------------------------------------------------

  /** What trial `t` at step `j` pays. */
  type Bill = (nat, nat) -> nat

  function Trials(bill: Bill, j: nat, k: nat): nat {
    if k == 0 then 0 else Trials(bill, j, k - 1) + bill(j, k - 1)
  }

  function Pass(bill: Bill, k: nat, i: nat): nat {
    if i == 0 then 0 else Pass(bill, k, i - 1) + Trials(bill, i - 1, k)
  }

  /** Every trial before step `i` pays at least for the steps after its own. */
  ghost predicate NeverLess(bill: Bill, n: nat, k: nat, i: nat) {
    forall j: nat, t: nat :: j < i && t < k ==> bill(j, t) >= n - 1 - j
  }

  ghost predicate TrialsBare(bill: Bill, j: nat, k: nat, most: nat) {
    forall t: nat :: t < k ==> bill(j, t) <= most
  }

  ghost predicate NeverMore(bill: Bill, n: nat, k: nat, i: nat) {
    forall j: nat, t: nat :: j < i && t < k ==> bill(j, t) <= n - 1 - j
  }

  lemma {:induction false} TrialsAtLeast(bill: Bill, j: nat, k: nat, least: nat)
    requires forall t: nat :: t < k ==> bill(j, t) >= least
    ensures Trials(bill, j, k) >= Prod(k, least)
    ensures Trials(bill, j, k) == Prod(k, least) <==> TrialsBare(bill, j, k, least)
  {
    if k > 0 {
      TrialsAtLeast(bill, j, k - 1, least);
      assert TrialsBare(bill, j, k, least) <==> TrialsBare(bill, j, k - 1, least) && bill(j, k - 1) <= least;
    }
  }

  /** A pass whose trials never pay less than the estimate prices comes out even exactly when none pays more. */
  lemma {:induction false} PassAtLeast(bill: Bill, n: nat, k: nat, i: nat)
    requires i <= n && NeverLess(bill, n, k, i)
    ensures Pass(bill, k, i) >= Prod(k, TailSum(n, i))
    ensures Pass(bill, k, i) == Prod(k, TailSum(n, i)) <==> NeverMore(bill, n, k, i)
  {
    if i == 0 {
      ProdPositive(k, 0);
    } else {
      PassAtLeast(bill, n, k, i - 1);
      TrialsAtLeast(bill, i - 1, k, n - i);
      ProdAddRight(k, TailSum(n, i - 1), n - i);
      NeverMoreLast(bill, n, k, i);
    }
  }

  lemma NeverMoreLast(bill: Bill, n: nat, k: nat, i: nat)
    requires 0 < i <= n
    ensures NeverMore(bill, n, k, i) <==> NeverMore(bill, n, k, i - 1) && TrialsBare(bill, i - 1, k, n - i)
  {
  }

  // ---- the passes of a run without batches ----------------------------------------------------------------

  /** The bill of the single-step pass. */
  function SingleBill(calls: Calls): Bill {
    (j: nat, t: nat) => calls(j, t, {j})
  }

  /** The bill of a repeat that starts with estimate `e`: the prefix coalitions, one after the other. */
  function PrefixBill(calls: Calls, e: nat): Bill {
    (j: nat, t: nat) => calls(e + j, t, FirstSteps(j + 1))
  }

  lemma {:induction false} TrialCallsAre(calls: Calls, e: nat, s: set<nat>, k: nat, bill: Bill, j: nat)
    requires forall t: nat :: bill(j, t) == calls(e, t, s)
    ensures TrialCalls(calls, e, s, k) == Trials(bill, j, k)
  {
    if k > 0 {
      TrialCallsAre(calls, e, s, k - 1, bill, j);
    }
  }

  lemma {:induction false} RankIsPass(calls: Calls, k: nat, i: nat)
    ensures RankCalls(calls, k, i) == Pass(SingleBill(calls), k, i)
  {
    if i > 0 {
      RankIsPass(calls, k, i - 1);
      TrialCallsAre(calls, i - 1, {i - 1}, k, SingleBill(calls), i - 1);
    }
  }

  lemma OneOrderCalls(calls: Calls, k: nat, e: nat, coalition: set<nat>, x: nat)
    ensures OrdersCalls(calls, k, e, coalition, [[x]], 1) == TrialCalls(calls, e, coalition + {x}, k)
  {
    var order, orders := [x], [[x]];
    assert orders[..0] == [] && StartOf(e, 0, 1) == e;
    assert order[..1] == order && Members(order) == {x};
    assert OrderCalls(calls, k, e, coalition, order, 0) == 0;
    assert OrderCalls(calls, k, e, coalition, order, 1) == TrialCalls(calls, e, coalition + {x}, k);
  }

  lemma OneByOneSplits(i: nat)
    requires i > 0
    ensures ShapleyBlocks.OneByOne(i)[..i - 1] == ShapleyBlocks.OneByOne(i - 1)
    ensures ShapleyBlocks.OneByOne(i)[i - 1] == [i - 1]
    ensures Members(Flatten(ShapleyBlocks.OneByOne(i - 1))) + {i - 1} == FirstSteps(i)
  {
    var placed := Flatten(ShapleyBlocks.OneByOne(i - 1));
    ShapleyBlocks.FlattenOneByOne(i - 1);
    InUpTo(i);
    forall x: nat | x < i - 1 ensures x in placed {
      assert placed[x] == x;
    }
    assert Members(placed) + {i - 1} == FirstSteps(i);
  }

  /** A block of the single step `j` costs the trials of step `j`. */
  ghost predicate StepCost(cost: BlockCost, bill: Bill, k: nat, e: nat, j: nat) {
    cost(e + j, Flatten(ShapleyBlocks.OneByOne(j)), [j]) == Trials(bill, j, k)
  }

  lemma {:induction false} RepeatIsPass(cost: BlockCost, bill: Bill, k: nat, e: nat, i: nat)
    requires forall j: nat :: StepCost(cost, bill, k, e, j)
    ensures Evaluations(ShapleyBlocks.OneByOne(i)) == i
    ensures RepeatCalls(cost, e, ShapleyBlocks.OneByOne(i)) == Pass(bill, k, i)
  {
    if i > 0 {
      RepeatIsPass(cost, bill, k, e, i - 1);
      OneByOneSplits(i);
      assert Factorial(1) == 1 && Prod(1, 1) == 1;
      assert StepCost(cost, bill, k, e, i - 1);
    }
  }

  lemma PrefixesCost(calls: Calls, k: nat, e: nat, j: nat)
    ensures StepCost(BlockCalls(calls, k), PrefixBill(calls, e), k, e, j)
  {
    var placed := Flatten(ShapleyBlocks.OneByOne(j));
    OneByOneSplits(j + 1);
    OneOrder(j);
    OneOrderCalls(calls, k, e + j, Members(placed), j);
    TrialCallsAre(calls, e + j, FirstSteps(j + 1), k, PrefixBill(calls, e), j);
    var block := [j];
    assert Members(placed) + {j} == FirstSteps(j + 1);
    assert BlockCalls(calls, k)(e + j, placed, block)
        == OrdersCalls(calls, k, e + j, Members(placed), Permutations(block), |block|);
  }

  /** The bill of repeat `r` of a run over `n` one-step blocks. */
  function RepeatBill(calls: Calls, n: nat, r: nat): Bill {
    PrefixBill(calls, Prod(r, n))
  }

  function RepeatCost(cost: BlockCost, blocks: seq<seq<nat>>, r: nat): nat {
    RepeatCalls(cost, Prod(r, Evaluations(blocks)), blocks)
  }

  lemma RepeatAtLeast(calls: Calls, n: nat, k: nat, r: nat)
    requires NeverLess(RepeatBill(calls, n, r), n, k, n)
    ensures var spent := RepeatCost(BlockCalls(calls, k), ShapleyBlocks.OneByOne(n), r);
            && spent >= Prod(k, TailSum(n, n))
            && (spent <= Prod(k, TailSum(n, n)) <==> NeverMore(RepeatBill(calls, n, r), n, k, n))
  {
    forall j: nat ensures StepCost(BlockCalls(calls, k), RepeatBill(calls, n, r), k, Prod(r, n), j) {
      PrefixesCost(calls, k, Prod(r, n), j);
    }
    RepeatIsPass(BlockCalls(calls, k), RepeatBill(calls, n, r), k, Prod(r, n), n);
    PassAtLeast(RepeatBill(calls, n, r), n, k, n);
  }

  ghost predicate RepeatsBare(cost: BlockCost, blocks: seq<seq<nat>>, m: nat, least: nat) {
    forall r: nat :: r < m ==> RepeatCost(cost, blocks, r) <= least
  }

  lemma {:induction false} RunAtLeast(cost: BlockCost, blocks: seq<seq<nat>>, m: nat, least: nat)
    requires forall r: nat :: r < m ==> RepeatCost(cost, blocks, r) >= least
    ensures RunCalls(cost, blocks, m) >= Prod(m, least)
    ensures RunCalls(cost, blocks, m) == Prod(m, least) <==> RepeatsBare(cost, blocks, m, least)
  {
    if m > 0 {
      RunAtLeast(cost, blocks, m - 1, least);
      assert RunCalls(cost, blocks, m) == RunCalls(cost, blocks, m - 1) + RepeatCost(cost, blocks, m - 1);
      assert RepeatsBare(cost, blocks, m, least)
        <==> RepeatsBare(cost, blocks, m - 1, least) && RepeatCost(cost, blocks, m - 1) <= least;
    }
  }

  // ---- runs of agents that never stop early ---------------------------------------------------------------

  /** Trial `t` of the single-step pass forks at step `j`, on an agent that makes at least `n` requests. */
  ghost predicate LongSingle(singles: TrialTable, n: nat, j: nat, t: nat) {
    singles(j, t, {j}).Forks(j) && n <= singles(j, t, {j}).Asked()
  }

  /** So does trial `t` of the prefix coalition up to step `j` in the repeat that starts with estimate `e`. */
  ghost predicate LongPrefix(coalitions: TrialTable, n: nat, e: nat, j: nat, t: nat) {
    && coalitions(e + j, t, FirstSteps(j + 1)).Plays(FirstSteps(j + 1))
    && n <= coalitions(e + j, t, FirstSteps(j + 1)).Asked()
  }

  lemma LongSinglePays(singles: TrialTable, n: nat, j: nat, t: nat)
    requires j < n && LongSingle(singles, n, j, t)
    ensures SingleBill(PaidCalls(singles))(j, t) == singles(j, t, {j}).Asked() - 1 - j
  {
    var f := singles(j, t, {j});
    SingleForkPays(f.plan, f.inner, f.m, f.agent, n, f.requests);
  }

  lemma LongPrefixPays(coalitions: TrialTable, n: nat, e: nat, j: nat, t: nat)
    requires j < n && LongPrefix(coalitions, n, e, j, t)
    ensures PrefixBill(PaidCalls(coalitions), e)(j, t) == coalitions(e + j, t, FirstSteps(j + 1)).Asked() - 1 - j
  {
    var f := coalitions(e + j, t, FirstSteps(j + 1));
    InUpTo(j + 1);
    assert 0 in FirstSteps(j + 1) by { assert 0 in UpTo(j + 1); }
    DistinctCount(UpTo(j + 1));
    forall x | x in f.plan.forced ensures x < n {
      assert x in FirstSteps(j + 1);
    }
    CoalitionForkPays(f.plan, f.inner, f.m, f.agent, n, f.requests);
  }

  ghost predicate SinglesStop(singles: TrialTable, n: nat, k: nat) {
    forall j: nat, t: nat :: j < n && t < k ==> singles(j, t, {j}).Asked() <= n
  }

  ghost predicate PrefixStops(coalitions: TrialTable, n: nat, e: nat, j: nat, t: nat) {
    coalitions(e + j, t, FirstSteps(j + 1)).Asked() <= n
  }

  ghost predicate PrefixesStop(coalitions: TrialTable, n: nat, k: nat, e: nat) {
    forall j: nat, t: nat :: j < n && t < k ==> PrefixStops(coalitions, n, e, j, t)
  }

  /** No prefix trial of any of the `m` repeats asks for more than the tape has. */
  ghost predicate RepeatsStop(coalitions: TrialTable, n: nat, k: nat, m: nat) {
    forall r: nat :: r < m ==> PrefixesStop(coalitions, n, k, Prod(r, n))
  }

  ghost predicate LongRepeats(coalitions: TrialTable, n: nat, k: nat, m: nat) {
    forall r: nat :: r < m ==> LongPrefixes(coalitions, n, k, Prod(r, n))
  }

  ghost predicate LongSingles(singles: TrialTable, n: nat, k: nat) {
    forall j: nat, t: nat :: j < n && t < k ==> LongSingle(singles, n, j, t)
  }

  ghost predicate LongPrefixes(coalitions: TrialTable, n: nat, k: nat, e: nat) {
    forall j: nat, t: nat :: j < n && t < k ==> LongPrefix(coalitions, n, e, j, t)
  }

  lemma LongSinglesPay(singles: TrialTable, n: nat, k: nat)
    requires LongSingles(singles, n, k)
    ensures NeverLess(SingleBill(PaidCalls(singles)), n, k, n)
    ensures NeverMore(SingleBill(PaidCalls(singles)), n, k, n) <==> SinglesStop(singles, n, k)
  {
    var bill := SingleBill(PaidCalls(singles));
    forall j: nat, t: nat | j < n && t < k ensures bill(j, t) == singles(j, t, {j}).Asked() - 1 - j
                                           ensures bill(j, t) >= n - 1 - j {
      assert LongSingle(singles, n, j, t);
      LongSinglePays(singles, n, j, t);
    }
  }

  lemma LongPrefixesPay(coalitions: TrialTable, n: nat, k: nat, e: nat)
    requires LongPrefixes(coalitions, n, k, e)
    ensures NeverLess(PrefixBill(PaidCalls(coalitions), e), n, k, n)
    ensures NeverMore(PrefixBill(PaidCalls(coalitions), e), n, k, n) <==> PrefixesStop(coalitions, n, k, e)
  {
    var bill := PrefixBill(PaidCalls(coalitions), e);
    forall j: nat, t: nat | j < n && t < k
      ensures bill(j, t) >= n - 1 - j
      ensures bill(j, t) <= n - 1 - j <==> PrefixStops(coalitions, n, e, j, t)
    {
      assert LongPrefix(coalitions, n, e, j, t);
      LongPrefixPays(coalitions, n, e, j, t);
    }
  }

  lemma LongRepeatPays(coalitions: TrialTable, n: nat, k: nat, r: nat, cost: BlockCost)
    requires LongPrefixes(coalitions, n, k, Prod(r, n)) && cost == BlockCalls(PaidCalls(coalitions), k)
    ensures RepeatCost(cost, ShapleyBlocks.OneByOne(n), r) >= Prod(k, TailSum(n, n))
    ensures RepeatCost(cost, ShapleyBlocks.OneByOne(n), r) <= Prod(k, TailSum(n, n))
        <==> PrefixesStop(coalitions, n, k, Prod(r, n))
  {
    LongPrefixesPay(coalitions, n, k, Prod(r, n));
    RepeatAtLeast(PaidCalls(coalitions), n, k, r);
  }

  lemma LongRepeatsPay(coalitions: TrialTable, n: nat, k: nat, m: nat, cost: BlockCost)
    requires LongRepeats(coalitions, n, k, m) && cost == BlockCalls(PaidCalls(coalitions), k)
    ensures var spent, least := RunCalls(cost, ShapleyBlocks.OneByOne(n), m), Prod(m, Prod(k, TailSum(n, n)));
            spent >= least && (spent == least <==> RepeatsStop(coalitions, n, k, m))
  {
    var blocks, least := ShapleyBlocks.OneByOne(n), Prod(k, TailSum(n, n));
    forall r: nat | r < m
      ensures RepeatCost(cost, blocks, r) >= least
      ensures RepeatCost(cost, blocks, r) <= least <==> PrefixesStop(coalitions, n, k, Prod(r, n))
    {
      LongRepeatPays(coalitions, n, k, r, cost);
    }
    RunAtLeast(cost, blocks, m, least);
  }

  /** A run without batches whose agents never stop early costs at least the estimate's billed calls, and stays within
      them if and only if no agent makes more requests than the tape has. */
  lemma LongRunStaysWithinIff(singles: TrialTable, coalitions: TrialTable, n: nat, k: nat, m: nat)
    requires LongSingles(singles, n, k)
    requires LongRepeats(coalitions, n, k, m)
    ensures var spent := RankCalls(PaidCalls(singles), k, n)
                         + RunCalls(BlockCalls(PaidCalls(coalitions), k), ShapleyBlocks.OneByOne(n), m);
            spent <= EstimateFor(n, k, m, []).billedCalls
            <==> SinglesStop(singles, n, k) && RepeatsStop(coalitions, n, k, m)
  {
    LongSinglesPay(singles, n, k);
    RankIsPass(PaidCalls(singles), k, n);
    PassAtLeast(SingleBill(PaidCalls(singles)), n, k, n);
    LongRepeatsPay(coalitions, n, k, m, BlockCalls(PaidCalls(coalitions), k));
    BilledWithoutBatches(n, k, m);
  }

  lemma BilledWithoutBatches(n: nat, k: nat, m: nat)
    ensures Prod(k, TailSum(n, n)) + Prod(m, Prod(k, TailSum(n, n))) == EstimateFor(n, k, m, []).billedCalls
  {
    BilledIsEstimate(n, k, m, []);
    assert Prod(1, Prod(k, TailSum(n, n))) == Prod(k, TailSum(n, n));
  }

  // ---- one request too many -------------------------------------------------------------------------------

  function Persistent(q: Tapes.Request, requests: nat): Tapes.Agent {
    (replies: seq<Tapes.Reply>) => if |replies| < requests then Tapes.Send(q) else Tapes.Return("")
  }

  lemma {:induction false} PersistentAsks(
    p: Transports.Plan, inner: Tapes.Upstream, m: Tapes.Matcher, q: Tapes.Request, requests: nat, k: nat)
    requires k <= requests
    ensures var t := Transports.Drive(p, inner, m, Persistent(q, requests), k); t.state.i == k && |t.replies| == k
  {
    if k > 0 {
      PersistentAsks(p, inner, m, q, requests, k - 1);
      var t := Transports.Drive(p, inner, m, Persistent(q, requests), k - 1);
      ForkTheorems.StepEffect(p, inner, m, t.state, q);
    }
  }

  /** The single-step forks of an agent that makes one request more than the tape has. */
  function OneTooMany(
    parent: Tapes.Tape, mutated: Tapes.Bytes, inner: Tapes.Upstream, matcher: Tapes.Matcher, q: Tapes.Request): TrialTable
  {
    (j: nat, t: nat, s: set<nat>) =>
      Trial(Transports.ForkAt(parent, j, mutated), inner, matcher, Persistent(q, |parent| + 1), |parent| + 1)
  }

  /** Over any tape, with any upstream and matcher, its single-step pass is billed for more calls than estimated. */
  lemma OneRequestTooManyOverspends(
    parent: Tapes.Tape, mutated: Tapes.Bytes, inner: Tapes.Upstream, matcher: Tapes.Matcher, q: Tapes.Request, k: nat)
    requires parent != [] && k > 0
    ensures RankCalls(PaidCalls(OneTooMany(parent, mutated, inner, matcher, q)), k, |parent|)
          > EstimateFor(|parent|, k, 0, []).billedCalls
  {
    var singles, n := OneTooMany(parent, mutated, inner, matcher, q), |parent|;
    forall j: nat, t: nat | j < n && t < k
      ensures LongSingle(singles, n, j, t) && singles(j, t, {j}).Asked() == n + 1
    {
      PersistentAsks(Transports.ForkAt(parent, j, mutated), inner, matcher, q, n + 1, n + 1);
    }
    assert singles(0, 0, {0}).Asked() == n + 1;
    LongRunStaysWithinIff(singles, singles, n, k, 0);
  }
}
