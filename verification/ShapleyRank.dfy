/** `shapley_rank` as it runs: trials are tallied, coalitions grow block by block, and the samples of every
    step are collected over the repeats. Each method is proved against the walk of `ShapleyWalk`. */
module ShapleyRank {
  import opened Seqs
  import opened ShapleyWalk
  import ShapleyEfficiency

  // ---- trials ---------------------------------------------------------------------------------------------

  datatype Verdict = Flip | NoFlip | Undefined(diverged: bool)

  /** The outcome of trial `t` of the `e`-th estimate, which forces `coalition`. */
  type Trials = (nat, nat, set<nat>) -> Verdict

  datatype Tally = Tally(flips: nat, noFlips: nat, undefined: nat, divergences: nat) {
    function Valid(): nat { flips + noFlips }

    function Rate(): Option<real> {
      if Valid() == 0 then None else Some(flips as real / Valid() as real)
    }
  }

  function Count(tally: Tally, v: Verdict): Tally {
    match v
    case Flip => tally.(flips := tally.flips + 1)
    case NoFlip => tally.(noFlips := tally.noFlips + 1)
    case Undefined(diverged) =>
      tally.(undefined := tally.undefined + 1, divergences := tally.divergences + if diverged then 1 else 0)
  }

  function TallyOf(trials: Trials, e: nat, coalition: set<nat>, k: nat): Tally {
    if k == 0 then Tally(0, 0, 0, 0) else Count(TallyOf(trials, e, coalition, k - 1), trials(e, k - 1, coalition))
  }

  /** The game the walk plays: estimate `e` tallies its `k` trials. */
  function GameOf(trials: Trials, k: nat): Game {
    (e: nat, coalition: set<nat>) => TallyOf(trials, e, coalition, k).Rate()
  }

  /** Every trial is accounted for exactly once. */
  lemma {:induction false} TallyAccounts(trials: Trials, e: nat, coalition: set<nat>, k: nat)
    ensures var t := TallyOf(trials, e, coalition, k);
            && t.flips + t.noFlips + t.undefined == k && t.divergences <= t.undefined
            && (t.Valid() == 0 <==> forall i :: 0 <= i < k ==> trials(e, i, coalition).Undefined?)
  {
    if k > 0 {
      TallyAccounts(trials, e, coalition, k - 1);
      OneMoreTrial(TallyOf(trials, e, coalition, k - 1), trials(e, k - 1, coalition));
    }
  }

  lemma OneMoreTrial(t: Tally, v: Verdict)
    ensures var c := Count(t, v);
            && c.flips + c.noFlips + c.undefined == t.flips + t.noFlips + t.undefined + 1
            && (t.divergences <= t.undefined ==> c.divergences <= c.undefined)
            && (c.Valid() == 0 <==> t.Valid() == 0 && v.Undefined?)
  {
  }

  /** The trials of an estimate that flipped the outcome. */
  ghost function FlipSet(trials: Trials, e: nat, coalition: set<nat>, k: nat): set<nat> {
    set t: nat | t < k && trials(e, t, coalition).Flip?
  }

  /** The trials of an estimate that said anything. */
  ghost function ValidSet(trials: Trials, e: nat, coalition: set<nat>, k: nat): set<nat> {
    set t: nat | t < k && !trials(e, t, coalition).Undefined?
  }

  ghost function DivergedSet(trials: Trials, e: nat, coalition: set<nat>, k: nat): set<nat> {
    set t: nat | t < k && trials(e, t, coalition).Undefined? && trials(e, t, coalition).diverged
  }

  lemma OneMoreMember(before: set<nat>, after: set<nat>, x: nat, joins: bool)
    requires x !in before && after == if joins then before + {x} else before
    ensures |after| == |before| + if joins then 1 else 0
  {
  }

  lemma FlipsGrow(trials: Trials, e: nat, coalition: set<nat>, k: nat)
    requires k > 0
    ensures var v := trials(e, k - 1, coalition);
            |FlipSet(trials, e, coalition, k)| == |FlipSet(trials, e, coalition, k - 1)| + if v.Flip? then 1 else 0
  {
    var v := trials(e, k - 1, coalition);
    OneMoreMember(FlipSet(trials, e, coalition, k - 1), FlipSet(trials, e, coalition, k), k - 1, v.Flip?);
  }

  lemma ValidGrows(trials: Trials, e: nat, coalition: set<nat>, k: nat)
    requires k > 0
    ensures var v := trials(e, k - 1, coalition);
            |ValidSet(trials, e, coalition, k)| == |ValidSet(trials, e, coalition, k - 1)| + if !v.Undefined? then 1 else 0
  {
    var v := trials(e, k - 1, coalition);
    OneMoreMember(ValidSet(trials, e, coalition, k - 1), ValidSet(trials, e, coalition, k), k - 1, !v.Undefined?);
  }

  lemma DivergedGrows(trials: Trials, e: nat, coalition: set<nat>, k: nat)
    requires k > 0
    ensures var v := trials(e, k - 1, coalition);
            |DivergedSet(trials, e, coalition, k)| == |DivergedSet(trials, e, coalition, k - 1)| + if v.Undefined? && v.diverged then 1 else 0
  {
    var v := trials(e, k - 1, coalition);
    OneMoreMember(DivergedSet(trials, e, coalition, k - 1), DivergedSet(trials, e, coalition, k), k - 1, v.Undefined? && v.diverged);
  }

  lemma OneMoreCounted(t: Tally, v: Verdict)
    ensures var c := Count(t, v);
            && c.flips == t.flips + (if v.Flip? then 1 else 0)
            && c.Valid() == t.Valid() + (if !v.Undefined? then 1 else 0)
            && c.divergences == t.divergences + (if v.Undefined? && v.diverged then 1 else 0)
  {
  }

  lemma {:induction false} TallyCounts(trials: Trials, e: nat, coalition: set<nat>, k: nat)
    ensures var t := TallyOf(trials, e, coalition, k);
            && t.flips == |FlipSet(trials, e, coalition, k)| && t.Valid() == |ValidSet(trials, e, coalition, k)|
            && t.divergences == |DivergedSet(trials, e, coalition, k)|
  {
    if k == 0 {
      assert FlipSet(trials, e, coalition, 0) == ValidSet(trials, e, coalition, 0) == DivergedSet(trials, e, coalition, 0)
          == {};
    } else {
      TallyCounts(trials, e, coalition, k - 1);
      FlipsGrow(trials, e, coalition, k);
      ValidGrows(trials, e, coalition, k);
      DivergedGrows(trials, e, coalition, k);
      OneMoreCounted(TallyOf(trials, e, coalition, k - 1), trials(e, k - 1, coalition));
    }
  }

  /** `r` is the share of `part` in `whole`. */
  ghost predicate IsShare(r: real, part: set<nat>, whole: set<nat>) {
    r * |whole| as real == |part| as real
  }

  /** A flip rate is the share of flips among the trials that said anything; it is undefined exactly when none did. */
  lemma RateIsProportion(trials: Trials, e: nat, coalition: set<nat>, k: nat)
    ensures var rate, valid := GameOf(trials, k)(e, coalition), ValidSet(trials, e, coalition, k);
            && (rate.None? <==> valid == {})
            && (rate.Some? ==> 0.0 <= rate.value <= 1.0)
            && (rate.Some? ==> IsShare(rate.value, FlipSet(trials, e, coalition, k), valid))
  {
    TallyCounts(trials, e, coalition, k);
    var t := TallyOf(trials, e, coalition, k);
    if t.Valid() > 0 {
      Proportion(t.flips, t.Valid());
    }
  }

  /** So is a single-step score, and 0 where no trial said anything. */
  lemma ScoreIsProportion(trials: Trials, e: nat, coalition: set<nat>, k: nat)
    ensures var score, valid := FlipRate(TallyOf(trials, e, coalition, k)), ValidSet(trials, e, coalition, k);
            && (valid == {} ==> score == 0.0)
            && IsShare(score, FlipSet(trials, e, coalition, k), valid)
  {
    RateIsProportion(trials, e, coalition, k);
    assert FlipSet(trials, e, coalition, k) <= ValidSet(trials, e, coalition, k);
  }

  lemma Proportion(a: nat, b: nat)
    requires a <= b && b > 0
    ensures 0.0 <= a as real / b as real <= 1.0
    ensures a as real / b as real * b as real == a as real
  {
  }

  method RunCoalitionTrials(trials: Trials, e: nat, coalition: set<nat>, k: nat) returns (tally: Tally)
    ensures tally == TallyOf(trials, e, coalition, k)
  {
    var flips, noFlips, undefined, divergences := 0, 0, 0, 0;
    for t := 0 to k
      invariant Tally(flips, noFlips, undefined, divergences) == TallyOf(trials, e, coalition, t)
    {
      match trials(e, t, coalition)
      case Flip => flips := flips + 1;
      case NoFlip => noFlips := noFlips + 1;
      case Undefined(diverged) =>
        undefined := undefined + 1;
        if diverged {
          divergences := divergences + 1;
        }
    }
    tally := Tally(flips, noFlips, undefined, divergences);
  }

  // ---- one join order -------------------------------------------------------------------------------------

  ghost predicate LevelsOf(g: Game, e: nat, coalition: set<nat>, base: real, order: seq<nat>, levels: seq<real>) {
    && 0 < |levels| <= |order| + 1
    && forall p :: 0 <= p < |levels| ==> levels[p] == Level(g, e, coalition, base, order, p)
  }

  lemma NextLevel(g: Game, e: nat, coalition: set<nat>, base: real, order: seq<nat>, levels: seq<real>)
    requires LevelsOf(g, e, coalition, base, order, levels) && |levels| <= |order|
    ensures var p := |levels| - 1;
            && coalition + Members(order[..p + 1]) == coalition + Members(order[..p]) + {order[p]}
            && LevelsOf(g, e, coalition, base, order,
                        levels + [Held(g(e + p, coalition + Members(order[..p + 1])), levels[p])])
  {
    var p := |levels| - 1;
    assert order[..p + 1] == order[..p] + [order[p]];
    var next := Held(g(e + p, coalition + Members(order[..p + 1])), levels[p]);
    assert next == Level(g, e, coalition, base, order, p + 1);
  }

  /** The values the walk holds along `order`, starting with `base`. */
  method WalkOrder(g: Game, e: nat, coalition: set<nat>, base: real, order: seq<nat>) returns (levels: seq<real>)
    ensures |levels| == |order| + 1 && LevelsOf(g, e, coalition, base, order, levels)
  {
    var localCoalition, localBase := coalition, base;
    levels := [base];
    for p := 0 to |order|
      invariant localCoalition == coalition + Members(order[..p])
      invariant |levels| == p + 1 && localBase == levels[p]
      invariant LevelsOf(g, e, coalition, base, order, levels)
    {
      NextLevel(g, e, coalition, base, order, levels);
      localCoalition := localCoalition + {order[p]};
      var estimate := g(e + p, localCoalition);
      var localFull := if estimate.Some? then estimate.value else localBase;
      levels := levels + [localFull];
      localBase := localFull;
    }
  }

  // ---- one block ------------------------------------------------------------------------------------------

  /** What joining at position `p` of an order added. */
  function Rise(levels: seq<real>, p: nat): real
    requires p + 1 < |levels|
  {
    levels[p + 1] - levels[p]
  }

  ghost predicate Complete(orders: seq<seq<nat>>, block: seq<nat>) {
    forall o, x :: o in orders && x in block ==> x in o
  }

  /** Every member's marginals under each of `orders`. */
  function PerStep(g: Game, w: Walk, block: seq<nat>, orders: seq<seq<nat>>): map<nat, seq<real>>
    requires Complete(orders, block)
  {
    map x | x in block :: Marginals(g, w.clock, w.coalition, w.base, orders, |block|, x)
  }

  /** Where the last of `orders` ended. */
  function EndOf(g: Game, w: Walk, width: nat, orders: seq<seq<nat>>): real {
    if orders == [] then w.base
    else EndLevel(g, StartOf(w.clock, |orders| - 1, width), w.coalition, w.base, orders[|orders| - 1])
  }

  lemma OneMoreMarginal(
    g: Game, clock: nat, coalition: set<nat>, base: real, orders: seq<seq<nat>>, order: seq<nat>, width: nat, x: nat,
    levels: seq<real>)
    requires x in order && forall o :: o in orders ==> x in o
    requires |levels| == |order| + 1 && LevelsOf(g, StartOf(clock, |orders|, width), coalition, base, order, levels)
    ensures Marginals(g, clock, coalition, base, orders + [order], width, x)
         == Marginals(g, clock, coalition, base, orders, width, x) + [Rise(levels, IndexOf(order, x))]
  {
    assert (orders + [order])[..|orders|] == orders;
    assert Marginal(g, StartOf(clock, |orders|, width), coalition, base, order, x) == Rise(levels, IndexOf(order, x));
  }

  /** Append each member's rise along `order`. */
  function Collect(perStep: map<nat, seq<real>>, block: seq<nat>, order: seq<nat>, levels: seq<real>): map<nat, seq<real>>
    requires |levels| == |order| + 1 && forall x :: x in block ==> x in perStep && x in order
  {
    map x | x in block :: perStep[x] + [Rise(levels, IndexOf(order, x))]
  }

  lemma OneMoreOrder(g: Game, w: Walk, block: seq<nat>, orders: seq<seq<nat>>, order: seq<nat>, levels: seq<real>)
    requires Complete(orders, block) && forall x :: x in block ==> x in order
    requires |levels| == |order| + 1
    requires LevelsOf(g, StartOf(w.clock, |orders|, |block|), w.coalition, w.base, order, levels)
    ensures Complete(orders + [order], block)
    ensures PerStep(g, w, block, orders + [order])
         == Collect(PerStep(g, w, block, orders), block, order, levels)
    ensures EndOf(g, w, |block|, orders + [order]) == levels[|order|]
  {
    forall x | x in block
      ensures PerStep(g, w, block, orders + [order])[x]
           == PerStep(g, w, block, orders)[x] + [Rise(levels, IndexOf(order, x))]
    {
      OneMoreMarginal(g, w.clock, w.coalition, w.base, orders, order, |block|, x, levels);
    }
  }

  /** What has been collected once `orders` are walked. */
  ghost predicate WalkedSoFar(
    g: Game, w: Walk, block: seq<nat>, orders: seq<seq<nat>>, perStep: map<nat, seq<real>>, end: real, clock: nat)
  {
    && Complete(orders, block) && perStep == PerStep(g, w, block, orders)
    && end == EndOf(g, w, |block|, orders) && clock == StartOf(w.clock, |orders|, |block|)
  }

  method WalkOrders(g: Game, w: Walk, block: seq<nat>, orders: seq<seq<nat>>)
    returns (perStep: map<nat, seq<real>>, end: real, clock: nat)
    requires Complete(orders, block)
    ensures WalkedSoFar(g, w, block, orders, perStep, end, clock)
  {
    perStep := map x | x in block :: [];
    end, clock := w.base, w.clock;
    for i := 0 to |orders|
      invariant WalkedSoFar(g, w, block, orders[..i], perStep, end, clock)
    {
      perStep, end, clock := WalkNext(g, w, block, orders[..i], orders[i], perStep, end, clock);
      assert orders[..i + 1] == orders[..i] + [orders[i]];
    }
    assert orders[..|orders|] == orders;
  }

  /** One more join order. */
  method WalkNext(
    g: Game, w: Walk, block: seq<nat>, ghost orders: seq<seq<nat>>, order: seq<nat>, perStep: map<nat, seq<real>>,
    end: real, clock: nat)
    returns (nowPerStep: map<nat, seq<real>>, nowEnd: real, nowClock: nat)
    requires WalkedSoFar(g, w, block, orders, perStep, end, clock) && forall x :: x in block ==> x in order
    ensures WalkedSoFar(g, w, block, orders + [order], nowPerStep, nowEnd, nowClock)
  {
    var levels := WalkOrder(g, clock, w.coalition, w.base, order);
    OneMoreOrder(g, w, block, orders, order, levels);
    return Collect(perStep, block, order, levels), levels[|order|], clock + |block|;
  }

  method WalkSingleton(g: Game, w: Walk, step: nat) returns (after: Walk)
    ensures after == AfterBlock(g, w, [step])
  {
    var estimate := g(w.clock, w.coalition + {step});
    var full := if estimate.Some? then estimate.value else w.base;
    SingletonBlock(g, w.clock, w.coalition, w.base, step);
    after := Walk(w.clock + 1, w.coalition + {step}, full,
                  w.samples + map[step := Sample(full - w.base, full, w.base)]);
    SingletonSamples(g, w, step, full);
  }

  lemma SingletonSamples(g: Game, w: Walk, step: nat, full: real)
    requires BlockEnd(g, w.clock, w.coalition, w.base, [step]) == full
    requires BlockMarginal(g, w.clock, w.coalition, w.base, [step], step) == full - w.base
    ensures BlockSamples(g, w, [step]) == map[step := Sample(full - w.base, full, w.base)]
    ensures Members([step]) == {step}
  {
    assert forall x: nat :: x in [step] <==> x == step;
  }

  /** One block: a singleton joins once; a batch is averaged over all its join orders. */
  method WalkBlock(g: Game, w: Walk, block: seq<nat>) returns (after: Walk)
    requires block != []
    ensures after == AfterBlock(g, w, block)
  {
    if |block| == 1 {
      after := WalkSingleton(g, w, block[0]);
      assert block == [block[0]];
    } else {
      after := WalkBatch(g, w, block);
    }
  }

  method WalkBatch(g: Game, w: Walk, block: seq<nat>) returns (after: Walk)
    ensures after == AfterBlock(g, w, block)
  {
    var orders := Permutations(block);
    InEveryOrder(block);
    var perStep, end, clock := WalkOrders(g, w, block, orders);
    AveragedBlock(g, w, block, perStep, end);
    after := Walk(clock, w.coalition + Members(block), end, w.samples + Averaged(perStep, block, end, w.base));
  }

  /** `sum(vals) / len(vals)` for every member. */
  function Averaged(perStep: map<nat, seq<real>>, block: seq<nat>, end: real, base: real): map<nat, Sample>
    requires forall x :: x in block ==> x in perStep && perStep[x] != []
  {
    map x | x in block :: Sample(Mean(perStep[x]), end, base)
  }

  lemma AveragedMember(g: Game, w: Walk, block: seq<nat>, orders: seq<seq<nat>>, x: nat)
    requires orders == Permutations(block) && Complete(orders, block) && x in block
    ensures Mean(Marginals(g, w.clock, w.coalition, w.base, orders, |block|, x))
         == BlockMarginal(g, w.clock, w.coalition, w.base, block, x)
  {
  }

  lemma AveragedSamples(g: Game, w: Walk, block: seq<nat>, perStep: map<nat, seq<real>>, end: real)
    requires Complete(Permutations(block), block) && perStep == PerStep(g, w, block, Permutations(block))
    requires end == BlockEnd(g, w.clock, w.coalition, w.base, block)
    ensures forall x :: x in block ==> x in perStep && perStep[x] != []
    ensures Averaged(perStep, block, end, w.base) == BlockSamples(g, w, block)
  {
    forall x | x in block
      ensures x in perStep && perStep[x] != []
      ensures Mean(perStep[x]) == BlockMarginal(g, w.clock, w.coalition, w.base, block, x)
    {
      AveragedMember(g, w, block, Permutations(block), x);
    }
    SameSamples(g, w, block, perStep, end);
  }

  lemma SameSamples(g: Game, w: Walk, block: seq<nat>, perStep: map<nat, seq<real>>, end: real)
    requires forall x :: x in block ==> x in perStep && perStep[x] != []
    requires forall x :: x in block ==> Mean(perStep[x]) == BlockMarginal(g, w.clock, w.coalition, w.base, block, x)
    requires end == BlockEnd(g, w.clock, w.coalition, w.base, block)
    ensures Averaged(perStep, block, end, w.base) == BlockSamples(g, w, block)
  {
  }

  lemma AveragedBlock(g: Game, w: Walk, block: seq<nat>, perStep: map<nat, seq<real>>, end: real)
    requires Complete(Permutations(block), block) && perStep == PerStep(g, w, block, Permutations(block))
    requires end == EndOf(g, w, |block|, Permutations(block))
    ensures forall x :: x in block ==> x in perStep && perStep[x] != []
    ensures AfterBlock(g, w, block)
         == Walk(StartOf(w.clock, |Permutations(block)|, |block|), w.coalition + Members(block), end,
                 w.samples + Averaged(perStep, block, end, w.base))
  {
    AveragedSamples(g, w, block, perStep, end);
  }

  lemma SingletonBlock(g: Game, e: nat, coalition: set<nat>, base: real, step: nat)
    ensures var full := Held(g(e, coalition + {step}), base);
            && BlockEnd(g, e, coalition, base, [step]) == full
            && BlockMarginal(g, e, coalition, base, [step], step) == full - base
            && StartOf(e, |Permutations([step])|, 1) == e + 1
  {
    var order: seq<nat> := [step];
    ShapleyEfficiency.OneOrder(step);
    assert order[..1] == order && Members(order) == {step};
    assert Level(g, e, coalition, base, order, 1) == Held(g(e, coalition + {step}), base);
    var orders := [order];
    assert orders[..0] == [];
    var values := Marginals(g, e, coalition, base, orders, 1, step);
    assert values == [Marginal(g, e, coalition, base, order, step)];
    assert Sum(values) == values[0];
  }

  // ---- all repeats ----------------------------------------------------------------------------------------

  /** The samples of every step, one per repeat. */
  datatype Samples = Samples(marginals: seq<seq<real>>, fulls: seq<seq<real>>, bases: seq<seq<real>>)

  ghost predicate SamplesOf(s: Samples, n: nat, walks: seq<Walk>) {
    && |s.marginals| == |s.fulls| == |s.bases| == n
    && forall x :: 0 <= x < n ==>
         && |s.marginals[x]| == |s.fulls[x]| == |s.bases[x]| == |walks|
         && forall r :: 0 <= r < |walks| ==>
              x in walks[r].samples && Sample(s.marginals[x][r], s.fulls[x][r], s.bases[x][r]) == walks[r].samples[x]
  }

  /** The samples of one repeat. */
  method WalkRepeat(g: Game, e: nat, n: nat, blocks: seq<seq<nat>>)
    returns (samples: map<nat, Sample>, evaluations: nat)
    requires Partition(n, blocks)
    ensures samples == WalkBlocks(g, e, blocks).samples
    ensures evaluations == WalkBlocks(g, e, blocks).clock
  {
    var w := Walk(e, {}, 0.0, map[]);
    for i := 0 to |blocks|
      invariant w == WalkBlocks(g, e, blocks[..i])
    {
      assert blocks[..i + 1][..i] == blocks[..i];
      assert blocks[i] in blocks;
      w := WalkBlock(g, w, blocks[i]);
    }
    assert blocks[..|blocks|] == blocks;
    samples, evaluations := w.samples, w.clock;
  }

  method AppendSamples(s: Samples, n: nat, ghost walks: seq<Walk>, samples: map<nat, Sample>, ghost w: Walk)
    returns (t: Samples)
    requires SamplesOf(s, n, walks) && samples == w.samples && forall x :: 0 <= x < n ==> x in samples
    ensures SamplesOf(t, n, walks + [w])
  {
    t := Samples(
      seq(n, x requires 0 <= x < n => s.marginals[x] + [samples[x].marginal]),
      seq(n, x requires 0 <= x < n => s.fulls[x] + [samples[x].full]),
      seq(n, x requires 0 <= x < n => s.bases[x] + [samples[x].base]));
  }

  /** `m` repeats of the walk: the samples `shapley_rank` averages, and the estimates it asks for. */
  method WalkAll(g: Game, m: nat, n: nat, blocks: seq<seq<nat>>)
    returns (s: Samples, evaluations: nat)
    requires Partition(n, blocks)
    ensures SamplesOf(s, n, Repeats(g, blocks, m))
    ensures evaluations == ShapleyEfficiency.StartClock(g, blocks, m)
  {
    s := Samples(seq(n, _ => []), seq(n, _ => []), seq(n, _ => []));
    evaluations := 0;
    for r := 0 to m
      invariant SamplesOf(s, n, Repeats(g, blocks, r))
      invariant evaluations == ShapleyEfficiency.StartClock(g, blocks, r)
    {
      s, evaluations := NextRepeat(g, r, n, blocks, s, evaluations);
    }
  }

  method NextRepeat(g: Game, ghost r: nat, n: nat, blocks: seq<seq<nat>>, s: Samples, evaluations: nat)
    returns (t: Samples, after: nat)
    requires Partition(n, blocks) && SamplesOf(s, n, Repeats(g, blocks, r))
    requires evaluations == ShapleyEfficiency.StartClock(g, blocks, r)
    ensures SamplesOf(t, n, Repeats(g, blocks, r + 1))
    ensures after == ShapleyEfficiency.StartClock(g, blocks, r + 1)
  {
    var samples;
    samples, after := WalkRepeat(g, evaluations, n, blocks);
    OneMoreRepeat(g, blocks, r);
    Sampled(g, evaluations, blocks);
    t := AppendSamples(s, n, Repeats(g, blocks, r), samples, WalkBlocks(g, evaluations, blocks));
  }

  lemma OneMoreRepeat(g: Game, blocks: seq<seq<nat>>, r: nat)
    ensures var w := WalkBlocks(g, ShapleyEfficiency.StartClock(g, blocks, r), blocks);
            && Repeats(g, blocks, r + 1) == Repeats(g, blocks, r) + [w]
            && ShapleyEfficiency.StartClock(g, blocks, r + 1) == w.clock
  {
  }

  // ---- results --------------------------------------------------------------------------------------------

  datatype ShapleyResult = ShapleyResult(
    step: nat, shapleyValue: real, coalitionFlipRate: real, baseFlipRate: real,
    necessity: bool, sufficiency: bool, sufficiencyScore: real)

  function MeanOrZero(s: seq<real>): real {
    if s == [] then 0.0 else Mean(s)
  }

  /** The single-step flip rate of `rank`: an all-UNDEFINED step reads 0. */
  function FlipRate(t: Tally): real {
    Held(t.Rate(), 0.0)
  }

  /** The results of a whole run in step order; `rank` supplies the single-step tallies. */
  method Results(s: Samples, singles: seq<Tally>, n: nat, necessityThreshold: real, sufficiencyThreshold: real)
    returns (results: seq<ShapleyResult>)
    requires |s.marginals| == |s.fulls| == |s.bases| == |singles| == n
    ensures |results| == n
    ensures forall i :: 0 <= i < n ==>
              && results[i].step == i
              && results[i].shapleyValue == MeanOrZero(s.marginals[i])
              && results[i].coalitionFlipRate == MeanOrZero(s.fulls[i])
              && results[i].baseFlipRate == MeanOrZero(s.bases[i])
              && (results[i].necessity <==> MeanOrZero(s.marginals[i]) >= necessityThreshold)
              && results[i].sufficiencyScore == FlipRate(singles[i])
              && (results[i].sufficiency <==> FlipRate(singles[i]) >= sufficiencyThreshold)
  {
    results := [];
    for i := 0 to n
      invariant |results| == i
      invariant forall j :: 0 <= j < i ==>
              && results[j].step == j
              && results[j].shapleyValue == MeanOrZero(s.marginals[j])
              && results[j].coalitionFlipRate == MeanOrZero(s.fulls[j])
              && results[j].baseFlipRate == MeanOrZero(s.bases[j])
              && (results[j].necessity <==> MeanOrZero(s.marginals[j]) >= necessityThreshold)
              && results[j].sufficiencyScore == FlipRate(singles[j])
              && (results[j].sufficiency <==> FlipRate(singles[j]) >= sufficiencyThreshold)
    {
      var value, score := MeanOrZero(s.marginals[i]), FlipRate(singles[i]);
      results := results + [ShapleyResult(i, value, MeanOrZero(s.fulls[i]), MeanOrZero(s.bases[i]),
                                          value >= necessityThreshold, score >= sufficiencyThreshold, score)];
    }
  }

  /** The rates step `x` completed, one per repeat, and those it started from. */
  function FullsOf(walks: seq<Walk>, x: nat): seq<real> {
    seq(|walks|, r requires 0 <= r < |walks| => if x in walks[r].samples then walks[r].samples[x].full else 0.0)
  }

  function BasesOf(walks: seq<Walk>, x: nat): seq<real> {
    seq(|walks|, r requires 0 <= r < |walks| => if x in walks[r].samples then walks[r].samples[x].base else 0.0)
  }

  /** The values reported are the walk's Shapley values, and the rates the means of its rates. */
  lemma ReportedValues(s: Samples, n: nat, walks: seq<Walk>, x: nat)
    requires SamplesOf(s, n, walks) && x < n
    ensures MeanOrZero(s.marginals[x]) == ShapleyEfficiency.ShapleyValue(walks)(x)
    ensures s.fulls[x] == FullsOf(walks, x) && s.bases[x] == BasesOf(walks, x)
  {
    var credits := ShapleyEfficiency.CreditsOf(walks, x);
    forall r | 0 <= r < |walks| ensures s.marginals[x][r] == credits[r] {
      assert Sample(s.marginals[x][r], s.fulls[x][r], s.bases[x][r]) == walks[r].samples[x];
      assert credits[r] == ShapleyEfficiency.Credit(walks[r])(x) == walks[r].samples[x].marginal;
    }
    assert s.marginals[x] == credits;
  }

  // ---- what the rates of a step are -----------------------------------------------------------------------

  function SampleAt(w: Walk, x: nat): Option<Sample> {
    if x in w.samples then Some(w.samples[x]) else None
  }

  lemma SampleKept(g: Game, w: Walk, block: seq<nat>, x: nat)
    requires x !in block
    ensures SampleAt(AfterBlock(g, w, block), x) == SampleAt(w, x)
  {
  }

  /** Later blocks leave a step's sample alone. */
  lemma {:induction false} SampleStays(g: Game, clock: nat, blocks: seq<seq<nat>>, n: nat, x: nat)
    requires n <= |blocks| && forall l :: n <= l < |blocks| ==> x !in blocks[l]
    ensures SampleAt(WalkBlocks(g, clock, blocks), x) == SampleAt(WalkBlocks(g, clock, blocks[..n]), x)
  {
    if n == |blocks| {
      assert blocks[..n] == blocks;
    } else {
      var front := blocks[..|blocks| - 1];
      PrefixTwice(blocks, |blocks| - 1, n);
      SampleStays(g, clock, front, n, x);
      SampleKept(g, WalkBlocks(g, clock, front), blocks[|blocks| - 1], x);
    }
  }

  lemma PrefixTwice<T>(s: seq<T>, n: nat, j: nat)
    requires j <= n <= |s|
    ensures s[..n][..j] == s[..j]
  {
  }

  /** Each block starts from the rate the one before it ended at, and its members record where it started and ended. */
  lemma SamplesChain(g: Game, clock: nat, blocks: seq<seq<nat>>, j: nat, x: nat)
    requires Distinct(Flatten(blocks)) && j < |blocks| && x in blocks[j]
    ensures var before, after := WalkBlocks(g, clock, blocks[..j]), WalkBlocks(g, clock, blocks[..j + 1]);
            SampleAt(WalkBlocks(g, clock, blocks), x)
            == Some(Sample(BlockMarginal(g, before.clock, before.coalition, before.base, blocks[j], x), after.base,
                           before.base))
  {
    forall l | j < l < |blocks| ensures x !in blocks[l] {
      InNoLaterBlock(blocks, j, l, x);
    }
    SampleStays(g, clock, blocks, j + 1, x);
    WalkNextBlock(g, clock, blocks, j);
    SampleJoined(g, WalkBlocks(g, clock, blocks[..j]), blocks[j], x);
  }

  lemma SampleJoined(g: Game, w: Walk, block: seq<nat>, x: nat)
    requires x in block
    ensures SampleAt(AfterBlock(g, w, block), x)
         == Some(Sample(BlockMarginal(g, w.clock, w.coalition, w.base, block, x), AfterBlock(g, w, block).base, w.base))
  {
  }

  lemma {:induction false} InNoLaterBlock(blocks: seq<seq<nat>>, j: nat, l: nat, x: nat)
    requires Distinct(Flatten(blocks)) && j < l < |blocks| && x in blocks[j]
    ensures x !in blocks[l]
  {
    var last := |blocks| - 1;
    DistinctAppend(Flatten(blocks[..last]), blocks[last]);
    if l == last {
      InFlatten(blocks[..last], j, x);
    } else {
      InNoLaterBlock(blocks[..last], j, l, x);
    }
  }

  /** A step that joins alone is credited with the rise from the rate it started from to the rate it completed. */
  lemma SingletonRise(g: Game, clock: nat, blocks: seq<seq<nat>>, j: nat, w: Walk)
    requires Distinct(Flatten(blocks)) && j < |blocks| && |blocks[j]| == 1 && w == WalkBlocks(g, clock, blocks)
    ensures var x := blocks[j][0];
            x in w.samples && w.samples[x].marginal == w.samples[x].full - w.samples[x].base
  {
    SamplesChain(g, clock, blocks, j, blocks[j][0]);
    assert blocks[j] == [blocks[j][0]];
    WalkNextBlock(g, clock, blocks, j);
    SingletonCredit(g, WalkBlocks(g, clock, blocks[..j]), blocks[j][0]);
  }

  lemma WalkNextBlock(g: Game, clock: nat, blocks: seq<seq<nat>>, j: nat)
    requires j < |blocks|
    ensures WalkBlocks(g, clock, blocks[..j + 1]) == AfterBlock(g, WalkBlocks(g, clock, blocks[..j]), blocks[j])
  {
    assert blocks[..j + 1][..j] == blocks[..j];
  }

  lemma SingletonCredit(g: Game, before: Walk, x: nat)
    ensures BlockMarginal(g, before.clock, before.coalition, before.base, [x], x)
         == AfterBlock(g, before, [x]).base - before.base
  {
    SingletonBlock(g, before.clock, before.coalition, before.base, x);
  }

  lemma RiseOfRepeat(g: Game, blocks: seq<seq<nat>>, m: nat, j: nat, r: nat)
    requires Distinct(Flatten(blocks)) && j < |blocks| && |blocks[j]| == 1 && r < m
    ensures var x, walks := blocks[j][0], Repeats(g, blocks, m);
            FullsOf(walks, x)[r] == ShapleyEfficiency.CreditsOf(walks, x)[r] + BasesOf(walks, x)[r]
  {
    var x, start := blocks[j][0], ShapleyEfficiency.StartClock(g, blocks, r);
    ShapleyEfficiency.RepeatsAt(g, blocks, m, r);
    SingletonRise(g, start, blocks, j, Repeats(g, blocks, m)[r]);
    CreditIsMarginal(Repeats(g, blocks, m)[r], x);
  }

  lemma CreditIsMarginal(w: Walk, x: nat)
    requires x in w.samples
    ensures ShapleyEfficiency.Credit(w)(x) == w.samples[x].marginal
  {
  }

  /** So its reported value is its coalition rate less its base rate, whatever the noise. */
  lemma ValueIsRise(g: Game, blocks: seq<seq<nat>>, m: nat, j: nat)
    requires Distinct(Flatten(blocks)) && j < |blocks| && |blocks[j]| == 1
    ensures var x, walks := blocks[j][0], Repeats(g, blocks, m);
            ShapleyEfficiency.ShapleyValue(walks)(x) == MeanOrZero(FullsOf(walks, x)) - MeanOrZero(BasesOf(walks, x))
  {
    var x, walks := blocks[j][0], Repeats(g, blocks, m);
    var credits, fulls, bases := ShapleyEfficiency.CreditsOf(walks, x), FullsOf(walks, x), BasesOf(walks, x);
    if m > 0 {
      forall r | 0 <= r < m ensures fulls[r] == credits[r] + bases[r] {
        RiseOfRepeat(g, blocks, m, j, r);
      }
      ShapleyEfficiency.MeanOfSums(credits, bases, fulls);
    }
  }

  // ---- each estimate is a new one -------------------------------------------------------------------------

  /** Estimates that come out as their own number. */
  function Counting(): Game {
    (e: nat, coalition: set<nat>) => Some(e as real)
  }

  lemma LevelCounts(clock: nat, coalition: set<nat>, base: real, order: seq<nat>, p: nat)
    requires 0 < p <= |order|
    ensures Level(Counting(), clock, coalition, base, order, p) == (clock + p - 1) as real
  {
  }

  lemma BlockCounts(w: Walk, block: seq<nat>)
    requires block != []
    ensures var after := AfterBlock(Counting(), w, block);
            after.clock > w.clock && after.base == (after.clock - 1) as real
  {
    var orders := Permutations(block);
    LastOrder(block);
    StartsAscend(w.clock, |orders| - 1, |block|);
    EndCounts(StartOf(w.clock, |orders| - 1, |block|), w.coalition, w.base, orders[|orders| - 1]);
  }

  lemma LastOrder(block: seq<nat>)
    ensures |Permutations(block)[|Permutations(block)| - 1]| == |block|
  {
    var orders := Permutations(block);
    InEveryOrder(block);
    assert orders[|orders| - 1] in orders;
  }

  lemma EndCounts(clock: nat, coalition: set<nat>, base: real, order: seq<nat>)
    requires order != []
    ensures EndLevel(Counting(), clock, coalition, base, order) == (clock + |order| - 1) as real
  {
    LevelCounts(clock, coalition, base, order, |order|);
  }

  lemma {:induction false} StartsAscend(clock: nat, i: nat, width: nat)
    ensures StartOf(clock, i, width) >= clock
  {
    if i > 0 {
      StartsAscend(clock, i - 1, width);
    }
  }

  lemma WalkCounts(clock: nat, blocks: seq<seq<nat>>)
    requires blocks != [] && forall b :: b in blocks ==> b != []
    ensures var w := WalkBlocks(Counting(), clock, blocks);
            w.clock > 0 && w.base == (w.clock - 1) as real
  {
    var last := blocks[|blocks| - 1];
    assert last in blocks;
    BlockCounts(WalkBlocks(Counting(), clock, blocks[..|blocks| - 1]), last);
  }

  /** No estimate is used twice: where each comes out as its own number, every repeat of the walk ends at the number of
      the estimate that was the last one made by then. */
  lemma EstimatesInTurn(n: nat, blocks: seq<seq<nat>>, m: nat, r: nat)
    requires Partition(n, blocks) && n > 0 && r < m
    ensures var made := ShapleyEfficiency.StartClock(Counting(), blocks, r + 1);
            made > 0 && Repeats(Counting(), blocks, m)[r].base == (made - 1) as real
  {
    assert 0 in Flatten(blocks);
    ShapleyEfficiency.RepeatsAt(Counting(), blocks, m, r);
    OneMoreRepeat(Counting(), blocks, r);
    WalkCounts(ShapleyEfficiency.StartClock(Counting(), blocks, r), blocks);
  }
}
