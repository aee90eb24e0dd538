/** The efficiency axiom for a whole run of the walk, with noise and UNDEFINED estimates.

    The credits of all steps add up to the walk's final value plus, for each block, the gap between the
    average over its join orders and the last of them. The gap is what `block_full_flip_rate` loses by
    being read off the last order only. */
module ShapleyEfficiency {
  import opened Seqs
  import opened ShapleyWalk

  function MarginalIn(g: Game, clock: nat, coalition: set<nat>, base: real, order: seq<nat>): nat -> real {
    (x: nat) => if x in order then Marginal(g, clock, coalition, base, order, x) else 0.0
  }

  lemma {:induction false} Telescopes(g: Game, clock: nat, coalition: set<nat>, base: real, order: seq<nat>, p: nat)
    requires Distinct(order) && p <= |order|
    ensures SumBy(order[..p], MarginalIn(g, clock, coalition, base, order))
         == Level(g, clock, coalition, base, order, p) - base
  {
    if p > 0 {
      Telescopes(g, clock, coalition, base, order, p - 1);
      var f := MarginalIn(g, clock, coalition, base, order);
      assert order[..p] == order[..p - 1] + [order[p - 1]];
      SumByAppend(order[..p - 1], [order[p - 1]], f);
      assert IndexOf(order, order[p - 1]) == p - 1;
    }
  }

  /** In each single join order the members' marginals add up to what the block adds. */
  lemma OrderEfficiency(
    g: Game, clock: nat, coalition: set<nat>, base: real, order: seq<nat>, block: seq<nat>)
    requires Distinct(block) && Permutes(order, block)
    ensures SumBy(block, MarginalIn(g, clock, coalition, base, order))
         == EndLevel(g, clock, coalition, base, order) - base
  {
    PermutedDistinct(order, block);
    Telescopes(g, clock, coalition, base, order, |order|);
    assert order[..|order|] == order;
    SumByPermuted(block, order, MarginalIn(g, clock, coalition, base, order));
  }

  lemma PermutedDistinct(order: seq<nat>, block: seq<nat>)
    requires Distinct(block) && Permutes(order, block)
    ensures Distinct(order) && Members(order) == Members(block) && |order| == |block|
  {
    assert |multiset(order)| == |order| && |multiset(block)| == |block|;
    assert forall x :: x in order <==> x in multiset(order);
    assert forall x :: x in block <==> x in multiset(block);
    forall i, j | 0 <= i < j < |order| ensures order[i] != order[j] {
      if order[i] == order[j] {
        Twice(order, i, j);
        Once(block, order[i]);
        assert false;
      }
    }
  }

  lemma Twice(s: seq<nat>, i: nat, j: nat)
    requires i < j < |s| && s[i] == s[j]
    ensures multiset(s)[s[i]] >= 2
  {
    assert s == s[..j] + s[j..];
    assert s[..j][i] == s[i] && s[j..][0] == s[i];
  }

  lemma {:induction false} Once(s: seq<nat>, x: nat)
    requires Distinct(s)
    ensures multiset(s)[x] <= 1
  {
    if s != [] {
      assert s == [s[0]] + s[1..];
      assert Distinct(s[1..]);
      Once(s[1..], x);
      if x == s[0] {
        assert x !in s[1..];
      }
    }
  }

  /** Where each of `orders` ends. */
  function Ends(g: Game, clock: nat, coalition: set<nat>, base: real, orders: seq<seq<nat>>, width: nat): (r: seq<real>)
    ensures |r| == |orders|
  {
    if orders == [] then []
    else
      var last := |orders| - 1;
      Ends(g, clock, coalition, base, orders[..last], width)
      + [EndLevel(g, StartOf(clock, last, width), coalition, base, orders[last])]
  }

  /** How much each of `orders` adds. */
  function Rises(ends: seq<real>, base: real): (r: seq<real>)
    ensures |r| == |ends|
  {
    if ends == [] then []
    else Rises(ends[..|ends| - 1], base) + [ends[|ends| - 1] - base]
  }

  lemma {:induction false} SumOfRises(ends: seq<real>, base: real)
    ensures Sum(Rises(ends, base)) == Sum(ends) - Times(|ends|, base)
  {
    if ends != [] {
      SumOfRises(ends[..|ends| - 1], base);
      assert Rises(ends, base)[..|ends| - 1] == Rises(ends[..|ends| - 1], base);
    }
  }

  lemma MeanOfRises(ends: seq<real>, base: real)
    requires ends != []
    ensures Sum(Rises(ends, base)) / |ends| as real == Mean(ends) - base
  {
    SumOfRises(ends, base);
    TimesIsProduct(|ends|, base);
    MeanShifts(Sum(Rises(ends, base)), Sum(ends), |ends| as real, base, Times(|ends|, base));
  }

  lemma MeanShifts(shifted: real, total: real, k: real, base: real, off: real)
    requires k > 0.0 && shifted == total - off && off == k * base
    ensures shifted / k == total / k - base
  {
    MeanOfShifted(total, k, base);
  }

  lemma RisesAppend(ends: seq<real>, end: real, base: real)
    ensures Sum(Rises(ends + [end], base)) == Sum(Rises(ends, base)) + (end - base)
  {
    assert (ends + [end])[..|ends|] == ends;
    var r := Rises(ends + [end], base);
    assert r[..|ends|] == Rises(ends, base);
  }

  function TotalMarginal(
    g: Game, clock: nat, coalition: set<nat>, base: real, orders: seq<seq<nat>>, width: nat): nat -> real
  {
    (x: nat) => if forall o :: o in orders ==> x in o
         then Sum(Marginals(g, clock, coalition, base, orders, width, x)) else 0.0
  }

  lemma TotalMarginalAppend(
    g: Game, clock: nat, coalition: set<nat>, base: real, orders: seq<seq<nat>>, block: seq<nat>, x: nat)
    requires orders != [] && Distinct(block) && AllPermute(orders, block) && x in block
    ensures var last := |orders| - 1;
            TotalMarginal(g, clock, coalition, base, orders, |block|)(x)
            == TotalMarginal(g, clock, coalition, base, orders[..last], |block|)(x)
               + MarginalIn(g, StartOf(clock, last, |block|), coalition, base, orders[last])(x)
  {
    forall o | o in orders ensures x in o {
      PermutedDistinct(o, block);
      assert x in Members(block);
    }
    var last := |orders| - 1;
    var all := Marginals(g, clock, coalition, base, orders, |block|, x);
    assert all[..last] == Marginals(g, clock, coalition, base, orders[..last], |block|, x);
  }

  lemma {:induction false} OrdersEfficiency(
    g: Game, clock: nat, coalition: set<nat>, base: real, orders: seq<seq<nat>>, block: seq<nat>)
    requires Distinct(block) && AllPermute(orders, block)
    ensures SumBy(block, TotalMarginal(g, clock, coalition, base, orders, |block|))
         == Sum(Rises(Ends(g, clock, coalition, base, orders, |block|), base))
  {
    var total := TotalMarginal(g, clock, coalition, base, orders, |block|);
    if orders == [] {
      SumByScale(block, total, 0.0, total);
    } else {
      var last := |orders| - 1;
      var here := StartOf(clock, last, |block|);
      var before := TotalMarginal(g, clock, coalition, base, orders[..last], |block|);
      var now := MarginalIn(g, here, coalition, base, orders[last]);
      OrdersEfficiency(g, clock, coalition, base, orders[..last], block);
      OrderEfficiency(g, here, coalition, base, orders[last], block);
      RisesAppend(Ends(g, clock, coalition, base, orders[..last], |block|),
                  EndLevel(g, here, coalition, base, orders[last]), base);
      forall x | x in block ensures total(x) == before(x) + now(x) {
        TotalMarginalAppend(g, clock, coalition, base, orders, block, x);
      }
      SumByAdd(block, before, now, total);
    }
  }

  lemma MeanOfShifted(total: real, k: real, base: real)
    requires k > 0.0
    ensures (total - k * base) / k == total / k - base
  {
  }

  lemma MeanAdds(a: real, b: real, k: real)
    requires k > 0.0
    ensures (a + b) / k == a / k + b / k
  {
  }

  // ---- blocks ---------------------------------------------------------------------------------------------

  function BlockEnds(g: Game, w: Walk, block: seq<nat>): (r: seq<real>)
    ensures r != []
  {
    Ends(g, w.clock, w.coalition, w.base, Permutations(block), |block|)
  }

  /** How far the average over a block's join orders ends from the last of them. */
  function Gap(g: Game, w: Walk, block: seq<nat>): real {
    Mean(BlockEnds(g, w, block)) - BlockEnd(g, w.clock, w.coalition, w.base, block)
  }

  function Credit(w: Walk): nat -> real {
    (x: nat) => if x in w.samples then w.samples[x].marginal else 0.0
  }

  lemma CreditIsMean(g: Game, w: Walk, block: seq<nat>, x: nat)
    requires x in block
    ensures var total := TotalMarginal(g, w.clock, w.coalition, w.base, Permutations(block), |block|);
            Credit(AfterBlock(g, w, block))(x) == total(x) / |Permutations(block)| as real
  {
    InEveryOrder(block);
    assert Credit(AfterBlock(g, w, block))(x) == BlockMarginal(g, w.clock, w.coalition, w.base, block, x);
  }

  lemma {:induction false} SumByDivided(s: seq<nat>, f: nat -> real, k: nat, h: nat -> real)
    requires k > 0 && forall x :: x in s ==> h(x) == f(x) / k as real
    ensures SumBy(s, h) == SumBy(s, f) / k as real
  {
    if s != [] {
      SumByDivided(s[1..], f, k, h);
      MeanAdds(f(s[0]), SumBy(s[1..], f), k as real);
    }
  }

  lemma BlockEfficiency(g: Game, w: Walk, block: seq<nat>)
    requires Distinct(block)
    ensures SumBy(block, Credit(AfterBlock(g, w, block)))
         == Mean(BlockEnds(g, w, block)) - w.base
  {
    var orders := Permutations(block);
    var total := TotalMarginal(g, w.clock, w.coalition, w.base, orders, |block|);
    PermutationsPermute(block);
    OrdersEfficiency(g, w.clock, w.coalition, w.base, orders, block);
    MeanOfRises(BlockEnds(g, w, block), w.base);
    forall x | x in block
      ensures Credit(AfterBlock(g, w, block))(x) == total(x) / |orders| as real
    {
      CreditIsMean(g, w, block, x);
    }
    SumByDivided(block, total, |orders|, Credit(AfterBlock(g, w, block)));
  }

  function GapTotal(g: Game, clock: nat, blocks: seq<seq<nat>>): real {
    if blocks == [] then 0.0
    else
      var before := blocks[..|blocks| - 1];
      GapTotal(g, clock, before) + Gap(g, WalkBlocks(g, clock, before), blocks[|blocks| - 1])
  }

  lemma FlattenDistinct(blocks: seq<seq<nat>>)
    requires blocks != []
    ensures var last := |blocks| - 1;
            Distinct(Flatten(blocks)) ==>
            && Distinct(Flatten(blocks[..last])) && Distinct(blocks[last])
            && forall x :: x in Flatten(blocks[..last]) ==> x !in blocks[last]
  {
    DistinctAppend(Flatten(blocks[..|blocks| - 1]), blocks[|blocks| - 1]);
  }

  /** One repeat: the credits add up to the final value plus the gaps, for every noisy game. */
  lemma {:induction false} RepeatEfficiency(g: Game, clock: nat, blocks: seq<seq<nat>>)
    requires Distinct(Flatten(blocks))
    ensures SumBy(Flatten(blocks), Credit(WalkBlocks(g, clock, blocks)))
         == WalkBlocks(g, clock, blocks).base + GapTotal(g, clock, blocks)
  {
    if blocks != [] {
      var before, block := blocks[..|blocks| - 1], blocks[|blocks| - 1];
      FlattenDistinct(blocks);
      RepeatEfficiency(g, clock, before);
      var w := WalkBlocks(g, clock, before);
      var credit := Credit(AfterBlock(g, w, block));
      BlockEfficiency(g, w, block);
      SumByAppend(Flatten(before), block, credit);
      SumByEqual(Flatten(before), credit, Credit(w));
    }
  }

  // ---- the whole run --------------------------------------------------------------------------------------

  function CreditsOf(walks: seq<Walk>, x: nat): (r: seq<real>)
    ensures |r| == |walks|
  {
    seq(|walks|, i requires 0 <= i < |walks| => Credit(walks[i])(x))
  }

  /** `shapley_value`: the mean of a step's marginal samples. */
  function ShapleyValue(walks: seq<Walk>): nat -> real {
    (x: nat) => if walks == [] then 0.0 else Mean(CreditsOf(walks, x))
  }

  function FinalBases(walks: seq<Walk>): (r: seq<real>)
    ensures |r| == |walks|
  {
    seq(|walks|, i requires 0 <= i < |walks| => walks[i].base)
  }

  function StartClock(g: Game, blocks: seq<seq<nat>>, i: nat): nat {
    if i == 0 then 0 else Repeats(g, blocks, i)[i - 1].clock
  }

  lemma {:induction false} RepeatsAt(g: Game, blocks: seq<seq<nat>>, m: nat, i: nat)
    requires i < m
    ensures Repeats(g, blocks, m)[i] == WalkBlocks(g, StartClock(g, blocks, i), blocks)
  {
    if i < m - 1 {
      RepeatsAt(g, blocks, m - 1, i);
    }
  }

  function Gaps(g: Game, blocks: seq<seq<nat>>, m: nat): (r: seq<real>)
    ensures |r| == m
  {
    seq(m, i requires 0 <= i < m => GapTotal(g, StartClock(g, blocks, i), blocks))
  }

  lemma {:induction false} SumOfMeans(steps: seq<nat>, walks: seq<Walk>, totals: seq<real>)
    requires walks != [] && |totals| == |walks|
    requires forall i :: 0 <= i < |walks| ==> totals[i] == SumBy(steps, Credit(walks[i]))
    ensures SumBy(steps, ShapleyValue(walks)) == Mean(totals)
  {
    if steps == [] {
      AllZero(totals);
    } else {
      var heads := CreditsOf(walks, steps[0]);
      var rest := seq(|walks|, i requires 0 <= i < |walks| => SumBy(steps[1..], Credit(walks[i])));
      SumOfMeans(steps[1..], walks, rest);
      SumAdds(heads, rest, totals);
      MeanAdds(Sum(heads), Sum(rest), |walks| as real);
    }
  }

  lemma {:induction false} AllZero(s: seq<real>)
    requires forall i :: 0 <= i < |s| ==> s[i] == 0.0
    ensures Sum(s) == 0.0
  {
    if s != [] {
      AllZero(s[..|s| - 1]);
    }
  }

  lemma {:induction false} SumAdds(a: seq<real>, b: seq<real>, c: seq<real>)
    requires |a| == |b| == |c| && forall i :: 0 <= i < |a| ==> c[i] == a[i] + b[i]
    ensures Sum(c) == Sum(a) + Sum(b)
  {
    if c != [] {
      var last := |c| - 1;
      SumAdds(a[..last], b[..last], c[..last]);
    }
  }

  function UpTo(n: nat): (r: seq<nat>)
    ensures |r| == n && forall i :: 0 <= i < n ==> r[i] == i
  {
    seq(n, i requires 0 <= i < n => i)
  }

  function FirstSteps(n: nat): (s: set<nat>)
    ensures forall x: nat :: x in s <==> x < n
  {
    InUpTo(n);
    Members(UpTo(n))
  }

  lemma InUpTo(n: nat)
    ensures forall x: nat :: x in UpTo(n) <==> x < n
  {
    forall x: nat | x < n ensures x in UpTo(n) {
      assert UpTo(n)[x] == x;
    }
  }

  lemma PartitionPermutesSteps(n: nat, blocks: seq<seq<nat>>)
    requires Partition(n, blocks)
    ensures multiset(UpTo(n)) == multiset(Flatten(blocks))
  {
    InUpTo(n);
    SameMembersPermuted(UpTo(n), Flatten(blocks));
  }

  lemma MeanOfSums(a: seq<real>, b: seq<real>, c: seq<real>)
    requires c != [] && |a| == |b| == |c| && forall i :: 0 <= i < |a| ==> c[i] == a[i] + b[i]
    ensures Mean(c) == Mean(a) + Mean(b)
  {
    SumAdds(a, b, c);
    MeanAdds(Sum(a), Sum(b), |c| as real);
  }

  lemma RepeatTotals(g: Game, blocks: seq<seq<nat>>, m: nat, totals: seq<real>)
    requires Distinct(Flatten(blocks)) && |totals| == m
    requires forall i :: 0 <= i < m ==> totals[i] == SumBy(Flatten(blocks), Credit(Repeats(g, blocks, m)[i]))
    ensures forall i :: 0 <= i < m ==>
              totals[i] == FinalBases(Repeats(g, blocks, m))[i] + Gaps(g, blocks, m)[i]
  {
    forall i | 0 <= i < m
      ensures totals[i] == FinalBases(Repeats(g, blocks, m))[i] + Gaps(g, blocks, m)[i]
    {
      RepeatsAt(g, blocks, m, i);
      RepeatEfficiency(g, StartClock(g, blocks, i), blocks);
    }
  }

  /** The efficiency identity, for every noisy game with UNDEFINED estimates and every batching. */
  lemma EfficiencyIdentity(g: Game, n: nat, blocks: seq<seq<nat>>, m: nat)
    requires Partition(n, blocks) && m > 0
    ensures var walks := Repeats(g, blocks, m);
            SumBy(UpTo(n), ShapleyValue(walks)) == Mean(FinalBases(walks)) + Mean(Gaps(g, blocks, m))
  {
    var walks := Repeats(g, blocks, m);
    var steps := Flatten(blocks);
    var totals := seq(m, i requires 0 <= i < m => SumBy(steps, Credit(walks[i])));
    SumOfMeans(steps, walks, totals);
    PartitionPermutesSteps(n, blocks);
    SumByPermuted(UpTo(n), steps, ShapleyValue(walks));
    RepeatTotals(g, blocks, m, totals);
    MeanOfSums(FinalBases(walks), Gaps(g, blocks, m), totals);
  }

  // ---- when there is no gap -------------------------------------------------------------------------------

  /** The estimate of the whole coalition a block completes is the same value every time. */
  ghost predicate Steady(g: Game, coalition: set<nat>) {
    exists v: real :: SteadyAt(g, coalition, v)
  }

  ghost predicate SteadyAt(g: Game, coalition: set<nat>, v: real) {
    forall clock: nat :: g(clock, coalition) == Some(v)
  }

  /** Every multi-member block completes a coalition with a steady, defined estimate. */
  ghost predicate SteadyBlocks(g: Game, blocks: seq<seq<nat>>) {
    forall i :: 0 <= i < |blocks| && |blocks[i]| > 1 ==> Steady(g, Members(Flatten(blocks[..i + 1])))
  }

  lemma {:induction false} SteadyEnds(
    g: Game, clock: nat, coalition: set<nat>, base: real, orders: seq<seq<nat>>, block: seq<nat>, v: real)
    requires block != [] && AllPermute(orders, block)
    requires forall c: nat :: g(c, coalition + Members(block)) == Some(v)
    ensures forall i :: 0 <= i < |orders| ==> Ends(g, clock, coalition, base, orders, |block|)[i] == v
  {
    if orders != [] {
      var last := |orders| - 1;
      SteadyEnds(g, clock, coalition, base, orders[..last], block, v);
      SteadyEnd(g, StartOf(clock, last, |block|), coalition, base, orders[last], block, v);
    }
  }

  lemma SteadyEnd(g: Game, clock: nat, coalition: set<nat>, base: real, order: seq<nat>, block: seq<nat>, v: real)
    requires block != [] && Permutes(order, block)
    requires forall c: nat :: g(c, coalition + Members(block)) == Some(v)
    ensures EndLevel(g, clock, coalition, base, order) == v
  {
    assert |multiset(order)| == |order| && |multiset(block)| == |block|;
    assert order[..|order|] == order;
    assert Members(order) == Members(block) by {
      assert forall x :: x in order <==> x in multiset(order);
      assert forall x :: x in block <==> x in multiset(block);
    }
    assert g(clock + |order| - 1, coalition + Members(order[..|order|])) == Some(v);
  }

  lemma {:induction false} ConstantSum(s: seq<real>, v: real)
    requires forall i :: 0 <= i < |s| ==> s[i] == v
    ensures Sum(s) == |s| as real * v
  {
    if s != [] {
      ConstantSum(s[..|s| - 1], v);
    }
  }

  lemma MeanOfConstant(s: seq<real>, v: real)
    requires s != [] && forall i :: 0 <= i < |s| ==> s[i] == v
    ensures Mean(s) == v
  {
    ConstantSum(s, v);
    var k := |s| as real;
    assert k * v / k == v;
  }

  lemma NoGap(g: Game, w: Walk, block: seq<nat>)
    requires block != []
    requires |block| > 1 ==> Steady(g, w.coalition + Members(block))
    ensures Gap(g, w, block) == 0.0
  {
    var orders := Permutations(block);
    var ends := BlockEnds(g, w, block);
    var end := BlockEnd(g, w.clock, w.coalition, w.base, block);
    assert ends[|orders| - 1] == end;
    if |block| > 1 {
      var v: real :| SteadyAt(g, w.coalition + Members(block), v);
      PermutationsPermute(block);
      SteadyEnds(g, w.clock, w.coalition, w.base, orders, block, v);
    } else {
      PermutationsCount(block);
      assert Factorial(1) == 1;
    }
    MeanOfConstant(ends, end);
  }

  lemma {:induction false} NoGaps(g: Game, clock: nat, blocks: seq<seq<nat>>)
    requires (forall b :: b in blocks ==> b != []) && SteadyBlocks(g, blocks)
    ensures GapTotal(g, clock, blocks) == 0.0
  {
    if blocks != [] {
      var last := |blocks| - 1;
      var before := blocks[..last];
      forall i | 0 <= i < last && |before[i]| > 1
        ensures Steady(g, Members(Flatten(before[..i + 1])))
      {
        assert before[..i + 1] == blocks[..i + 1];
      }
      assert forall b :: b in before ==> b in blocks;
      NoGaps(g, clock, before);
      Sampled(g, clock, before);
      assert blocks[..last + 1] == blocks;
      assert Members(Flatten(blocks)) == Members(Flatten(before)) + Members(blocks[last]);
      assert blocks[last] in blocks;
      NoGap(g, WalkBlocks(g, clock, before), blocks[last]);
    }
  }

  /** Efficiency: with singleton blocks, whatever the noise and the UNDEFINED estimates, and with
      multi-member blocks whose union has a steady, defined rate, the credits add up to the mean over
      repeats of the walk's final value. */
  lemma Efficiency(g: Game, n: nat, blocks: seq<seq<nat>>, m: nat)
    requires Partition(n, blocks) && m > 0 && SteadyBlocks(g, blocks)
    ensures var walks := Repeats(g, blocks, m);
            SumBy(UpTo(n), ShapleyValue(walks)) == Mean(FinalBases(walks))
  {
    EfficiencyIdentity(g, n, blocks, m);
    MeanGapIsZero(g, blocks, m);
  }

  lemma MeanGapIsZero(g: Game, blocks: seq<seq<nat>>, m: nat)
    requires (forall b :: b in blocks ==> b != []) && SteadyBlocks(g, blocks) && m > 0
    ensures Mean(Gaps(g, blocks, m)) == 0.0
  {
    forall i | 0 <= i < m ensures Gaps(g, blocks, m)[i] == 0.0 {
      NoGaps(g, StartClock(g, blocks, i), blocks);
    }
    MeanOfConstant(Gaps(g, blocks, m), 0.0);
  }

  // ---- the full coalition's own value ---------------------------------------------------------------------

  /** The last estimate a walk makes, that of its whole coalition; no intervention at all is 0 by definition. */
  function FullEstimate(g: Game, w: Walk): Option<real> {
    if w.coalition == {} || w.clock == 0 then Some(0.0) else g(w.clock - 1, w.coalition)
  }

  function FullEstimates(g: Game, walks: seq<Walk>): (r: seq<real>)
    ensures |r| == |walks|
  {
    seq(|walks|, i requires 0 <= i < |walks| => Held(FullEstimate(g, walks[i]), 0.0))
  }

  /** Where a walk stands before the last member of a block joins. */
  function BeforeLast(g: Game, clock: nat, coalition: set<nat>, base: real, block: seq<nat>): real
    requires block != []
  {
    InEveryOrder(block);
    var orders := Permutations(block);
    var last := |orders| - 1;
    Level(g, StartOf(clock, last, |block|), coalition, base, orders[last], |block| - 1)
  }

  lemma OrderEnd(g: Game, clock: nat, coalition: set<nat>, base: real, order: seq<nat>)
    requires order != []
    ensures EndLevel(g, clock, coalition, base, order)
         == Held(g(clock + |order| - 1, coalition + Members(order)), Level(g, clock, coalition, base, order, |order| - 1))
  {
    assert order[..|order|] == order;
  }

  lemma LastOrder(block: seq<nat>) returns (order: seq<nat>)
    ensures order == Permutations(block)[|Permutations(block)| - 1]
    ensures |order| == |block| && Members(order) == Members(block)
  {
    InEveryOrder(block);
    order := Permutations(block)[|Permutations(block)| - 1];
    assert order in Permutations(block);
  }

  lemma LastEnd(g: Game, clock: nat, i: nat, coalition: set<nat>, base: real, block: seq<nat>, order: seq<nat>)
    requires block != [] && |order| == |block| && Members(order) == Members(block)
    ensures var end := StartOf(clock, i + 1, |block|);
            && end > 0
            && EndLevel(g, StartOf(clock, i, |block|), coalition, base, order)
               == Held(g(end - 1, coalition + Members(block)),
                       Level(g, StartOf(clock, i, |block|), coalition, base, order, |block| - 1))
  {
    OrderEnd(g, StartOf(clock, i, |block|), coalition, base, order);
  }

  lemma BlockEndIsHeld(g: Game, clock: nat, coalition: set<nat>, base: real, block: seq<nat>)
    requires block != []
    ensures var end := StartOf(clock, |Permutations(block)|, |block|);
            && end > 0
            && BlockEnd(g, clock, coalition, base, block)
               == Held(g(end - 1, coalition + Members(block)), BeforeLast(g, clock, coalition, base, block))
  {
    var order := LastOrder(block);
    LastEnd(g, clock, |Permutations(block)| - 1, coalition, base, block, order);
  }

  lemma AfterBlockIsHeld(g: Game, w: Walk, block: seq<nat>)
    requires block != []
    ensures var after := AfterBlock(g, w, block);
            && after.clock > 0
            && after.base == Held(FullEstimate(g, after), BeforeLast(g, w.clock, w.coalition, w.base, block))
  {
    BlockEndIsHeld(g, w.clock, w.coalition, w.base, block);
    assert block[0] in w.coalition + Members(block);
  }

  /** A walk's final value is the full coalition's own estimate where that is defined, and what the walk held before
      its last step joined where it is not. */
  lemma FinalBase(g: Game, clock: nat, blocks: seq<seq<nat>>, before: Walk)
    requires blocks != [] && blocks[|blocks| - 1] != []
    requires before == WalkBlocks(g, clock, blocks[..|blocks| - 1])
    ensures var w, last := WalkBlocks(g, clock, blocks), blocks[|blocks| - 1];
            && w.clock > 0
            && w.base == Held(FullEstimate(g, w), BeforeLast(g, before.clock, before.coalition, before.base, last))
  {
    AfterBlockIsHeld(g, before, blocks[|blocks| - 1]);
  }

  /** The efficiency axiom: with steady multi-member blocks the credits add up to the full coalition's value, meaned
      over repeats, when every repeat's own estimate of it is defined. */
  lemma FullEfficiency(g: Game, n: nat, blocks: seq<seq<nat>>, m: nat)
    requires Partition(n, blocks) && m > 0 && SteadyBlocks(g, blocks)
    requires forall i :: 0 <= i < m ==> FullEstimate(g, Repeats(g, blocks, m)[i]).Some?
    ensures var walks := Repeats(g, blocks, m);
            SumBy(UpTo(n), ShapleyValue(walks)) == Mean(FullEstimates(g, walks))
  {
    var walks := Repeats(g, blocks, m);
    Efficiency(g, n, blocks, m);
    forall i | 0 <= i < m ensures FinalBases(walks)[i] == FullEstimates(g, walks)[i] {
      RepeatsAt(g, blocks, m, i);
      Sampled(g, StartClock(g, blocks, i), blocks);
      if blocks != [] {
        assert blocks[|blocks| - 1] in blocks;
        var start := StartClock(g, blocks, i);
        FinalBase(g, start, blocks, WalkBlocks(g, start, blocks[..|blocks| - 1]));
      }
    }
    assert FinalBases(walks) == FullEstimates(g, walks);
  }

  lemma OneOrder(x: nat)
    ensures Permutations([x]) == [[x]]
  {
    var s: seq<nat> := [x];
    assert s[1..] == [] && Without(s, x) == [];
    assert Permutations([]) == [[]];
    assert PermutationsFrom(s, s) == Prepend(x, [[]]) + PermutationsFrom(s, []);
    assert Prepend(x, [[]])[0] == [x] + [] == [x];
    assert Prepend(x, [[]]) == [[x]];
  }
}
