/** Efficiency under noise. With singleton blocks it holds for every game; as soon as some block has two members
    there is a noisy game for which it fails. */
module ShapleyNoise {
  import opened Seqs
  import opened ShapleyWalk
  import opened ShapleyEfficiency
  import opened ShapleyRank
  import Budget

  /** The values of a run add up to the mean of its final rates. */
  ghost predicate Efficient(g: Game, n: nat, blocks: seq<seq<nat>>, m: nat)
    requires m > 0
  {
    SumBy(UpTo(n), ShapleyValue(Repeats(g, blocks, m))) == Mean(FinalBases(Repeats(g, blocks, m)))
  }

  function OneAt(here: bool): real {
    if here then 1.0 else 0.0
  }

  /** The rate of coalition `u` is 1 when it is the `t`-th estimate, and every other estimate is 0. */
  ghost predicate Flickers(g: Game, t: nat, u: set<nat>) {
    forall clock: nat, s: set<nat> :: g(clock, s) == Some(OneAt(clock == t && s == u))
  }

  /** Trials that make it so: all flip in that one estimate, and none elsewhere. */
  function Flash(t: nat, u: set<nat>): Trials {
    (clock: nat, i: nat, s: set<nat>) => if clock == t && s == u then Flip else NoFlip
  }

  lemma {:induction false} FlashTally(t: nat, u: set<nat>, clock: nat, s: set<nat>, k: nat)
    ensures TallyOf(Flash(t, u), clock, s, k) == if clock == t && s == u then Tally(k, 0, 0, 0) else Tally(0, k, 0, 0)
  {
    if k > 0 {
      FlashTally(t, u, clock, s, k - 1);
    }
  }

  lemma FlashFlickers(t: nat, u: set<nat>, k: nat)
    requires k > 0
    ensures Flickers(GameOf(Flash(t, u), k), t, u)
  {
    forall clock: nat, s: set<nat> ensures GameOf(Flash(t, u), k)(clock, s) == Some(OneAt(clock == t && s == u)) {
      FlashTally(t, u, clock, s, k);
      SureRates(k);
    }
  }

  lemma SureRates(k: nat)
    requires k > 0
    ensures Tally(k, 0, 0, 0).Rate() == Some(1.0) && Tally(0, k, 0, 0).Rate() == Some(0.0)
  {
    Quotients(k as real);
  }

  lemma Quotients(x: real)
    requires x > 0.0
    ensures x / x == 1.0 && 0.0 / x == 0.0
  {
  }

  // ---- where the join orders of the flickering block end --------------------------------------------------

  lemma FlickerEnd(
    g: Game, t: nat, u: set<nat>, clock: nat, coalition: set<nat>, base: real, order: seq<nat>, block: seq<nat>)
    requires Flickers(g, t, u)
    requires block != [] && Permutes(order, block) && coalition + Members(block) == u
    ensures EndLevel(g, clock, coalition, base, order) == OneAt(clock + |block| - 1 == t)
  {
    assert |multiset(order)| == |order| && |multiset(block)| == |block|;
    assert order[..|order|] == order;
    assert Members(order) == Members(block) by {
      assert forall x :: x in order <==> x in multiset(order);
      assert forall x :: x in block <==> x in multiset(block);
    }
  }

  lemma {:induction false} FlickerEnds(
    g: Game, t: nat, u: set<nat>, clock: nat, coalition: set<nat>, base: real, orders: seq<seq<nat>>, block: seq<nat>,
    i: nat)
    requires Flickers(g, t, u)
    requires block != [] && AllPermute(orders, block) && coalition + Members(block) == u && i < |orders|
    ensures Ends(g, clock, coalition, base, orders, |block|)[i]
         == OneAt(StartOf(clock, i, |block|) + |block| - 1 == t)
  {
    var last := |orders| - 1;
    if i < last {
      FlickerEnds(g, t, u, clock, coalition, base, orders[..last], block, i);
    } else {
      assert Permutes(orders[last], block);
      FlickerEnd(g, t, u, StartOf(clock, last, |block|), coalition, base, orders[last], block);
    }
  }

  lemma {:induction false} StartsApart(clock: nat, i: nat, width: nat)
    requires width > 0
    ensures StartOf(clock, i, width) >= clock + i
  {
    if i > 0 {
      StartsApart(clock, i - 1, width);
    }
  }

  lemma {:induction false} SumOfFirst(s: seq<real>)
    requires s != [] && forall i :: 0 < i < |s| ==> s[i] == 0.0
    ensures Sum(s) == s[0]
  {
    var last := |s| - 1;
    if last > 0 {
      SumOfFirst(s[..last]);
    } else {
      assert s[..0] == [];
    }
  }

  lemma MeanOfFirst(s: seq<real>)
    requires s != [] && forall i :: 0 < i < |s| ==> s[i] == 0.0
    ensures Mean(s) == 0.0 <==> s[0] == 0.0
  {
    SumOfFirst(s);
    var k := |s| as real;
    assert s[0] / k * k == s[0];
  }

  /** Met in its first join order, the flicker raises the average but not the last end. */
  lemma FlickerGap(g: Game, t: nat, u: set<nat>, w: Walk, block: seq<nat>)
    requires Flickers(g, t, u) && |block| > 1 && w.coalition + Members(block) == u && w.clock + |block| - 1 == t
    ensures Gap(g, w, block) != 0.0
  {
    var orders := Permutations(block);
    var ends := BlockEnds(g, w, block);
    PermutationsPermute(block);
    forall i | 0 <= i < |orders| ensures ends[i] == OneAt(i == 0) {
      FlickerEnds(g, t, u, w.clock, w.coalition, w.base, orders, block, i);
      StartsApart(w.clock, i, |block|);
    }
    ManyOrders(block);
    MeanOfFirst(ends);
    assert ends[|orders| - 1] == BlockEnd(g, w.clock, w.coalition, w.base, block);
  }

  lemma ManyOrders(block: seq<nat>)
    requires |block| > 1
    ensures |Permutations(block)| > 1
  {
    PermutationsCount(block);
    FactorialGrows(|block|);
  }

  lemma {:induction false} FactorialGrows(b: nat)
    requires b > 1
    ensures Factorial(b) > 1
  {
    assert Factorial(b) == b * Factorial(b - 1);
    Budget.ProdIsProduct(b, Factorial(b - 1));
    assert b * Factorial(b - 1) >= b * 1;
  }

  /** After the flicker the block is steady. */
  lemma QuietGap(g: Game, t: nat, u: set<nat>, w: Walk, block: seq<nat>)
    requires Flickers(g, t, u) && block != [] && w.coalition + Members(block) == u && w.clock > t
    ensures Gap(g, w, block) == 0.0
  {
    var orders := Permutations(block);
    var ends := BlockEnds(g, w, block);
    PermutationsPermute(block);
    forall i | 0 <= i < |orders| ensures ends[i] == 0.0 {
      FlickerEnds(g, t, u, w.clock, w.coalition, w.base, orders, block, i);
      StartsApart(w.clock, i, |block|);
    }
    MeanOfConstant(ends, 0.0);
    assert ends[|orders| - 1] == BlockEnd(g, w.clock, w.coalition, w.base, block);
  }

  // ---- the other blocks -----------------------------------------------------------------------------------

  /** What the first `i` blocks complete. */
  function Completed(blocks: seq<seq<nat>>, i: nat): set<nat>
    requires i <= |blocks|
  {
    Members(Flatten(blocks[..i]))
  }

  lemma {:induction false} CompletedGrows(blocks: seq<seq<nat>>, i: nat, j: nat)
    requires i <= j <= |blocks|
    ensures Completed(blocks, i) <= Completed(blocks, j)
    decreases j - i
  {
    if i < j {
      CompletedGrows(blocks, i, j - 1);
      assert blocks[..j][..j - 1] == blocks[..j - 1];
      assert Flatten(blocks[..j]) == Flatten(blocks[..j - 1]) + blocks[j - 1];
    }
  }

  /** Different blocks complete different coalitions. */
  lemma CompletedDiffer(blocks: seq<seq<nat>>, i: nat, j: nat)
    requires Distinct(Flatten(blocks)) && (forall b :: b in blocks ==> b != []) && i < j < |blocks|
    ensures Completed(blocks, i + 1) != Completed(blocks, j + 1)
  {
    assert blocks[j] in blocks;
    CompletedGrows(blocks, i + 1, j);
    NewInBlock(blocks, j, blocks[j][0]);
  }

  lemma NewInBlock(blocks: seq<seq<nat>>, j: nat, x: nat)
    requires j < |blocks| && x in blocks[j]
    ensures Distinct(Flatten(blocks)) ==> x in Completed(blocks, j + 1) && x !in Completed(blocks, j)
  {
    DistinctPrefix(blocks, j + 1);
    FlattenDistinct(blocks[..j + 1]);
    assert blocks[..j + 1][..j] == blocks[..j];
    assert Flatten(blocks[..j + 1]) == Flatten(blocks[..j]) + blocks[j];
  }

  lemma {:induction false} FlattenPrefix(blocks: seq<seq<nat>>, i: nat)
    requires i <= |blocks|
    ensures Flatten(blocks[..i]) <= Flatten(blocks)
  {
    if i < |blocks| {
      var last := |blocks| - 1;
      FlattenPrefix(blocks[..last], i);
      assert blocks[..last][..i] == blocks[..i];
    } else {
      assert blocks[..i] == blocks;
    }
  }

  lemma DistinctPrefix(blocks: seq<seq<nat>>, i: nat)
    requires i <= |blocks|
    ensures Distinct(Flatten(blocks)) ==> Distinct(Flatten(blocks[..i]))
  {
    FlattenPrefix(blocks, i);
  }

  lemma FlickersOnlyAt(g: Game, t: nat, u: set<nat>, s: set<nat>)
    requires Flickers(g, t, u) && s != u
    ensures Steady(g, s)
  {
    assert SteadyAt(g, s, 0.0);
  }

  /** The gap of block `i` in a repeat. */
  function GapAt(g: Game, clock: nat, blocks: seq<seq<nat>>, i: nat): real
    requires i < |blocks|
  {
    Gap(g, WalkBlocks(g, clock, blocks[..i]), blocks[i])
  }

  lemma OneMoreGap(g: Game, clock: nat, blocks: seq<seq<nat>>, i: nat)
    requires i < |blocks|
    ensures GapTotal(g, clock, blocks[..i + 1]) == GapTotal(g, clock, blocks[..i]) + GapAt(g, clock, blocks, i)
  {
    assert blocks[..i + 1][..i] == blocks[..i];
  }

  /** Where the other blocks have none, the gap of a whole repeat is that of block `j`. */
  lemma {:induction false} OnlyGap(g: Game, clock: nat, blocks: seq<seq<nat>>, j: nat, i: nat)
    requires j < |blocks| && i <= |blocks|
    requires forall l :: 0 <= l < |blocks| && l != j ==> GapAt(g, clock, blocks, l) == 0.0
    ensures GapTotal(g, clock, blocks[..i]) == if i <= j then 0.0 else GapAt(g, clock, blocks, j)
  {
    if i > 0 {
      OnlyGap(g, clock, blocks, j, i - 1);
      OneMoreGap(g, clock, blocks, i - 1);
    }
  }

  lemma OtherGap(g: Game, t: nat, blocks: seq<seq<nat>>, j: nat, clock: nat, i: nat)
    requires Distinct(Flatten(blocks)) && (forall b :: b in blocks ==> b != [])
    requires j < |blocks| && i < |blocks| && i != j && Flickers(g, t, Completed(blocks, j + 1))
    ensures GapAt(g, clock, blocks, i) == 0.0
  {
    if i < j {
      CompletedDiffer(blocks, i, j);
    } else {
      CompletedDiffer(blocks, j, i);
    }
    assert blocks[i] in blocks;
    Joined(g, clock, blocks, i);
    FlickersOnlyAt(g, t, Completed(blocks, j + 1), Completed(blocks, i + 1));
    NoGap(g, WalkBlocks(g, clock, blocks[..i]), blocks[i]);
  }

  lemma Joined(g: Game, clock: nat, blocks: seq<seq<nat>>, i: nat)
    requires i < |blocks|
    ensures WalkBlocks(g, clock, blocks[..i]).coalition + Members(blocks[i]) == Completed(blocks, i + 1)
  {
    Sampled(g, clock, blocks[..i]);
    assert blocks[..i + 1][..i] == blocks[..i];
    assert Flatten(blocks[..i + 1]) == Flatten(blocks[..i]) + blocks[i];
  }

  // ---- the whole run --------------------------------------------------------------------------------------

  /** When the first join order of block `j` ends in the first repeat. */
  function FirstEnd(blocks: seq<seq<nat>>, j: nat): nat
    requires j < |blocks| && blocks[j] != []
  {
    Budget.Evaluations(blocks[..j]) + |blocks[j]| - 1
  }

  lemma {:induction false} EvaluationsAfter(blocks: seq<seq<nat>>, j: nat)
    requires j < |blocks| && blocks[j] != []
    ensures Budget.Evaluations(blocks) > FirstEnd(blocks, j)
  {
    var last := |blocks| - 1;
    var b := blocks[last];
    assert Budget.Evaluations(blocks) == Budget.Evaluations(blocks[..last]) + Budget.Prod(Factorial(|b|), |b|);
    if j < last {
      EvaluationsAfter(blocks[..last], j);
      assert blocks[..last][..j] == blocks[..j];
    } else {
      Budget.ProdGrows(1, Factorial(|b|), |b|);
      assert Budget.Prod(1, |b|) == Budget.Prod(0, |b|) + |b|;
    }
  }

  /** A block of two or more makes the first repeat's gap non-zero, and the later repeats have none. */
  lemma RepeatGap(g: Game, blocks: seq<seq<nat>>, j: nat, i: nat)
    requires Distinct(Flatten(blocks)) && (forall b :: b in blocks ==> b != []) && j < |blocks| && |blocks[j]| > 1
    requires Flickers(g, FirstEnd(blocks, j), Completed(blocks, j + 1))
    ensures GapTotal(g, StartClock(g, blocks, i), blocks) == 0.0 <==> i > 0
  {
    var clock := StartClock(g, blocks, i);
    forall l | 0 <= l < |blocks| && l != j ensures GapAt(g, clock, blocks, l) == 0.0 {
      OtherGap(g, FirstEnd(blocks, j), blocks, j, clock, l);
    }
    OnlyGap(g, clock, blocks, j, |blocks|);
    assert blocks[..|blocks|] == blocks;
    ItsGap(g, blocks, j, i);
  }

  lemma ItsGap(g: Game, blocks: seq<seq<nat>>, j: nat, i: nat)
    requires j < |blocks| && |blocks[j]| > 1 && Flickers(g, FirstEnd(blocks, j), Completed(blocks, j + 1))
    ensures GapAt(g, StartClock(g, blocks, i), blocks, j) == 0.0 <==> i > 0
  {
    var t, u, clock := FirstEnd(blocks, j), Completed(blocks, j + 1), StartClock(g, blocks, i);
    var w := WalkBlocks(g, clock, blocks[..j]);
    Joined(g, clock, blocks, j);
    Budget.WalkClock(g, clock, blocks[..j]);
    Budget.RunClock(g, blocks, i);
    if i == 0 {
      FlickerGap(g, t, u, w, blocks[j]);
    } else {
      EvaluationsAfter(blocks, j);
      Budget.ProdGrows(1, i, Budget.Evaluations(blocks));
      var each := Budget.Evaluations(blocks);
      assert Budget.Prod(1, each) == Budget.Prod(0, each) + each;
      QuietGap(g, t, u, w, blocks[j]);
    }
  }

  /** The members of a block of two or more, at a flickering rate, are credited what the walk does not end with. */
  lemma RacingStepsBreakIt(n: nat, blocks: seq<seq<nat>>, k: nat, m: nat, j: nat)
    requires Partition(n, blocks) && k > 0 && m > 0 && j < |blocks| && |blocks[j]| > 1
    ensures !Efficient(GameOf(Flash(FirstEnd(blocks, j), Completed(blocks, j + 1)), k), n, blocks, m)
  {
    var g := GameOf(Flash(FirstEnd(blocks, j), Completed(blocks, j + 1)), k);
    FlashFlickers(FirstEnd(blocks, j), Completed(blocks, j + 1), k);
    EfficiencyIdentity(g, n, blocks, m);
    var gaps := Gaps(g, blocks, m);
    forall i | 0 <= i < m ensures gaps[i] == 0.0 <==> i > 0 {
      RepeatGap(g, blocks, j, i);
    }
    MeanOfFirst(gaps);
  }

  // ---- no trials -------------------------------------------------------------------------------------------

  ghost predicate NeverDefined(g: Game) {
    forall clock: nat, s: set<nat> :: g(clock, s) == None
  }

  lemma {:induction false} LevelIsHeld(g: Game, clock: nat, coalition: set<nat>, base: real, order: seq<nat>, p: nat)
    requires NeverDefined(g) && p <= |order|
    ensures Level(g, clock, coalition, base, order, p) == base
  {
    if p > 0 {
      LevelIsHeld(g, clock, coalition, base, order, p - 1);
    }
  }

  lemma {:induction false} EndsAreHeld(
    g: Game, clock: nat, coalition: set<nat>, base: real, orders: seq<seq<nat>>, width: nat)
    requires NeverDefined(g)
    ensures forall i :: 0 <= i < |orders| ==> Ends(g, clock, coalition, base, orders, width)[i] == base
  {
    if orders != [] {
      var last := |orders| - 1;
      EndsAreHeld(g, clock, coalition, base, orders[..last], width);
      LevelIsHeld(g, StartOf(clock, last, width), coalition, base, orders[last], |orders[last]|);
    }
  }

  lemma HeldGap(g: Game, w: Walk, block: seq<nat>)
    requires NeverDefined(g)
    ensures Gap(g, w, block) == 0.0
  {
    EndsAreHeld(g, w.clock, w.coalition, w.base, Permutations(block), |block|);
    var ends := BlockEnds(g, w, block);
    assert ends[|ends| - 1] == BlockEnd(g, w.clock, w.coalition, w.base, block);
    MeanOfConstant(ends, w.base);
  }

  lemma {:induction false} HeldGaps(g: Game, clock: nat, blocks: seq<seq<nat>>)
    requires NeverDefined(g)
    ensures GapTotal(g, clock, blocks) == 0.0
  {
    if blocks != [] {
      var last := |blocks| - 1;
      HeldGaps(g, clock, blocks[..last]);
      HeldGap(g, WalkBlocks(g, clock, blocks[..last]), blocks[last]);
    }
  }

  /** Without trials nothing is ever estimated, and the walk is efficient at 0. */
  lemma NoTrialsEfficient(trials: Trials, n: nat, blocks: seq<seq<nat>>, m: nat)
    requires Partition(n, blocks) && m > 0
    ensures Efficient(GameOf(trials, 0), n, blocks, m)
  {
    var g := GameOf(trials, 0);
    EfficiencyIdentity(g, n, blocks, m);
    forall i | 0 <= i < m ensures Gaps(g, blocks, m)[i] == 0.0 {
      HeldGaps(g, StartClock(g, blocks, i), blocks);
    }
    MeanOfConstant(Gaps(g, blocks, m), 0.0);
  }

  /** Whether a run is efficient whatever its trials come to depends on its batching alone: exactly when every block is
      a single step, or there are no trials. */
  lemma EfficientIffSingletons(n: nat, blocks: seq<seq<nat>>, k: nat, m: nat)
    requires Partition(n, blocks) && m > 0
    ensures (forall trials: Trials :: Efficient(GameOf(trials, k), n, blocks, m)) <==>
              k == 0 || forall b :: b in blocks ==> |b| == 1
  {
    if k == 0 {
      forall trials: Trials ensures Efficient(GameOf(trials, k), n, blocks, m) {
        NoTrialsEfficient(trials, n, blocks, m);
      }
    } else if forall b :: b in blocks ==> |b| == 1 {
      forall trials: Trials ensures Efficient(GameOf(trials, k), n, blocks, m) {
        Efficiency(GameOf(trials, k), n, blocks, m);
      }
    } else {
      var j :| 0 <= j < |blocks| && |blocks[j]| != 1;
      assert blocks[j] in blocks;
      RacingStepsBreakIt(n, blocks, k, m, j);
    }
  }
}
