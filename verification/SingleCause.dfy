/** Blame of a tape with at most one guilty step, for every batching that leaves the final step alone: the
    guilty step's Shapley value is 1 and every other step's is 0. */
module SingleCause {
  import opened Seqs
  import opened ShapleyWalk
  import opened ShapleyRank
  import opened ShapleyEfficiency
  import opened ScenarioBlame
  import ShapleyBlocks
  import ShapleyRun

  predicate Hit(cause: Option<nat>, s: set<nat>) {
    cause.Some? && cause.value in s
  }

  function HitBy(cause: Option<nat>): set<nat> -> bool {
    (s: set<nat>) => Hit(cause, s)
  }

  function Level01(cause: Option<nat>, s: set<nat>): real {
    if Hit(cause, s) then 1.0 else 0.0
  }

  function Credit01(cause: Option<nat>, x: nat): real {
    if cause == Some(x) then 1.0 else 0.0
  }

  /** Whenever it is asked for a non-empty coalition short of the final step, the game says whether the guilty
      step is in it; with the final step it has no value. Without a guilty step it need not have any. */
  ghost predicate Plays(g: Game, n: nat, cause: Option<nat>) {
    forall e: nat, s: set<nat> :: s != {} && s <= FirstSteps(n) ==>
      if n - 1 in s then g(e, s) == None
      else g(e, s) == Some(Level01(cause, s)) || (cause == None && g(e, s) == None)
  }

  // ---- one block ------------------------------------------------------------------------------------------

  lemma {:induction false} LevelAlong(
    g: Game, n: nat, cause: Option<nat>, clock: nat, coalition: set<nat>, order: seq<nat>, p: nat)
    requires Plays(g, n, cause) && p <= |order|
    requires n > 0 && coalition + Members(order) <= FirstSteps(n - 1)
    ensures Level(g, clock, coalition, Level01(cause, coalition), order, p)
         == Level01(cause, coalition + Members(order[..p]))
  {
    if p == 0 {
      assert coalition + Members(order[..0]) == coalition;
    } else {
      LevelAlong(g, n, cause, clock, coalition, order, p - 1);
      var s := coalition + Members(order[..p]);
      assert order[p - 1] in order[..p] && order[p - 1] in s;
      assert s <= coalition + Members(order);
      assert n - 1 !in s;
      assert s <= FirstSteps(n);
      assert g(clock + p - 1, s) == Some(Level01(cause, s)) || (cause == None && g(clock + p - 1, s) == None);
    }
  }

  lemma MarginalAlong(
    g: Game, n: nat, cause: Option<nat>, clock: nat, coalition: set<nat>, order: seq<nat>, x: nat)
    requires Plays(g, n, cause) && n > 0 && coalition + Members(order) <= FirstSteps(n - 1)
    requires x in order && x !in coalition
    ensures Marginal(g, clock, coalition, Level01(cause, coalition), order, x) == JoinCredit(cause, coalition, x)
  {
    var p := IndexOf(order, x);
    LevelAlong(g, n, cause, clock, coalition, order, p);
    LevelAlong(g, n, cause, clock, coalition, order, p + 1);
    JoinRaises(cause, coalition, order, p);
  }

  lemma JoinRaises(cause: Option<nat>, coalition: set<nat>, order: seq<nat>, p: nat)
    requires p < |order| && order[p] !in coalition && order[p] !in order[..p]
    ensures Level01(cause, coalition + Members(order[..p + 1])) - Level01(cause, coalition + Members(order[..p]))
         == JoinCredit(cause, coalition, order[p])
  {
    assert order[..p + 1] == order[..p] + [order[p]];
  }

  ghost predicate AllAre(values: seq<real>, v: real) {
    forall i :: 0 <= i < |values| ==> values[i] == v
  }

  ghost predicate JoinOrder(n: nat, coalition: set<nat>, x: nat, o: seq<nat>) {
    n > 0 && x in o && Distinct(o) && coalition + Members(o) <= FirstSteps(n - 1)
  }

  /** What a joining step is credited: everything if it is the guilty one and the first of its kind. */
  function JoinCredit(cause: Option<nat>, coalition: set<nat>, x: nat): real {
    if Hit(cause, coalition) then 0.0 else Credit01(cause, x)
  }

  lemma {:induction false} MarginalsAlong(
    g: Game, n: nat, cause: Option<nat>, clock: nat, coalition: set<nat>, orders: seq<seq<nat>>, width: nat, x: nat)
    requires Plays(g, n, cause) && x !in coalition
    requires forall o :: o in orders ==> JoinOrder(n, coalition, x, o)
    requires forall o :: o in orders ==> x in o
    ensures AllAre(Marginals(g, clock, coalition, Level01(cause, coalition), orders, width, x),
                   JoinCredit(cause, coalition, x))
  {
    if orders != [] {
      var last := |orders| - 1;
      MarginalsAlong(g, n, cause, clock, coalition, orders[..last], width, x);
      assert JoinOrder(n, coalition, x, orders[last]);
      MarginalAlong(g, n, cause, StartOf(clock, last, width), coalition, orders[last], x);
    }
  }

  lemma OrdersOf(n: nat, coalition: set<nat>, block: seq<nat>)
    requires Distinct(block) && coalition + Members(block) <= FirstSteps(n)
    ensures forall o :: o in Permutations(block) ==>
              Distinct(o) && Members(o) == Members(block) && coalition + Members(o) <= FirstSteps(n)
  {
    PermutationsPermute(block);
    InEveryOrder(block);
    forall o | o in Permutations(block) ensures Distinct(o) {
      assert Permutes(o, block);
      PermutedDistinct(o, block);
    }
  }

  lemma BlockCredit(g: Game, n: nat, cause: Option<nat>, clock: nat, coalition: set<nat>, block: seq<nat>, x: nat)
    requires Plays(g, n, cause) && n > 0 && Distinct(block) && x in block && x !in coalition
    requires coalition + Members(block) <= FirstSteps(n - 1)
    ensures BlockMarginal(g, clock, coalition, Level01(cause, coalition), block, x) == JoinCredit(cause, coalition, x)
  {
    OrdersOf(n - 1, coalition, block);
    InEveryOrder(block);
    forall o | o in Permutations(block) ensures JoinOrder(n, coalition, x, o) {
    }
    MarginalsAlong(g, n, cause, clock, coalition, Permutations(block), |block|, x);
    MeanOfConstant(Marginals(g, clock, coalition, Level01(cause, coalition), Permutations(block), |block|, x),
                   JoinCredit(cause, coalition, x));
  }

  lemma BlockEndsAt(g: Game, n: nat, cause: Option<nat>, clock: nat, coalition: set<nat>, block: seq<nat>)
    requires Plays(g, n, cause) && n > 0 && Distinct(block)
    requires coalition + Members(block) <= FirstSteps(n - 1)
    ensures BlockEnd(g, clock, coalition, Level01(cause, coalition), block)
         == Level01(cause, coalition + Members(block))
  {
    var orders := Permutations(block);
    OrdersOf(n - 1, coalition, block);
    var last := orders[|orders| - 1];
    assert last in orders;
    LevelAlong(g, n, cause, StartOf(clock, |orders| - 1, |block|), coalition, last, |last|);
    assert last[..|last|] == last;
  }

  // ---- one repeat -----------------------------------------------------------------------------------------

  /** The walk so far stands at its coalition's value and has credited the guilty step only. */
  ghost predicate Fair(w: Walk, cause: Option<nat>) {
    && w.base == Level01(cause, w.coalition)
    && forall x :: x in w.coalition ==> Credit(w)(x) == Credit01(cause, x)
  }

  lemma FairBlock(g: Game, n: nat, cause: Option<nat>, w: Walk, block: seq<nat>)
    requires Plays(g, n, cause) && n > 0 && Distinct(block) && Fair(w, cause)
    requires w.coalition + Members(block) <= FirstSteps(n - 1) && forall x :: x in block ==> x !in w.coalition
    requires w.samples.Keys == w.coalition
    ensures Fair(AfterBlock(g, w, block), cause)
  {
    var after := AfterBlock(g, w, block);
    BlockEndsAt(g, n, cause, w.clock, w.coalition, block);
    forall x | x in after.coalition ensures Credit(after)(x) == Credit01(cause, x) {
      if x in block {
        BlockCredit(g, n, cause, w.clock, w.coalition, block, x);
        assert cause == Some(x) ==> !Hit(cause, w.coalition);
      } else {
        assert Credit(after)(x) == Credit(w)(x);
      }
    }
  }

  /** The final step changes nothing: every coalition that holds it is undefined. */
  lemma FinalBlock(g: Game, n: nat, cause: Option<nat>, w: Walk)
    requires Plays(g, n, cause) && n > 0 && Fair(w, cause) && w.coalition == FirstSteps(n - 1)
    requires cause != Some(n - 1)
    ensures forall x: nat :: x < n ==> Credit(AfterBlock(g, w, [n - 1]))(x) == Credit01(cause, x)
  {
    assert n - 1 in FirstSteps(n) && FirstSteps(n) != {};
    assert g(w.clock, FirstSteps(n)).None?;
    OneMoreStep(g, w, n - 1);
    FinalCredit(n, cause, w, AfterBlock(g, w, [n - 1]));
  }

  lemma FinalCredit(n: nat, cause: Option<nat>, w: Walk, after: Walk)
    requires n > 0 && Fair(w, cause) && w.coalition == FirstSteps(n - 1) && cause != Some(n - 1)
    requires OneMore(w, after, n - 1, w.base)
    ensures forall x: nat :: x < n ==> Credit(after)(x) == Credit01(cause, x)
  {
  }

  lemma {:induction false} FairWalk(g: Game, n: nat, cause: Option<nat>, clock: nat, blocks: seq<seq<nat>>)
    requires Plays(g, n, cause) && n > 0 && Distinct(Flatten(blocks)) && Members(Flatten(blocks)) <= FirstSteps(n - 1)
    ensures Fair(WalkBlocks(g, clock, blocks), cause)
    ensures WalkBlocks(g, clock, blocks).coalition == Members(Flatten(blocks))
  {
    Sampled(g, clock, blocks);
    if blocks != [] {
      var last := |blocks| - 1;
      FlattenDistinct(blocks);
      assert Members(Flatten(blocks)) == Members(Flatten(blocks[..last])) + Members(blocks[last]);
      FairWalk(g, n, cause, clock, blocks[..last]);
      Sampled(g, clock, blocks[..last]);
      FairBlock(g, n, cause, WalkBlocks(g, clock, blocks[..last]), blocks[last]);
    }
  }

  /** The blocks of a run end with the final step on its own. */
  ghost predicate FinalAlone(n: nat, blocks: seq<seq<nat>>) {
    n > 0 && Partition(n, blocks) && blocks != [] && blocks[|blocks| - 1] == [n - 1]
  }

  lemma FairRepeat(g: Game, n: nat, cause: Option<nat>, clock: nat, blocks: seq<seq<nat>>, x: nat)
    requires Plays(g, n, cause) && FinalAlone(n, blocks) && cause != Some(n - 1) && x < n
    ensures Credit(WalkBlocks(g, clock, blocks))(x) == Credit01(cause, x)
  {
    var before := blocks[..|blocks| - 1];
    FlattenDistinct(blocks);
    AllBut(n, Flatten(before), Flatten(blocks));
    FairWalk(g, n, cause, clock, before);
    FinalBlock(g, n, cause, WalkBlocks(g, clock, before));
  }

  lemma AllBut(n: nat, front: seq<nat>, all: seq<nat>)
    requires n > 0 && all == front + [n - 1] && Distinct(all) && forall x: nat :: x in all <==> x < n
    ensures Members(front) == FirstSteps(n - 1)
  {
    DistinctAppend(front, [n - 1]);
    forall x: nat ensures x in Members(front) <==> x in FirstSteps(n - 1) {
      assert x in all <==> x in front || x == n - 1;
      assert n - 1 in [n - 1];
    }
  }

  // ---- the whole run --------------------------------------------------------------------------------------

  lemma GuiltyValue(g: Game, n: nat, cause: Option<nat>, blocks: seq<seq<nat>>, m: nat, x: nat)
    requires Plays(g, n, cause) && FinalAlone(n, blocks) && cause != Some(n - 1) && x < n
    ensures ShapleyValue(Repeats(g, blocks, m))(x) == if m == 0 then 0.0 else Credit01(cause, x)
  {
    if m == 0 {
      return;
    }
    var walks := Repeats(g, blocks, m);
    forall r | 0 <= r < m ensures CreditsOf(walks, x)[r] == Credit01(cause, x) {
      RepeatsAt(g, blocks, m, r);
      FairRepeat(g, n, cause, StartClock(g, blocks, r), blocks, x);
    }
    MeanOfConstant(CreditsOf(walks, x), Credit01(cause, x));
  }

  lemma RuledPlays(trials: Trials, n: nat, cause: Option<nat>, k: nat)
    requires Ruled(trials, n, HitBy(cause))
    ensures Plays(GameOf(trials, k), n, if k > 0 then cause else None)
  {
    var g := GameOf(trials, k);
    forall e: nat, s: set<nat> | s != {} && s <= FirstSteps(n)
      ensures g(e, s) == if k == 0 || n - 1 in s then None else Some(Level01(cause, s))
    {
      RuledRate(trials, n, cause, k, e, s);
    }
  }

  lemma RuledRate(trials: Trials, n: nat, cause: Option<nat>, k: nat, e: nat, s: set<nat>)
    requires Ruled(trials, n, HitBy(cause)) && s != {} && s <= FirstSteps(n)
    ensures GameOf(trials, k)(e, s) == if k == 0 || n - 1 in s then None else Some(Level01(cause, s))
  {
    SteadyRate(trials, e, s, k, RuledOutcome(n, HitBy(cause), s));
  }

  /** A batching that does not mention the final step puts it in a block of its own, at the end. */
  lemma FinalStepAlone(n: nat, batches: seq<seq<int>>, blocks: seq<seq<nat>>)
    requires n > 0 && ShapleyBlocks.BlocksFor(n, batches, blocks) && n - 1 !in ShapleyBlocks.Concat(batches)
    ensures FinalAlone(n, blocks)
  {
    InSomeBlock(blocks, n - 1);
    var i :| 0 <= i < |blocks| && n - 1 in blocks[i];
    assert blocks[i] in blocks;
    FinalBlockIsSingle(n, batches, blocks[i]);
    var last := |blocks| - 1;
    if i < last {
      assert ShapleyBlocks.ByHead(blocks[i], blocks[last]);
      BlocksDiffer(blocks, i, last);
      HeadsAreSteps(n, blocks, last);
    }
  }

  lemma {:induction false} InSomeBlock(blocks: seq<seq<nat>>, x: nat)
    requires x in Flatten(blocks)
    ensures exists i :: 0 <= i < |blocks| && x in blocks[i]
  {
    if blocks != [] {
      var last := |blocks| - 1;
      if x !in blocks[last] {
        InSomeBlock(blocks[..last], x);
        var i :| 0 <= i < last && x in blocks[..last][i];
        assert x in blocks[i];
      }
    }
  }

  lemma FinalBlockIsSingle(n: nat, batches: seq<seq<int>>, block: seq<nat>)
    requires n > 0 && n - 1 in block && ShapleyBlocks.FromBatches(block, n, batches)
    requires n - 1 !in ShapleyBlocks.Concat(batches)
    ensures block == [n - 1]
  {
    forall i | 0 <= i < |batches| ensures !ShapleyBlocks.SameElements(block, batches[i]) {
      InConcat(batches, i, n - 1);
      SameMember(block, batches[i], n - 1);
    }
  }

  lemma SameMember(block: seq<int>, batch: seq<int>, x: int)
    ensures ShapleyBlocks.SameElements(block, batch) ==> (x in block <==> x in batch)
  {
    assert x in block <==> x in multiset(block);
    assert x in batch <==> x in multiset(batch);
  }

  lemma {:induction false} InConcat(batches: seq<seq<int>>, i: nat, x: int)
    requires i < |batches|
    ensures x in batches[i] ==> x in ShapleyBlocks.Concat(batches)
  {
    if i < |batches| - 1 {
      InConcat(batches[..|batches| - 1], i, x);
    }
  }

  lemma BlocksDiffer(blocks: seq<seq<nat>>, i: nat, last: nat)
    requires Distinct(Flatten(blocks)) && i < last == |blocks| - 1
    ensures forall x :: x in blocks[i] ==> x !in blocks[last]
  {
    FlattenDistinct(blocks);
    Disjoint(blocks, i, last);
  }

  lemma Disjoint(blocks: seq<seq<nat>>, i: nat, last: nat)
    requires i < last == |blocks| - 1 && forall x :: x in Flatten(blocks[..last]) ==> x !in blocks[last]
    ensures forall x :: x in blocks[i] ==> x !in blocks[last]
  {
    forall x | x in blocks[i] ensures x !in blocks[last] {
      InFlatten(blocks[..last], i, x);
    }
  }

  lemma HeadsAreSteps(n: nat, blocks: seq<seq<nat>>, i: nat)
    requires Partition(n, blocks) && i < |blocks|
    ensures blocks[i] != [] && blocks[i][0] in blocks[i] && blocks[i][0] < n
  {
    assert blocks[i] in blocks;
    InFlatten(blocks, i, blocks[i][0]);
  }

  /** What the run must report about step `x`. */
  ghost predicate Reads(r: ShapleyResult, x: nat, cause: Option<nat>) {
    r.step == x && r.shapleyValue == Credit01(cause, x) && (r.necessity <==> cause == Some(x))
  }

  /** What a run can find: nothing without trials and repeats. */
  function Found(cause: Option<nat>, k: nat, samples: nat): Option<nat> {
    if k > 0 && samples > 0 then cause else None
  }

  /** A whole `shapley_rank` run over trials that flip exactly when the guilty step is forced, whatever its single-step
      pass finds. */
  method BlameSingleCause(
    singles: Trials, trials: Trials, n: nat, cause: Option<nat>, batches: seq<seq<int>>, k: nat, samples: nat)
    returns (results: seq<ShapleyResult>)
    requires n > 0 && Ruled(trials, n, HitBy(cause)) && cause != Some(n - 1)
    requires ShapleyBlocks.WellFormed(n, batches) && n - 1 !in ShapleyBlocks.Concat(batches)
    ensures |results| == n && forall x :: 0 <= x < n ==> Reads(results[x], x, Found(cause, k, samples))
  {
    var report, blocks := ShapleyRun.Run(singles, trials, n, k, samples, batches, 0.5, 0.5);
    results := report.results;
    FinalStepAlone(n, batches, blocks);
    forall x | 0 <= x < n ensures Reads(results[x], x, Found(cause, k, samples)) {
      FoundReads(results[x], trials, n, cause, blocks, k, samples, x, singles);
    }
  }

  lemma FoundReads(
    r: ShapleyResult, trials: Trials, n: nat, cause: Option<nat>, blocks: seq<seq<nat>>, k: nat, samples: nat, x: nat,
    singles: Trials)
    requires Ruled(trials, n, HitBy(cause)) && FinalAlone(n, blocks) && cause != Some(n - 1) && x < n
    ensures ShapleyRun.Reported(r, x, Repeats(GameOf(trials, k), blocks, samples), singles, k, 0.5, 0.5) ==>
              Reads(r, x, Found(cause, k, samples))
  {
    RuledPlays(trials, n, cause, k);
    GuiltyValue(GameOf(trials, k), n, if k > 0 then cause else None, blocks, samples, x);
  }
}
