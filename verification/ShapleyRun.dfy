/** A whole `shapley_rank` call: the single-step pass, the batches turned into blocks, the repeats of the
    walk and the report. */
module ShapleyRun {
  import opened Seqs
  import opened ShapleyWalk
  import opened ShapleyRank
  import Budget
  import ShapleyBlocks
  import ShapleyEfficiency

  datatype Report =
    | Report(results: seq<ShapleyResult>, totalForks: nat)
    | Rejected(problem: ShapleyBlocks.BlocksResult)

  /** `rank`'s tallies: `k` single-step forks per step. */
  method RankTallies(singles: Trials, n: nat, k: nat) returns (tallies: seq<Tally>, forks: nat)
    ensures |tallies| == n && forall i :: 0 <= i < n ==> tallies[i] == TallyOf(singles, i, {i}, k)
    ensures forks == n * k
  {
    tallies, forks := [], 0;
    for i := 0 to n
      invariant |tallies| == i && forall j :: 0 <= j < i ==> tallies[j] == TallyOf(singles, j, {j}, k)
      invariant forks == i * k
    {
      var tally := RunCoalitionTrials(singles, i, {i}, k);
      tallies := tallies + [tally];
      assert (i + 1) * k == i * k + k;
      forks := forks + k;
    }
  }

  /** What the report must say about step `i`, given the repeats of the walk and the trials of the single-step pass. */
  ghost predicate Reported(
    r: ShapleyResult, i: nat, walks: seq<Walk>, singles: Trials, k: nat, necessity: real, sufficiency: real)
  {
    && r.step == i
    && r.shapleyValue == ShapleyEfficiency.ShapleyValue(walks)(i)
    && r.coalitionFlipRate == MeanOrZero(FullsOf(walks, i))
    && r.baseFlipRate == MeanOrZero(BasesOf(walks, i))
    && (r.necessity <==> r.shapleyValue >= necessity)
    && Scored(r.sufficiencyScore, singles, i, k)
    && (r.sufficiency <==> r.sufficiencyScore >= sufficiency)
  }

  /** The share of flips among the single-step trials of `i` that said anything, and 0 if none did. */
  ghost predicate Scored(score: real, singles: Trials, i: nat, k: nat) {
    && (ValidSet(singles, i, {i}, k) == {} ==> score == 0.0)
    && IsShare(score, FlipSet(singles, i, {i}, k), ValidSet(singles, i, {i}, k))
  }

  /** Only one number is such a share. */
  lemma ScoredOnce(score: real, singles: Trials, i: nat, k: nat)
    requires Scored(score, singles, i, k)
    ensures score == FlipRate(TallyOf(singles, i, {i}, k))
  {
    ScoreIsProportion(singles, i, {i}, k);
    if ValidSet(singles, i, {i}, k) != {} {
      SameShare(score, FlipRate(TallyOf(singles, i, {i}, k)), FlipSet(singles, i, {i}, k), ValidSet(singles, i, {i}, k));
    }
  }

  lemma SameShare(a: real, b: real, part: set<nat>, whole: set<nat>)
    requires whole != {} && IsShare(a, part, whole) && IsShare(b, part, whole)
    ensures a == b
  {
    EqualShares(a, b, |whole| as real);
  }

  lemma EqualShares(a: real, b: real, m: real)
    requires m > 0.0 && a * m == b * m
    ensures a == b
  {
    assert (a - b) * m == 0.0;
  }

  /** The report is the walk's, for exactly the well-formed batchings, and its fork count is exact. */
  method Run(
    singles: Trials, coalitions: Trials, n: nat, k: nat, m: nat, batches: seq<seq<int>>,
    necessity: real, sufficiency: real)
    returns (r: Report, ghost blocks: seq<seq<nat>>)
    ensures n == 0 ==> r == Report([], 0)
    ensures n > 0 ==> (r.Report? <==> ShapleyBlocks.WellFormed(n, batches))
    ensures n > 0 && r.Report? ==>
              && ShapleyBlocks.BlocksFor(n, batches, blocks)
              && |r.results| == n
              && (forall i :: 0 <= i < n ==>
                    Reported(r.results[i], i, Repeats(GameOf(coalitions, k), blocks, m), singles, k, necessity,
                             sufficiency))
              && r.totalForks == Budget.Forks(GameOf(coalitions, k), n, k, m, blocks)
              && r.totalForks <= Budget.EstimateFor(n, k, m, batches).forks
  {
    blocks := [];
    if n == 0 {
      return Report([], 0), [];
    }
    var tallies, rankForks := RankTallies(singles, n, k);
    var partition := ShapleyBlocks.BatchBlocks(n, batches);
    if !partition.Blocks? {
      return Rejected(partition), [];
    }
    var game := GameOf(coalitions, k);
    var samples, evaluations := WalkAll(game, m, n, partition.blocks);
    var results := Results(samples, tallies, n, necessity, sufficiency);
    ghost var walks := Repeats(game, partition.blocks, m);
    forall i | 0 <= i < n
      ensures Reported(results[i], i, walks, singles, k, necessity, sufficiency)
    {
      ReportedValues(samples, n, walks, i);
      ScoreIsProportion(singles, i, {i}, k);
    }
    Budget.ForksWithinEstimate(game, n, k, m, batches, partition.blocks);
    return Report(results, rankForks + k * evaluations), partition.blocks;
  }
}
