/** From recorded concurrency batches to the ordered blocks the walk visits. */
module ShapleyBlocks {
  import opened Seqs
  import opened ShapleyWalk
  import Sorting

  datatype BlocksResult =
    | Blocks(blocks: seq<seq<nat>>)
    | BadBatch(index: nat)          // fewer than two members, or a repeated one
    | StepOutOfRange(step: int)
    | StepTwice(step: int)          // in two batches

  /** What a caller must pass: in-range batches of at least two members that share no step. */
  ghost predicate WellFormed(n: nat, batches: seq<seq<int>>) {
    && (forall i :: 0 <= i < |batches| ==> |batches[i]| >= 2)
    && Distinct(Concat(batches))
    && forall x :: x in Concat(batches) ==> 0 <= x < n
  }

  function Concat(batches: seq<seq<int>>): seq<int> {
    if batches == [] then [] else Concat(batches[..|batches| - 1]) + batches[|batches| - 1]
  }

  predicate AtMost(a: int, b: int) { a <= b }

  predicate ByHead(a: seq<nat>, b: seq<nat>) {
    a == [] || (b != [] && a[0] <= b[0])
  }

  ghost predicate Ascending(s: seq<nat>) {
    forall i, j :: 0 <= i < j < |s| ==> s[i] < s[j]
  }

  function Uncovered(n: nat, covered: set<int>): seq<seq<nat>> {
    if n == 0 then [] else Uncovered(n - 1, covered) + if n - 1 in covered then [] else [[n - 1]]
  }

  /** `b` is a step outside all batches, or one batch in ascending order. */
  ghost predicate FromBatches(b: seq<nat>, n: nat, batches: seq<seq<int>>) {
    || (|b| == 1 && b[0] < n && b[0] !in Concat(batches))
    || exists i :: 0 <= i < |batches| && SameElements(b, batches[i])
  }

  ghost predicate SameElements(b: seq<int>, batch: seq<int>) {
    multiset(b) == multiset(batch)
  }

  /** `blocks` lists exactly the steps below `n` outside `covered`, each as its own block. */
  ghost predicate Singles(n: nat, covered: set<int>, blocks: seq<seq<nat>>) {
    && Distinct(Flatten(blocks))
    && (forall x: nat :: x in Flatten(blocks) <==> x < n && x !in covered)
    && forall b :: b in blocks ==> |b| == 1 && b[0] < n && b[0] !in covered
  }

  lemma FlattenSnoc(blocks: seq<seq<nat>>, b: seq<nat>)
    ensures Flatten(blocks + [b]) == Flatten(blocks) + b
  {
    assert (blocks + [b])[..|blocks|] == blocks;
  }

  lemma OneMoreSingle(n: nat, covered: set<int>, before: seq<seq<nat>>)
    requires Singles(n, covered, before) && n !in covered
    ensures Singles(n + 1, covered, before + [[n]])
  {
    var f := Flatten(before);
    FlattenSnoc(before, [n]);
    DistinctAppend(f, [n]);
    assert n !in f;
    forall x: nat ensures x in f + [n] <==> x < n + 1 && x !in covered {
      assert x in f + [n] <==> x in f || x == n;
    }
  }

  lemma NextSingle(n: nat, covered: set<int>, before: seq<seq<nat>>, now: seq<seq<nat>>)
    requires now == before + if n in covered then [] else [[n]]
    ensures Singles(n, covered, before) ==> Singles(n + 1, covered, now)
  {
    if n in covered {
      assert now == before;
    } else if Singles(n, covered, before) {
      OneMoreSingle(n, covered, before);
    }
  }

  lemma {:induction false} UncoveredBlocks(n: nat, covered: set<int>)
    ensures Singles(n, covered, Uncovered(n, covered))
  {
    if n > 0 {
      UncoveredBlocks(n - 1, covered);
      NextSingle(n - 1, covered, Uncovered(n - 1, covered), Uncovered(n, covered));
    }
  }

  lemma {:induction false} FlattenAppend(a: seq<seq<nat>>, b: seq<seq<nat>>)
    ensures Flatten(a + b) == Flatten(a) + Flatten(b)
  {
    if b == [] {
      assert a + b == a;
    } else {
      var last := |b| - 1;
      FlattenAppend(a, b[..last]);
      FlattenSnoc(a + b[..last], b[last]);
      assert a + b == (a + b[..last]) + [b[last]];
    }
  }

  lemma {:induction false} FlattenPermuted(a: seq<seq<nat>>, b: seq<seq<nat>>)
    requires multiset(a) == multiset(b)
    ensures multiset(Flatten(a)) == multiset(Flatten(b))
  {
    if a == [] {
      assert |multiset(b)| == |b|;
    } else {
      var last := a[|a| - 1];
      assert a == a[..|a| - 1] + [last];
      var front, back := Locate(a[..|a| - 1], last, b);
      FlattenPermuted(a[..|a| - 1], front + back);
      FlattenMiddle(front, last, back);
    }
  }

  lemma FlattenMiddle(front: seq<seq<nat>>, x: seq<nat>, back: seq<seq<nat>>)
    ensures multiset(Flatten(front + [x] + back)) == multiset(Flatten(front + back)) + multiset(x)
  {
    FlattenAppend(front, back);
    FlattenAppend(front + [x], back);
    FlattenSnoc(front, x);
  }

  /** None of `members` is out of range or already taken. */
  ghost predicate Claimable(n: nat, members: seq<int>, covered: set<int>) {
    forall x :: x in members ==> 0 <= x < n && x !in covered
  }

  method ClaimMembers(n: nat, members: seq<int>, covered: set<int>)
    returns (failure: Option<BlocksResult>, block: seq<nat>, nowCovered: set<int>)
    requires Distinct(members)
    ensures failure.None? <==> Claimable(n, members, covered)
    ensures failure.Some? ==> !failure.value.Blocks?
    ensures failure.None? ==> block == members && nowCovered == covered + Members(members)
  {
    failure, block, nowCovered := None, [], covered;
    for k := 0 to |members|
      invariant block == members[..k] && Claimable(n, members[..k], covered)
      invariant nowCovered == covered + Members(members[..k])
    {
      var step := members[k];
      assert step in members && step !in members[..k];
      if step < 0 || step >= n {
        return Some(StepOutOfRange(step)), [], covered;
      }
      if step in nowCovered {
        return Some(StepTwice(step)), [], covered;
      }
      nowCovered := nowCovered + {step};
      block := block + [step];
      assert members[..k + 1] == members[..k] + [step];
    }
    assert members[..|members|] == members;
  }

  /** The first `i` batches have been claimed as `sorted`. */
  ghost predicate Claimed(n: nat, batches: seq<seq<int>>, i: nat, sorted: seq<seq<nat>>, covered: set<int>)
    requires i <= |batches|
  {
    && |sorted| == i
    && WellFormed(n, batches[..i])
    && covered == Members(Concat(batches[..i]))
    && multiset(Flatten(sorted)) == multiset(Concat(batches[..i]))
    && forall j :: 0 <= j < i ==> Ascending(sorted[j]) && SameElements(sorted[j], batches[j])
  }

  function OneByOne(n: nat): (blocks: seq<seq<nat>>)
    ensures |blocks| == n && forall i :: 0 <= i < n ==> blocks[i] == [i]
  {
    seq(n, i requires 0 <= i < n => [i])
  }

  /** Every step lands in exactly one block, batches become blocks, and blocks ascend by least member. */
  ghost predicate BlocksFor(n: nat, batches: seq<seq<int>>, blocks: seq<seq<nat>>) {
    && Partition(n, blocks)
    && (forall b :: b in blocks ==> Ascending(b) && FromBatches(b, n, batches))
    && Sorting.Sorted(ByHead, blocks)
    && |blocks| + |Concat(batches)| == n + |batches|
    && (batches == [] ==> blocks == OneByOne(n))
  }

  lemma {:induction false} FlattenOneByOne(n: nat)
    ensures |Flatten(OneByOne(n))| == n && forall i :: 0 <= i < n ==> Flatten(OneByOne(n))[i] == i
  {
    if n > 0 {
      FlattenOneByOne(n - 1);
      assert OneByOne(n)[..n - 1] == OneByOne(n - 1);
    }
  }

  lemma OneByOneBlocks(n: nat)
    ensures WellFormed(n, []) && BlocksFor(n, [], OneByOne(n))
  {
    var blocks := OneByOne(n);
    FlattenOneByOne(n);
    forall x: nat ensures x in Flatten(blocks) <==> x < n {
      if x < n {
        assert Flatten(blocks)[x] == x;
      }
    }
  }

  /** Check batch `i` and sort it. */
  method ClaimBatch(n: nat, batches: seq<seq<int>>, i: nat, ghost sorted: seq<seq<nat>>, covered: set<int>)
    returns (failure: Option<BlocksResult>, block: seq<nat>, nowCovered: set<int>)
    requires i < |batches| && Claimed(n, batches, i, sorted, covered)
    ensures failure.Some? ==> !failure.value.Blocks? && !WellFormed(n, batches)
    ensures failure.None? ==> Claimed(n, batches, i + 1, sorted + [block], nowCovered)
  {
    var batch := batches[i];
    var distinct := set x | x in batch;
    DistinctIffCounted(batch);
    NotWellFormed(n, batches, i);
    if |distinct| < 2 || |distinct| != |batch| {
      return Some(BadBatch(i)), [], {};
    }
    var members := Sorting.Sort(AtMost, batch);
    Sorting.SortIsSorted(AtMost, batch);
    MultisetDistinct(batch, members);
    failure, block, nowCovered := ClaimMembers(n, members, covered);
    if failure.None? {
      BatchAccepted(n, batches, i, members, block, sorted, covered);
    }
  }

  /** Check the batches in turn and sort each. */
  method ClaimBatches(n: nat, batches: seq<seq<int>>)
    returns (failure: Option<BlocksResult>, sorted: seq<seq<nat>>, covered: set<int>)
    ensures failure.None? <==> WellFormed(n, batches)
    ensures failure.Some? ==> !failure.value.Blocks?
    ensures failure.None? ==> Claimed(n, batches, |batches|, sorted, covered)
  {
    failure, sorted, covered := None, [], {};
    for i := 0 to |batches|
      invariant failure.None? && Claimed(n, batches, i, sorted, covered)
    {
      var block, nowCovered;
      failure, block, nowCovered := ClaimBatch(n, batches, i, sorted, covered);
      if failure.Some? {
        return;
      }
      sorted, covered := sorted + [block], nowCovered;
    }
    assert batches[..|batches|] == batches;
  }

  /** A batching is accepted exactly when it is well formed. */
  method BatchBlocks(n: nat, batches: seq<seq<int>>) returns (r: BlocksResult)
    ensures r.Blocks? <==> WellFormed(n, batches)
    ensures r.Blocks? ==> BlocksFor(n, batches, r.blocks)
  {
    if batches == [] {
      OneByOneBlocks(n);
      return Blocks(OneByOne(n));
    }
    var failure, sorted, covered := ClaimBatches(n, batches);
    if failure.Some? {
      return failure.value;
    }
    assert batches[..|batches|] == batches;
    var singles := Uncovered(n, covered);
    UncoveredBlocks(n, covered);
    UncoveredCount(n, Concat(batches), covered);
    var blocks := Sorting.Sort(ByHead, singles + sorted);
    Sorting.SortIsSorted(ByHead, singles + sorted);
    AllBlocks(n, batches, singles, sorted, blocks);
    return Blocks(blocks);
  }

  lemma ConcatUpTo(batches: seq<seq<int>>, i: nat)
    requires i < |batches|
    ensures Concat(batches[..i + 1]) == Concat(batches[..i]) + batches[i]
  {
    assert batches[..i + 1][..i] == batches[..i];
  }

  lemma NotWellFormed(n: nat, batches: seq<seq<int>>, i: nat)
    requires i < |batches|
    ensures WellFormed(n, batches) ==>
              |batches[i]| >= 2 && Distinct(batches[i]) && Claimable(n, batches[i], Members(Concat(batches[..i])))
  {
    if WellFormed(n, batches) {
      ConcatPrefix(batches, i + 1);
      ConcatUpTo(batches, i);
      var all, upTo := Concat(batches), Concat(batches[..i + 1]);
      DistinctAppend(upTo, all[|upTo|..]);
      DistinctAppend(Concat(batches[..i]), batches[i]);
      forall x | x in batches[i] ensures x in all {
        assert x in upTo;
      }
    }
  }

  lemma {:induction false} ConcatPrefix(batches: seq<seq<int>>, i: nat)
    requires i <= |batches|
    ensures Concat(batches[..i]) <= Concat(batches)
    ensures Concat(batches) == Concat(batches[..i]) + Concat(batches)[|Concat(batches[..i])|..]
  {
    if i < |batches| {
      var last := |batches| - 1;
      ConcatPrefix(batches[..last], i);
      assert batches[..last][..i] == batches[..i];
    } else {
      assert batches[..i] == batches;
    }
  }

  lemma BatchAccepted(
    n: nat, batches: seq<seq<int>>, i: nat, members: seq<int>, block: seq<nat>, sorted: seq<seq<nat>>, covered: set<int>)
    requires i < |batches| && Claimed(n, batches, i, sorted, covered)
    requires |batches[i]| >= 2 && Distinct(batches[i]) && Distinct(members)
    requires multiset(members) == multiset(batches[i]) && block == members && Sorting.Sorted(AtMost, members)
    requires Claimable(n, members, covered)
    ensures Claimed(n, batches, i + 1, sorted + [block], covered + Members(members))
  {
    StrictlyAscends(members, block);
    SortedSoFar(batches, i, sorted, block);
    NextBatch(n, batches, i, members, covered);
  }

  lemma NextBatch(n: nat, batches: seq<seq<int>>, i: nat, members: seq<int>, covered: set<int>)
    requires i < |batches| && WellFormed(n, batches[..i]) && covered == Members(Concat(batches[..i]))
    requires |batches[i]| >= 2 && Distinct(batches[i])
    requires multiset(members) == multiset(batches[i]) && Claimable(n, members, covered)
    ensures WellFormed(n, batches[..i + 1]) && Members(Concat(batches[..i + 1])) == covered + Members(members)
  {
    MultisetDistinct(batches[i], members);
    OneMoreBatch(n, batches[..i], batches[i], covered);
    assert batches[..i + 1] == batches[..i] + [batches[i]];
    assert Members(members) == Members(batches[i]);
  }

  lemma SortedSoFar(batches: seq<seq<int>>, i: nat, sorted: seq<seq<nat>>, block: seq<nat>)
    requires i < |batches| && |sorted| == i && Ascending(block) && SameElements(block, batches[i])
    requires forall j :: 0 <= j < i ==> Ascending(sorted[j]) && SameElements(sorted[j], batches[j])
    requires multiset(Flatten(sorted)) == multiset(Concat(batches[..i]))
    ensures forall j :: 0 <= j < i + 1 ==>
              Ascending((sorted + [block])[j]) && SameElements((sorted + [block])[j], batches[j])
    ensures multiset(Flatten(sorted + [block])) == multiset(Concat(batches[..i + 1]))
  {
    ConcatUpTo(batches, i);
    FlattenSnoc(sorted, block);
    SameSums(Flatten(sorted), block, Concat(batches[..i]), batches[i]);
    forall j | 0 <= j < i + 1
      ensures Ascending((sorted + [block])[j]) && SameElements((sorted + [block])[j], batches[j])
    {
      assert (sorted + [block])[j] == if j == i then block else sorted[j];
    }
  }

  lemma SameSums(a: seq<int>, b: seq<int>, c: seq<int>, d: seq<int>)
    requires multiset(a) == multiset(c) && multiset(b) == multiset(d)
    ensures multiset(a + b) == multiset(c + d)
  {
  }

  lemma StrictlyAscends(members: seq<int>, block: seq<nat>)
    requires Sorting.Sorted(AtMost, members) && Distinct(members) && block == members
    ensures Ascending(block)
  {
    forall p, q | 0 <= p < q < |block| ensures block[p] < block[q] {
      assert AtMost(members[p], members[q]);
    }
  }

  lemma OneMoreBatch(n: nat, before: seq<seq<int>>, batch: seq<int>, covered: set<int>)
    requires WellFormed(n, before) && covered == Members(Concat(before))
    requires |batch| >= 2 && Distinct(batch) && Claimable(n, batch, covered)
    ensures WellFormed(n, before + [batch]) && Members(Concat(before + [batch])) == covered + Members(batch)
  {
    ConcatSnoc(before, batch);
    DistinctUnclaimed(n, Concat(before), batch, covered);
    assert forall x :: x in Concat(before) + batch <==> x in Concat(before) || x in batch;
  }

  lemma ConcatSnoc(before: seq<seq<int>>, batch: seq<int>)
    ensures Concat(before + [batch]) == Concat(before) + batch
  {
    assert (before + [batch])[..|before|] == before;
  }

  lemma DistinctUnclaimed(n: nat, taken: seq<int>, batch: seq<int>, covered: set<int>)
    requires Distinct(taken) && covered == Members(taken) && Distinct(batch) && Claimable(n, batch, covered)
    ensures Distinct(taken + batch)
  {
    DistinctAppend(taken, batch);
    forall x | x in taken ensures x !in batch {
      assert x in covered;
    }
  }

  lemma {:induction false} UncoveredCount(n: nat, concat: seq<int>, covered: set<int>)
    requires Distinct(concat) && covered == Members(concat) && forall x :: x in covered ==> 0 <= x < n
    ensures |Uncovered(n, covered)| + |concat| == n
  {
    UncoveredSize(n, covered);
    DistinctCount(concat);
    var inside := set x | x in covered && x < n;
    assert inside == covered;
  }

  lemma {:induction false} UncoveredSize(n: nat, covered: set<int>)
    requires forall x :: x in covered ==> 0 <= x
    ensures |Uncovered(n, covered)| + |set x | x in covered && x < n| == n
  {
    var inside := set x | x in covered && x < n;
    if n == 0 {
      assert inside == {};
    } else {
      UncoveredSize(n - 1, covered);
      var before := set x | x in covered && x < n - 1;
      if n - 1 in covered {
        assert inside == before + {n - 1};
      } else {
        assert inside == before;
      }
    }
  }

  lemma AllBlocks(n: nat, batches: seq<seq<int>>, singles: seq<seq<nat>>, sorted: seq<seq<nat>>, blocks: seq<seq<nat>>)
    requires Claimed(n, batches, |batches|, sorted, Members(Concat(batches)))
    requires multiset(blocks) == multiset(singles + sorted)
    requires Singles(n, Members(Concat(batches)), singles) && |singles| + |Concat(batches)| == n
    requires Sorting.Sorted(ByHead, blocks) && batches != []
    ensures BlocksFor(n, batches, blocks)
  {
    assert |multiset(blocks)| == |blocks| && |multiset(singles + sorted)| == |singles + sorted|;
    forall b | b in blocks
      ensures Ascending(b) && FromBatches(b, n, batches) && b != []
    {
      assert b in multiset(singles + sorted);
      OneBlock(n, batches, singles, sorted, b);
    }
    FlattenPermuted(singles + sorted, blocks);
    FlattenAppend(singles, sorted);
    assert batches[..|batches|] == batches;
    Covers(n, Concat(batches), Flatten(singles), Flatten(sorted), Flatten(blocks));
  }

  lemma Covers(n: nat, concat: seq<int>, front: seq<nat>, back: seq<nat>, all: seq<nat>)
    requires Distinct(concat) && forall x :: x in concat ==> 0 <= x < n
    requires Distinct(front) && forall x: nat :: x in front <==> x < n && x !in concat
    requires multiset(back) == multiset(concat) && multiset(front + back) == multiset(all)
    ensures Distinct(all) && forall x: nat :: x in all <==> x < n
  {
    MultisetDistinct(concat, back);
    DistinctAppend(front, back);
    MultisetDistinct(front + back, all);
    forall x: nat ensures x in all <==> x < n {
      assert x in front + back <==> x in front || x in back;
    }
  }

  lemma OneBlock(n: nat, batches: seq<seq<int>>, singles: seq<seq<nat>>, sorted: seq<seq<nat>>, b: seq<nat>)
    requires Claimed(n, batches, |batches|, sorted, Members(Concat(batches)))
    requires Singles(n, Members(Concat(batches)), singles) && b in singles + sorted
    ensures Ascending(b) && FromBatches(b, n, batches) && b != []
  {
    assert batches[..|batches|] == batches;
    if b !in singles {
      var j :| 0 <= j < |sorted| && sorted[j] == b;
      assert |multiset(b)| == |b| && |multiset(batches[j])| == |batches[j]|;
    }
  }
}
