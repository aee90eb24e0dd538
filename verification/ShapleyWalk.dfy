/** The temporal Shapley walk of `shapley_rank`.

    A coalition's flip rate is estimated afresh every time it is asked for, so a `Game` also takes the
    number of estimates made before; `None` is an estimate all of whose trials were UNDEFINED. */
module ShapleyWalk {
  import opened Seqs

  type Game = (nat, set<nat>) -> Option<real>

  /** An all-UNDEFINED estimate holds the walk at its prior value. */
  function Held(estimate: Option<real>, prior: real): real {
    if estimate.Some? then estimate.value else prior
  }

  // ---- one internal join order ----------------------------------------------------------------------------

  /** The walk's value after the first `p` members of `order` have joined `coalition`. */
  function Level(g: Game, clock: nat, coalition: set<nat>, base: real, order: seq<nat>, p: nat): real
    requires p <= |order|
  {
    if p == 0 then base
    else Held(g(clock + p - 1, coalition + Members(order[..p])), Level(g, clock, coalition, base, order, p - 1))
  }

  function IndexOf(order: seq<nat>, x: nat): (i: nat)
    requires x in order
    ensures i < |order| && order[i] == x
    ensures forall j :: 0 <= j < i ==> order[j] != x
  {
    if order[0] == x then 0 else 1 + IndexOf(order[1..], x)
  }

  /** What `x` adds when it joins in its place in `order`. */
  function Marginal(g: Game, clock: nat, coalition: set<nat>, base: real, order: seq<nat>, x: nat): real
    requires x in order
  {
    var p := IndexOf(order, x);
    Level(g, clock, coalition, base, order, p + 1) - Level(g, clock, coalition, base, order, p)
  }

  function EndLevel(g: Game, clock: nat, coalition: set<nat>, base: real, order: seq<nat>): real {
    Level(g, clock, coalition, base, order, |order|)
  }

  // ---- all internal join orders of a block ----------------------------------------------------------------

  /** `itertools.permutations`, in its order. */
  function Permutations(s: seq<nat>): (r: seq<seq<nat>>)
    ensures r != []
    decreases |s|, |s| + 1
  {
    if s == [] then [[]] else PermutationsFrom(s, s)
  }

  /** The permutations of `s` that start with a member of `heads`. */
  function PermutationsFrom(s: seq<nat>, heads: seq<nat>): (r: seq<seq<nat>>)
    requires forall h :: h in heads ==> h in s
    ensures heads != [] ==> r != []
    decreases |s|, |heads|
  {
    if heads == [] then []
    else Prepend(heads[0], Permutations(Without(s, heads[0]))) + PermutationsFrom(s, heads[1..])
  }

  function Prepend(x: nat, lists: seq<seq<nat>>): (r: seq<seq<nat>>)
    ensures |r| == |lists| && forall i :: 0 <= i < |r| ==> r[i] == [x] + lists[i]
  {
    seq(|lists|, i requires 0 <= i < |lists| => [x] + lists[i])
  }

  ghost predicate AllPermute(orders: seq<seq<nat>>, s: seq<nat>) {
    forall o :: o in orders ==> Permutes(o, s)
  }

  ghost predicate Permutes(o: seq<nat>, s: seq<nat>) {
    multiset(o) == multiset(s)
  }

  lemma {:induction false} PermutationsPermute(s: seq<nat>)
    ensures AllPermute(Permutations(s), s)
    decreases |s|, |s| + 1
  {
    if s != [] {
      PermutationsFromPermute(s, s);
    }
  }

  lemma {:induction false} PermutationsFromPermute(s: seq<nat>, heads: seq<nat>)
    requires forall h :: h in heads ==> h in s
    ensures AllPermute(PermutationsFrom(s, heads), s)
    decreases |s|, |heads|
  {
    if heads != [] {
      var rest := Permutations(Without(s, heads[0]));
      PermutationsPermute(Without(s, heads[0]));
      PermutationsFromPermute(s, heads[1..]);
      forall o | o in Prepend(heads[0], rest) ensures Permutes(o, s) {
        var i :| 0 <= i < |rest| && o == [heads[0]] + rest[i];
        assert Permutes(rest[i], Without(s, heads[0]));
        assert o == [heads[0]] + rest[i];
      }
    }
  }

  lemma {:induction false} PermutationsCount(s: seq<nat>)
    ensures |Permutations(s)| == Factorial(|s|)
    decreases |s|
  {
    if s != [] {
      forall w: seq<nat> | |w| == |s| - 1 ensures |Permutations(w)| == Factorial(|s| - 1) {
        PermutationsCount(w);
      }
      PermutationsFromCount(s, s, Factorial(|s| - 1));
    }
  }

  lemma {:induction false} PermutationsFromCount(s: seq<nat>, heads: seq<nat>, f: nat)
    requires s != [] && forall h :: h in heads ==> h in s
    requires forall w: seq<nat> :: |w| == |s| - 1 ==> |Permutations(w)| == f
    ensures |PermutationsFrom(s, heads)| == |heads| * f
  {
    if heads != [] {
      assert |Without(s, heads[0])| == |s| - 1;
      PermutationsFromCount(s, heads[1..], f);
      OneHeadMore(s, heads);
      OneMoreTime(|heads[1..]|, f);
    }
  }

  lemma OneHeadMore(s: seq<nat>, heads: seq<nat>)
    requires heads != [] && forall h :: h in heads ==> h in s
    ensures |PermutationsFrom(s, heads)| == |Permutations(Without(s, heads[0]))| + |PermutationsFrom(s, heads[1..])|
    ensures |heads| == |heads[1..]| + 1
  {
  }

  lemma OneMoreTime(k: nat, f: nat)
    ensures f + k * f == (k + 1) * f
  {
  }

  /** No join order is listed twice. */
  lemma {:induction false} PermutationsDistinct(s: seq<nat>)
    requires Distinct(s)
    ensures Distinct(Permutations(s))
    decreases |s|, |s| + 1
  {
    if s != [] {
      PermutationsFromDistinct(s, s);
    }
  }

  lemma {:induction false} PermutationsFromDistinct(s: seq<nat>, heads: seq<nat>)
    requires Distinct(s) && Distinct(heads) && forall h :: h in heads ==> h in s
    ensures Distinct(PermutationsFrom(s, heads))
    ensures forall o :: o in PermutationsFrom(s, heads) ==> o != [] && o[0] in heads
    decreases |s|, |heads|
  {
    if heads != [] {
      var front := Prepend(heads[0], Permutations(Without(s, heads[0])));
      var back := PermutationsFrom(s, heads[1..]);
      WithoutMembers(s, heads[0]);
      PermutationsDistinct(Without(s, heads[0]));
      assert Distinct(heads[1..]);
      PermutationsFromDistinct(s, heads[1..]);
      forall i, j | 0 <= i < j < |front| ensures front[i] != front[j] {
        assert front[i][1..] == Permutations(Without(s, heads[0]))[i];
        assert front[j][1..] == Permutations(Without(s, heads[0]))[j];
      }
      forall i, j | 0 <= i < |front| && 0 <= j < |back| ensures front[i] != back[j] {
        assert back[j] in back;
        assert front[i][0] == heads[0];
        assert heads[0] !in heads[1..];
      }
    }
  }

  ghost predicate StrictlyAscending(s: seq<nat>) {
    forall i, j :: 0 <= i < j < |s| ==> s[i] < s[j]
  }

  /** `a` comes before `b` in the lexicographic order of equally long lists. */
  ghost predicate Earlier(a: seq<nat>, b: seq<nat>) {
    exists i :: EarlierFrom(a, b, i)
  }

  ghost predicate EarlierFrom(a: seq<nat>, b: seq<nat>, i: int) {
    0 <= i < |a| && i < |b| && a[..i] == b[..i] && a[i] < b[i]
  }

  ghost predicate InLexicographicOrder(orders: seq<seq<nat>>) {
    forall i, j :: 0 <= i < j < |orders| ==> Earlier(orders[i], orders[j])
  }

  lemma EarlierTail(x: nat, a: seq<nat>, b: seq<nat>)
    requires Earlier(a, b)
    ensures Earlier([x] + a, [x] + b)
  {
    var i :| EarlierFrom(a, b, i);
    assert ([x] + a)[..i + 1] == [x] + a[..i] && ([x] + b)[..i + 1] == [x] + b[..i];
    assert EarlierFrom([x] + a, [x] + b, i + 1);
  }

  lemma EarlierHead(a: seq<nat>, b: seq<nat>)
    requires a != [] && b != [] && a[0] < b[0]
    ensures Earlier(a, b)
  {
    assert EarlierFrom(a, b, 0);
  }

  lemma {:induction false} WithoutAscends(s: seq<nat>, x: nat)
    requires StrictlyAscending(s) && x in s
    ensures StrictlyAscending(Without(s, x))
  {
    if s[0] != x {
      assert s[1..] != [] && x in s[1..];
      WithoutAscends(s[1..], x);
      assert Without(s, x) == [s[0]] + Without(s[1..], x);
      forall i | 0 <= i < |Without(s[1..], x)| ensures s[0] < Without(s[1..], x)[i] {
        assert Without(s[1..], x)[i] in multiset(s[1..]);
      }
    }
  }

  /** The join orders of an ascending block are walked in lexicographic order: the last one is the descending one. */
  lemma {:induction false} PermutationsInOrder(s: seq<nat>)
    requires StrictlyAscending(s)
    ensures InLexicographicOrder(Permutations(s))
    decreases |s|, |s| + 1
  {
    if s != [] {
      PermutationsFromInOrder(s, s);
    }
  }

  lemma {:induction false} PermutationsFromInOrder(s: seq<nat>, heads: seq<nat>)
    requires StrictlyAscending(s) && StrictlyAscending(heads) && forall h :: h in heads ==> h in s
    ensures InLexicographicOrder(PermutationsFrom(s, heads))
    ensures forall o :: o in PermutationsFrom(s, heads) ==> o != [] && o[0] in heads
    decreases |s|, |heads|
  {
    if heads != [] {
      var rest := Permutations(Without(s, heads[0]));
      WithoutAscends(s, heads[0]);
      PermutationsInOrder(Without(s, heads[0]));
      assert StrictlyAscending(heads[1..]);
      PermutationsFromInOrder(s, heads[1..]);
      PrependInOrder(heads[0], rest);
      HeadsInOrder(heads, Prepend(heads[0], rest), PermutationsFrom(s, heads[1..]));
    }
  }

  lemma PrependInOrder(x: nat, lists: seq<seq<nat>>)
    requires InLexicographicOrder(lists)
    ensures InLexicographicOrder(Prepend(x, lists))
  {
    forall i, j | 0 <= i < j < |lists| ensures Earlier(Prepend(x, lists)[i], Prepend(x, lists)[j]) {
      EarlierTail(x, lists[i], lists[j]);
    }
  }

  lemma HeadsInOrder(heads: seq<nat>, front: seq<seq<nat>>, back: seq<seq<nat>>)
    requires heads != [] && StrictlyAscending(heads) && InLexicographicOrder(front) && InLexicographicOrder(back)
    requires forall o :: o in front ==> o != [] && o[0] == heads[0]
    requires forall o :: o in back ==> o != [] && o[0] in heads[1..]
    ensures InLexicographicOrder(front + back)
  {
    forall i, j | 0 <= i < |front| && 0 <= j < |back| ensures Earlier(front[i], back[j]) {
      assert front[i] in front && back[j] in back;
      var k :| 0 <= k < |heads[1..]| && heads[1..][k] == back[j][0];
      assert heads[0] < heads[k + 1];
      EarlierHead(front[i], back[j]);
    }
  }

  /** The estimates made before join order `i` when each takes `width` of them. */
  function StartOf(clock: nat, i: nat, width: nat): nat {
    if i == 0 then clock else StartOf(clock, i - 1, width) + width
  }

  /** Every member's marginal under each of `orders`; each order is walked after the previous one. */
  function Marginals(
    g: Game, clock: nat, coalition: set<nat>, base: real, orders: seq<seq<nat>>, width: nat, x: nat)
    : (r: seq<real>)
    requires forall o :: o in orders ==> x in o
    ensures |r| == |orders|
  {
    if orders == [] then []
    else
      var last := |orders| - 1;
      Marginals(g, clock, coalition, base, orders[..last], width, x)
      + [Marginal(g, StartOf(clock, last, width), coalition, base, orders[last], x)]
  }

  datatype Sample = Sample(marginal: real, full: real, base: real)

  lemma InEveryOrder(block: seq<nat>)
    ensures forall o, x :: o in Permutations(block) && x in block ==> x in o
    ensures forall o :: o in Permutations(block) ==> |o| == |block| && Members(o) == Members(block)
  {
    PermutationsPermute(block);
    forall o | o in Permutations(block)
      ensures |o| == |block| && Members(o) == Members(block)
      ensures forall x :: x in block ==> x in o
    {
      assert Permutes(o, block);
      assert |multiset(o)| == |o| && |multiset(block)| == |block|;
      assert forall x :: x in o <==> x in multiset(o);
      assert forall x :: x in block <==> x in multiset(block);
    }
  }

  /** The value the walk holds after a block: where the last of its orders ended. */
  function BlockEnd(g: Game, clock: nat, coalition: set<nat>, base: real, block: seq<nat>): real {
    var orders := Permutations(block);
    EndLevel(g, StartOf(clock, |orders| - 1, |block|), coalition, base, orders[|orders| - 1])
  }

  function BlockMarginal(g: Game, clock: nat, coalition: set<nat>, base: real, block: seq<nat>, x: nat): real
    requires x in block
  {
    InEveryOrder(block);
    Mean(Marginals(g, clock, coalition, base, Permutations(block), |block|, x))
  }

  // ---- one repeat -----------------------------------------------------------------------------------------

  datatype Walk = Walk(clock: nat, coalition: set<nat>, base: real, samples: map<nat, Sample>)

  function BlockSamples(g: Game, w: Walk, block: seq<nat>): map<nat, Sample> {
    map x | x in block :: Sample(BlockMarginal(g, w.clock, w.coalition, w.base, block, x),
                                 BlockEnd(g, w.clock, w.coalition, w.base, block), w.base)
  }

  function AfterBlock(g: Game, w: Walk, block: seq<nat>): Walk {
    Walk(StartOf(w.clock, |Permutations(block)|, |block|),
         w.coalition + Members(block),
         BlockEnd(g, w.clock, w.coalition, w.base, block),
         w.samples + BlockSamples(g, w, block))
  }

  function WalkBlocks(g: Game, clock: nat, blocks: seq<seq<nat>>): Walk {
    if blocks == [] then Walk(clock, {}, 0.0, map[])
    else AfterBlock(g, WalkBlocks(g, clock, blocks[..|blocks| - 1]), blocks[|blocks| - 1])
  }

  // ---- all repeats ----------------------------------------------------------------------------------------

  function Repeats(g: Game, blocks: seq<seq<nat>>, m: nat): (r: seq<Walk>)
    ensures |r| == m
  {
    if m == 0 then []
    else
      var before := Repeats(g, blocks, m - 1);
      before + [WalkBlocks(g, if m == 1 then 0 else before[m - 2].clock, blocks)]
  }

  /** The blocks list every step below `n` exactly once, and none is empty. */
  ghost predicate Partition(n: nat, blocks: seq<seq<nat>>) {
    && (forall b :: b in blocks ==> b != [])
    && Distinct(Flatten(blocks))
    && forall x: nat :: x in Flatten(blocks) <==> x < n
  }

  function Flatten(blocks: seq<seq<nat>>): seq<nat> {
    if blocks == [] then [] else Flatten(blocks[..|blocks| - 1]) + blocks[|blocks| - 1]
  }

  lemma {:induction false} InFlatten(blocks: seq<seq<nat>>, i: nat, x: nat)
    requires i < |blocks| && x in blocks[i]
    ensures x in Flatten(blocks)
  {
    if i < |blocks| - 1 {
      InFlatten(blocks[..|blocks| - 1], i, x);
    }
  }

  lemma {:induction false} Sampled(g: Game, clock: nat, blocks: seq<seq<nat>>)
    ensures WalkBlocks(g, clock, blocks).samples.Keys == Members(Flatten(blocks))
    ensures WalkBlocks(g, clock, blocks).coalition == Members(Flatten(blocks))
  {
    if blocks != [] {
      Sampled(g, clock, blocks[..|blocks| - 1]);
    }
  }
}
