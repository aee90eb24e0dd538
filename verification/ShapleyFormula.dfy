/** A block's credits are the exact Shapley values of its local game.

    For a deterministic, defined rate the average of a member's marginals over all join orders equals the
    subset-weighted formula. The axioms follow: a null member gets nothing, interchangeable members get the
    same, and the members together get what the whole block adds. */
module ShapleyFormula {
  import opened Seqs
  import opened ShapleyWalk
  import ShapleyEfficiency

  type Value = set<nat> -> real

  /** The walk meets only estimates that agree with `v` when it adds `block` to `coalition`. */
  ghost predicate Exact(g: Game, v: Value, coalition: set<nat>, base: real, block: seq<nat>) {
    && base == v(coalition)
    && forall clock: nat, s: set<nat> :: s <= Members(block) && s != {} ==> g(clock, coalition + s) == Some(v(coalition + s))
  }

  function Gain(v: Value, s: set<nat>, x: nat): real {
    v(s + {x}) - v(s)
  }

  // ---- the subset formula ---------------------------------------------------------------------------------

  function AddTo(y: nat, sets: seq<set<nat>>): (r: seq<set<nat>>)
    ensures |r| == |sets| && forall i :: 0 <= i < |r| ==> r[i] == sets[i] + {y}
  {
    seq(|sets|, i requires 0 <= i < |sets| => sets[i] + {y})
  }

  function Subsets(s: seq<nat>): seq<set<nat>> {
    if s == [] then [{}] else Subsets(s[1..]) + AddTo(s[0], Subsets(s[1..]))
  }

  lemma AddedBack(y: nat, sets: seq<set<nat>>, t: set<nat>)
    requires forall s :: s in sets ==> y !in s
    ensures t in AddTo(y, sets) <==> y in t && t - {y} in sets
  {
    var added := AddTo(y, sets);
    if t in added {
      var i :| 0 <= i < |added| && added[i] == t;
      assert t - {y} == sets[i];
    }
    if y in t && t - {y} in sets {
      var i :| 0 <= i < |sets| && sets[i] == t - {y};
      assert added[i] == t;
    }
  }

  /** `Subsets` lists every subset, and none twice. */
  lemma {:induction false} SubsetsAreAll(s: seq<nat>)
    requires Distinct(s)
    ensures forall t :: t in Subsets(s) <==> t <= Members(s)
  {
    if s == [] {
      assert Members(s) == {} && Subsets(s) == [{}];
      assert forall t :: t <= Members(s) <==> t == {};
    } else {
      var y, rest := s[0], s[1..];
      SubsetsAreAll(rest);
      assert Members(s) == {y} + Members(rest) && y !in rest;
      var front, back := Subsets(rest), AddTo(y, Subsets(rest));
      forall t ensures t in Subsets(s) <==> t <= Members(s) {
        AddedBack(y, front, t);
        assert Subsets(s) == front + back;
        assert t in Subsets(s) <==> t in front || t in back;
        assert y in t ==> (t - {y} <= Members(rest) <==> t <= Members(s));
        assert y !in t ==> (t <= Members(rest) <==> t <= Members(s));
      }
    }
  }

  lemma {:induction false} SubsetsDistinct(s: seq<nat>)
    requires Distinct(s)
    ensures Distinct(Subsets(s))
  {
    if s != [] {
      var y, rest := s[0], s[1..];
      SubsetsDistinct(rest);
      var front, back := Subsets(rest), AddTo(y, Subsets(rest));
      SubsetsAreAll(rest);
      forall i | 0 <= i < |front| ensures y !in front[i] {
        assert front[i] in front;
      }
      forall i, j | 0 <= i < j < |back| ensures back[i] != back[j] {
        assert back[i] - {y} == front[i] && back[j] - {y} == front[j];
      }
    }
  }

  /** |S|! (b - 1 - |S|)! */
  function ShapleyWeight(b: nat, k: nat): nat {
    if k < b then Factorial(k) * Factorial(b - 1 - k) else 0
  }

  /** What a coalition `s` of `k` others contributes to the formula. */
  function Weighted(v: Value, b: nat, x: nat): (nat, set<nat>) -> real {
    Scaled(v, Weights(b), x)
  }

  function Weights(b: nat): nat -> nat {
    (k: nat) => ShapleyWeight(b, k)
  }

  function Scaled(v: Value, weight: nat -> nat, x: nat): (nat, set<nat>) -> real {
    (k: nat, s: set<nat>) => Times(weight(k), Gain(v, s, x))
  }

  function Term(v: Value, coalition: set<nat>, weight: nat -> nat, x: nat): set<nat> -> real {
    (s: set<nat>) => weight(|s|) as real * Gain(v, coalition + s, x)
  }

  /** The Shapley value of `x` in the local game of `block` over `coalition`. */
  function Formula(v: Value, coalition: set<nat>, block: seq<nat>, x: nat): real {
    SumBy(Subsets(Without(block, x)), Term(v, coalition, Weights(|block|), x)) / Factorial(|block|) as real
  }

  /** The order of the list does not matter: over any listing of the coalitions of the other members, each once, the
      formula is the same sum. */
  lemma FormulaIsOverAllCoalitions(
    v: Value, coalition: set<nat>, block: seq<nat>, x: nat, listing: seq<set<nat>>)
    requires Distinct(block) && x in block
    requires Distinct(listing) && forall t :: t in listing <==> t <= Members(block) - {x}
    ensures Formula(v, coalition, block, x)
         == SumBy(listing, Term(v, coalition, Weights(|block|), x)) / Factorial(|block|) as real
  {
    var others := Without(block, x);
    WithoutMembers(block, x);
    SubsetsAreAll(others);
    SubsetsDistinct(others);
    forall t ensures t in Members(Subsets(others)) <==> t in Members(listing) {
      assert t in Subsets(others) <==> t in listing;
    }
    SameMembersPermuted(Subsets(others), listing);
    SumByPermuted(Subsets(others), listing, Term(v, coalition, Weights(|block|), x));
  }

  // ---- the same sum, one player at a time -----------------------------------------------------------------

  type Terms = (nat, set<nat>) -> real

  /** The sum of `f` over the subsets of `others` added to `s`, which already counts `k` players. */
  function SubsetSum(f: Terms, s: set<nat>, others: seq<nat>, k: nat): real
    decreases |others|
  {
    if others == [] then f(k, s)
    else SubsetSum(f, s, others[1..], k) + SubsetSum(f, s + {others[0]}, others[1..], k + 1)
  }

  function Sized(f: Terms, s: set<nat>, k: nat): set<nat> -> real {
    (t: set<nat>) => f(k + |t|, s + t)
  }

  lemma {:induction false} SubsetSumIsSum(f: Terms, s: set<nat>, others: seq<nat>, k: nat)
    requires Distinct(others)
    ensures SumBy(Subsets(others), Sized(f, s, k)) == SubsetSum(f, s, others, k)
    decreases |others|
  {
    if others == [] {
      assert Subsets(others) == [{}] && Subsets(others)[1..] == [] && s + {} == s;
    } else {
      var y, rest := others[0], others[1..];
      var subsets := Subsets(rest);
      SubsetSumIsSum(f, s, rest, k);
      SubsetSumIsSum(f, s + {y}, rest, k + 1);
      SumByAppend(subsets, AddTo(y, subsets), Sized(f, s, k));
      SubsetsAreAll(rest);
      SumOverAdded(f, s, subsets, y, k);
    }
  }

  lemma SizedAdded(f: Terms, s: set<nat>, t: set<nat>, y: nat, k: nat)
    requires y !in t
    ensures Sized(f, s, k)(t + {y}) == Sized(f, s + {y}, k + 1)(t)
  {
    var u := t + {y};
    AddedUnion(s, t, y);
    assert |u| == |t| + 1;
    assert Sized(f, s, k)(u) == f(k + |u|, s + u);
    assert Sized(f, s + {y}, k + 1)(t) == f(k + 1 + |t|, s + {y} + t);
  }

  lemma AddedUnion(s: set<nat>, t: set<nat>, y: nat)
    ensures s + (t + {y}) == s + {y} + t
  {
  }

  lemma {:induction false} SumOverAdded(f: Terms, s: set<nat>, sets: seq<set<nat>>, y: nat, k: nat)
    requires forall t :: t in sets ==> y !in t
    ensures SumBy(AddTo(y, sets), Sized(f, s, k)) == SumBy(sets, Sized(f, s + {y}, k + 1))
  {
    if sets != [] {
      var added := AddTo(y, sets);
      SumOverAdded(f, s, sets[1..], y, k);
      assert added[1..] == AddTo(y, sets[1..]);
      assert added[0] == sets[0] + {y};
      SizedAdded(f, s, sets[0], y, k);
    }
  }

  lemma {:induction false} SubsetSumAdd(a: Terms, b: Terms, c: Terms, s: set<nat>, others: seq<nat>, k: nat)
    requires forall j, t :: k <= j <= k + |others| ==> c(j, t) == a(j, t) + b(j, t)
    ensures SubsetSum(c, s, others, k) == SubsetSum(a, s, others, k) + SubsetSum(b, s, others, k)
    decreases |others|
  {
    if others != [] {
      SubsetSumAdd(a, b, c, s, others[1..], k);
      SubsetSumAdd(a, b, c, s + {others[0]}, others[1..], k + 1);
    }
  }

  /** Renumbering the sizes. */
  lemma {:induction false} SubsetSumShift(a: Terms, b: Terms, s: set<nat>, others: seq<nat>, k: nat)
    requires forall j, t :: k <= j <= k + |others| ==> a(j, t) == b(j + 1, t)
    ensures SubsetSum(a, s, others, k) == SubsetSum(b, s, others, k + 1)
    decreases |others|
  {
    if others != [] {
      SubsetSumShift(a, b, s, others[1..], k);
      SubsetSumShift(a, b, s + {others[0]}, others[1..], k + 1);
    }
  }

  /** Terms that vanish on all but the smallest subset. */
  lemma {:induction false} SubsetSumFirstOnly(f: Terms, s: set<nat>, others: seq<nat>, k: nat)
    requires forall j, t :: k < j <= k + |others| ==> f(j, t) == 0.0
    ensures SubsetSum(f, s, others, k) == f(k, s)
    decreases |others|
  {
    if others != [] {
      SubsetSumFirstOnly(f, s, others[1..], k);
      SubsetSumFirstOnly(f, s + {others[0]}, others[1..], k + 1);
    }
  }

  function ByHead(f: Terms, s: set<nat>, others: seq<nat>, k: nat): nat -> real {
    (y: nat) => SubsetSum(f, s + {y}, Without(others, y), k + 1)
  }

  /** Each term as often as its set has members beyond the first `k`. */
  function PerMember(f: Terms, k: nat): Terms {
    (j: nat, t: set<nat>) => if j < k then 0.0 else Times(j - k, f(j, t))
  }

  /** Picking a head and then a subset of the rest reaches each subset once per member. */
  lemma {:induction false} HeadsCountMembers(f: Terms, s: set<nat>, others: seq<nat>, k: nat)
    requires Distinct(others)
    ensures SumBy(others, ByHead(f, s, others, k)) == SubsetSum(PerMember(f, k), s, others, k)
    decreases |others|
  {
    if others == [] {
      NoMembers(f, s, k);
    } else {
      HeadsCountMembers(f, s, others[1..], k);
      HeadsCountMembers(f, s + {others[0]}, others[1..], k + 1);
      OneMoreHead(f, s, others, k);
    }
  }

  lemma OneMoreHead(f: Terms, s: set<nat>, others: seq<nat>, k: nat)
    requires Distinct(others) && others != []
    requires SumBy(others[1..], ByHead(f, s, others[1..], k)) == SubsetSum(PerMember(f, k), s, others[1..], k)
    requires var t := s + {others[0]};
             SumBy(others[1..], ByHead(f, t, others[1..], k + 1)) == SubsetSum(PerMember(f, k + 1), t, others[1..], k + 1)
    ensures SumBy(others, ByHead(f, s, others, k)) == SubsetSum(PerMember(f, k), s, others, k)
  {
    HeadsSplit(f, s, others, k);
    OneMoreMember(f, s + {others[0]}, others[1..], k);
    SplitOff(PerMember(f, k), s, others, k);
  }

  lemma NoMembers(f: Terms, s: set<nat>, k: nat)
    ensures SubsetSum(PerMember(f, k), s, [], k) == 0.0
  {
    assert PerMember(f, k)(k, s) == Times(0, f(k, s)) == 0.0;
  }

  lemma SplitOff(f: Terms, s: set<nat>, others: seq<nat>, k: nat)
    requires others != []
    ensures SubsetSum(f, s, others, k)
         == SubsetSum(f, s, others[1..], k) + SubsetSum(f, s + {others[0]}, others[1..], k + 1)
  {
  }

  lemma OneMoreMember(f: Terms, s: set<nat>, others: seq<nat>, k: nat)
    ensures SubsetSum(PerMember(f, k), s, others, k + 1)
         == SubsetSum(f, s, others, k + 1) + SubsetSum(PerMember(f, k + 1), s, others, k + 1)
  {
    SubsetSumAdd(f, PerMember(f, k + 1), PerMember(f, k), s, others, k + 1);
  }

  lemma HeadsSplit(f: Terms, s: set<nat>, others: seq<nat>, k: nat)
    requires Distinct(others) && others != []
    ensures var y, rest := others[0], others[1..];
            SumBy(others, ByHead(f, s, others, k)) ==
            SubsetSum(f, s + {y}, rest, k + 1)
            + SumBy(rest, ByHead(f, s, rest, k)) + SumBy(rest, ByHead(f, s + {y}, rest, k + 1))
  {
    var y, rest := others[0], others[1..];
    var all := ByHead(f, s, others, k);
    var a, b := ByHead(f, s, rest, k), ByHead(f, s + {y}, rest, k + 1);
    forall z | z in rest ensures all(z) == a(z) + b(z) {
      LaterHead(f, s, others, k, z);
    }
    SumByAdd(rest, a, b, all);
    assert Without(others, y) == rest;
  }

  lemma LaterHead(f: Terms, s: set<nat>, others: seq<nat>, k: nat, z: nat)
    requires Distinct(others) && others != [] && z in others[1..]
    ensures var y, rest := others[0], others[1..];
            ByHead(f, s, others, k)(z) == ByHead(f, s, rest, k)(z) + ByHead(f, s + {y}, rest, k + 1)(z)
  {
    var y, rest := others[0], others[1..];
    var w := Without(rest, z);
    assert Without(others, z) == [y] + w;
    assert ([y] + w)[1..] == w;
    assert s + {z} + {y} == s + {y} + {z};
  }

  // ---- sums over join orders ------------------------------------------------------------------------------

  function Before(order: seq<nat>, x: nat): set<nat>
    requires x in order
  {
    Members(order[..IndexOf(order, x)])
  }

  function GainIn(v: Value, coalition: set<nat>, x: nat): seq<nat> -> real {
    (order: seq<nat>) => if x in order then Gain(v, coalition + Before(order, x), x) else 0.0
  }

  lemma BeforeHead(v: Value, coalition: set<nat>, order: seq<nat>, x: nat)
    requires x in order
    ensures GainIn(v, coalition, x)(order)
         == if order[0] == x then Gain(v, coalition, x) else GainIn(v, coalition + {order[0]}, x)(order[1..])
  {
    if order[0] == x {
      assert Before(order, x) == {} && coalition + {} == coalition;
    } else {
      var i := IndexOf(order[1..], x);
      assert order[..i + 1] == [order[0]] + order[1..][..i];
      assert coalition + Before(order, x) == coalition + {order[0]} + Before(order[1..], x);
    }
  }

  lemma {:induction false} SumOverPrepended(v: Value, coalition: set<nat>, x: nat, y: nat, orders: seq<seq<nat>>)
    requires y == x || forall o :: o in orders ==> x in o
    ensures SumBy(Prepend(y, orders), GainIn(v, coalition, x))
         == if y == x then Times(|orders|, Gain(v, coalition, x)) else SumBy(orders, GainIn(v, coalition + {y}, x))
  {
    if orders != [] {
      var all := Prepend(y, orders);
      assert all[1..] == Prepend(y, orders[1..]);
      SumOverPrepended(v, coalition, x, y, orders[1..]);
      BeforeHead(v, coalition, all[0], x);
      assert all[0][1..] == orders[0];
    }
  }

  function OrderSum(v: Value, coalition: set<nat>, s: seq<nat>, x: nat): real {
    SumBy(Permutations(s), GainIn(v, coalition, x))
  }

  /** What the orders starting with `y` contribute. */
  function HeadTerm(v: Value, coalition: set<nat>, s: seq<nat>, x: nat): nat -> real {
    (y: nat) => if y == x then Times(Factorial(if s == [] then 0 else |s| - 1), Gain(v, coalition, x))
                else OrderSum(v, coalition + {y}, Without(s, y), x)
  }

  lemma StillIn(s: seq<nat>, x: nat, y: nat)
    requires Distinct(s) && x in s && y in s && x != y
    ensures x in Without(s, y)
  {
    WithoutMembers(s, y);
    assert x in Members(Without(s, y));
  }

  lemma OrdersFrom(v: Value, coalition: set<nat>, s: seq<nat>, x: nat, y: nat)
    requires Distinct(s) && x in s && y in s
    ensures SumBy(Prepend(y, Permutations(Without(s, y))), GainIn(v, coalition, x)) == HeadTerm(v, coalition, s, x)(y)
  {
    var rest := Without(s, y);
    PermutationsCount(rest);
    if x != y {
      StillIn(s, x, y);
    }
    InEveryOrder(rest);
    SumOverPrepended(v, coalition, x, y, Permutations(rest));
  }

  lemma {:induction false} SumByFirst(v: Value, coalition: set<nat>, s: seq<nat>, x: nat, heads: seq<nat>)
    requires Distinct(s) && x in s && forall y :: y in heads ==> y in s
    ensures SumBy(PermutationsFrom(s, heads), GainIn(v, coalition, x)) == SumBy(heads, HeadTerm(v, coalition, s, x))
  {
    if heads != [] {
      var y := heads[0];
      SumByFirst(v, coalition, s, x, heads[1..]);
      SumByAppend(Prepend(y, Permutations(Without(s, y))), PermutationsFrom(s, heads[1..]), GainIn(v, coalition, x));
      OrdersFrom(v, coalition, s, x, y);
    }
  }

  lemma TakeOut(s: seq<nat>, x: nat, f: nat -> real)
    requires x in s
    ensures SumBy(s, f) == f(x) + SumBy(Without(s, x), f)
  {
    var t := [x] + Without(s, x);
    assert multiset(t) == multiset(s);
    SumByPermuted(s, t, f);
    assert t[1..] == Without(s, x);
  }

  lemma WeightStep(b: nat, k: nat)
    requires 0 < k < b
    ensures ShapleyWeight(b, k) == k * ShapleyWeight(b - 1, k - 1)
  {
    var p, q := Factorial(k - 1), Factorial(b - 1 - k);
    assert Factorial(k) == k * p;
    assert (k * p) * q == k * (p * q);
  }

  /** The terms of a smaller game, renumbered. */
  function Smaller(v: Value, b: nat, x: nat): Terms {
    (k: nat, s: set<nat>) => if k == 0 || b == 0 then 0.0 else Weighted(v, b - 1, x)(k - 1, s)
  }

  function EmptyTerm(v: Value, b: nat, x: nat): Terms {
    (k: nat, s: set<nat>) => if k == 0 && b > 0 then Times(Factorial(b - 1), Gain(v, s, x)) else 0.0
  }

  lemma WeightedSplits(v: Value, b: nat, x: nat, k: nat, s: set<nat>)
    requires k < b
    ensures Weighted(v, b, x)(k, s) == PerMember(Smaller(v, b, x), 0)(k, s) + EmptyTerm(v, b, x)(k, s)
  {
    var d := Gain(v, s, x);
    assert Weighted(v, b, x)(k, s) == Times(ShapleyWeight(b, k), d);
    if k == 0 {
      assert ShapleyWeight(b, 0) == Factorial(0) * Factorial(b - 1) == Factorial(b - 1);
      assert EmptyTerm(v, b, x)(k, s) == Times(Factorial(b - 1), d);
      assert Times(0, Smaller(v, b, x)(k, s)) == 0.0;
      assert PerMember(Smaller(v, b, x), 0)(k, s) == Times(0, Smaller(v, b, x)(k, s));
    } else {
      WeightStep(b, k);
      TimesTimes(k, ShapleyWeight(b - 1, k - 1), d);
      assert Smaller(v, b, x)(k, s) == Weighted(v, b - 1, x)(k - 1, s);
      assert Weighted(v, b - 1, x)(k - 1, s) == Times(ShapleyWeight(b - 1, k - 1), d);
    }
  }

  lemma {:induction false} TimesPlus(j: nat, k: nat, x: real)
    ensures Times(j + k, x) == Times(j, x) + Times(k, x)
  {
    if k > 0 {
      TimesPlus(j, k - 1, x);
    }
  }

  lemma {:induction false} TimesTimes(j: nat, k: nat, x: real)
    ensures Times(j * k, x) == Times(j, Times(k, x))
  {
    if j > 0 {
      TimesTimes(j - 1, k, x);
      assert j * k == (j - 1) * k + k;
      TimesPlus((j - 1) * k, k, x);
    }
  }

  /** The sum of a member's gains over all join orders is the weighted sum over subsets of the others. */
  lemma {:induction false} OrderSumIsSubsetSum(v: Value, coalition: set<nat>, s: seq<nat>, x: nat)
    requires Distinct(s) && x in s
    ensures OrderSum(v, coalition, s, x) == SubsetSum(Weighted(v, |s|, x), coalition, Without(s, x), 0)
    decreases |s|, 1
  {
    var b, others := |s|, Without(s, x);
    var term, f := HeadTerm(v, coalition, s, x), Smaller(v, b, x);
    WithoutMembers(s, x);
    SumByFirst(v, coalition, s, x, s);
    TakeOut(s, x, term);
    forall y | y in others ensures term(y) == ByHead(f, coalition, others, 0)(y) {
      assert y in Members(others);
      OneHead(v, coalition, s, x, y);
    }
    SumByEqual(others, term, ByHead(f, coalition, others, 0));
    HeadsCountMembers(f, coalition, others, 0);
    WeightedSum(v, b, x, coalition, others);
  }

  lemma WeightedSum(v: Value, b: nat, x: nat, s: set<nat>, others: seq<nat>)
    requires |others| < b
    ensures SubsetSum(Weighted(v, b, x), s, others, 0)
         == SubsetSum(PerMember(Smaller(v, b, x), 0), s, others, 0) + Times(Factorial(b - 1), Gain(v, s, x))
  {
    SubsetSumFirstOnly(EmptyTerm(v, b, x), s, others, 0);
    forall k, t | 0 <= k <= 0 + |others|
      ensures Weighted(v, b, x)(k, t) == PerMember(Smaller(v, b, x), 0)(k, t) + EmptyTerm(v, b, x)(k, t)
    {
      WeightedSplits(v, b, x, k, t);
    }
    SubsetSumAdd(PerMember(Smaller(v, b, x), 0), EmptyTerm(v, b, x), Weighted(v, b, x), s, others, 0);
  }

  lemma {:induction false} OneHead(v: Value, coalition: set<nat>, s: seq<nat>, x: nat, y: nat)
    requires Distinct(s) && x in s && y in s && y != x
    ensures HeadTerm(v, coalition, s, x)(y) == ByHead(Smaller(v, |s|, x), coalition, Without(s, x), 0)(y)
    decreases |s|, 0
  {
    var rest := Without(s, y);
    WithoutMembers(s, y);
    assert x in Members(rest);
    OrderSumIsSubsetSum(v, coalition + {y}, rest, x);
    WithoutCommutes(s, y, x);
    SmallerShifts(v, |s|, x, coalition + {y}, Without(rest, x));
  }

  lemma SmallerShifts(v: Value, b: nat, x: nat, s: set<nat>, others: seq<nat>)
    requires b > 0
    ensures SubsetSum(Weighted(v, b - 1, x), s, others, 0) == SubsetSum(Smaller(v, b, x), s, others, 1)
  {
    SubsetSumShift(Weighted(v, b - 1, x), Smaller(v, b, x), s, others, 0);
  }

  // ---- the walk -------------------------------------------------------------------------------------------

  lemma {:induction false} ExactLevel(
    g: Game, v: Value, clock: nat, coalition: set<nat>, base: real, block: seq<nat>, order: seq<nat>, p: nat)
    requires Exact(g, v, coalition, base, block) && p <= |order| && Members(order) <= Members(block)
    ensures Level(g, clock, coalition, base, order, p) == v(coalition + Members(order[..p]))
  {
    if p == 0 {
      assert coalition + Members(order[..0]) == coalition;
    } else {
      ExactLevel(g, v, clock, coalition, base, block, order, p - 1);
      var s := Members(order[..p]);
      assert order[p - 1] in s;
      assert s <= Members(block) by {
        forall z | z in s ensures z in Members(block) {
          assert z in Members(order);
        }
      }
      assert g(clock + p - 1, coalition + s) == Some(v(coalition + s));
    }
  }

  lemma ExactMarginal(
    g: Game, v: Value, clock: nat, coalition: set<nat>, base: real, block: seq<nat>, order: seq<nat>, x: nat)
    requires Exact(g, v, coalition, base, block) && x in order && Members(order) <= Members(block)
    ensures Marginal(g, clock, coalition, base, order, x) == GainIn(v, coalition, x)(order)
  {
    var p := IndexOf(order, x);
    ExactLevel(g, v, clock, coalition, base, block, order, p);
    ExactLevel(g, v, clock, coalition, base, block, order, p + 1);
    assert order[..p + 1] == order[..p] + [x];
    assert coalition + Members(order[..p + 1]) == coalition + Before(order, x) + {x};
  }

  lemma {:induction false} ExactMarginals(
    g: Game, v: Value, clock: nat, coalition: set<nat>, base: real, block: seq<nat>, orders: seq<seq<nat>>, x: nat)
    requires Exact(g, v, coalition, base, block)
    requires forall o :: o in orders ==> x in o && Members(o) <= Members(block)
    ensures var r := Marginals(g, clock, coalition, base, orders, |block|, x);
            forall i :: 0 <= i < |orders| ==> r[i] == GainIn(v, coalition, x)(orders[i])
  {
    if orders != [] {
      var last := |orders| - 1;
      ExactMarginals(g, v, clock, coalition, base, block, orders[..last], x);
      ExactMarginal(g, v, StartOf(clock, last, |block|), coalition, base, block, orders[last], x);
      LastMarginal(g, clock, coalition, base, orders, |block|, x);
      PointwiseSnoc(Marginals(g, clock, coalition, base, orders[..last], |block|, x), GainIn(v, coalition, x),
                    orders[..last], Marginals(g, clock, coalition, base, orders, |block|, x), orders);
    }
  }

  lemma PointwiseSnoc(
    before: seq<real>, f: seq<nat> -> real, earlier: seq<seq<nat>>, r: seq<real>, orders: seq<seq<nat>>)
    requires |r| == |orders| == |before| + 1 == |earlier| + 1
    requires r[..|before|] == before && orders[..|before|] == earlier && r[|before|] == f(orders[|before|])
    requires forall i :: 0 <= i < |before| ==> before[i] == f(earlier[i])
    ensures forall i :: 0 <= i < |r| ==> r[i] == f(orders[i])
  {
    forall i | 0 <= i < |r| ensures r[i] == f(orders[i]) {
      if i < |before| {
        assert r[i] == before[i] && orders[i] == earlier[i];
      }
    }
  }

  lemma LastMarginal(
    g: Game, clock: nat, coalition: set<nat>, base: real, orders: seq<seq<nat>>, width: nat, x: nat)
    requires orders != [] && forall o :: o in orders ==> x in o
    ensures var r, last := Marginals(g, clock, coalition, base, orders, width, x), |orders| - 1;
            && r[..last] == Marginals(g, clock, coalition, base, orders[..last], width, x)
            && r[last] == Marginal(g, StartOf(clock, last, width), coalition, base, orders[last], x)
  {
  }

  lemma TermIsSized(v: Value, coalition: set<nat>, weight: nat -> nat, x: nat, s: set<nat>)
    ensures Term(v, coalition, weight, x)(s) == Sized(Scaled(v, weight, x), coalition, 0)(s)
  {
    TimesIsProduct(weight(|s|), Gain(v, coalition + s, x));
    assert Sized(Scaled(v, weight, x), coalition, 0)(s) == Scaled(v, weight, x)(0 + |s|, coalition + s);
  }

  lemma FormulaIsSubsetSum(v: Value, coalition: set<nat>, block: seq<nat>, x: nat)
    requires Distinct(block) && x in block
    ensures Formula(v, coalition, block, x)
         == SubsetSum(Weighted(v, |block|, x), coalition, Without(block, x), 0) / Factorial(|block|) as real
  {
    var f := Weighted(v, |block|, x);
    WithoutMembers(block, x);
    SubsetSumIsSum(f, coalition, Without(block, x), 0);
    var term, sized := Term(v, coalition, Weights(|block|), x), Sized(f, coalition, 0);
    forall s | s in Subsets(Without(block, x)) ensures term(s) == sized(s) {
      TermIsSized(v, coalition, Weights(|block|), x, s);
    }
    SumByEqual(Subsets(Without(block, x)), term, sized);
  }

  /** The exact average over all `b!` join orders is the Shapley value of the local game. */
  lemma BlockMarginalIsShapley(
    g: Game, v: Value, clock: nat, coalition: set<nat>, base: real, block: seq<nat>, x: nat)
    requires Distinct(block) && x in block && Exact(g, v, coalition, base, block)
    ensures BlockMarginal(g, clock, coalition, base, block, x) == Formula(v, coalition, block, x)
  {
    var orders := Permutations(block);
    InEveryOrder(block);
    var values := Marginals(g, clock, coalition, base, orders, |block|, x);
    ExactMarginals(g, v, clock, coalition, base, block, orders, x);
    SumIsSumBy(orders, GainIn(v, coalition, x), values);
    OrderSumIsSubsetSum(v, coalition, block, x);
    FormulaIsSubsetSum(v, coalition, block, x);
    PermutationsCount(block);
  }

  // ---- the axioms -----------------------------------------------------------------------------------------

  lemma TermZero(v: Value, coalition: set<nat>, weight: nat -> nat, x: nat, s: set<nat>)
    requires v(coalition + s + {x}) == v(coalition + s)
    ensures Term(v, coalition, weight, x)(s) == 0.0
  {
    assert Gain(v, coalition + s, x) == 0.0;
    assert weight(|s|) as real * 0.0 == 0.0;
  }

  lemma {:induction false} SumZero(sets: seq<set<nat>>, f: set<nat> -> real)
    requires forall s :: s in sets ==> f(s) == 0.0
    ensures SumBy(sets, f) == 0.0
  {
    if sets != [] {
      SumZero(sets[1..], f);
    }
  }

  ghost predicate NeverMatters(v: Value, coalition: set<nat>, rest: set<nat>, x: nat) {
    forall s :: s <= rest ==> v(coalition + s + {x}) == v(coalition + s)
  }

  /** A member that never changes the rate is credited nothing. */
  lemma NullMember(g: Game, v: Value, clock: nat, coalition: set<nat>, base: real, block: seq<nat>, x: nat)
    requires Distinct(block) && x in block && Exact(g, v, coalition, base, block)
    requires NeverMatters(v, coalition, Members(block) - {x}, x)
    ensures BlockMarginal(g, clock, coalition, base, block, x) == 0.0
  {
    BlockMarginalIsShapley(g, v, clock, coalition, base, block, x);
    NullFormula(v, coalition, block, x);
  }

  lemma NullFormula(v: Value, coalition: set<nat>, block: seq<nat>, x: nat)
    requires Distinct(block) && x in block
    requires NeverMatters(v, coalition, Members(block) - {x}, x)
    ensures Formula(v, coalition, block, x) == 0.0
  {
    NullSum(v, coalition, block, x);
    ZeroOver(Factorial(|block|));
  }

  lemma ZeroOver(k: nat)
    requires k > 0
    ensures 0.0 / k as real == 0.0
  {
  }

  lemma NullSum(v: Value, coalition: set<nat>, block: seq<nat>, x: nat)
    requires Distinct(block) && x in block
    requires NeverMatters(v, coalition, Members(block) - {x}, x)
    ensures SumBy(Subsets(Without(block, x)), Term(v, coalition, Weights(|block|), x)) == 0.0
  {
    var others := Without(block, x);
    var f := Term(v, coalition, Weights(|block|), x);
    WithoutMembers(block, x);
    SubsetsAreAll(others);
    forall s | s in Subsets(others) ensures f(s) == 0.0 {
      assert s <= Members(others);
      TermZero(v, coalition, Weights(|block|), x, s);
    }
    SumZero(Subsets(others), f);
  }

  lemma {:induction false} SubsetSumSwap(f: Terms, s: set<nat>, others: seq<nat>, k: nat, y: nat)
    requires y in others
    ensures SubsetSum(f, s, others, k) == SubsetSum(f, s, [y] + Without(others, y), k)
    decreases |others|
  {
    var front := [y] + Without(others, y);
    assert front[1..] == Without(others, y);
    if others[0] == y {
      assert front == others;
    } else {
      var z, rest := others[0], others[1..];
      var w := Without(rest, y);
      assert Without(others, y) == [z] + w;
      SubsetSumSwap(f, s, rest, k, y);
      SubsetSumSwap(f, s + {z}, rest, k + 1, y);
      assert ([y] + w)[1..] == w && ([z] + w)[1..] == w;
      assert s + {y} + {z} == s + {z} + {y};
    }
  }

  /** Adding `x` or adding `y` to a coalition of the others makes the same rate. */
  ghost predicate Interchangeable(v: Value, coalition: set<nat>, rest: set<nat>, x: nat, y: nat) {
    forall s :: s <= rest ==> v(coalition + s + {x}) == v(coalition + s + {y})
  }

  lemma {:induction false} SymmetricSums(
    f: Terms, g: Terms, a: set<nat>, b: set<nat>, rest: seq<nat>, k: nat)
    requires forall j: nat, s :: s <= Members(rest) ==> f(j, a + s) == g(j, b + s)
    ensures SubsetSum(f, a, rest, k) == SubsetSum(g, b, rest, k)
    decreases |rest|
  {
    if rest == [] {
      assert a + {} == a && b + {} == b;
      assert f(k, a + {}) == g(k, b + {});
    } else {
      var z := rest[0];
      forall j: nat, s | s <= Members(rest[1..])
        ensures f(j, a + s) == g(j, b + s)
        ensures f(j, a + {z} + s) == g(j, b + {z} + s)
      {
        assert a + {z} + s == a + ({z} + s) && b + {z} + s == b + ({z} + s);
        assert s <= Members(rest) && {z} + s <= Members(rest);
      }
      SymmetricSums(f, g, a, b, rest[1..], k);
      SymmetricSums(f, g, a + {z}, b + {z}, rest[1..], k + 1);
    }
  }

  lemma SymmetricFormula(v: Value, coalition: set<nat>, block: seq<nat>, rest: seq<nat>, x: nat, y: nat)
    requires Interchangeable(v, coalition, Members(rest), x, y)
    ensures var b := |block|;
            SubsetSum(Weighted(v, b, x), coalition, [y] + rest, 0) == SubsetSum(Weighted(v, b, y), coalition, [x] + rest, 0)
  {
    var f, g := Weighted(v, |block|, x), Weighted(v, |block|, y);
    assert ([y] + rest)[1..] == rest && ([x] + rest)[1..] == rest;
    forall j: nat, s | s <= Members(rest)
      ensures f(j, coalition + s) == g(j, coalition + s)
      ensures f(j, coalition + {y} + s) == g(j, coalition + {x} + s)
    {
      assert v(coalition + s + {x}) == v(coalition + s + {y});
      assert coalition + {y} + s == coalition + s + {y} && coalition + {x} + s == coalition + s + {x};
      assert coalition + {y} + s + {x} == coalition + {x} + s + {y};
      assert Gain(v, coalition + s, x) == Gain(v, coalition + s, y);
      assert Gain(v, coalition + {y} + s, x) == Gain(v, coalition + {x} + s, y);
    }
    SymmetricSums(f, g, coalition, coalition, rest, 0);
    SymmetricSums(f, g, coalition + {y}, coalition + {x}, rest, 1);
  }

  /** Interchangeable members get equal credit. */
  lemma SymmetricMembers(
    g: Game, v: Value, clock: nat, coalition: set<nat>, base: real, block: seq<nat>, x: nat, y: nat)
    requires Distinct(block) && x in block && y in block && x != y && Exact(g, v, coalition, base, block)
    requires Interchangeable(v, coalition, Members(block) - {x, y}, x, y)
    ensures BlockMarginal(g, clock, coalition, base, block, x) == BlockMarginal(g, clock, coalition, base, block, y)
  {
    BlockMarginalIsShapley(g, v, clock, coalition, base, block, x);
    BlockMarginalIsShapley(g, v, clock, coalition, base, block, y);
    FormulaIsSubsetSum(v, coalition, block, x);
    FormulaIsSubsetSum(v, coalition, block, y);
    SymmetricSubsetSums(v, coalition, block, x, y);
  }

  lemma SymmetricSubsetSums(v: Value, coalition: set<nat>, block: seq<nat>, x: nat, y: nat)
    requires Distinct(block) && x in block && y in block && x != y
    requires Interchangeable(v, coalition, Members(block) - {x, y}, x, y)
    ensures SubsetSum(Weighted(v, |block|, x), coalition, Without(block, x), 0)
         == SubsetSum(Weighted(v, |block|, y), coalition, Without(block, y), 0)
  {
    var xs, ys := Without(block, x), Without(block, y);
    TwoOut(block, x, y);
    SubsetSumSwap(Weighted(v, |block|, x), coalition, xs, 0, y);
    SubsetSumSwap(Weighted(v, |block|, y), coalition, ys, 0, x);
    SymmetricFormula(v, coalition, block, Without(xs, y), x, y);
  }

  lemma TwoOut(block: seq<nat>, x: nat, y: nat)
    requires Distinct(block) && x in block && y in block && x != y
    ensures y in Without(block, x) && x in Without(block, y)
    ensures Without(Without(block, x), y) == Without(Without(block, y), x)
    ensures Members(Without(Without(block, x), y)) == Members(block) - {x, y}
  {
    WithoutMembers(block, x);
    WithoutMembers(block, y);
    WithoutMembers(Without(block, x), y);
    WithoutCommutes(block, x, y);
    assert y in Members(Without(block, x)) && x in Members(Without(block, y));
  }

  /** The members of a block are together credited what the block adds. */
  lemma BlockAddsUp(g: Game, v: Value, w: Walk, block: seq<nat>)
    requires Distinct(block) && block != [] && Exact(g, v, w.coalition, w.base, block)
    ensures SumBy(block, ShapleyEfficiency.Credit(AfterBlock(g, w, block)))
         == v(w.coalition + Members(block)) - v(w.coalition)
    ensures AfterBlock(g, w, block).base == v(w.coalition + Members(block))
  {
    var u := w.coalition + Members(block);
    var orders := Permutations(block);
    assert block[0] in Members(block);
    forall c: nat ensures g(c, u) == Some(v(u)) {
      assert Members(block) <= Members(block) && Members(block) != {};
    }
    PermutationsPermute(block);
    ShapleyEfficiency.SteadyEnds(g, w.clock, w.coalition, w.base, orders, block, v(u));
    ShapleyEfficiency.MeanOfConstant(ShapleyEfficiency.BlockEnds(g, w, block), v(u));
    ShapleyEfficiency.BlockEfficiency(g, w, block);
    ShapleyEfficiency.SteadyEnd(g, StartOf(w.clock, |orders| - 1, |block|), w.coalition, w.base,
                                orders[|orders| - 1], block, v(u));
  }
}
