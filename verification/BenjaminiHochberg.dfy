/** The Benjamini-Hochberg step-up procedure, as `rank` runs it and as `blame_report_from_json` re-runs it
    on a re-sorted report. */
module BenjaminiHochberg {
  import opened Seqs
  import Sorting

  // ---- the procedure --------------------------------------------------------------------------------------

  function At(p: seq<real>, i: nat): real {
    if i < |p| then p[i] else 0.0
  }

  function ByValue(p: seq<real>): (nat, nat) -> bool {
    (i: nat, j: nat) => At(p, i) <= At(p, j)
  }

  function Indices(m: nat): (r: seq<nat>)
    ensures |r| == m && forall i :: 0 <= i < m ==> r[i] == i
  {
    seq(m, i requires 0 <= i < m => i)
  }

  /** Indices by ascending p-value, ties in input order. */
  function Ranked(p: seq<real>): (order: seq<nat>)
    ensures |order| == |p| && multiset(order) == multiset(Indices(|p|))
  {
    Sorting.Sort(ByValue(p), Indices(|p|))
  }

  /** The p-values in rank order. */
  function Ascending(p: seq<real>): (s: seq<real>)
    ensures |s| == |p|
  {
    seq(|p|, r requires 0 <= r < |p| => At(p, Ranked(p)[r]))
  }

  function Min(a: real, b: real): real {
    if a <= b then a else b
  }

  /** `p * m / rank` */
  function Adjusted(value: real, m: nat, rank: nat): real
    requires rank > 0
  {
    value * m as real / rank as real
  }

  /** min(1, min over ranks j > r of s_(j) m / j), with ranks counted from 1. */
  function StepUp(s: seq<real>, r: nat): real
    requires r <= |s|
    decreases |s| - r
  {
    if r == |s| then 1.0 else Min(StepUp(s, r + 1), Adjusted(s[r], |s|, r + 1))
  }

  function RankOf(order: seq<nat>, i: nat): (r: nat)
    requires i in order
    ensures r < |order| && order[r] == i
  {
    if order[0] == i then 0 else 1 + RankOf(order[1..], i)
  }

  lemma RankedHolds(p: seq<real>)
    ensures forall i: nat :: i in Ranked(p) <==> i < |p|
    ensures Distinct(Ranked(p))
  {
    var order := Ranked(p);
    MultisetDistinct(Indices(|p|), order);
    forall i: nat | i < |p| ensures i in Indices(|p|) {
      assert Indices(|p|)[i] == i;
    }
  }

  /** The 0-based rank of entry `i`. */
  function OwnRank(p: seq<real>, i: nat): (r: nat)
    requires i < |p|
    ensures r < |p| && Ranked(p)[r] == i
  {
    RankedHolds(p);
    RankOf(Ranked(p), i)
  }

  /** The adjusted p-value of entry `i`. */
  function QValue(p: seq<real>, i: nat): real
    requires i < |p|
  {
    StepUp(Ascending(p), OwnRank(p, i))
  }

  lemma StepUpNext(p: seq<real>, rank: nat)
    requires rank < |p|
    ensures Ranked(p)[rank] < |p|
    ensures StepUp(Ascending(p), rank)
         == Min(1.0, Min(StepUp(Ascending(p), rank + 1), Adjusted(p[Ranked(p)[rank]], |p|, rank + 1)))
  {
    RankedHolds(p);
    assert Ranked(p)[rank] in Ranked(p);
    StepUpAtMostOne(Ascending(p), rank + 1);
  }

  /** The entries of rank `rank` and up have their adjusted values. */
  ghost predicate Filled(p: seq<real>, qvals: seq<real>, rank: nat) {
    && |qvals| == |p|
    && forall r :: rank <= r < |p| ==> Ranked(p)[r] < |p| && qvals[Ranked(p)[r]] == StepUp(Ascending(p), r)
  }

  lemma FillNext(p: seq<real>, qvals: seq<real>, rank: nat)
    requires rank < |p| && Ranked(p)[rank] < |p| && |qvals| == |p|
    ensures Filled(p, qvals, rank + 1) ==>
              Filled(p, qvals[Ranked(p)[rank] := StepUp(Ascending(p), rank)], rank)
  {
    RankedHolds(p);
  }

  lemma AllFilled(p: seq<real>, qvals: seq<real>)
    requires Filled(p, qvals, 0)
    ensures forall i :: 0 <= i < |p| ==> qvals[i] == QValue(p, i)
  {
    forall i | 0 <= i < |p| ensures qvals[i] == QValue(p, i) {
      assert Ranked(p)[OwnRank(p, i)] == i;
    }
  }

  method Procedure(p: seq<real>, q: real) returns (selected: set<nat>, qvals: seq<real>)
    ensures |qvals| == |p| && forall i :: 0 <= i < |p| ==> qvals[i] == QValue(p, i)
    ensures selected == set i | 0 <= i < |p| && QValue(p, i) <= q
  {
    var m := |p|;
    if m == 0 {
      return {}, [];
    }
    var order := Ranked(p);
    qvals := seq(m, _ => 1.0);
    var prev := 1.0;
    for rank := m downto 0
      invariant prev == StepUp(Ascending(p), rank)
      invariant Filled(p, qvals, rank)
    {
      var idx := order[rank];
      StepUpNext(p, rank);
      FillNext(p, qvals, rank);
      var adj := Min(prev, Adjusted(p[idx], m, rank + 1));
      qvals := qvals[idx := Min(1.0, adj)];
      prev := qvals[idx];
    }
    AllFilled(p, qvals);
    selected := set i | 0 <= i < m && qvals[i] <= q;
  }

  lemma {:induction false} StepUpAtMostOne(s: seq<real>, r: nat)
    requires r <= |s|
    ensures StepUp(s, r) <= 1.0
    decreases |s| - r
  {
    if r < |s| {
      StepUpAtMostOne(s, r + 1);
    }
  }

  /** `StepUp` is the least of 1 and the adjusted values from rank `r` on. */
  lemma {:induction false} StepUpIsLeast(s: seq<real>, r: nat)
    requires r <= |s|
    ensures StepUp(s, r) <= 1.0
    ensures forall j :: r <= j < |s| ==> StepUp(s, r) <= Adjusted(s[j], |s|, j + 1)
    ensures StepUp(s, r) == 1.0 || exists j :: r <= j < |s| && StepUp(s, r) == Adjusted(s[j], |s|, j + 1)
    decreases |s| - r
  {
    if r < |s| {
      StepUpIsLeast(s, r + 1);
    }
  }

  // ---- the same value without ranks -----------------------------------------------------------------------

  function Indicator(x: real): real -> real {
    (y: real) => if y <= x then 1.0 else 0.0
  }

  /** How many p-values are at most `x`. */
  function CountAtMost(p: seq<real>, x: real): real {
    SumBy(p, Indicator(x))
  }

  function Scaled(p: seq<real>, y: real): real
    requires CountAtMost(p, y) != 0.0
  {
    y * |p| as real / CountAtMost(p, y)
  }

  ghost function AtMostSet(p: seq<real>, x: real): set<nat> {
    set i: nat | i < |p| && p[i] <= x
  }

  /** It counts the p-values that are at most `x`. */
  lemma {:induction false} CountIsSize(p: seq<real>, x: real)
    ensures CountAtMost(p, x) == |AtMostSet(p, x)| as real
  {
    if p == [] {
      assert AtMostSet(p, x) == {};
    } else {
      var front, last := p[..|p| - 1], p[|p| - 1];
      assert p == front + [last];
      CountIsSize(front, x);
      SumByAppend(front, [last], Indicator(x));
      assert AtMostSet(p, x) == AtMostSet(front, x) + if last <= x then {|front|} else {};
    }
  }

  ghost predicate Bounds(p: seq<real>, y: real, v: real) {
    CountAtMost(p, y) != 0.0 && v <= Scaled(p, y)
  }

  ghost predicate Meets(p: seq<real>, y: real, v: real) {
    CountAtMost(p, y) != 0.0 && v == Scaled(p, y)
  }

  /** `v` is min(1, min over p-values y >= x of y m / #{p-values <= y}). */
  ghost predicate IsQValue(p: seq<real>, x: real, v: real) {
    && v <= 1.0
    && (forall y :: y in p && x <= y ==> Bounds(p, y, v))
    && (v == 1.0 || exists y :: y in p && x <= y && Meets(p, y, v))
  }

  lemma QValueUnique(p: seq<real>, x: real, v: real, w: real)
    requires IsQValue(p, x, v) && IsQValue(p, x, w)
    ensures v == w
  {
  }

  ghost predicate Nondecreasing(s: seq<real>) {
    forall i, j :: 0 <= i <= j < |s| ==> s[i] <= s[j]
  }

  lemma {:induction false} SameMap(a: seq<nat>, b: seq<nat>, p: seq<real>)
    requires multiset(a) == multiset(b)
    ensures multiset(Values(p, a)) == multiset(Values(p, b))
  {
    if a == [] {
      assert |multiset(b)| == |b|;
    } else {
      var last := a[|a| - 1];
      assert a == a[..|a| - 1] + [last];
      var front, back := Locate(a[..|a| - 1], last, b);
      SameMap(a[..|a| - 1], front + back, p);
      assert Values(p, a) == Values(p, a[..|a| - 1]) + [At(p, last)];
      assert Values(p, b) == Values(p, front) + [At(p, last)] + Values(p, back);
      assert Values(p, front + back) == Values(p, front) + Values(p, back);
    }
  }

  function Values(p: seq<real>, a: seq<nat>): (r: seq<real>)
    ensures |r| == |a|
  {
    seq(|a|, i requires 0 <= i < |a| => At(p, a[i]))
  }

  lemma AscendingSorts(p: seq<real>)
    ensures Nondecreasing(Ascending(p)) && multiset(Ascending(p)) == multiset(p)
  {
    var order := Ranked(p);
    assert Sorting.TotalPreorder(ByValue(p));
    Sorting.SortIsSorted(ByValue(p), Indices(|p|));
    forall i, j | 0 <= i <= j < |p| ensures Ascending(p)[i] <= Ascending(p)[j] {
      if i < j {
        assert ByValue(p)(order[i], order[j]);
      }
    }
    SameMap(order, Indices(|p|), p);
    assert Values(p, order) == Ascending(p);
    assert Values(p, Indices(|p|)) == p;
  }

  /** In ascending order, the last entry with a given value has the count of that value as its rank. */
  lemma {:induction false} CountIsRank(s: seq<real>, j: nat)
    requires Nondecreasing(s) && j < |s| && (j + 1 < |s| ==> s[j] < s[j + 1])
    ensures CountAtMost(s, s[j]) == (j + 1) as real
  {
    CountPrefix(s, s[j], j + 1, |s|);
    assert s[..|s|] == s;
  }

  lemma {:induction false} CountPrefix(s: seq<real>, x: real, i: nat, n: nat)
    requires i <= n <= |s|
    requires (forall l :: 0 <= l < i ==> s[l] <= x) && forall l :: i <= l < n ==> x < s[l]
    ensures SumBy(s[..n], Indicator(x)) == i as real
  {
    if n > 0 {
      assert s[..n] == s[..n - 1] + [s[n - 1]];
      SumByAppend(s[..n - 1], [s[n - 1]], Indicator(x));
      CountPrefix(s, x, if i == n then n - 1 else i, n - 1);
    }
  }

  lemma {:induction false} LastOfValue(s: seq<real>, i: nat) returns (j: nat)
    requires Nondecreasing(s) && i < |s|
    ensures i <= j < |s| && s[j] == s[i] && (j + 1 < |s| ==> s[j] < s[j + 1])
    decreases |s| - i
  {
    if i + 1 < |s| && s[i + 1] == s[i] {
      j := LastOfValue(s, i + 1);
    } else {
      j := i;
    }
  }

  lemma LargerRankSmaller(y: real, m: nat, a: nat, b: nat)
    requires 0.0 <= y && 0 < a <= b
    ensures Adjusted(y, m, b) <= Adjusted(y, m, a)
  {
    var t := y * m as real;
    assert t >= 0.0;
    DividesLess(t, a as real, b as real);
  }

  lemma DividesLess(t: real, a: real, b: real)
    requires t >= 0.0 && 0.0 < a <= b
    ensures t / b <= t / a
  {
    assert (t / a) * b >= (t / a) * a == t;
  }

  ghost predicate NonNegative(p: seq<real>) {
    forall i :: 0 <= i < |p| ==> p[i] >= 0.0
  }

  lemma ScaledAtLast(s: seq<real>, j: nat)
    requires Nondecreasing(s) && j < |s| && (j + 1 < |s| ==> s[j] < s[j + 1])
    ensures CountAtMost(s, s[j]) != 0.0 && Scaled(s, s[j]) == Adjusted(s[j], |s|, j + 1)
  {
    CountIsRank(s, j);
  }

  lemma BoundsFromRank(s: seq<real>, r: nat, i: nat)
    requires Nondecreasing(s) && r < |s| && i < |s| && s[r] <= s[i]
    ensures Bounds(s, s[i], StepUp(s, r))
  {
    var j := LastOfValue(s, if i < r then r else i);
    ScaledAtLast(s, j);
    StepUpIsLeast(s, r);
  }

  lemma MeetsAtLast(s: seq<real>, r: nat, i: nat) returns (y: real)
    requires Nondecreasing(s) && NonNegative(s) && r <= i < |s|
    requires StepUp(s, r) == Adjusted(s[i], |s|, i + 1)
    ensures y in s && s[r] <= y && Meets(s, y, StepUp(s, r))
  {
    var j := LastOfValue(s, i);
    ScaledAtLast(s, j);
    LargerRankSmaller(s[i], |s|, i + 1, j + 1);
    StepUpIsLeast(s, r);
    y := s[j];
  }

  lemma RankFree(s: seq<real>, r: nat)
    requires Nondecreasing(s) && NonNegative(s) && r < |s|
    ensures IsQValue(s, s[r], StepUp(s, r))
  {
    var v := StepUp(s, r);
    assert v <= 1.0 && (v == 1.0 || exists i :: r <= i < |s| && v == Adjusted(s[i], |s|, i + 1)) by {
      StepUpIsLeast(s, r);
    }
    forall y | y in s && s[r] <= y ensures Bounds(s, y, v) {
      var i :| 0 <= i < |s| && s[i] == y;
      BoundsFromRank(s, r, i);
    }
    if v != 1.0 {
      var i :| r <= i < |s| && v == Adjusted(s[i], |s|, i + 1);
      var y := MeetsAtLast(s, r, i);
    }
  }

  lemma SameCounts(p: seq<real>, s: seq<real>, y: real)
    requires multiset(p) == multiset(s)
    ensures CountAtMost(p, y) == CountAtMost(s, y) && |p| == |s|
  {
    SumByPermuted(p, s, Indicator(y));
    assert |multiset(p)| == |p| && |multiset(s)| == |s|;
  }

  lemma SameMembers(p: seq<real>, s: seq<real>, y: real)
    requires multiset(p) == multiset(s)
    ensures y in p <==> y in s
  {
    assert y in p <==> y in multiset(p);
    assert y in s <==> y in multiset(s);
  }

  lemma SameBounds(p: seq<real>, s: seq<real>, y: real, v: real)
    requires CountAtMost(p, y) == CountAtMost(s, y) && |p| == |s|
    ensures Bounds(p, y, v) == Bounds(s, y, v) && Meets(p, y, v) == Meets(s, y, v)
  {
  }

  lemma IsQValuePermuted(p: seq<real>, s: seq<real>, x: real, v: real)
    requires multiset(p) == multiset(s) && IsQValue(s, x, v)
    ensures IsQValue(p, x, v)
  {
    forall y
      ensures Bounds(p, y, v) == Bounds(s, y, v) && Meets(p, y, v) == Meets(s, y, v)
      ensures y in p <==> y in s
    {
      SameCounts(p, s, y);
      SameBounds(p, s, y, v);
      SameMembers(p, s, y);
    }
  }

  /** Every q-value is min(1, min over p-values y >= p_i of y m / #{p <= y}): a formula that mentions neither
      ranks nor positions. */
  lemma QValueIsRankFree(p: seq<real>, i: nat)
    requires i < |p| && NonNegative(p)
    ensures IsQValue(p, p[i], QValue(p, i))
  {
    var s, order := Ascending(p), Ranked(p);
    RankedHolds(p);
    AscendingSorts(p);
    var r := OwnRank(p, i);
    assert s[r] == p[i];
    forall j | 0 <= j < |s| ensures s[j] >= 0.0 {
      assert order[j] in order;
    }
    RankFree(s, r);
    IsQValuePermuted(p, s, p[i], QValue(p, i));
  }

  /** Permuting the input, ties included, permutes the q-values. */
  lemma PermutationInvariant(p: seq<real>, t: seq<real>, i: nat, j: nat)
    requires multiset(p) == multiset(t) && NonNegative(p)
    requires i < |p| && j < |t| && p[i] == t[j]
    ensures QValue(p, i) == QValue(t, j)
  {
    forall l | 0 <= l < |t| ensures t[l] >= 0.0 {
      assert t[l] in multiset(p);
    }
    QValueIsRankFree(p, i);
    QValueIsRankFree(t, j);
    IsQValuePermuted(p, t, p[i], QValue(t, j));
    QValueUnique(p, p[i], QValue(p, i), QValue(t, j));
  }

  // ---- the classic step-up set ----------------------------------------------------------------------------

  /** Rank `r + 1` passes its own threshold: p_(r+1) <= (r + 1) q / m. */
  ghost predicate Passes(s: seq<real>, r: nat, q: real)
    requires r < |s|
  {
    s[r] * |s| as real <= (r + 1) as real * q
  }

  lemma PassesIffAdjusted(s: seq<real>, r: nat, q: real)
    requires r < |s|
    ensures Passes(s, r, q) <==> Adjusted(s[r], |s|, r + 1) <= q
  {
    QuotientAtMost(s[r] * |s| as real, (r + 1) as real, q);
  }

  lemma QuotientAtMost(t: real, c: real, q: real)
    requires c > 0.0
    ensures t <= c * q <==> t / c <= q
  {
    assert t == (t / c) * c;
    if t / c <= q {
      assert (t / c) * c <= q * c;
    } else {
      assert (t / c) * c > q * c;
    }
  }

  /** Selecting by q-value is the classic procedure: an entry is selected exactly when some rank at or above
      its own passes its threshold. */
  lemma SelectionIsStepUp(p: seq<real>, i: nat, q: real)
    requires i < |p| && forall j :: 0 <= j < |p| ==> p[j] <= 1.0
    ensures QValue(p, i) <= q <==> exists r :: OwnRank(p, i) <= r < |p| && Passes(Ascending(p), r, q)
  {
    RankedHolds(p);
    var s, order := Ascending(p), Ranked(p);
    var own := OwnRank(p, i);
    StepUpIsLeast(s, own);
    if QValue(p, i) <= q {
      if StepUp(s, own) == 1.0 {
        var last := |s| - 1;
        assert order[last] in order && s[last] <= 1.0;
        TopRankPasses(s, q);
      } else {
        var j :| own <= j < |s| && StepUp(s, own) == Adjusted(s[j], |s|, j + 1);
        PassesIffAdjusted(s, j, q);
      }
    }
    if r :| own <= r < |p| && Passes(s, r, q) {
      PassesIffAdjusted(s, r, q);
    }
  }

  lemma TopRankPasses(s: seq<real>, q: real)
    requires s != [] && s[|s| - 1] <= 1.0 <= q
    ensures Passes(s, |s| - 1, q)
  {
    var m := |s| as real;
    assert s[|s| - 1] * m <= 1.0 * m <= m * q;
  }

  // ---- reports --------------------------------------------------------------------------------------------

  datatype StepResult = StepResult(
    step: nat, flipRate: real, pValue: real, trustworthy: bool, qValue: real, responsible: bool)

  /** The p-values that enter the correction: those of trustworthy steps only, in report order. */
  function Candidates(results: seq<StepResult>): seq<real> {
    if results == [] then []
    else
      var last := results[|results| - 1];
      Candidates(results[..|results| - 1]) + if last.trustworthy then [last.pValue] else []
  }

  function Position(results: seq<StepResult>, i: nat): nat
    requires i <= |results|
  {
    |Candidates(results[..i])|
  }

  lemma {:induction false} PositionHolds(results: seq<StepResult>, i: nat)
    requires i < |results| && results[i].trustworthy
    ensures Position(results, i) < |Candidates(results)|
    ensures Candidates(results)[Position(results, i)] == results[i].pValue
  {
    var last := |results| - 1;
    if i < last {
      PositionHolds(results[..last], i);
      assert results[..last][..i] == results[..i];
    }
  }

  /** What the correction writes back into result `i`. */
  function CorrectedAt(results: seq<StepResult>, q: real, i: nat): StepResult
    requires i < |results|
  {
    if results[i].trustworthy then
      PositionHolds(results, i);
      var v := QValue(Candidates(results), Position(results, i));
      results[i].(qValue := v, responsible := v <= q)
    else results[i].(qValue := 1.0, responsible := false)
  }

  method Collect(results: seq<StepResult>) returns (pvals: seq<real>)
    ensures pvals == Candidates(results)
  {
    pvals := [];
    for i := 0 to |results|
      invariant pvals == Candidates(results[..i])
    {
      assert results[..i + 1][..i] == results[..i];
      if results[i].trustworthy {
        pvals := pvals + [results[i].pValue];
      }
    }
    assert results[..|results|] == results;
  }

  /** Each trustworthy result takes the next q-value. */
  method WriteBack(results: seq<StepResult>, q: real, selected: set<nat>, qvals: seq<real>)
    returns (corrected: seq<StepResult>)
    requires |qvals| == |Candidates(results)|
    requires forall i :: 0 <= i < |qvals| ==> qvals[i] == QValue(Candidates(results), i)
    requires selected == set i | 0 <= i < |qvals| && QValue(Candidates(results), i) <= q
    ensures |corrected| == |results| && forall i :: 0 <= i < |results| ==> corrected[i] == CorrectedAt(results, q, i)
  {
    corrected := [];
    var local := 0;
    for i := 0 to |results|
      invariant |corrected| == i && local == Position(results, i)
      invariant forall j :: 0 <= j < i ==> corrected[j] == CorrectedAt(results, q, j)
    {
      assert results[..i + 1][..i] == results[..i];
      if results[i].trustworthy {
        PositionHolds(results, i);
        corrected := corrected + [results[i].(qValue := qvals[local], responsible := local in selected)];
        local := local + 1;
      } else {
        corrected := corrected + [results[i].(qValue := 1.0, responsible := false)];
      }
    }
  }

  /** The correction pass shared by `rank` and `blame_report_from_json`. */
  method Correct(results: seq<StepResult>, q: real) returns (corrected: seq<StepResult>, responsible: set<nat>)
    ensures |corrected| == |results| && forall i :: 0 <= i < |results| ==> corrected[i] == CorrectedAt(results, q, i)
    ensures responsible == set i | 0 <= i < |results| && CorrectedAt(results, q, i).responsible :: results[i].step
  {
    var pvals := Collect(results);
    var selected, qvals := Procedure(pvals, q);
    corrected := WriteBack(results, q, selected, qvals);
    responsible := set i | 0 <= i < |results| && corrected[i].responsible :: results[i].step;
  }

  lemma {:induction false} CandidatesPermuted(a: seq<StepResult>, b: seq<StepResult>)
    requires multiset(a) == multiset(b)
    ensures multiset(Candidates(a)) == multiset(Candidates(b))
  {
    if a == [] {
      assert |multiset(b)| == |b|;
    } else {
      var last := a[|a| - 1];
      assert a == a[..|a| - 1] + [last];
      var front, back := Locate(a[..|a| - 1], last, b);
      CandidatesPermuted(a[..|a| - 1], front + back);
      CandidatesAppend(front + [last], back);
      CandidatesAppend(front, back);
      assert (front + [last])[..|front|] == front;
    }
  }

  lemma {:induction false} CandidatesAppend(a: seq<StepResult>, b: seq<StepResult>)
    ensures Candidates(a + b) == Candidates(a) + Candidates(b)
  {
    if b == [] {
      assert a + b == a;
    } else {
      CandidatesAppend(a, b[..|b| - 1]);
      assert (a + b)[..|a + b| - 1] == a + b[..|b| - 1];
    }
  }

  ghost predicate ProperPValues(results: seq<StepResult>) {
    forall r :: r in results ==> 0.0 <= r.pValue <= 1.0
  }

  lemma {:induction false} CandidatesProper(results: seq<StepResult>)
    requires ProperPValues(results)
    ensures NonNegative(Candidates(results))
  {
    if results != [] {
      CandidatesProper(results[..|results| - 1]);
    }
  }

  /** The trustworthy results with this p-value. */
  ghost function TrustedWith(results: seq<StepResult>, p: real): set<nat> {
    set i: nat | i < |results| && TrustedAs(results[i], p)
  }

  predicate TrustedAs(result: StepResult, p: real) {
    result.trustworthy && result.pValue == p
  }

  lemma TrustedGrows(front: seq<StepResult>, last: StepResult, p: real)
    ensures |TrustedWith(front + [last], p)| == |TrustedWith(front, p)| + if TrustedAs(last, p) then 1 else 0
  {
    assert TrustedWith(front + [last], p) == TrustedWith(front, p) + if TrustedAs(last, p) then {|front|} else {};
  }

  lemma TrustedEntry(front: seq<real>, result: StepResult, p: real)
    ensures multiset(front + if result.trustworthy then [result.pValue] else [])[p]
         == multiset(front)[p] + if TrustedAs(result, p) then 1 else 0
  {
    if !result.trustworthy {
      assert front + [] == front;
    }
  }

  /** What enters the correction: the p-value of each trustworthy result, and no other. */
  lemma {:induction false} CandidatesAre(results: seq<StepResult>, p: real)
    ensures multiset(Candidates(results))[p] == |TrustedWith(results, p)|
  {
    if results == [] {
      assert TrustedWith(results, p) == {};
    } else {
      var front, last := results[..|results| - 1], results[|results| - 1];
      CandidatesAre(front, p);
      TrustedEntry(Candidates(front), last, p);
      TrustedGrows(front, last, p);
      assert front + [last] == results;
    }
  }

  /** A trustworthy result gets the q-value of its p-value among those of the trustworthy results, and is responsible
      exactly when that is at most `q`; any other keeps 1 and is not. */
  lemma CorrectedIs(results: seq<StepResult>, q: real, i: nat)
    requires i < |results| && ProperPValues(results)
    ensures var c := CorrectedAt(results, q, i);
            && c == results[i].(qValue := c.qValue, responsible := c.responsible)
            && (if results[i].trustworthy then
                  IsQValue(Candidates(results), results[i].pValue, c.qValue) && (c.responsible <==> c.qValue <= q)
                else c.qValue == 1.0 && !c.responsible)
  {
    if results[i].trustworthy {
      PositionHolds(results, i);
      CandidatesProper(results);
      QValueIsRankFree(Candidates(results), Position(results, i));
    }
  }

  /** Re-running the correction on the same results in any other order gives every step the same q-value and
      the same verdict. */
  lemma RecomputedTheSame(a: seq<StepResult>, b: seq<StepResult>, q: real, i: nat, j: nat)
    requires multiset(a) == multiset(b) && ProperPValues(a)
    requires i < |a| && j < |b| && a[i] == b[j]
    ensures CorrectedAt(a, q, i) == CorrectedAt(b, q, j)
  {
    if a[i].trustworthy {
      CandidatesPermuted(a, b);
      CandidatesProper(a);
      PositionHolds(a, i);
      PositionHolds(b, j);
      PermutationInvariant(Candidates(a), Candidates(b), Position(a, i), Position(b, j));
    }
  }

  function Responsible(results: seq<StepResult>, q: real): set<nat> {
    set i | 0 <= i < |results| && CorrectedAt(results, q, i).responsible :: results[i].step
  }

  /** A report rebuilt from its JSON, whose results `rank` has re-sorted, has the responsible set of the
      original. */
  lemma SameResponsibleSet(a: seq<StepResult>, b: seq<StepResult>, q: real)
    requires multiset(a) == multiset(b) && ProperPValues(a)
    ensures Responsible(a, q) == Responsible(b, q)
  {
    forall r | r in b ensures 0.0 <= r.pValue <= 1.0 {
      assert r in multiset(a);
    }
    ResponsibleWithin(a, b, q);
    ResponsibleWithin(b, a, q);
  }

  lemma ResponsibleWithin(a: seq<StepResult>, b: seq<StepResult>, q: real)
    requires multiset(a) == multiset(b) && ProperPValues(a)
    ensures Responsible(a, q) <= Responsible(b, q)
  {
    forall step | step in Responsible(a, q) ensures step in Responsible(b, q) {
      var i :| 0 <= i < |a| && CorrectedAt(a, q, i).responsible && a[i].step == step;
      assert a[i] in multiset(b);
      var j :| 0 <= j < |b| && b[j] == a[i];
      RecomputedTheSame(a, b, q, i, j);
    }
  }
}
