/** Members, sums and permutations of sequences: the small facts that the blame engine's averages need. */
module Seqs {

  datatype Option<T> = None | Some(value: T)

  function Members<T>(s: seq<T>): set<T> {
    set x | x in s
  }

  ghost predicate Distinct<T>(s: seq<T>) {
    forall i, j :: 0 <= i < j < |s| ==> s[i] != s[j]
  }

  function Sum(s: seq<real>): real {
    if s == [] then 0.0 else Sum(s[..|s| - 1]) + s[|s| - 1]
  }

  function SumBy<T>(s: seq<T>, f: T -> real): real {
    if s == [] then 0.0 else f(s[0]) + SumBy(s[1..], f)
  }

  function Mean(s: seq<real>): real
    requires s != []
  {
    Sum(s) / |s| as real
  }

  lemma {:induction false} SumIsSumBy<T>(s: seq<T>, f: T -> real, values: seq<real>)
    requires |values| == |s| && forall i :: 0 <= i < |s| ==> values[i] == f(s[i])
    ensures Sum(values) == SumBy(s, f)
  {
    if s != [] {
      var last := |s| - 1;
      SumIsSumBy(s[..last], f, values[..last]);
      SumByAppend(s[..last], [s[last]], f);
      assert s[..last] + [s[last]] == s;
    }
  }

  lemma {:induction false} SumByAppend<T>(a: seq<T>, b: seq<T>, f: T -> real)
    ensures SumBy(a + b, f) == SumBy(a, f) + SumBy(b, f)
  {
    if a == [] {
      assert a + b == b;
    } else {
      SumByAppend(a[1..], b, f);
      assert (a + b)[1..] == a[1..] + b;
    }
  }

  lemma {:induction false} SumByEqual<T>(s: seq<T>, f: T -> real, g: T -> real)
    requires forall x :: x in s ==> f(x) == g(x)
    ensures SumBy(s, f) == SumBy(s, g)
  {
    if s != [] {
      SumByEqual(s[1..], f, g);
    }
  }

  lemma {:induction false} SumByAdd<T>(s: seq<T>, f: T -> real, g: T -> real, h: T -> real)
    requires forall x :: x in s ==> h(x) == f(x) + g(x)
    ensures SumBy(s, h) == SumBy(s, f) + SumBy(s, g)
  {
    if s != [] {
      SumByAdd(s[1..], f, g, h);
    }
  }

  lemma {:induction false} SumByScale<T>(s: seq<T>, f: T -> real, c: real, g: T -> real)
    requires forall x :: x in s ==> g(x) == c * f(x)
    ensures SumBy(s, g) == c * SumBy(s, f)
  {
    if s != [] {
      SumByScale(s[1..], f, c, g);
    }
  }

  /** Where a permutation of `s + [x]` holds `x`. */
  lemma Locate<T>(s: seq<T>, x: T, t: seq<T>) returns (front: seq<T>, back: seq<T>)
    requires multiset(t) == multiset(s) + multiset{x}
    ensures t == front + [x] + back && multiset(front + back) == multiset(s)
  {
    assert x in multiset(t);
    var i :| 0 <= i < |t| && t[i] == x;
    front, back := t[..i], t[i + 1..];
    assert t == front + [x] + back;
    assert multiset(front + back) == multiset(t) - multiset{x};
  }

  /** `s` with its element `x` taken out. */
  function Without<T(==)>(s: seq<T>, x: T): (r: seq<T>)
    ensures x in s ==> |r| == |s| - 1 && multiset(s) == multiset(r) + multiset{x}
    ensures x !in s ==> r == s
  {
    if s == [] then []
    else
      assert s == [s[0]] + s[1..];
      if s[0] == x then s[1..] else [s[0]] + Without(s[1..], x)
  }

  lemma {:induction false} SumByWithout<T>(t: seq<T>, x: T, f: T -> real)
    requires x in t
    ensures SumBy(t, f) == f(x) + SumBy(Without(t, x), f)
  {
    if t[0] != x {
      SumByWithout(t[1..], x, f);
    }
  }

  /** A sum does not depend on the order of its terms. */
  lemma {:induction false} SumByPermuted<T>(s: seq<T>, t: seq<T>, f: T -> real)
    requires multiset(s) == multiset(t)
    ensures SumBy(s, f) == SumBy(t, f)
  {
    assert |multiset(s)| == |s| && |multiset(t)| == |t|;
    if s != [] {
      var x := s[0];
      assert s == [x] + s[1..];
      assert x in multiset(s);
      SumByWithout(t, x, f);
      assert multiset(s[1..]) == multiset(s) - multiset{x};
      SumByPermuted(s[1..], Without(t, x), f);
    }
  }

  lemma {:induction false} WithoutMembers<T>(s: seq<T>, x: T)
    requires Distinct(s)
    ensures Distinct(Without(s, x)) && Members(Without(s, x)) == Members(s) - {x}
  {
    if s != [] {
      assert Distinct(s[1..]);
      WithoutMembers(s[1..], x);
      assert s == [s[0]] + s[1..];
      assert s[0] !in Members(s[1..]);
      assert Members(s) == {s[0]} + Members(s[1..]);
      if s[0] != x {
        var r := Without(s[1..], x);
        assert Members([s[0]] + r) == {s[0]} + Members(r);
        assert s[0] !in Members(r);
      }
    }
  }

  lemma {:induction false} WithoutCommutes<T>(s: seq<T>, x: T, y: T)
    ensures Without(Without(s, x), y) == Without(Without(s, y), x)
  {
    if s != [] {
      WithoutCommutes(s[1..], x, y);
    }
  }

  lemma {:induction false} DistinctCount<T>(s: seq<T>)
    requires Distinct(s)
    ensures |Members(s)| == |s|
  {
    if s != [] {
      DistinctCount(s[1..]);
      assert Members(s) == {s[0]} + Members(s[1..]);
    }
  }

  lemma {:induction false} DistinctIffCounted<T>(s: seq<T>)
    ensures |Members(s)| <= |s|
    ensures |Members(s)| == |s| <==> Distinct(s)
  {
    if s != [] {
      var rest := s[1..];
      DistinctIffCounted(rest);
      assert Members(s) == {s[0]} + Members(rest) by {
        assert s == [s[0]] + rest;
      }
      if s[0] in rest {
        var j :| 0 <= j < |rest| && rest[j] == s[0];
        assert s[0] == s[j + 1];
        assert Members(s) == Members(rest);
      } else {
        assert s[0] !in Members(rest);
        DistinctFromFirst(s);
      }
    }
  }

  lemma DistinctFromFirst<T>(s: seq<T>)
    requires s != [] && s[0] !in s[1..]
    ensures Distinct(s) <==> Distinct(s[1..])
  {
    var rest := s[1..];
    if Distinct(rest) {
      forall i, j | 0 <= i < j < |s| ensures s[i] != s[j] {
        assert s[j] == rest[j - 1];
        if i > 0 {
          assert s[i] == rest[i - 1];
        }
      }
    }
    if Distinct(s) {
      forall i, j | 0 <= i < j < |rest| ensures rest[i] != rest[j] {
        assert rest[i] == s[i + 1] && rest[j] == s[j + 1];
      }
    }
  }

  lemma DistinctAppend<T>(a: seq<T>, b: seq<T>)
    ensures Distinct(a + b) <==> Distinct(a) && Distinct(b) && forall x :: x in a ==> x !in b
  {
    var s := a + b;
    if Distinct(s) {
      assert forall i :: 0 <= i < |a| ==> s[i] == a[i];
      assert forall i :: 0 <= i < |b| ==> s[|a| + i] == b[i];
    }
    if Distinct(a) && Distinct(b) && forall x :: x in a ==> x !in b {
      forall i, j | 0 <= i < j < |s| ensures s[i] != s[j] {
        if i < |a| <= j {
          assert s[i] in a && s[j] in b;
        }
      }
    }
  }

  lemma MultisetDistinct<T>(a: seq<T>, b: seq<T>)
    requires multiset(a) == multiset(b) && Distinct(a)
    ensures Distinct(b) && forall x :: x in b <==> x in a
  {
    assert |multiset(a)| == |a| && |multiset(b)| == |b|;
    forall x ensures x in b <==> x in a {
      assert x in b <==> x in multiset(b);
      assert x in a <==> x in multiset(a);
    }
    DistinctCount(a);
    assert Members(a) == Members(b);
    DistinctIffCounted(b);
  }

  /** Two repetition-free sequences with the same members are permutations of each other. */
  lemma {:induction false} SameMembersPermuted<T>(s: seq<T>, t: seq<T>)
    requires Distinct(s) && Distinct(t) && Members(s) == Members(t)
    ensures multiset(s) == multiset(t)
  {
    DistinctCount(s);
    DistinctCount(t);
    if s != [] {
      assert s[0] in Members(s);
      WithoutMembers(t, s[0]);
      assert Members(s[1..]) == Members(s) - {s[0]};
      SameMembersPermuted(s[1..], Without(t, s[0]));
      assert s == [s[0]] + s[1..];
    }
  }

  /** Repeated addition. */
  function Times(k: nat, x: real): real {
    if k == 0 then 0.0 else Times(k - 1, x) + x
  }

  lemma {:induction false} TimesIsProduct(k: nat, x: real)
    ensures Times(k, x) == k as real * x
  {
    if k > 0 {
      TimesIsProduct(k - 1, x);
      var j := (k - 1) as real;
      assert k as real == j + 1.0;
      assert (j + 1.0) * x == j * x + x;
    }
  }

  function Factorial(n: nat): (f: nat)
    ensures f >= 1
  {
    if n == 0 then 1 else n * Factorial(n - 1)
  }

  // ---- collecting along a run -----------------------------------------------------------------------------

  /** The moments before `n` at which something was kept. */
  ghost function KeptUpTo(kept: nat -> bool, n: nat): set<nat> {
    set i: nat | i < n && kept(i)
  }

  lemma KeptNext(kept: nat -> bool, n: nat)
    ensures |KeptUpTo(kept, n + 1)| == |KeptUpTo(kept, n)| + if kept(n) then 1 else 0
  {
    assert KeptUpTo(kept, n + 1) == KeptUpTo(kept, n) + if kept(n) then {n} else {};
  }

  ghost predicate CollectsAt<T>(lists: nat -> seq<T>, kept: nat -> bool, entry: nat -> T, i: nat) {
    lists(i + 1) == lists(i) + if kept(i) then [entry(i)] else []
  }

  /** A list that grows by one entry at each kept moment has just those entries, in order. */
  lemma {:induction false} Collected<T>(lists: nat -> seq<T>, kept: nat -> bool, entry: nat -> T, n: nat, j: nat)
    requires lists(0) == [] && forall i: nat :: i < n ==> CollectsAt(lists, kept, entry, i)
    ensures |lists(n)| == |KeptUpTo(kept, n)|
    ensures j < n && kept(j) ==> |KeptUpTo(kept, j)| < |lists(n)| && lists(n)[|KeptUpTo(kept, j)|] == entry(j)
  {
    if n == 0 {
      assert KeptUpTo(kept, 0) == {};
    } else {
      Collected(lists, kept, entry, n - 1, j);
      KeptNext(kept, n - 1);
      assert CollectsAt(lists, kept, entry, n - 1);
    }
  }

  ghost predicate TotalsAt(values: nat -> nat, kept: nat -> bool, i: nat) {
    values(i + 1) == values(i) + if kept(i) then 1 else 0
  }

  /** A counter that moves at each kept moment counts them. */
  lemma {:induction false} Totalled(values: nat -> nat, kept: nat -> bool, n: nat)
    requires values(0) == 0 && forall i: nat :: i < n ==> TotalsAt(values, kept, i)
    ensures values(n) == |KeptUpTo(kept, n)|
  {
    if n == 0 {
      assert KeptUpTo(kept, 0) == {};
    } else {
      Totalled(values, kept, n - 1);
      KeptNext(kept, n - 1);
      assert TotalsAt(values, kept, n - 1);
    }
  }

  // ---- folding --------------------------------------------------------------------------------------------

  function Folded<S, Q>(f: (S, Q) -> S, start: S, a: seq<Q>, j: nat): S
    requires j <= |a|
  {
    if j == 0 then start else f(Folded(f, start, a, j - 1), a[j - 1])
  }

  lemma {:induction false} FoldedPrefix<S, Q>(f: (S, Q) -> S, start: S, a: seq<Q>, more: seq<Q>, j: nat)
    requires a <= more && j <= |a|
    ensures Folded(f, start, more, j) == Folded(f, start, a, j)
  {
    if j > 0 {
      FoldedPrefix(f, start, a, more, j - 1);
      assert more[j - 1] == a[j - 1];
    }
  }
}
