/** Substrings and decimal numerals. */
module Text {

  predicate At(text: string, m: string, i: nat) {
    i + |m| <= |text| && text[i..i + |m|] == m
  }

  /** `m in text` */
  predicate Contains(text: string, m: string) {
    exists i :: 0 <= i <= |text| && At(text, m, i)
  }

  lemma Covers(text: string, m: string, i: nat, p: nat)
    requires At(text, m, i) && i <= p < i + |m|
    ensures m[p - i] == text[p] && text[p] in m
  {
    assert text[i..i + |m|][p - i] == text[p];
  }

  lemma FoundIn(text: string, m: string, c: char)
    requires Contains(text, m) && c in m
    ensures c in text
  {
    var i :| 0 <= i <= |text| && At(text, m, i);
    var j :| 0 <= j < |m| && m[j] == c;
    Covers(text, m, i, i + j);
  }

  lemma NotWithout(text: string, m: string, c: char)
    requires c in m && c !in text
    ensures !Contains(text, m)
  {
    if Contains(text, m) {
      FoundIn(text, m, c);
    }
  }

  lemma StartsWith(m: string, rest: string)
    ensures Contains(m + rest, m)
  {
    assert (m + rest)[0..0 + |m|] == m;
    assert At(m + rest, m, 0);
  }

  lemma EndsIn(lead: string, m: string)
    ensures Contains(lead + m, m)
  {
    assert (lead + m)[|lead|..|lead| + |m|] == m;
    assert At(lead + m, m, |lead|);
  }

  lemma ContainsMore(before: string, text: string, after: string, m: string)
    requires Contains(text, m)
    ensures Contains(before + text + after, m)
  {
    var i :| 0 <= i <= |text| && At(text, m, i);
    var all := before + text + after;
    assert all[|before| + i..|before| + i + |m|] == text[i..i + |m|];
    assert At(all, m, |before| + i);
  }

  /** A search text without the delimiter lies on one side of it. */
  lemma Delimited(a: string, d: char, b: string, m: string)
    requires d !in m && m != []
    ensures Contains(a + [d] + b, m) <==> Contains(a, m) || Contains(b, m)
  {
    var text := a + [d] + b;
    if Contains(text, m) {
      var i :| 0 <= i <= |text| && At(text, m, i);
      OnOneSide(a, d, b, m, i);
    }
    if Contains(a, m) {
      ContainsMore("", a, [d] + b, m);
      assert "" + a + ([d] + b) == text;
    }
    if Contains(b, m) {
      ContainsMore(a + [d], b, "", m);
      assert a + [d] + b + "" == text;
    }
  }

  lemma OnOneSide(a: string, d: char, b: string, m: string, i: nat)
    requires d !in m && m != [] && i <= |a + [d] + b| && At(a + [d] + b, m, i)
    ensures Contains(a, m) || Contains(b, m)
  {
    var text := a + [d] + b;
    if i <= |a| < i + |m| {
      Covers(text, m, i, |a|);
      assert false;
    } else if i + |m| <= |a| {
      SliceLeft(a, [d] + b, i, i + |m|);
      assert a + ([d] + b) == text;
      assert At(a, m, i);
    } else {
      var j := i - |a| - 1;
      SliceRight(a + [d], b, j, j + |m|);
      assert At(b, m, j);
    }
  }

  lemma SliceLeft(a: string, b: string, i: nat, j: nat)
    requires i <= j <= |a|
    ensures (a + b)[i..j] == a[i..j]
  {
  }

  lemma SliceRight(a: string, b: string, i: nat, j: nat)
    requires i <= j <= |b|
    ensures (a + b)[|a| + i..|a| + j] == b[i..j]
  {
  }

  /** Where both texts hold the mark `c` once, an occurrence must align them. */
  lemma AlignedOn(c: char, before: string, after: string, head: string, rest: string)
    requires c !in before && c !in after && c !in head && c !in rest
    ensures Contains(before + [c] + after, head + [c] + rest) <==>
              |head| <= |before| && before[|before| - |head|..] == head && rest <= after
  {
    var text, m := before + [c] + after, head + [c] + rest;
    if Contains(text, m) {
      var i :| 0 <= i <= |text| && At(text, m, i);
      Covers(text, m, i, i + |head|);
      assert i + |head| == |before|;
      AlignedAt(c, before, after, head, rest);
    }
    if |head| <= |before| && before[|before| - |head|..] == head && rest <= after {
      AlignedAt(c, before, after, head, rest);
    }
  }

  lemma AlignedAt(c: char, before: string, after: string, head: string, rest: string)
    requires |head| <= |before|
    ensures At(before + [c] + after, head + [c] + rest, |before| - |head|) <==>
              before[|before| - |head|..] == head && rest <= after
  {
    var text, m, i := before + [c] + after, head + [c] + rest, |before| - |head|;
    if |rest| <= |after| {
      var front := before[i..];
      assert text[i..i + |m|] == front + [c] + after[..|rest|];
      SameAround(front, head, c, after[..|rest|], rest);
    }
  }

  lemma SameAround(a: string, b: string, c: char, x: string, y: string)
    requires |a| == |b| && |x| == |y|
    ensures a + [c] + x == b + [c] + y <==> a == b && x == y
  {
    var s, t := a + [c] + x, b + [c] + y;
    assert s[..|a|] == a && t[..|b|] == b && s[|a| + 1..] == x && t[|b| + 1..] == y;
  }

  /** `"\"".join(pieces)` */
  function Join(pieces: seq<string>, d: char): string {
    if pieces == [] then ""
    else if |pieces| == 1 then pieces[0]
    else Join(pieces[..|pieces| - 1], d) + [d] + pieces[|pieces| - 1]
  }

  ghost predicate InSome(pieces: seq<string>, m: string) {
    exists p :: p in pieces && Contains(p, m)
  }

  lemma {:induction false} InJoin(pieces: seq<string>, d: char, m: string)
    requires d !in m && m != []
    ensures Contains(Join(pieces, d), m) <==> InSome(pieces, m)
  {
    if |pieces| == 0 {
    } else if |pieces| == 1 {
      assert pieces[0] in pieces;
    } else {
      var front, last := pieces[..|pieces| - 1], pieces[|pieces| - 1];
      InJoin(front, d, m);
      Delimited(Join(front, d), d, last, m);
      InSomeAppend(front, [last], m);
      assert front + [last] == pieces;
    }
  }

  lemma InSomeAppend(a: seq<string>, b: seq<string>, m: string)
    ensures InSome(a + b, m) <==> InSome(a, m) || InSome(b, m)
    ensures |b| == 1 ==> (InSome(b, m) <==> Contains(b[0], m))
  {
    assert forall p :: p in a + b <==> p in a || p in b;
    if |b| == 1 {
      assert b[0] in b;
    }
  }

  // ---- decimal numerals -----------------------------------------------------------------------------------

  function Digit(d: nat): char
    requires d < 10
  {
    '0' + d as char
  }

  /** `str(n)` */
  function Decimal(n: nat): (s: string)
    ensures s != []
  {
    if n < 10 then [Digit(n)] else Decimal(n / 10) + [Digit(n % 10)]
  }

  predicate IsDigit(c: char) { '0' <= c <= '9' }

  function DigitValue(c: char): nat
    requires IsDigit(c)
  {
    c as nat - '0' as nat
  }

  /** `int(s)` */
  function Value(s: string): nat
    requires forall c :: c in s ==> IsDigit(c)
  {
    if s == [] then 0
    else
      assert s[|s| - 1] in s;
      10 * Value(s[..|s| - 1]) + DigitValue(s[|s| - 1])
  }

  lemma {:induction false} DecimalReads(n: nat)
    ensures forall c :: c in Decimal(n) ==> IsDigit(c)
    ensures Value(Decimal(n)) == n
    ensures Decimal(n)[0] == '0' <==> n == 0
  {
    if n < 10 {
      assert [Digit(n)][..0] == [];
    } else {
      DecimalReads(n / 10);
      assert Decimal(n)[..|Decimal(n)| - 1] == Decimal(n / 10);
    }
  }

  lemma {:induction false} LongerIsLarger(i: nat, j: nat)
    requires i <= j
    ensures |Decimal(i)| <= |Decimal(j)|
  {
    if j >= 10 && i >= 10 {
      LongerIsLarger(i / 10, j / 10);
    }
  }

  /** A numeral is a proper prefix only of larger ones: `1` of `10`, never the other way round. */
  lemma PrefixIsSmaller(i: nat, j: nat)
    requires Decimal(i) <= Decimal(j)
    ensures i <= j
    ensures i == 0 ==> j == 0
  {
    DecimalReads(i);
    DecimalReads(j);
    if |Decimal(i)| == |Decimal(j)| {
      assert Decimal(i) == Decimal(j);
    } else if j < i {
      LongerIsLarger(j, i);
      assert false;
    }
  }
}
