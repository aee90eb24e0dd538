/** Calibrating a judge against labelled examples, its agreement beyond chance, and the correction of a rate
    observed through it. Rates are exact reals. */
module Judge {
  import opened Seqs

  datatype Example = Example(text: string, truth: bool)

  /** A verdict, or an abstention. */
  type Oracle = string -> Option<bool>

  datatype Calibration = Calibration(
    n: nat, abstain: nat, positives: nat, negatives: nat, tp: nat, tn: nat, fp: nat, fn: nat,
    fpr: real, fnr: real, kappa: real, alert: bool)

  const KAPPA_ALERT_THRESHOLD := 0.6

  /** How many examples have this label and this verdict. */
  function Tally(oracle: Oracle, gold: seq<Example>, truth: bool, verdict: Option<bool>): nat {
    if gold == [] then 0
    else
      var last := gold[|gold| - 1];
      Tally(oracle, gold[..|gold| - 1], truth, verdict)
      + if last.truth == truth && oracle(last.text) == verdict then 1 else 0
  }

  function Ratio(a: nat, b: nat): real {
    if b == 0 then 0.0 else a as real / b as real
  }

  /** An error rate is the share of the errors among the examples of that label, and 0 where there are none. */
  lemma RatioIs(a: nat, b: nat)
    ensures b == 0 ==> Ratio(a, b) == 0.0
    ensures b > 0 ==> Ratio(a, b) * b as real == a as real
  {
  }

  /** Cohen's kappa of a 2x2 table. */
  function Kappa(tp: nat, tn: nat, fp: nat, fn: nat): real {
    var n := tp + tn + fp + fn;
    if n == 0 then 0.0
    else
      var po := (tp + tn) as real / n as real;
      var pe := Chance((tp + fp) as real / n as real, (tp + fn) as real / n as real,
                       (tn + fn) as real / n as real, (tn + fp) as real / n as real);
      if pe >= 1.0 then (if po >= 1.0 then 1.0 else 0.0) else (po - pe) / (1.0 - pe)
  }

  /** The agreement expected of independent verdicts. */
  function Chance(predPos: real, actualPos: real, predNeg: real, actualNeg: real): real {
    predPos * actualPos + predNeg * actualNeg
  }

  /** The confusion matrix of `gold` and its abstentions. */
  ghost predicate Counted(oracle: Oracle, gold: seq<Example>, tp: nat, tn: nat, fp: nat, fn: nat, abstain: nat) {
    && tp == Tally(oracle, gold, true, Some(true)) && fn == Tally(oracle, gold, true, Some(false))
    && fp == Tally(oracle, gold, false, Some(true)) && tn == Tally(oracle, gold, false, Some(false))
    && abstain == Tally(oracle, gold, true, None) + Tally(oracle, gold, false, None)
    && |gold| == abstain + tp + tn + fp + fn
  }

  /** The examples with this label and this verdict. */
  ghost function Cell(oracle: Oracle, gold: seq<Example>, truth: bool, verdict: Option<bool>): set<nat> {
    set i: nat | i < |gold| && InCell(oracle, gold[i], truth, verdict)
  }

  predicate InCell(oracle: Oracle, ex: Example, truth: bool, verdict: Option<bool>) {
    ex.truth == truth && oracle(ex.text) == verdict
  }

  lemma CellGrows(oracle: Oracle, front: seq<Example>, ex: Example, truth: bool, verdict: Option<bool>)
    ensures |Cell(oracle, front + [ex], truth, verdict)|
         == |Cell(oracle, front, truth, verdict)| + One(InCell(oracle, ex, truth, verdict))
  {
    assert Cell(oracle, front + [ex], truth, verdict)
        == Cell(oracle, front, truth, verdict) + if InCell(oracle, ex, truth, verdict) then {|front|} else {};
  }

  lemma {:induction false} TallyIsCell(oracle: Oracle, gold: seq<Example>, truth: bool, verdict: Option<bool>)
    ensures Tally(oracle, gold, truth, verdict) == |Cell(oracle, gold, truth, verdict)|
  {
    if gold == [] {
      assert Cell(oracle, gold, truth, verdict) == {};
    } else {
      var front, last := gold[..|gold| - 1], gold[|gold| - 1];
      assert gold == front + [last];
      TallyIsCell(oracle, front, truth, verdict);
      OneMoreTallied(oracle, front, last, truth, verdict);
      CellGrows(oracle, front, last, truth, verdict);
    }
  }

  /** The counts of a calibration are the sizes of the cells of its gold set. */
  ghost predicate CellSizes(oracle: Oracle, gold: seq<Example>, c: Calibration) {
    match c
    case Calibration(_, abstain, _, _, tp, tn, fp, fn, _, _, _, _) =>
      && tp == |Cell(oracle, gold, true, Some(true))| && fn == |Cell(oracle, gold, true, Some(false))|
      && fp == |Cell(oracle, gold, false, Some(true))| && tn == |Cell(oracle, gold, false, Some(false))|
      && abstain == |Cell(oracle, gold, true, None)| + |Cell(oracle, gold, false, None)|
  }

  lemma CountedCells(oracle: Oracle, gold: seq<Example>, c: Calibration)
    requires Counted(oracle, gold, c.tp, c.tn, c.fp, c.fn, c.abstain)
    ensures CellSizes(oracle, gold, c)
  {
    TallyIsCell(oracle, gold, true, Some(true));
    TallyIsCell(oracle, gold, true, Some(false));
    TallyIsCell(oracle, gold, false, Some(true));
    TallyIsCell(oracle, gold, false, Some(false));
    TallyIsCell(oracle, gold, true, None);
    TallyIsCell(oracle, gold, false, None);
  }

  function One(b: bool): nat {
    if b then 1 else 0
  }

  lemma OneMoreExample(
    oracle: Oracle, gold: seq<Example>, ex: Example, tp: nat, tn: nat, fp: nat, fn: nat, abstain: nat)
    ensures var v := oracle(ex.text);
            Counted(oracle, gold, tp, tn, fp, fn, abstain) ==>
            Counted(oracle, gold + [ex], tp + One(ex.truth && v == Some(true)), tn + One(!ex.truth && v == Some(false)),
                    fp + One(!ex.truth && v == Some(true)), fn + One(ex.truth && v == Some(false)), abstain + One(v == None))
  {
    OneMoreTallied(oracle, gold, ex, true, Some(true));
    OneMoreTallied(oracle, gold, ex, true, Some(false));
    OneMoreTallied(oracle, gold, ex, false, Some(true));
    OneMoreTallied(oracle, gold, ex, false, Some(false));
    OneMoreTallied(oracle, gold, ex, true, None);
    OneMoreTallied(oracle, gold, ex, false, None);
    match oracle(ex.text)
    case None =>
    case Some(pred) =>
      assert Some(pred) == if pred then Some(true) else Some(false);
  }

  lemma OneMoreTallied(oracle: Oracle, gold: seq<Example>, ex: Example, truth: bool, verdict: Option<bool>)
    ensures Tally(oracle, gold + [ex], truth, verdict)
         == Tally(oracle, gold, truth, verdict) + One(ex.truth == truth && oracle(ex.text) == verdict)
  {
    assert (gold + [ex])[..|gold|] == gold;
  }

  /** The loop over the gold set. */
  method Confusion(oracle: Oracle, gold: seq<Example>) returns (tp: nat, tn: nat, fp: nat, fn: nat, abstain: nat)
    ensures Counted(oracle, gold, tp, tn, fp, fn, abstain)
  {
    tp, tn, fp, fn, abstain := 0, 0, 0, 0, 0;
    for i := 0 to |gold|
      invariant Counted(oracle, gold[..i], tp, tn, fp, fn, abstain)
    {
      var ex := gold[i];
      OneMoreExample(oracle, gold[..i], ex, tp, tn, fp, fn, abstain);
      assert gold[..i + 1] == gold[..i] + [ex];
      match oracle(ex.text)
      case None => abstain := abstain + 1;
      case Some(pred) =>
        if ex.truth && pred {
          tp := tp + 1;
        } else if ex.truth {
          fn := fn + 1;
        } else if pred {
          fp := fp + 1;
        } else {
          tn := tn + 1;
        }
    }
    assert gold[..|gold|] == gold;
  }

  method CalibrateOracle(oracle: Oracle, gold: seq<Example>) returns (c: Calibration)
    ensures c.n == |gold| && CellSizes(oracle, gold, c)
    ensures c.positives == c.tp + c.fn && c.negatives == c.tn + c.fp
    ensures c.n == c.abstain + c.positives + c.negatives
    ensures c.fpr == Ratio(c.fp, c.tn + c.fp) && c.fnr == Ratio(c.fn, c.tp + c.fn)
    ensures c.kappa == Kappa(c.tp, c.tn, c.fp, c.fn) && (c.alert <==> c.kappa < KAPPA_ALERT_THRESHOLD)
  {
    var tp, tn, fp, fn, abstain := Confusion(oracle, gold);
    var kappa := Kappa(tp, tn, fp, fn);
    c := Calibration(|gold|, abstain, tp + fn, tn + fp, tp, tn, fp, fn,
                     Ratio(fp, tn + fp), Ratio(fn, tp + fn), kappa, kappa < KAPPA_ALERT_THRESHOLD);
    CountedCells(oracle, gold, c);
  }

  // ---- kappa ----------------------------------------------------------------------------------------------

  lemma DivTimes(a: real, b: real)
    requires b != 0.0
    ensures a / b * b == a
  {
  }

  lemma Negative(x: real, n: real)
    requires x < 0.0 && n > 0.0
    ensures x * n < 0.0
  {
  }

  lemma FactorOrder(a: real, b: real, m: real)
    requires m > 0.0 && a * m <= b * m
    ensures a <= b
  {
    if a > b {
      Negative(b - a, m);
    }
  }

  /** The two agreements, cleared of their denominators. */
  lemma Cleared(a: real, d: real, b: real, c: real, n: real)
    requires n > 0.0 && n == a + d + b + c
    ensures ((a + d) / n) * n == a + d
    ensures (Chance((a + b) / n, (a + c) / n, (d + c) / n, (d + b) / n) * n) * n == (a + b) * (a + c) + (d + c) * (d + b)
  {
    var p, q, r, s := (a + b) / n, (a + c) / n, (d + c) / n, (d + b) / n;
    DivTimes(a + b, n);
    DivTimes(a + c, n);
    DivTimes(d + c, n);
    DivTimes(d + b, n);
    TwoProducts(p, q, r, s, n, a + b, a + c, d + c, d + b);
  }

  lemma TwoProducts(p: real, q: real, r: real, s: real, n: real, u: real, v: real, x: real, y: real)
    requires p * n == u && q * n == v && r * n == x && s * n == y
    ensures (Chance(p, q, r, s) * n) * n == u * v + x * y
  {
    assert (Chance(p, q, r, s) * n) * n == (p * n) * (q * n) + (r * n) * (s * n);
  }

  /** n^2 = (a+b)(a+c) + (d+c)(d+b) plus the products of opposite cells. */
  lemma ChanceGap(a: real, d: real, b: real, c: real, n: real)
    requires a >= 0.0 && b >= 0.0 && c >= 0.0 && d >= 0.0 && n == a + d + b + c
    ensures n * n - ((a + b) * (a + c) + (d + c) * (d + b)) == (a + b) * (d + b) + (d + c) * (a + c)
    ensures n * (a + d) + n * n - 2.0 * ((a + b) * (a + c) + (d + c) * (d + b))
         == 4.0 * (a * d) + (a + d) * (b + c) + (b - c) * (b - c)
  {
  }

  /** Expected agreement reaches 1 only when all verdicts and labels are on one side; then there is no error, so the
      branch that would answer 0 is never taken. */
  lemma ChanceBelowOne(tp: nat, tn: nat, fp: nat, fn: nat)
    requires tp + tn + fp + fn > 0
    ensures var n := (tp + tn + fp + fn) as real;
            var po := (tp + tn) as real / n;
            var pe := Chance((tp + fp) as real / n, (tp + fn) as real / n, (tn + fn) as real / n, (tn + fp) as real / n);
            pe <= 1.0 && po <= 1.0 && (pe >= 1.0 <==> tp == tp + tn + fp + fn || tn == tp + tn + fp + fn)
            && (pe >= 1.0 ==> po == 1.0) && (po >= 1.0 <==> fp == 0 && fn == 0)
            && po + 1.0 >= 2.0 * pe
  {
    var a, d, b, c := tp as real, tn as real, fp as real, fn as real;
    var n := a + d + b + c;
    Cleared(a, d, b, c, n);
    ChanceGap(a, d, b, c, n);
    var po := (a + d) / n;
    var pe := Chance((a + b) / n, (a + c) / n, (d + c) / n, (d + b) / n);
    Bounds(a, d, b, c, n, po, pe);
  }

  lemma Bounds(a: real, d: real, b: real, c: real, n: real, po: real, pe: real)
    requires a >= 0.0 && b >= 0.0 && c >= 0.0 && d >= 0.0 && n == a + d + b + c && n > 0.0
    requires po * n == a + d && (pe * n) * n == (a + b) * (a + c) + (d + c) * (d + b)
    ensures pe <= 1.0 && po <= 1.0 && (pe >= 1.0 <==> a == n || d == n) && (pe >= 1.0 ==> po == 1.0)
    ensures po >= 1.0 <==> b == 0.0 && c == 0.0
    ensures po + 1.0 >= 2.0 * pe
  {
    var gap := (a + b) * (d + b) + (d + c) * (a + c);
    ChanceGap(a, d, b, c, n);
    ObservedBounds(a, d, b, c, n, po);
    OppositeCells(a, d, b, c, n);
    ExpectedBounds(n, pe, gap);
    TwiceExpected(a, d, b, c, n, po, pe);
  }

  lemma ObservedBounds(a: real, d: real, b: real, c: real, n: real, po: real)
    requires b >= 0.0 && c >= 0.0 && n == a + d + b + c && n > 0.0 && po * n == a + d
    ensures po <= 1.0 && (po >= 1.0 <==> b == 0.0 && c == 0.0)
  {
    assert po * n <= 1.0 * n;
    FactorOrder(po, 1.0, n);
    if po >= 1.0 {
      assert po == 1.0;
    }
    if b == 0.0 && c == 0.0 {
      assert 1.0 * n <= po * n;
      FactorOrder(1.0, po, n);
    }
  }

  /** The gap is zero exactly when one diagonal cell holds everything. */
  lemma OppositeCells(a: real, d: real, b: real, c: real, n: real)
    requires a >= 0.0 && b >= 0.0 && c >= 0.0 && d >= 0.0 && n == a + d + b + c && n > 0.0
    ensures var gap := (a + b) * (d + b) + (d + c) * (a + c);
            gap >= 0.0 && (gap == 0.0 <==> a == n || d == n)
  {
    var g1, g2 := (a + b) * (d + b), (d + c) * (a + c);
    Vanishes(a + b, d + b);
    Vanishes(d + c, a + c);
  }

  lemma Vanishes(x: real, y: real)
    requires x >= 0.0 && y >= 0.0
    ensures x * y >= 0.0 && (x * y == 0.0 <==> x == 0.0 || y == 0.0)
  {
  }

  lemma ExpectedBounds(n: real, pe: real, gap: real)
    requires n > 0.0 && gap >= 0.0 && n * n - (pe * n) * n == gap
    ensures pe <= 1.0 && (pe >= 1.0 <==> gap == 0.0)
  {
    assert ((1.0 - pe) * n) * n == gap;
    Sign(1.0 - pe, n, gap);
  }

  lemma Sign(x: real, n: real, gap: real)
    requires n > 0.0 && gap >= 0.0 && (x * n) * n == gap
    ensures x >= 0.0 && (x <= 0.0 <==> gap == 0.0)
  {
    if x < 0.0 {
      Negative(x, n);
      Negative(x * n, n);
    }
    if x > 0.0 {
      Negative(-x, n);
      assert (-x) * n == -(x * n);
      Negative(-(x * n), n);
      assert (-(x * n)) * n == -((x * n) * n);
    }
  }

  lemma TwiceExpected(a: real, d: real, b: real, c: real, n: real, po: real, pe: real)
    requires a >= 0.0 && b >= 0.0 && c >= 0.0 && d >= 0.0 && n == a + d + b + c && n > 0.0
    requires po * n == a + d && (pe * n) * n == (a + b) * (a + c) + (d + c) * (d + b)
    ensures po + 1.0 >= 2.0 * pe
  {
    ChanceGap(a, d, b, c, n);
    Vanishes(a, d);
    Vanishes(a + d, b + c);
    var left, right := (2.0 * pe * n) * n, ((po + 1.0) * n) * n;
    assert left == 2.0 * ((pe * n) * n);
    assert right == n * (a + d) + n * n by {
      assert (po + 1.0) * n == a + d + n;
    }
    assert (b - c) * (b - c) >= 0.0;
    assert left <= right;
    FactorOrder(2.0 * pe * n, (po + 1.0) * n, n);
    FactorOrder(2.0 * pe, po + 1.0, n);
  }

  /** Kappa lies in [-1, 1], and is 1 exactly when there was a verdict and none was wrong. */
  lemma KappaBounds(tp: nat, tn: nat, fp: nat, fn: nat)
    ensures -1.0 <= Kappa(tp, tn, fp, fn) <= 1.0
    ensures Kappa(tp, tn, fp, fn) == 1.0 <==> tp + tn > 0 && fp == 0 && fn == 0
  {
    if tp + tn + fp + fn > 0 {
      var n := (tp + tn + fp + fn) as real;
      ChanceBelowOne(tp, tn, fp, fn);
      var po := (tp + tn) as real / n;
      var pe := Chance((tp + fp) as real / n, (tp + fn) as real / n, (tn + fn) as real / n, (tn + fp) as real / n);
      if pe < 1.0 {
        AgreementRatio(po, pe);
      }
    }
  }

  lemma AgreementRatio(po: real, pe: real)
    requires pe < 1.0 && po <= 1.0 && po + 1.0 >= 2.0 * pe
    ensures -1.0 <= (po - pe) / (1.0 - pe) <= 1.0
    ensures (po - pe) / (1.0 - pe) == 1.0 <==> po >= 1.0
  {
    DivTimes(po - pe, 1.0 - pe);
    RatioBounds((po - pe) / (1.0 - pe), po - pe, 1.0 - pe);
  }

  lemma RatioBounds(k: real, top: real, m: real)
    requires m > 0.0 && k * m == top && -m <= top <= m
    ensures -1.0 <= k <= 1.0 && (k == 1.0 <==> top == m)
  {
    FactorOrder(-1.0, k, m);
    FactorOrder(k, 1.0, m);
    if top == m {
      FactorOrder(1.0, k, m);
    }
  }

  /** What kappa is, cleared of its denominators: twice the determinant of the table over the products of its opposite
      margins. Where those vanish, all verdicts and labels are on one side and kappa is 1. */
  lemma KappaIsDeterminant(tp: nat, tn: nat, fp: nat, fn: nat)
    ensures var a, d, b, c := tp as real, tn as real, fp as real, fn as real;
            var margins := (a + b) * (b + d) + (a + c) * (c + d);
            && Kappa(tp, tn, fp, fn) * margins == 2.0 * (a * d - b * c)
            && (margins == 0.0 ==> Kappa(tp, tn, fp, fn) == if tp + tn > 0 then 1.0 else 0.0)
  {
    KappaOverMargins(tp, tn, fp, fn, tp as real, tn as real, fp as real, fn as real);
  }

  lemma KappaOverMargins(tp: nat, tn: nat, fp: nat, fn: nat, a: real, d: real, b: real, c: real)
    requires a == tp as real && d == tn as real && b == fp as real && c == fn as real
    ensures OverMargins(Kappa(tp, tn, fp, fn), a, d, b, c, if tp + tn > 0 then 1.0 else 0.0)
  {
    if tp + tn + fp + fn == 0 {
      NoVerdict(a, d, b, c);
    } else {
      var n := a + d + b + c;
      var po := (a + d) / n;
      var pe := Chance((a + b) / n, (a + c) / n, (d + c) / n, (d + b) / n);
      KappaOf(tp, tn, fp, fn, n, po, pe);
      ChanceBelowOne(tp, tn, fp, fn);
      Cleared(a, d, b, c, n);
      RatioOverMargins(Kappa(tp, tn, fp, fn), a, d, b, c, n, po, pe);
    }
  }

  ghost predicate OverMargins(k: real, a: real, d: real, b: real, c: real, whole: real) {
    var margins := (a + b) * (b + d) + (a + c) * (c + d);
    k * margins == 2.0 * (a * d - b * c) && (margins == 0.0 ==> k == whole)
  }

  lemma NoVerdict(a: real, d: real, b: real, c: real)
    requires a == d == b == c == 0.0
    ensures OverMargins(0.0, a, d, b, c, 0.0)
  {
  }

  lemma RatioOverMargins(k: real, a: real, d: real, b: real, c: real, n: real, po: real, pe: real)
    requires a >= 0.0 && d >= 0.0 && b >= 0.0 && c >= 0.0 && n == a + d + b + c && n > 0.0
    requires pe <= 1.0 && (pe >= 1.0 ==> po == 1.0)
    requires po * n == a + d && (pe * n) * n == (a + b) * (a + c) + (d + c) * (d + b)
    requires k == if pe >= 1.0 then (if po >= 1.0 then 1.0 else 0.0) else (po - pe) / (1.0 - pe)
    ensures OverMargins(k, a, d, b, c, if a + d > 0.0 then 1.0 else 0.0)
  {
    BeyondChance(a, d, b, c, n, po, pe);
    if pe >= 1.0 {
      assert po * n == 1.0 * n;
    }
  }

  lemma KappaOf(tp: nat, tn: nat, fp: nat, fn: nat, n: real, po: real, pe: real)
    requires tp + tn + fp + fn > 0 && n == tp as real + tn as real + fp as real + fn as real
    requires po == (tp as real + tn as real) / n
    requires pe == Chance((tp as real + fp as real) / n, (tp as real + fn as real) / n,
                          (tn as real + fn as real) / n, (tn as real + fp as real) / n)
    ensures Kappa(tp, tn, fp, fn)
         == if pe >= 1.0 then (if po >= 1.0 then 1.0 else 0.0) else (po - pe) / (1.0 - pe)
  {
  }

  lemma BeyondChance(a: real, d: real, b: real, c: real, n: real, po: real, pe: real)
    requires n == a + d + b + c && n > 0.0 && pe <= 1.0 && (pe >= 1.0 ==> po == 1.0)
    requires po * n == a + d && (pe * n) * n == (a + b) * (a + c) + (d + c) * (d + b)
    ensures var margins := (a + b) * (b + d) + (a + c) * (c + d);
            && (pe >= 1.0 ==> margins == 0.0 && a * d - b * c == 0.0)
            && (pe < 1.0 ==> margins > 0.0 && (po - pe) / (1.0 - pe) * margins == 2.0 * (a * d - b * c))
  {
    Determinant(a, d, b, c, n, po, pe);
    if pe < 1.0 {
      DivTimes(po - pe, 1.0 - pe);
      Scaled((po - pe) / (1.0 - pe), 1.0 - pe, n);
      Negative(pe - 1.0, n);
      Negative((pe - 1.0) * n, n);
    }
  }

  lemma ProductAsReal(x: nat, y: nat)
    ensures (x * y) as real == x as real * y as real
  {
  }

  /** The two agreements in terms of the table. */
  lemma Determinant(a: real, d: real, b: real, c: real, n: real, po: real, pe: real)
    requires n == a + d + b + c
    requires po * n == a + d && (pe * n) * n == (a + b) * (a + c) + (d + c) * (d + b)
    ensures ((po - pe) * n) * n == 2.0 * (a * d - b * c)
    ensures ((1.0 - pe) * n) * n == (a + b) * (b + d) + (a + c) * (c + d)
  {
    assert ((po - pe) * n) * n == (po * n) * n - (pe * n) * n;
    assert ((1.0 - pe) * n) * n == n * n - (pe * n) * n;
  }

  lemma Scaled(k: real, m: real, n: real)
    ensures k * ((m * n) * n) == ((k * m) * n) * n
  {
  }

  /** Agreement at chance level is no agreement: kappa has the sign of the table's determinant. Both margins are empty
      only when all verdicts and labels are on one side. */
  lemma KappaSign(tp: nat, tn: nat, fp: nat, fn: nat)
    requires fp + fn > 0 || (tp > 0 && tn > 0)
    ensures Kappa(tp, tn, fp, fn) == 0.0 <==> tp * tn == fp * fn
    ensures Kappa(tp, tn, fp, fn) > 0.0 <==> tp * tn > fp * fn
  {
    KappaIsDeterminant(tp, tn, fp, fn);
    SameSign(tp, tn, fp, fn, tp as real, tn as real, fp as real, fn as real, Kappa(tp, tn, fp, fn));
  }

  lemma SameSign(tp: nat, tn: nat, fp: nat, fn: nat, a: real, d: real, b: real, c: real, k: real)
    requires a == tp as real && d == tn as real && b == fp as real && c == fn as real
    requires fp + fn > 0 || (tp > 0 && tn > 0)
    requires k * ((a + b) * (b + d) + (a + c) * (c + d)) == 2.0 * (a * d - b * c)
    ensures (k == 0.0 <==> tp * tn == fp * fn) && (k > 0.0 <==> tp * tn > fp * fn)
  {
    MarginsPositive(a, d, b, c);
    ProductAsReal(tp, tn);
    ProductAsReal(fp, fn);
    SignOf(k, (a + b) * (b + d) + (a + c) * (c + d), a * d, b * c, tp * tn, fp * fn);
  }

  lemma MarginsPositive(a: real, d: real, b: real, c: real)
    requires a >= 0.0 && d >= 0.0 && b >= 0.0 && c >= 0.0 && (b + c > 0.0 || (a > 0.0 && d > 0.0))
    ensures (a + b) * (b + d) + (a + c) * (c + d) > 0.0
  {
    Vanishes(a + b, b + d);
    Vanishes(a + c, c + d);
  }

  lemma SignOf(k: real, m: real, x: real, y: real, p: nat, q: nat)
    requires m > 0.0 && k * m == 2.0 * (x - y) && x == p as real && y == q as real
    ensures (k == 0.0 <==> p == q) && (k > 0.0 <==> p > q)
  {
    if k < 0.0 {
      Negative(k, m);
    }
    if k > 0.0 {
      Negative(-k, m);
    }
  }

  /** A judge that always says yes agrees by chance alone: kappa is 0 and the alert is raised. */
  lemma AlwaysYesIsChance(tp: nat, fp: nat)
    requires tp > 0 && fp > 0
    ensures Kappa(tp, 0, fp, 0) == 0.0 && Kappa(tp, 0, fp, 0) < KAPPA_ALERT_THRESHOLD
  {
    KappaSign(tp, 0, fp, 0);
  }

  // ---- correcting an observed rate ------------------------------------------------------------------------

  const MIN_DENOMINATOR := 0.000000001

  function Abs(x: real): real {
    if x < 0.0 then -x else x
  }

  function Clamp(x: real): (r: real)
    ensures 0.0 <= r <= 1.0
  {
    if x < 0.0 then 0.0 else if x > 1.0 then 1.0 else x
  }

  function RoganGladen(observed: real, fpr: real, fnr: real): real {
    var denom := 1.0 - fpr - fnr;
    if Abs(denom) < MIN_DENOMINATOR then Clamp(observed) else Clamp((observed - fpr) / denom)
  }

  /** The two rates add up to 1, but for less than a billionth. */
  predicate AtChance(fpr: real, fnr: real) {
    1.0 - MIN_DENOMINATOR < fpr + fnr < 1.0 + MIN_DENOMINATOR
  }

  /** The rate a judge with these errors reports of a true rate `t`. */
  function Reported(t: real, fpr: real, fnr: real): real {
    t * (1.0 - fnr) + (1.0 - t) * fpr
  }

  /** For a judge with these error rates, the correction gives back the true rate from the reported one if and only if
      the judge is away from chance or its two kinds of error happen to cancel at that rate. */
  lemma CorrectionInverts(t: real, fpr: real, fnr: real)
    requires 0.0 <= t <= 1.0
    ensures !AtChance(fpr, fnr) ==> RoganGladen(Reported(t, fpr, fnr), fpr, fnr) == t
    ensures 0.0 <= fpr <= 1.0 && 0.0 <= fnr <= 1.0 ==>
              (RoganGladen(Reported(t, fpr, fnr), fpr, fnr) == t <==>
                !AtChance(fpr, fnr) || (1.0 - t) * fpr == t * fnr)
  {
    var denom := 1.0 - fpr - fnr;
    assert Reported(t, fpr, fnr) - fpr == t * denom;
    assert Abs(denom) >= MIN_DENOMINATOR ==> denom != 0.0;
    if Abs(denom) >= MIN_DENOMINATOR {
      Cancels(t, denom);
    } else if 0.0 <= fpr <= 1.0 && 0.0 <= fnr <= 1.0 {
      Moved(t, fpr, fnr);
    }
  }

  lemma Cancels(t: real, d: real)
    requires d != 0.0
    ensures t * d / d == t
  {
  }

  lemma Moved(t: real, fpr: real, fnr: real)
    requires 0.0 <= t <= 1.0 && 0.0 <= fpr <= 1.0 && 0.0 <= fnr <= 1.0
    ensures Reported(t, fpr, fnr) == t + ((1.0 - t) * fpr - t * fnr)
    ensures 0.0 <= Reported(t, fpr, fnr) <= 1.0
  {
    Vanishes(t, 1.0 - fnr);
    Vanishes(1.0 - t, fpr);
    Vanishes(t, fnr);
    Vanishes(1.0 - t, 1.0 - fpr);
    assert t * (1.0 - fnr) == t - t * fnr;
    assert (1.0 - t) * fpr == (1.0 - t) - (1.0 - t) * (1.0 - fpr);
  }

  /** The point of [0, 1] nearest to `x`. */
  ghost predicate Nearest(r: real, x: real) {
    0.0 <= r <= 1.0 && (x <= 0.0 ==> r == 0.0) && (0.0 <= x <= 1.0 ==> r == x) && (1.0 <= x ==> r == 1.0)
  }

  /** Away from chance the correction is the rate that would be reported as the observed one, or the nearest there is;
      at chance it is the observed rate itself. */
  lemma CorrectionIs(observed: real, fpr: real, fnr: real, t: real)
    ensures AtChance(fpr, fnr) ==> Nearest(RoganGladen(observed, fpr, fnr), observed)
    ensures !AtChance(fpr, fnr) && Reported(t, fpr, fnr) == observed ==>
              Nearest(RoganGladen(observed, fpr, fnr), t)
  {
    var denom := 1.0 - fpr - fnr;
    if Abs(denom) >= MIN_DENOMINATOR && Reported(t, fpr, fnr) == observed {
      assert observed - fpr == t * denom;
      Cancels(t, denom);
    }
  }
}
