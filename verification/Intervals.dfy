/** The closed-form confidence intervals of a flip rate, over exact reals and a given square root. */
module Intervals {

  type Root = real -> real

  ghost predicate IsRoot(root: Root) {
    forall x: real :: x >= 0.0 ==> root(x) >= 0.0 && root(x) * root(x) == x
  }

  datatype Interval = Interval(lo: real, hi: real)

  function Max(a: real, b: real): real {
    if a >= b then a else b
  }

  function Min(a: real, b: real): real {
    if a <= b then a else b
  }

  /** The centre of the Wilson interval for `s` out of `m`, with t = z^2. */
  function CentreOf(s: real, m: real, t: real): real
    requires m > 0.0 && t >= 0.0
  {
    NonNegative(t, m);
    (s / m + t / (2.0 * m)) / (1.0 + t / m)
  }

  /** What the half-width takes the root of. */
  function RadicandOf(s: real, m: real, t: real): real
    requires m > 0.0
  {
    s / m * (1.0 - s / m) / m + t / (4.0 * Square(m))
  }

  function SpreadOf(root: real, z: real, m: real, t: real): real
    requires m > 0.0 && t >= 0.0
  {
    NonNegative(t, m);
    z * root / (1.0 + t / m)
  }

  function Product(a: real, b: real): (t: real)
    ensures a > 0.0 && b > 0.0 ==> t > 0.0
    ensures a == b ==> t >= 0.0
  {
    a * b
  }

  function Square(z: real): (t: real)
    ensures t >= 0.0 && (z > 0.0 ==> t > 0.0)
  {
    Product(z, z)
  }

  lemma NonNegative(a: real, b: real)
    requires a >= 0.0 && b > 0.0
    ensures a / b >= 0.0
  {
  }

  /** The Wilson interval before clamping. */
  function Centre(x: nat, n: nat, z: real): real
    requires n > 0
  {
    CentreOf(x as real, n as real, Square(z))
  }

  function Spread(root: Root, x: nat, n: nat, z: real): real
    requires n > 0
  {
    SpreadOf(root(RadicandOf(x as real, n as real, Square(z))), z, n as real, Square(z))
  }

  function Wilson(root: Root, x: nat, n: nat, z: real): Interval {
    if n == 0 then Interval(0.0, 1.0)
    else
      Interval(if x == 0 then 0.0 else Max(0.0, Centre(x, n, z) - Spread(root, x, n, z)),
               if x == n then 1.0 else Min(1.0, Centre(x, n, z) + Spread(root, x, n, z)))
  }

  /** The Agresti-Coull estimate over n + z^2 trials, and the variance of its mean. */
  function PooledOf(s: real, m: real, t: real): real
    requires m > 0.0 && t >= 0.0
  {
    (s + t / 2.0) / (m + t)
  }

  function VarianceOf(p: real, total: real): real
    requires total > 0.0
  {
    p * (1.0 - p) / total
  }

  function Pooled(x: nat, n: nat, z: real): real
    requires n > 0
  {
    PooledOf(x as real, n as real, Square(z))
  }

  function Margin(root: Root, x: nat, n: nat, z: real): real
    requires n > 0
  {
    z * root(VarianceOf(Pooled(x, n, z), n as real + Square(z)))
  }

  function AgrestiCoull(root: Root, x: nat, n: nat, z: real): Interval
    requires n > 0
  {
    Interval(Max(0.0, Pooled(x, n, z) - Margin(root, x, n, z)), Min(1.0, Pooled(x, n, z) + Margin(root, x, n, z)))
  }

  // ---- real arithmetic ------------------------------------------------------------------------------------

  lemma Cancel(a: real, b: real, c: real)
    requires b != 0.0 && c != 0.0
    ensures b * c != 0.0 && (a * c) / (b * c) == a / b
  {
    assert a / b * (b * c) == a * c;
  }

  lemma Quotient(a: real, b: real, q: real)
    requires b != 0.0 && q * b == a
    ensures a / b == q
  {
  }

  lemma DivTimes(a: real, b: real)
    requires b != 0.0
    ensures a / b * b == a
  {
  }

  lemma ProductNonNegative(a: real, b: real)
    requires a >= 0.0 && b >= 0.0
    ensures a * b >= 0.0
  {
  }

  lemma TimesOrder(a: real, b: real, c: real)
    requires a <= b && c >= 0.0
    ensures a * c <= b * c
  {
  }

  lemma TimesOrderStrict(a: real, b: real, c: real)
    requires a < b && c > 0.0
    ensures a * c < b * c
  {
  }

  lemma FactorOrder(a: real, b: real, m: real)
    requires m > 0.0 && a * m <= b * m
    ensures a <= b
  {
    if a > b {
      TimesOrderStrict(b, a, m);
    }
  }

  lemma SquaresOrder(a: real, b: real)
    requires b >= 0.0 && a * a <= b * b
    ensures a <= b
  {
    assert (a - b) * (a + b) == a * a - b * b;
    if a > b {
      TimesOrderStrict(0.0, a - b, a + b);
    }
  }

  // ---- the Wilson quantities over one denominator ---------------------------------------------------------

  lemma CentreIsPooled(s: real, m: real, t: real)
    requires m > 0.0 && t >= 0.0
    ensures CentreOf(s, m, t) == PooledOf(s, m, t)
  {
    NonNegative(t, m);
    var a, b := s / m + t / (2.0 * m), 1.0 + t / m;
    DivTimes(s, m);
    DivTimes(t, 2.0 * m);
    DivTimes(t, m);
    assert a * m == s + t / 2.0;
    assert b * m == m + t;
    Cancel(a, b, m);
  }

  /** `w` is n times the root in the half-width: n w^2 = x (n - x) + n z^2 / 4. */
  ghost predicate Scaled(s: real, m: real, t: real, w: real) {
    w >= 0.0 && m * (w * w) == s * (m - s) + m * t / 4.0
  }

  lemma RadicandIs(s: real, m: real, t: real)
    requires 0.0 <= s <= m && m > 0.0 && t >= 0.0
    ensures RadicandOf(s, m, t) >= 0.0 && m * (m * (m * RadicandOf(s, m, t))) == s * (m - s) + m * t / 4.0
  {
    var p := s / m;
    var u, v := p * (1.0 - p) / m, t / (4.0 * Square(m));
    DivTimes(s, m);
    DivTimes(p * (1.0 - p), m);
    DivTimes(t, 4.0 * Square(m));
    FactorOrder(0.0, p, m);
    FactorOrder(p, 1.0, m);
    ProductNonNegative(p, 1.0 - p);
    FactorOrder(0.0, u, m);
    FactorOrder(0.0, v, 4.0 * Square(m));
    RadicandParts(s, m, t, p, u, v);
    assert RadicandOf(s, m, t) == u + v;
  }

  lemma RadicandParts(s: real, m: real, t: real, p: real, u: real, v: real)
    requires p * m == s && u * m == p * (1.0 - p) && v * (4.0 * Square(m)) == t
    ensures m * (m * (m * (u + v))) == s * (m - s) + m * t / 4.0
  {
    assert m * (m * (m * u)) == m * (m * (p * (1.0 - p))) == (p * m) * (m - p * m);
    assert m * (m * (m * v)) == m * (v * (m * m)) == m * (t / 4.0);
    assert m * (m * (m * (u + v))) == m * (m * (m * u)) + m * (m * (m * v));
  }

  lemma SpreadIs(r: real, y: real, s: real, m: real, t: real, z: real) returns (w: real)
    requires 0.0 <= s <= m && m > 0.0 && t >= 0.0 && r >= 0.0 && r * r == y && y == RadicandOf(s, m, t)
    ensures Scaled(s, m, t, w) && SpreadOf(r, z, m, t) * (m + t) == z * w
  {
    w := m * r;
    RadicandIs(s, m, t);
    RootScaled(s, m, t, r, y, w);
    SpreadScaled(r, z, m, t, w);
  }

  lemma RootScaled(s: real, m: real, t: real, r: real, y: real, w: real)
    requires m > 0.0 && r >= 0.0 && r * r == y && w == m * r && m * (m * (m * y)) == s * (m - s) + m * t / 4.0
    ensures Scaled(s, m, t, w)
  {
    ProductNonNegative(m, r);
    CubeIs(m, r, w);
  }

  lemma CubeIs(m: real, r: real, w: real)
    requires w == m * r
    ensures m * (w * w) == m * (m * (m * (r * r)))
  {
  }

  lemma SpreadScaled(r: real, z: real, m: real, t: real, w: real)
    requires m > 0.0 && t >= 0.0 && w == m * r
    ensures SpreadOf(r, z, m, t) * (m + t) == z * w
  {
    NonNegative(t, m);
    var b := 1.0 + t / m;
    BaseTimes(m, t, b);
    SpreadTimesBase(r, z, m, t, b);
    SpreadTimes(SpreadOf(r, z, m, t), b, m, z, r, w, m + t);
  }

  lemma BaseTimes(m: real, t: real, b: real)
    requires m > 0.0 && b == 1.0 + t / m
    ensures b * m == m + t
  {
    DivTimes(t, m);
  }

  lemma SpreadTimesBase(r: real, z: real, m: real, t: real, b: real)
    requires m > 0.0 && t >= 0.0 && b == 1.0 + t / m && b > 0.0
    ensures SpreadOf(r, z, m, t) * b == z * r
  {
    DivTimes(z * r, b);
  }

  lemma SpreadTimes(x: real, b: real, m: real, z: real, r: real, w: real, c: real)
    requires x * b == z * r && b * m == c && w == m * r
    ensures x * c == z * w
  {
    assert x * (b * m) == (x * b) * m;
  }

  // ---- comparisons by squares -----------------------------------------------------------------------------

  /** s + t/2 >= z w, with equality at s = 0. */
  lemma LowSide(s: real, m: real, t: real, z: real, w: real)
    requires 0.0 <= s <= m && m > 0.0 && z > 0.0 && t == z * z && Scaled(s, m, t, w)
    ensures z * w <= s + t / 2.0
    ensures s == 0.0 ==> z * w == t / 2.0
  {
    LowSquares(m, s, t, z, w);
    SquaresOrder(z * w, s + t / 2.0);
    if s == 0.0 {
      assert s * (m - s) == 0.0;
      HalfRoot(m, t, z, w);
    }
  }

  lemma HalfRoot(m: real, t: real, z: real, w: real)
    requires m > 0.0 && z > 0.0 && t == z * z && w >= 0.0 && m * (w * w) == m * t / 4.0
    ensures z * w == t / 2.0
  {
    var h := z / 2.0;
    assert h * h == t / 4.0;
    assert (w * w) * m == (h * h) * m;
    FactorOrder(w * w, h * h, m);
    FactorOrder(h * h, w * w, m);
    SquaresOrder(w, h);
    SquaresOrder(h, w);
    assert z * w == z * h;
  }

  lemma LowSquares(m: real, s: real, t: real, z: real, w: real)
    requires m > 0.0 && 0.0 <= s <= m && t == z * z && m * (w * w) == s * (m - s) + m * t / 4.0
    ensures (z * w) * (z * w) <= (s + t / 2.0) * (s + t / 2.0)
  {
    var v := w * w;
    assert (z * w) * (z * w) == t * v;
    assert (s + t / 2.0) * (s + t / 2.0) == s * s + s * t + t * t / 4.0;
    LowPolynomials(m, s, t, v);
    FactorOrder(t * v, s * s + s * t + t * t / 4.0, m);
  }

  lemma LowPolynomials(m: real, s: real, t: real, v: real)
    requires m > 0.0 && t >= 0.0 && m * v == s * (m - s) + m * t / 4.0
    ensures (t * v) * m <= (s * s + s * t + t * t / 4.0) * m
  {
    assert (t * v) * m == t * (m * v) == t * (s * (m - s) + m * t / 4.0);
    assert t * (s * (m - s) + m * t / 4.0) == (s * t) * m - t * (s * s) + (t * t / 4.0) * m;
    assert (s * s + s * t + t * t / 4.0) * m == (s * s) * m + (s * t) * m + (t * t / 4.0) * m;
    assert s * s >= 0.0;
    ProductNonNegative(t, s * s);
    ProductNonNegative(s * s, m);
  }

  /** z |s - m/2| <= m w: the point estimate lies within the interval. */
  lemma MiddleSide(s: real, m: real, t: real, z: real, w: real)
    requires 0.0 <= s <= m && m > 0.0 && z > 0.0 && t == z * z && Scaled(s, m, t, w)
    ensures z * (s - m / 2.0) <= m * w && z * (m / 2.0 - s) <= m * w
  {
    var d := s - m / 2.0;
    MiddleSquares(m, s, t, z, w, d);
    ProductNonNegative(m, w);
    SquaresOrder(z * d, m * w);
    assert (z * (-d)) * (z * (-d)) == (z * d) * (z * d);
    SquaresOrder(z * (-d), m * w);
  }

  lemma MiddleSquares(m: real, s: real, t: real, z: real, w: real, d: real)
    requires m > 0.0 && 0.0 <= s <= m && t == z * z && m * (w * w) == s * (m - s) + m * t / 4.0 && d == s - m / 2.0
    ensures (z * d) * (z * d) <= (m * w) * (m * w)
  {
    var q := s * (m - s);
    assert (z * d) * (z * d) == t * (d * d);
    assert d * d == m * m / 4.0 - q;
    assert (m * w) * (m * w) == m * (m * (w * w)) == m * (q + m * t / 4.0);
    assert t * (m * m / 4.0 - q) == t * (m * m) / 4.0 - t * q;
    assert m * (q + m * t / 4.0) == m * q + t * (m * m) / 4.0;
    ProductNonNegative(s, m - s);
    ProductNonNegative(t, q);
    ProductNonNegative(m, q);
  }

  /** The estimate `p` lies between centre `a` and half-width `b`, all times m + t. */
  lemma Straddles(s: real, m: real, t: real, z: real, w: real, a: real, b: real, p: real)
    requires m > 0.0 && z > 0.0 && t == z * z
    requires z * (s - m / 2.0) <= m * w && z * (m / 2.0 - s) <= m * w
    requires a * (m + t) == s + t / 2.0 && b * (m + t) == z * w && p * m == s
    ensures a - b <= p <= a + b
  {
    ScaledBounds(s, m, z, w, t);
    Below(s, m, t, z * w, a, b, p);
    Above(s, m, t, z * w, a, b, p);
  }

  lemma ScaledBounds(s: real, m: real, z: real, w: real, t: real)
    requires z > 0.0 && t == z * z && z * (s - m / 2.0) <= m * w && z * (m / 2.0 - s) <= m * w
    ensures t * s - t * m / 2.0 <= m * (z * w) && t * m / 2.0 - t * s <= m * (z * w)
  {
    TimesOrder(z * (s - m / 2.0), m * w, z);
    TimesOrder(z * (m / 2.0 - s), m * w, z);
    assert (z * (s - m / 2.0)) * z == t * (s - m / 2.0) == t * s - t * m / 2.0;
    assert (z * (m / 2.0 - s)) * z == t * (m / 2.0 - s) == t * m / 2.0 - t * s;
    assert (m * w) * z == m * (z * w);
  }

  lemma Below(s: real, m: real, t: real, v: real, a: real, b: real, p: real)
    requires m > 0.0 && t >= 0.0 && a * (m + t) == s + t / 2.0 && b * (m + t) == v && p * m == s
    requires t * m / 2.0 - t * s <= m * v
    ensures a - b <= p
  {
    var c := m + t;
    assert (a - b) * c == s + t / 2.0 - v;
    assert ((a - b) * c) * m == s * m + t * m / 2.0 - m * v;
    assert (p * c) * m == (p * m) * c == s * m + t * s;
    FactorOrder((a - b) * c, p * c, m);
    FactorOrder(a - b, p, c);
  }

  lemma Above(s: real, m: real, t: real, v: real, a: real, b: real, p: real)
    requires m > 0.0 && t >= 0.0 && a * (m + t) == s + t / 2.0 && b * (m + t) == v && p * m == s
    requires t * s - t * m / 2.0 <= m * v
    ensures p <= a + b
  {
    var c := m + t;
    assert (a + b) * c == s + t / 2.0 + v;
    assert ((a + b) * c) * m == s * m + t * m / 2.0 + m * v;
    assert (p * c) * m == (p * m) * c == s * m + t * s;
    FactorOrder(p * c, (a + b) * c, m);
    FactorOrder(p, a + b, c);
  }

  // ---- the Wilson interval --------------------------------------------------------------------------------

  /** The centre and half-width, times n + z^2. */
  lemma Parts(root: Root, x: nat, n: nat, z: real) returns (w: real)
    requires IsRoot(root) && 0 < n && x <= n && z > 0.0
    ensures Scaled(x as real, n as real, Square(z), w)
    ensures Centre(x, n, z) == Pooled(x, n, z)
    ensures Centre(x, n, z) * (n as real + Square(z)) == x as real + Square(z) / 2.0
    ensures Spread(root, x, n, z) * (n as real + Square(z)) == z * w
  {
    var m, s, t := n as real, x as real, Square(z);
    RadicandIs(s, m, t);
    w := SpreadIs(root(RadicandOf(s, m, t)), RadicandOf(s, m, t), s, m, t, z);
    CentreIsPooled(s, m, t);
    DivTimes(s + t / 2.0, m + t);
  }

  lemma LowEnd(root: Root, x: nat, n: nat, z: real)
    requires IsRoot(root) && 0 < n && x <= n && z > 0.0
    ensures Centre(x, n, z) - Spread(root, x, n, z) >= 0.0
    ensures x == 0 ==> Centre(x, n, z) - Spread(root, x, n, z) == 0.0
  {
    var w := Parts(root, x, n, z);
    LowSide(x as real, n as real, Square(z), z, w);
    Ends(Centre(x, n, z), Spread(root, x, n, z), n as real + Square(z), x as real + Square(z) / 2.0, z * w);
  }

  lemma Ends(a: real, b: real, c: real, u: real, v: real)
    requires c > 0.0 && a * c == u && b * c == v && v <= u
    ensures b <= a && (u == v ==> a == b)
  {
    FactorOrder(b, a, c);
    if u == v {
      FactorOrder(a, b, c);
    }
  }

  lemma Brackets(root: Root, x: nat, n: nat, z: real)
    requires IsRoot(root) && 0 < n && x <= n && z > 0.0
    ensures Centre(x, n, z) - Spread(root, x, n, z) <= x as real / n as real <= Centre(x, n, z) + Spread(root, x, n, z)
  {
    var w := Parts(root, x, n, z);
    MiddleSide(x as real, n as real, Square(z), z, w);
    DivTimes(x as real, n as real);
    Straddles(x as real, n as real, Square(z), z, w, Centre(x, n, z), Spread(root, x, n, z), x as real / n as real);
  }

  /** Counting the other outcome mirrors the interval. */
  lemma Mirrors(root: Root, x: nat, n: nat, z: real)
    requires 0 < n && x <= n
    ensures Centre(n - x, n, z) == 1.0 - Centre(x, n, z)
    ensures Spread(root, n - x, n, z) == Spread(root, x, n, z)
  {
    var m, s, t := n as real, x as real, Square(z);
    CentreIsPooled(s, m, t);
    CentreIsPooled(m - s, m, t);
    assert (n - x) as real == m - s;
    MirrorPooled(s, m, t);
    MirrorRadicand(s, m, t);
  }

  lemma MirrorPooled(s: real, m: real, t: real)
    requires m > 0.0 && t >= 0.0
    ensures PooledOf(m - s, m, t) == 1.0 - PooledOf(s, m, t)
  {
    var q := PooledOf(s, m, t);
    DivTimes(s + t / 2.0, m + t);
    assert (1.0 - q) * (m + t) == m - s + t / 2.0;
    Quotient(m - s + t / 2.0, m + t, 1.0 - q);
  }

  lemma MirrorRadicand(s: real, m: real, t: real)
    requires m > 0.0
    ensures RadicandOf(m - s, m, t) == RadicandOf(s, m, t)
  {
    var p, q := s / m, (m - s) / m;
    DivTimes(s, m);
    assert (1.0 - p) * m == m - s;
    Quotient(m - s, m, 1.0 - p);
    assert q * (1.0 - q) == p * (1.0 - p);
  }

  lemma HighEnd(root: Root, x: nat, n: nat, z: real)
    requires IsRoot(root) && 0 < n && x <= n && z > 0.0
    ensures Centre(x, n, z) + Spread(root, x, n, z) <= 1.0
    ensures x == n ==> Centre(x, n, z) + Spread(root, x, n, z) == 1.0
  {
    Mirrors(root, x, n, z);
    LowEnd(root, n - x, n, z);
  }

  /** The interval before clamping already lies in [0, 1] and contains the estimate; so clamping changes nothing,
      and the snapped endpoints are the closed form's. */
  lemma WilsonIsClosedForm(root: Root, x: nat, n: nat, z: real)
    requires IsRoot(root) && 0 < n && x <= n && z > 0.0
    ensures Wilson(root, x, n, z)
         == Interval(Centre(x, n, z) - Spread(root, x, n, z), Centre(x, n, z) + Spread(root, x, n, z))
    ensures 0.0 <= Wilson(root, x, n, z).lo <= x as real / n as real <= Wilson(root, x, n, z).hi <= 1.0
  {
    LowEnd(root, x, n, z);
    HighEnd(root, x, n, z);
    Brackets(root, x, n, z);
  }

  /** `wilson_ci(n - x, n)` is `wilson_ci(x, n)` reflected about 1/2. */
  lemma WilsonMirrors(root: Root, x: nat, n: nat, z: real)
    requires IsRoot(root) && 0 < n && x <= n && z > 0.0
    ensures var here, there := Wilson(root, x, n, z), Wilson(root, n - x, n, z);
            there.lo == 1.0 - here.hi && there.hi == 1.0 - here.lo
  {
    Mirrors(root, x, n, z);
    WilsonIsClosedForm(root, x, n, z);
    WilsonIsClosedForm(root, n - x, n, z);
  }

  lemma Crossed(s: real, m: real, t: real, u: real)
    requires u == s + t / 2.0
    ensures m * (u * u) - t * (s * (m - s) + m * t / 4.0) == (s * s) * (m + t)
  {
    var st, tt, ss := s * t, t * t, s * s;
    assert u * u == ss + st + tt / 4.0;
    assert m * (u * u) == m * ss + m * st + m * tt / 4.0;
    assert t * (s * (m - s)) == m * st - t * ss;
    assert t * (m * t / 4.0) == m * tt / 4.0;
    assert t * (s * (m - s) + m * t / 4.0) == t * (s * (m - s)) + t * (m * t / 4.0);
    assert ss * (m + t) == m * ss + t * ss;
  }

  lemma Completed(s: real, m: real, t: real, q: real, c: real, u: real)
    requires c == m + t && u == s + t / 2.0
    ensures m * (c * (q * q)) - 2.0 * (m * (q * u)) + s * s == (s - m * q) * (s - m * q) - m * t * (q * (1.0 - q))
  {
    var qq, mq := q * q, m * q;
    assert m * (c * qq) == m * m * qq + m * t * qq;
    assert m * (q * u) == mq * s + mq * t / 2.0;
    assert (s - mq) * (s - mq) == s * s - 2.0 * (mq * s) + mq * mq;
    assert mq * mq == m * m * qq;
    assert m * t * (q * (1.0 - q)) == m * t * q - m * t * qq;
    assert m * t * q == mq * t;
  }

  lemma SquareApart(m: real, c: real, q: real, u: real)
    ensures m * ((q * c - u) * (q * c - u)) == c * (m * (c * (q * q)) - 2.0 * (m * (q * u))) + m * (u * u)
  {
    var qc := q * c;
    assert (qc - u) * (qc - u) == qc * qc - 2.0 * (qc * u) + u * u;
    assert m * (qc * qc) == c * (m * (c * (q * q)));
    assert m * (qc * u) == c * (m * (q * u));
  }

  /** Both sides of the score inequality, over the common denominator. */
  lemma ScorePolynomial(s: real, m: real, t: real, q: real, c: real, u: real, y: real)
    requires c == m + t && u == s + t / 2.0 && m * y == s * (m - s) + m * t / 4.0
    ensures m * ((q * c - u) * (q * c - u) - t * y) == c * ((s - m * q) * (s - m * q) - m * t * (q * (1.0 - q)))
  {
    SquareApart(m, c, q, u);
    Crossed(s, m, t, u);
    Completed(s, m, t, q, c, u);
    var f := m * (c * (q * q)) - 2.0 * (m * (q * u));
    assert m * (t * y) == t * (m * y);
    assert c * f + (s * s) * c == c * (f + s * s);
    Distributes(m, (q * c - u) * (q * c - u), t * y);
  }

  lemma Distributes(m: real, a: real, b: real)
    ensures m * (a - b) == m * a - m * b
  {
  }

  lemma SquaresAgree(a: real, b: real)
    requires a == b || a == -b
    ensures a * a == b * b
  {
  }

  /** A point is within `b` of `a` exactly when the squares say so. */
  lemma WithinIff(a: real, b: real, q: real, c: real, u: real, v: real)
    requires c > 0.0 && v >= 0.0 && a * c == u && b * c == v
    ensures a - b <= q <= a + b <==> (q * c - u) * (q * c - u) <= v * v
  {
    Distributes(c, q, a);
    WithinSquares(q - a, b, c, q * c - u, v);
  }

  lemma WithinSquares(x: real, b: real, c: real, d: real, v: real)
    requires c > 0.0 && v >= 0.0 && x * c == d && b * c == v
    ensures -b <= x <= b <==> d * d <= v * v
  {
    assert (-b) * c == -v;
    ScaledWithin(x, b, c);
    SquareWithin(d, v);
  }

  lemma ScaledWithin(x: real, b: real, c: real)
    requires c > 0.0
    ensures -b <= x <= b <==> (-b) * c <= x * c <= b * c
  {
    if -b <= x <= b {
      TimesOrder(x, b, c);
      TimesOrder(-b, x, c);
    }
    if (-b) * c <= x * c <= b * c {
      FactorOrder(x, b, c);
      FactorOrder(-b, x, c);
    }
  }

  lemma SquareWithin(d: real, v: real)
    requires v >= 0.0
    ensures -v <= d <= v <==> d * d <= v * v
  {
    if -v <= d <= v {
      assert (v - d) * (v + d) == v * v - d * d;
      ProductNonNegative(v - d, v + d);
    }
    if d * d <= v * v {
      SquaresOrder(d, v);
      SquaresAgree(d, -d);
      SquaresOrder(-d, v);
    }
  }

  /** The score test keeps the rate `q`: the squared distance of `s` from the expected m q is at most t times the
      variance m q (1 - q). */
  ghost predicate Kept(s: real, m: real, t: real, q: real) {
    (s - m * q) * (s - m * q) <= m * t * (q * (1.0 - q))
  }

  /** The interval is the set of the rates that the score test keeps; without trials, of all. */
  lemma WilsonInvertsScoreTest(root: Root, x: nat, n: nat, z: real, q: real)
    requires IsRoot(root) && x <= n && z > 0.0
    ensures var i := Wilson(root, x, n, z);
            i.lo <= q <= i.hi <==> 0.0 <= q <= 1.0 && Kept(x as real, n as real, z * z, q)
  {
    if n == 0 {
      KeptWithoutTrials(z * z, q);
    } else {
      WilsonIsClosedForm(root, x, n, z);
      ClosedFormKeeps(root, x, n, z, q);
      SameKept(x as real, n as real, Square(z), z * z, q);
    }
  }

  lemma KeptWithoutTrials(t: real, q: real)
    ensures Kept(0.0, 0.0, t, q)
  {
  }

  lemma ClosedFormKeeps(root: Root, x: nat, n: nat, z: real, q: real)
    requires IsRoot(root) && 0 < n && x <= n && z > 0.0
    ensures Centre(x, n, z) - Spread(root, x, n, z) <= q <= Centre(x, n, z) + Spread(root, x, n, z)
         <==> Kept(x as real, n as real, Square(z), q)
  {
    var w := Parts(root, x, n, z);
    ScoreWithin(x as real, n as real, Square(z), z, w, Centre(x, n, z), Spread(root, x, n, z), q);
  }

  lemma SameKept(s: real, m: real, t: real, t': real, q: real)
    requires t == t'
    ensures Kept(s, m, t, q) <==> Kept(s, m, t', q)
  {
  }

  lemma ScoreWithin(s: real, m: real, t: real, z: real, w: real, a: real, b: real, q: real)
    requires m > 0.0 && z > 0.0 && t == z * z && Scaled(s, m, t, w)
    requires a * (m + t) == s + t / 2.0 && b * (m + t) == z * w
    ensures a - b <= q <= a + b <==> Kept(s, m, t, q)
  {
    var c, u := m + t, s + t / 2.0;
    ProductNonNegative(z, w);
    WithinIff(a, b, q, c, u, z * w);
    ScorePolynomial(s, m, t, q, c, u, w * w);
    SquareOfProduct(z, w);
    var d, e, f, g := (q * c - u) * (q * c - u), t * (w * w), (s - m * q) * (s - m * q), m * t * (q * (1.0 - q));
    SignsAgree(d - e, f - g, m, c);
  }

  lemma SquareOfProduct(z: real, w: real)
    ensures (z * w) * (z * w) == (z * z) * (w * w)
  {
  }

  lemma SignsAgree(a: real, b: real, m: real, c: real)
    requires m > 0.0 && c > 0.0 && m * a == c * b
    ensures a <= 0.0 <==> b <= 0.0
  {
    if a <= 0.0 {
      TimesOrder(a, 0.0, m);
      FactorOrder(b, 0.0, c);
    }
    if b <= 0.0 {
      TimesOrder(b, 0.0, c);
      FactorOrder(a, 0.0, m);
    }
  }

  // ---- the Agresti-Coull interval -------------------------------------------------------------------------

  lemma WiderSquares(m: real, s: real, t: real, w: real, g: real, c: real)
    requires m > 0.0 && 0.0 <= s <= m && t >= 0.0 && c == m + t
    requires m * (w * w) == s * (m - s) + m * t / 4.0
    requires c * (c * (c * (g * g))) == (s + t / 2.0) * (m - s + t / 2.0)
    ensures w * w <= (c * g) * (c * g)
  {
    var q, h, v := s * (m - s), (c * g) * (c * g), w * w;
    assert c * h == c * (c * (c * (g * g)));
    ProductParts(s, m, t, q);
    Polynomials(m, t, q, c, h, v);
    FactorOrder(v * c, h * c, m);
    FactorOrder(v, h, c);
  }

  lemma ProductParts(s: real, m: real, t: real, q: real)
    requires q == s * (m - s)
    ensures (s + t / 2.0) * (m - s + t / 2.0) == q + t * m / 2.0 + t * t / 4.0
    ensures 4.0 * q <= m * m
  {
    assert (m - 2.0 * s) * (m - 2.0 * s) == m * m - 4.0 * q;
  }

  lemma Polynomials(m: real, t: real, q: real, c: real, h: real, v: real)
    requires m > 0.0 && t >= 0.0 && c == m + t && 4.0 * q <= m * m
    requires m * v == q + m * t / 4.0 && c * h == q + t * m / 2.0 + t * t / 4.0
    ensures (v * c) * m <= (h * c) * m
  {
    var a, b, d, e := t * (m * m), t * (t * m), m * q, t * q;
    FirstPolynomial(m, t, q, c, v, a, b, d, e);
    SecondPolynomial(m, t, q, c, h, a, b, d);
    QuarterBound(m, t, q, a, e);
    QuarterSums((v * c) * m, (h * c) * m, a, b, d, e);
  }

  lemma QuarterSums(x: real, y: real, a: real, b: real, d: real, e: real)
    requires x == d + e + a / 4.0 + b / 4.0 && y == d + a / 2.0 + b / 4.0 && e <= a / 4.0
    ensures x <= y
  {
  }

  lemma QuarterBound(m: real, t: real, q: real, a: real, e: real)
    requires t >= 0.0 && 4.0 * q <= m * m && a == t * (m * m) && e == t * q
    ensures e <= a / 4.0
  {
    TimesOrder(4.0 * q, m * m, t);
  }

  lemma FirstPolynomial(
    m: real, t: real, q: real, c: real, v: real, a: real, b: real, d: real, e: real)
    requires c == m + t && m * v == q + m * t / 4.0
    requires a == t * (m * m) && b == t * (t * m) && d == m * q && e == t * q
    ensures (v * c) * m == d + e + a / 4.0 + b / 4.0
  {
    assert (v * c) * m == c * (m * v) == c * (q + m * t / 4.0);
    assert c * (q + m * t / 4.0) == c * q + c * (m * t / 4.0);
    assert c * q == d + e;
    assert c * (m * t / 4.0) == a / 4.0 + b / 4.0;
  }

  lemma SecondPolynomial(m: real, t: real, q: real, c: real, h: real, a: real, b: real, d: real)
    requires c * h == q + t * m / 2.0 + t * t / 4.0
    requires a == t * (m * m) && b == t * (t * m) && d == m * q
    ensures (h * c) * m == d + a / 2.0 + b / 4.0
  {
    assert (h * c) * m == m * (c * h) == m * (q + t * m / 2.0 + t * t / 4.0);
    assert m * (t * m / 2.0) == a / 2.0;
    assert m * (t * t / 4.0) == b / 4.0;
  }

  lemma VarianceIs(s: real, m: real, t: real, p: real, g: real)
    requires 0.0 <= s <= m && m > 0.0 && t >= 0.0
    requires p * (m + t) == s + t / 2.0 && (g * g) * (m + t) == p * (1.0 - p)
    ensures var c := m + t; c * (c * (c * (g * g))) == (s + t / 2.0) * (m - s + t / 2.0)
  {
    var c := m + t;
    assert c * (c * (c * (g * g))) == c * (c * (p * (1.0 - p))) == (p * c) * (c - p * c);
  }

  lemma RateBounds(p: real, c: real, u: real)
    requires c > 0.0 && p * c == u && 0.0 <= u <= c
    ensures 0.0 <= p <= 1.0
  {
    FactorOrder(0.0, p, c);
    FactorOrder(p, 1.0, c);
  }

  lemma PooledIsRate(s: real, m: real, t: real)
    requires 0.0 <= s <= m && m > 0.0 && t >= 0.0
    ensures 0.0 <= PooledOf(s, m, t) <= 1.0 && PooledOf(s, m, t) * (m + t) == s + t / 2.0
    ensures VarianceOf(PooledOf(s, m, t), m + t) >= 0.0
    ensures VarianceOf(PooledOf(s, m, t), m + t) * (m + t) == PooledOf(s, m, t) * (1.0 - PooledOf(s, m, t))
  {
    var p, c := PooledOf(s, m, t), m + t;
    DivTimes(s + t / 2.0, c);
    RateBounds(p, c, s + t / 2.0);
    ProductNonNegative(p, 1.0 - p);
    NonNegative(p * (1.0 - p), c);
    DivTimes(p * (1.0 - p), c);
  }

  /** With the same centre, the Agresti-Coull half-width is at least Wilson's. */
  lemma MarginIsWider(root: Root, x: nat, n: nat, z: real)
    requires IsRoot(root) && 0 < n && x <= n && z > 0.0
    ensures Spread(root, x, n, z) <= Margin(root, x, n, z)
  {
    var w := Parts(root, x, n, z);
    PooledIsRate(x as real, n as real, Square(z));
    var y := VarianceOf(Pooled(x, n, z), n as real + Square(z));
    assert root(y) * root(y) == y && root(y) >= 0.0;
    Wider(x as real, n as real, Square(z), z, w, Pooled(x, n, z), root(y), Spread(root, x, n, z));
  }

  lemma Wider(s: real, m: real, t: real, z: real, w: real, p: real, g: real, b: real)
    requires 0.0 <= s <= m && m > 0.0 && t >= 0.0 && z > 0.0 && g >= 0.0 && Scaled(s, m, t, w)
    requires p * (m + t) == s + t / 2.0 && (g * g) * (m + t) == p * (1.0 - p) && b * (m + t) == z * w
    ensures b <= z * g
  {
    var c := m + t;
    VarianceIs(s, m, t, p, g);
    WiderSquares(m, s, t, w, g, c);
    ProductNonNegative(c, g);
    SquaresOrder(w, c * g);
    Halves(z, w, c, g, b);
  }

  lemma Halves(z: real, w: real, c: real, g: real, b: real)
    requires z > 0.0 && c > 0.0 && w <= c * g && b * c == z * w
    ensures b <= z * g
  {
    TimesOrder(w, c * g, z);
    assert w * z == z * w && (c * g) * z == (z * g) * c;
    FactorOrder(b, z * g, c);
  }

  /** The Agresti-Coull interval always contains the Wilson interval. */
  lemma AgrestiCoullContainsWilson(root: Root, x: nat, n: nat, z: real)
    requires IsRoot(root) && 0 < n && x <= n && z > 0.0
    ensures AgrestiCoull(root, x, n, z).lo <= Wilson(root, x, n, z).lo
    ensures Wilson(root, x, n, z).hi <= AgrestiCoull(root, x, n, z).hi
  {
    var w := Parts(root, x, n, z);
    MarginIsWider(root, x, n, z);
    WilsonIsClosedForm(root, x, n, z);
  }

  /** `q` is within z standard errors of the rate `p` over `c` trials. */
  ghost predicate Near(p: real, c: real, t: real, q: real) {
    c * ((q - p) * (q - p)) <= t * (p * (1.0 - p))
  }

  /** The interval holds the rates within z standard errors of (x + z^2/2) / (n + z^2), over n + z^2 trials. */
  lemma AgrestiCoullIsAdjustedWald(root: Root, x: nat, n: nat, z: real, p: real, q: real)
    requires IsRoot(root) && 0 < n && x <= n && z > 0.0 && p * (n as real + z * z) == x as real + z * z / 2.0
    ensures var i := AgrestiCoull(root, x, n, z);
            i.lo <= q <= i.hi <==>
              0.0 <= q <= 1.0 && Near(p, n as real + z * z, z * z, q)
  {
    var t := Square(z);
    assert t == z * z;
    PooledIs(x as real, n as real, t, p);
    PooledIsRate(x as real, n as real, t);
    WithinMargin(root, x, n, z, q);
    SameNear(Pooled(x, n, z), p, n as real + t, n as real + z * z, t, z * z, q);
  }

  lemma SameNear(p: real, p': real, c: real, c': real, t: real, t': real, q: real)
    requires p == p' && c == c' && t == t'
    ensures Near(p, c, t, q) <==> Near(p', c', t', q)
  {
  }

  lemma WithinMargin(root: Root, x: nat, n: nat, z: real, q: real)
    requires IsRoot(root) && 0 < n && x <= n && z > 0.0
    ensures var i, t := AgrestiCoull(root, x, n, z), Square(z);
            i.lo <= q <= i.hi <==> 0.0 <= q <= 1.0 && Near(Pooled(x, n, z), n as real + t, t, q)
  {
    var t := Square(z);
    PooledIsRate(x as real, n as real, t);
    var y := VarianceOf(Pooled(x, n, z), n as real + t);
    WithinErrors(Pooled(x, n, z), y, z, root(y), n as real + t, t, Margin(root, x, n, z), q);
  }

  lemma PooledIs(s: real, m: real, t: real, p: real)
    requires m > 0.0 && t >= 0.0 && p * (m + t) == s + t / 2.0
    ensures PooledOf(s, m, t) == p
  {
  }

  lemma WithinErrors(p: real, y: real, z: real, g: real, c: real, t: real, b: real, q: real)
    requires z > 0.0 && g >= 0.0 && g * g == y && c > 0.0 && y * c == p * (1.0 - p) && t == z * z && b == z * g
    ensures Max(0.0, p - b) <= q <= Min(1.0, p + b) <==>
              0.0 <= q <= 1.0 && Near(p, c, t, q)
  {
    ProductNonNegative(z, g);
    WithinIff(p, b, q, 1.0, p, b);
    SquareOfProduct(z, g);
    ScaledOrder((q - p) * (q - p), t * y, c);
    Reorder(c, t, y);
  }

  lemma Reorder(c: real, t: real, y: real)
    ensures c * (t * y) == t * (y * c)
  {
  }

  lemma ScaledOrder(a: real, b: real, c: real)
    requires c > 0.0
    ensures a <= b <==> c * a <= c * b
  {
    if a <= b {
      TimesOrder(a, b, c);
    }
    if c * a <= c * b {
      FactorOrder(a, b, c);
    }
  }
}
