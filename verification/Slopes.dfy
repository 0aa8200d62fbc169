// Slopes of real curves at 0.  A slope is certified by a second-order expansion whose
// remainder is bounded on a whole interval, so it is the derivative in the sense of
// analysis, and it is unique.  Sums, products and reciprocals keep certificates.
module Slopes {

  type Curve = real -> real

  predicate Within(x: real, bound: real) {
    -bound <= x <= bound
  }

  // f(h) = f(0) + h*slope + h^2*rest(h) with |rest(h)| <= bound ...
  predicate ExpandsAt(f: Curve, slope: real, rest: Curve, bound: real, h: real) {
    f(h) == f(0.0) + h * slope + (h * h) * rest(h) && Within(rest(h), bound)
  }

  // ... for every |h| <= radius.
  ghost predicate Expansion(f: Curve, slope: real, rest: Curve, radius: real, bound: real) {
    && 0.0 < radius <= 1.0
    && forall h: real {:trigger ExpandsAt(f, slope, rest, bound, h)} ::
         Within(h, radius) ==> ExpandsAt(f, slope, rest, bound, h)
  }

  ghost predicate HasSlope(f: Curve, slope: real) {
    exists rest, radius, bound :: Expansion(f, slope, rest, radius, bound)
  }

  // ---- bounds --------------------------------------------------------------------

  function Magnitude(x: real): (m: real)
    ensures Within(x, m) && m >= 0.0 && (m == x || m == -x)
  {
    if x < 0.0 then -x else x
  }

  lemma WithinProduct(x: real, y: real, a: real, b: real)
    requires Within(x, a) && Within(y, b)
    ensures Within(x * y, a * b)
  {
    assert (a - x) * (b - y) >= 0.0 && (a + x) * (b + y) >= 0.0;
    assert (a - x) * (b + y) >= 0.0 && (a + x) * (b - y) >= 0.0;
  }

  lemma WithinUnitProduct(h: real, y: real, b: real)
    requires Within(h, 1.0) && Within(y, b)
    ensures Within(h * y, b)
  {
    WithinProduct(h, y, 1.0, b);
  }

  lemma StepSquare(h: real)
    requires Within(h, 1.0)
    ensures Within(h * h, 1.0)
  {
    WithinProduct(h, h, 1.0, 1.0);
  }

  lemma QuotientBound(h: real, g: real, m: real)
    requires m > 0.0 && h <= g / m
    ensures h * m <= g
  {
    assert g / m * m == g;
    assert (g / m - h) * m >= 0.0;
  }

  function Min(x: real, y: real): real {
    if x < y then x else y
  }

  // ---- uniqueness ----------------------------------------------------------------

  lemma SlopeGap(s: real, t: real, h: real, u: real, v: real, m: real, n: real)
    requires h > 0.0 && h * s + (h * h) * u == h * t + (h * h) * v
    requires Within(u, m) && Within(v, n)
    ensures Within(s - t, h * (m + n))
  {
    assert h * ((s - t) - h * (v - u)) == 0.0;
    assert s - t == h * (v - u);
    WithinProduct(h, v - u, h, m + n);
  }

  lemma GapClash(gap: real, h: real, k: real)
    requires 0.0 < gap && 0.0 < k && 0.0 < h <= gap / (2.0 * k)
    ensures gap > h * k
  {
    QuotientBound(h, gap, 2.0 * k);
    assert h * (2.0 * k) == 2.0 * (h * k);
  }

  // Two certified slopes of one curve are equal.
  lemma SlopeIsUnique(f: Curve, s: real, t: real)
    requires HasSlope(f, s) && HasSlope(f, t)
    ensures s == t
  {
    var u, r1, m :| Expansion(f, s, u, r1, m);
    var v, r2, n :| Expansion(f, t, v, r2, n);
    if s != t {
      assert ExpandsAt(f, s, u, m, 0.0) && ExpandsAt(f, t, v, n, 0.0);
      assert Within(u(0.0), m) && Within(v(0.0), n);
      var h := SmallStep(s - t, r1, r2, u(0.0), v(0.0), m, n);
      assert ExpandsAt(f, s, u, m, h) && ExpandsAt(f, t, v, n, h);
      TwoExpansions(f, s, t, u, v, m, n, h);
    }
  }

  lemma TwoExpansions(f: Curve, s: real, t: real, u: Curve, v: Curve, m: real, n: real, h: real)
    requires h > 0.0 && ExpandsAt(f, s, u, m, h) && ExpandsAt(f, t, v, n, h)
    ensures Within(s - t, h * (m + n))
  {
    SlopeGap(s, t, h, u(h), v(h), m, n);
  }

  lemma SmallStep(d: real, r1: real, r2: real, u0: real, v0: real, m: real, n: real) returns (h: real)
    requires d != 0.0 && r1 > 0.0 && r2 > 0.0 && Within(u0, m) && Within(v0, n)
    ensures 0.0 < h && Within(h, r1) && Within(h, r2) && !Within(d, h * (m + n))
  {
    var gap, k := Magnitude(d), m + n + 1.0;
    var step := gap / (2.0 * k);
    assert step > 0.0;
    h := Min(Min(r1, r2), step);
    Scaled(h, m + n, k);
    GapClash(gap, h, k);
  }

  lemma Scaled(h: real, x: real, y: real)
    requires 0.0 < h && x <= y
    ensures h * x <= h * y
  {
    assert h * (y - x) >= 0.0;
  }

  // ---- sums, products and reciprocals of curves ----------------------------------

  function Plus(f: Curve, g: Curve): Curve {
    (h: real) => f(h) + g(h)
  }

  function Times(f: Curve, g: Curve): Curve {
    (h: real) => f(h) * g(h)
  }

  lemma SumPoint(f: Curve, g: Curve, df: real, dg: real, u: Curve, v: Curve, m: real, n: real, h: real)
    requires ExpandsAt(f, df, u, m, h) && ExpandsAt(g, dg, v, n, h)
    ensures ExpandsAt(Plus(f, g), df + dg, Plus(u, v), m + n, h)
  {
  }

  lemma SumSlope(f: Curve, g: Curve, df: real, dg: real)
    requires HasSlope(f, df) && HasSlope(g, dg)
    ensures HasSlope(Plus(f, g), df + dg)
  {
    var u, v, r, m, n := CommonRadius(f, g, df, dg);
    forall h: real | Within(h, r)
      ensures ExpandsAt(Plus(f, g), df + dg, Plus(u, v), m + n, h)
    {
      assert ExpandsAt(f, df, u, m, h) && ExpandsAt(g, dg, v, n, h);
      SumPoint(f, g, df, dg, u, v, m, n, h);
    }
    assert Expansion(Plus(f, g), df + dg, Plus(u, v), r, m + n);
  }

  lemma CommonRadius(f: Curve, g: Curve, df: real, dg: real)
    returns (u: Curve, v: Curve, r: real, m: real, n: real)
    requires HasSlope(f, df) && HasSlope(g, dg)
    ensures Expansion(f, df, u, r, m) && Expansion(g, dg, v, r, n)
  {
    var u', r1, m' :| Expansion(f, df, u', r1, m');
    var v', r2, n' :| Expansion(g, dg, v', r2, n');
    u, v, r, m, n := u', v', Min(r1, r2), m', n';
  }

  function ProductRest(f0: real, g0: real, df: real, dg: real, h: real, u: real, v: real): real {
    df * dg + f0 * v + g0 * u + h * (df * v + dg * u) + (h * h) * (u * v)
  }

  // A bound on ProductRest from bounds on everything in it.
  function ProductBound(f0: real, g0: real, df: real, dg: real, m: real, n: real): real {
    df * dg + f0 * n + g0 * m + (df * n + dg * m) + m * n
  }

  lemma ProductIdentity(f0: real, g0: real, df: real, dg: real, h: real, u: real, v: real)
    ensures (f0 + h * df + (h * h) * u) * (g0 + h * dg + (h * h) * v)
         == f0 * g0 + h * (df * g0 + f0 * dg) + (h * h) * ProductRest(f0, g0, df, dg, h, u, v)
  {
  }

  lemma SumWithin(t0: real, t1: real, t2: real, t3: real, t4: real, b0: real, b1: real, b2: real, b3: real, b4: real)
    requires Within(t0, b0) && Within(t1, b1) && Within(t2, b2) && Within(t3, b3) && Within(t4, b4)
    ensures Within(t0 + t1 + t2 + t3 + t4, b0 + b1 + b2 + b3 + b4)
  {
  }

  lemma CrossTerms(df: real, dg: real, h: real, u: real, v: real, bdf: real, bdg: real, m: real, n: real)
    requires Within(df, bdf) && Within(dg, bdg) && Within(h, 1.0) && Within(u, m) && Within(v, n)
    ensures Within(h * (df * v + dg * u), bdf * n + bdg * m)
  {
    WithinProduct(df, v, bdf, n);
    WithinProduct(dg, u, bdg, m);
    WithinUnitProduct(h, df * v + dg * u, bdf * n + bdg * m);
  }

  lemma SquareTerm(h: real, u: real, v: real, m: real, n: real)
    requires Within(h, 1.0) && Within(u, m) && Within(v, n)
    ensures Within((h * h) * (u * v), m * n)
  {
    WithinProduct(u, v, m, n);
    StepSquare(h);
    WithinUnitProduct(h * h, u * v, m * n);
  }

  lemma ProductRestBound(f0: real, g0: real, df: real, dg: real, h: real, u: real, v: real,
                         bf: real, bg: real, bdf: real, bdg: real, m: real, n: real)
    requires Within(f0, bf) && Within(g0, bg) && Within(df, bdf) && Within(dg, bdg)
    requires Within(h, 1.0) && Within(u, m) && Within(v, n)
    ensures Within(ProductRest(f0, g0, df, dg, h, u, v), ProductBound(bf, bg, bdf, bdg, m, n))
  {
    WithinProduct(df, dg, bdf, bdg);
    WithinProduct(f0, v, bf, n);
    WithinProduct(g0, u, bg, m);
    CrossTerms(df, dg, h, u, v, bdf, bdg, m, n);
    SquareTerm(h, u, v, m, n);
    SumWithin(df * dg, f0 * v, g0 * u, h * (df * v + dg * u), (h * h) * (u * v),
              bdf * bdg, bf * n, bg * m, bdf * n + bdg * m, m * n);
  }

  function ProductRestCurve(f0: real, g0: real, df: real, dg: real, u: Curve, v: Curve): Curve {
    (h: real) => ProductRest(f0, g0, df, dg, h, u(h), v(h))
  }

  lemma ProductValue(F: real, G: real, f0: real, g0: real, df: real, dg: real, h: real, u: real, v: real)
    requires F == f0 + h * df + (h * h) * u && G == g0 + h * dg + (h * h) * v
    ensures F * G == f0 * g0 + h * (df * g0 + f0 * dg) + (h * h) * ProductRest(f0, g0, df, dg, h, u, v)
  {
    ProductIdentity(f0, g0, df, dg, h, u, v);
  }

  lemma ProductPointValue(f: Curve, g: Curve, df: real, dg: real, u: Curve, v: Curve, m: real, n: real, h: real)
    requires ExpandsAt(f, df, u, m, h) && ExpandsAt(g, dg, v, n, h)
    ensures f(h) * g(h) == f(0.0) * g(0.0) + h * (df * g(0.0) + f(0.0) * dg)
                           + (h * h) * ProductRest(f(0.0), g(0.0), df, dg, h, u(h), v(h))
    ensures Within(u(h), m) && Within(v(h), n)
  {
    hide ProductRest;
    ProductValue(f(h), g(h), f(0.0), g(0.0), df, dg, h, u(h), v(h));
  }

  lemma RestAt(f0: real, g0: real, df: real, dg: real, u: Curve, v: Curve, h: real)
    ensures ProductRestCurve(f0, g0, df, dg, u, v)(h) == ProductRest(f0, g0, df, dg, h, u(h), v(h))
  {
    hide ProductRest;
  }

  lemma ExpandsTimes(f: Curve, g: Curve, slope: real, rest: Curve, bound: real, h: real)
    requires f(h) * g(h) == f(0.0) * g(0.0) + h * slope + (h * h) * rest(h) && Within(rest(h), bound)
    ensures ExpandsAt(Times(f, g), slope, rest, bound, h)
  {
  }

  lemma ProductPoint(f: Curve, g: Curve, df: real, dg: real, u: Curve, v: Curve, m: real, n: real, h: real,
                     bf: real, bg: real, bdf: real, bdg: real)
    requires ExpandsAt(f, df, u, m, h) && ExpandsAt(g, dg, v, n, h) && Within(h, 1.0)
    requires Within(f(0.0), bf) && Within(g(0.0), bg) && Within(df, bdf) && Within(dg, bdg)
    ensures ExpandsAt(Times(f, g), df * g(0.0) + f(0.0) * dg, ProductRestCurve(f(0.0), g(0.0), df, dg, u, v),
                      ProductBound(bf, bg, bdf, bdg, m, n), h)
  {
    hide ProductRest, ProductBound, Within, ExpandsAt, Times, ProductRestCurve;
    ProductPointValue(f, g, df, dg, u, v, m, n, h);
    ProductRestBound(f(0.0), g(0.0), df, dg, h, u(h), v(h), bf, bg, bdf, bdg, m, n);
    var slope, rest := df * g(0.0) + f(0.0) * dg, ProductRestCurve(f(0.0), g(0.0), df, dg, u, v);
    RestAt(f(0.0), g(0.0), df, dg, u, v, h);
    ExpandsTimes(f, g, slope, rest, ProductBound(bf, bg, bdf, bdg, m, n), h);
  }

  lemma ProductSlope(f: Curve, g: Curve, df: real, dg: real)
    requires HasSlope(f, df) && HasSlope(g, dg)
    ensures HasSlope(Times(f, g), df * g(0.0) + f(0.0) * dg)
  {
    hide ExpandsAt, ProductRest, ProductBound, ProductRestCurve, Times, Magnitude;
    var u, v, r, m, n := CommonRadius(f, g, df, dg);
    var bf, bg, bdf, bdg := Magnitude(f(0.0)), Magnitude(g(0.0)), Magnitude(df), Magnitude(dg);
    var slope, rest := df * g(0.0) + f(0.0) * dg, ProductRestCurve(f(0.0), g(0.0), df, dg, u, v);
    var bound := ProductBound(bf, bg, bdf, bdg, m, n);
    forall h: real | Within(h, r)
      ensures ExpandsAt(Times(f, g), slope, rest, bound, h)
    {
      assert ExpandsAt(f, df, u, m, h) && ExpandsAt(g, dg, v, n, h);
      ProductPoint(f, g, df, dg, u, v, m, n, h, bf, bg, bdf, bdg);
    }
    assert Expansion(Times(f, g), slope, rest, r, bound);
  }

  // Multiplication under a name, so that proofs about bounds need not expand it.
  function Mul(x: real, y: real): real {
    x * y
  }

  lemma WithinMul(x: real, y: real, a: real, b: real)
    requires Within(x, a) && Within(y, b)
    ensures Within(Mul(x, y), Mul(a, b))
  {
    WithinProduct(x, y, a, b);
  }

  lemma WithinUnitMul(h: real, y: real, b: real)
    requires Within(h, 1.0) && Within(y, b)
    ensures Within(Mul(h, y), b)
  {
    WithinUnitProduct(h, y, b);
  }

  lemma WithinSum(x: real, y: real, a: real, b: real)
    requires Within(x, a) && Within(y, b)
    ensures Within(x + y, a + b) && Within(x - y, a + b)
  {
  }

  function RecipRest(w: real, w0: real, e: real, h: real, v: real): real {
    Mul(Mul(w, w0), Mul(w0, Mul(e, e + Mul(h, v))) - v)
  }

  function RecipBound(b: real, be: real, n: real): real {
    Mul(Mul(2.0 * b, b), Mul(b, Mul(be, be + n)) + n)
  }

  lemma RecipOnce(w: real, w0: real, g: real, g0: real, d: real)
    requires w * g == 1.0 && w0 * g0 == 1.0 && g == g0 + d
    ensures w == w0 - (w * w0) * d
  {
    calc {
      (w * w0) * d;
      (w * w0) * (g - g0);
      w0 * (w * g) - w * (w0 * g0);
      w0 - w;
    }
  }

  lemma RecipTwice(w: real, w0: real, e: real, v: real, h: real, q: real, rest: real)
    requires q == e + h * v && w == w0 - (w * w0) * (h * q) && rest == (w * w0) * (w0 * (e * q) - v)
    ensures w == w0 + h * (-(e * (w0 * w0))) + (h * h) * rest
  {
    calc {
      w;
      w0 - (w * w0) * (h * (e + h * v));
      w0 - (h * e * w0) * w - (h * h) * ((w * w0) * v);
      w0 - (h * e * w0) * (w0 - (w * w0) * (h * q)) - (h * h) * ((w * w0) * v);
      w0 + h * (-(e * (w0 * w0))) + (h * h) * ((w * w0) * (w0 * (e * q)) - (w * w0) * v);
      { assert rest == (w * w0) * (w0 * (e * q)) - (w * w0) * v; }
      w0 + h * (-(e * (w0 * w0))) + (h * h) * rest;
    }
  }

  // w and w0 are the reciprocals of g and g0.
  lemma RecipValue(w: real, w0: real, g: real, g0: real, e: real, v: real, h: real)
    requires w * g == 1.0 && w0 * g0 == 1.0 && g == g0 + h * e + (h * h) * v
    ensures w == w0 + h * (-(e * (w0 * w0))) + (h * h) * RecipRest(w, w0, e, h, v)
  {
    var q := e + h * v;
    assert w == w0 - (w * w0) * (h * q) by {
      assert h * q == h * e + (h * h) * v;
      RecipOnce(w, w0, g, g0, h * q);
    }
    RecipTwice(w, w0, e, v, h, q, RecipRest(w, w0, e, h, v)) by {
      assert RecipRest(w, w0, e, h, v) == (w * w0) * (w0 * (e * q) - v);
    }
  }

  lemma RecipSize(w: real, w0: real, g: real, g0: real, d: real, t: real, b: real)
    requires w * g == 1.0 && w0 * g0 == 1.0 && g == g0 + d && t == d * w0 && Within(t, 0.5) && Within(w0, b)
    ensures Within(w, 2.0 * b)
  {
    var k := Magnitude(w);
    assert w * t == w0 - w by { RecipOnce(w, w0, g, g0, d); }
    WithinProduct(w, t, k, 0.5);
  }

  lemma RecipRestBound(w: real, w0: real, e: real, h: real, v: real, b: real, be: real, n: real)
    requires Within(w, 2.0 * b) && Within(w0, b) && Within(e, be) && Within(h, 1.0) && Within(v, n)
    ensures Within(RecipRest(w, w0, e, h, v), RecipBound(b, be, n))
  {
    hide Within, Mul;
    WithinUnitMul(h, v, n);
    WithinSum(e, Mul(h, v), be, n);
    WithinMul(e, e + Mul(h, v), be, be + n);
    WithinMul(w0, Mul(e, e + Mul(h, v)), b, Mul(be, be + n));
    WithinSum(Mul(w0, Mul(e, e + Mul(h, v))), v, Mul(b, Mul(be, be + n)), n);
    WithinMul(w, w0, 2.0 * b, b);
    WithinMul(Mul(w, w0), Mul(w0, Mul(e, e + Mul(h, v))) - v, Mul(2.0 * b, b), Mul(b, Mul(be, be + n)) + n);
  }

  function Reciprocal(g: Curve): Curve {
    (h: real) => if g(h) == 0.0 then 0.0 else 1.0 / g(h)
  }

  function RecipRestCurve(g: Curve, e: real, v: Curve): Curve {
    (h: real) => RecipRest(Reciprocal(g)(h), Reciprocal(g)(0.0), e, h, v(h))
  }

  lemma PaddedProduct(b: real, k: real)
    requires b >= 0.0 && k >= 0.0
    ensures (b + 1.0) * (k + 1.0) >= 1.0 && (b + 1.0) * (k + 1.0) >= b * k
  {
    assert (b + 1.0) * (k + 1.0) == b * k + b + k + 1.0;
    assert b * k >= 0.0;
  }

  lemma HalfInverse(c: real) returns (radius: real)
    requires c >= 1.0
    ensures 0.0 < radius <= 1.0 && radius * (2.0 * c) == 1.0
  {
    radius := 1.0 / (2.0 * c);
    assert radius <= 1.0 by { QuotientBound(radius, 1.0, 2.0 * c); Scaled(radius, 1.0, 2.0 * c); }
  }

  // On |h| <= radius the denominator stays within half of its value at 0.
  lemma SafeRadius(w0: real, e: real, n: real) returns (radius: real)
    requires 0.0 <= n
    ensures 0.0 < radius <= 1.0
    ensures forall h: real, v: real :: Within(h, radius) && Within(v, n) ==> Within((h * (e + h * v)) * w0, 0.5)
  {
    var b, k := Magnitude(e) + n, Magnitude(w0);
    var c := (b + 1.0) * (k + 1.0);
    PaddedProduct(b, k);
    radius := HalfInverse(c);
    forall h: real, v: real | Within(h, radius) && Within(v, n)
      ensures Within((h * (e + h * v)) * w0, 0.5)
    {
      SafeStep(h, v, e, w0, radius, n, Magnitude(e), k, c);
    }
  }

  lemma WithinWider(x: real, y: real, a: real, b: real)
    requires Within(x, a) && x == y && a <= b
    ensures Within(y, b)
  {
  }

  lemma SafeStep(h: real, v: real, e: real, w0: real, radius: real, n: real, be: real, k: real, c: real)
    requires Within(h, radius) && 0.0 < radius <= 1.0 && Within(v, n) && Within(e, be) && Within(w0, k)
    requires c >= (be + n) * k && radius * (2.0 * c) == 1.0
    ensures Within((h * (e + h * v)) * w0, 0.5)
  {
    WithinWider(h, h, radius, 1.0);
    hide Within;
    WithinUnitProduct(h, v, n);
    WithinSum(e, h * v, be, n);
    SlopeTimes(h, e + h * v, w0, be + n, k, radius, c);
  }

  lemma SlopeTimes(h: real, q: real, w0: real, bq: real, k: real, radius: real, c: real)
    requires Within(h, radius) && Within(q, bq) && Within(w0, k) && bq * k <= c && radius * (2.0 * c) == 1.0
    ensures Within((h * q) * w0, 0.5)
  {
    hide Within;
    WithinProduct(q, w0, bq, k);
    WithinWider(q * w0, q * w0, bq * k, c);
    WithinProduct(h, q * w0, radius, c);
    SafeStepEnd(h, q, w0, radius, c);
  }

  lemma SafeStepEnd(h: real, q: real, w0: real, radius: real, c: real)
    requires Within(h * (q * w0), radius * c) && radius * (2.0 * c) == 1.0
    ensures Within((h * q) * w0, 0.5)
  {
  }

  lemma NonZeroNearby(gh: real, g0: real, w0: real, d: real, t: real)
    requires w0 * g0 == 1.0 && gh == g0 + d && t == d * w0 && Within(t, 0.5)
    ensures gh != 0.0
  {
    assert gh * w0 == 1.0 + t;
  }

  lemma RecipFacts(gh: real, g0: real, w: real, w0: real, e: real, v: real, n: real, h: real, t: real, b: real, be: real)
    requires w * gh == 1.0 && w0 * g0 == 1.0 && gh == g0 + h * e + (h * h) * v
    requires Within(v, n) && Within(h, 1.0) && Within(w0, b) && Within(e, be)
    requires t == (h * (e + h * v)) * w0 && Within(t, 0.5)
    ensures w == w0 + h * (-(e * (w0 * w0))) + (h * h) * RecipRest(w, w0, e, h, v)
    ensures Within(RecipRest(w, w0, e, h, v), RecipBound(b, be, n))
  {
    hide RecipRest, RecipBound, Within;
    RecipSize(w, w0, gh, g0, h * (e + h * v), t, b);
    RecipRestBound(w, w0, e, h, v, b, be, n);
    RecipValue(w, w0, gh, g0, e, v, h);
  }

  lemma ReciprocalInverts(g: Curve, h: real)
    requires g(h) != 0.0
    ensures Reciprocal(g)(h) * g(h) == 1.0
  {
  }

  lemma ExpandsReciprocal(g: Curve, e: real, v: Curve, w: real, w0: real, rest: real, bound: real, h: real)
    requires w == Reciprocal(g)(h) && w0 == Reciprocal(g)(0.0) && rest == RecipRestCurve(g, e, v)(h)
    requires w == w0 + h * (-(e * (w0 * w0))) + (h * h) * rest && Within(rest, bound)
    ensures ExpandsAt(Reciprocal(g), -(e * (w0 * w0)), RecipRestCurve(g, e, v), bound, h)
  {
    hide RecipRest, Reciprocal, Within, RecipRestCurve;
  }

  lemma RecipRestAt(g: Curve, e: real, v: Curve, h: real)
    ensures RecipRestCurve(g, e, v)(h) == RecipRest(Reciprocal(g)(h), Reciprocal(g)(0.0), e, h, v(h))
  {
    hide RecipRest, Reciprocal;
  }

  lemma CurveValue(g: Curve, e: real, v: Curve, n: real, h: real)
    requires ExpandsAt(g, e, v, n, h)
    ensures g(h) == g(0.0) + h * e + (h * h) * v(h) && Within(v(h), n)
  {
  }

  lemma RecipPoint(g: Curve, e: real, v: Curve, n: real, h: real, b: real, be: real, w0: real, t: real)
    requires ExpandsAt(g, e, v, n, h) && Within(h, 1.0) && g(0.0) != 0.0 && w0 == Reciprocal(g)(0.0)
    requires t == (h * (e + h * v(h))) * w0
    requires Within(w0, b) && Within(e, be) && Within(t, 0.5)
    ensures g(h) != 0.0
    ensures ExpandsAt(Reciprocal(g), -(e * (w0 * w0)), RecipRestCurve(g, e, v), RecipBound(b, be, n), h)
  {
    hide RecipRest, RecipBound, Within, Reciprocal, ExpandsAt, RecipRestCurve;
    var g0, gh, vh, w := g(0.0), g(h), v(h), Reciprocal(g)(h);
    CurveValue(g, e, v, n, h);
    ReciprocalInverts(g, 0.0);
    NonZeroNearby(gh, g0, w0, h * (e + h * vh), t);
    ReciprocalInverts(g, h);
    RecipFacts(gh, g0, w, w0, e, vh, n, h, t, b, be);
    RecipRestAt(g, e, v, h);
    ExpandsReciprocal(g, e, v, w, w0, RecipRest(w, w0, e, h, vh), RecipBound(b, be, n), h);
  }

  ghost predicate NonZeroOn(g: Curve, radius: real) {
    0.0 < radius && forall h: real :: Within(h, radius) ==> g(h) != 0.0
  }

  lemma ReciprocalSlope(g: Curve, e: real, w0: real)
    requires HasSlope(g, e) && g(0.0) != 0.0 && w0 == Reciprocal(g)(0.0)
    ensures HasSlope(Reciprocal(g), -(e * (w0 * w0)))
    ensures exists radius :: NonZeroOn(g, radius)
  {
    hide Reciprocal, RecipRestCurve, RecipBound, ExpandsAt, Magnitude, RecipRest;
    var v, r1, n :| Expansion(g, e, v, r1, n);
    assert ExpandsAt(g, e, v, n, 0.0);
    CurveValue(g, e, v, n, 0.0);
    var r2 := SafeRadius(w0, e, n);
    var r := Min(r1, r2);
    var b, be := Magnitude(w0), Magnitude(e);
    forall h: real | Within(h, r)
      ensures g(h) != 0.0
      ensures ExpandsAt(Reciprocal(g), -(e * (w0 * w0)), RecipRestCurve(g, e, v), RecipBound(b, be, n), h)
    {
      assert ExpandsAt(g, e, v, n, h);
      CurveValue(g, e, v, n, h);
      assert Within(h, r2) && Within(v(h), n);
      RecipPoint(g, e, v, n, h, b, be, w0, (h * (e + h * v(h))) * w0);
    }
    assert NonZeroOn(g, r);
    assert Expansion(Reciprocal(g), -(e * (w0 * w0)), RecipRestCurve(g, e, v), r, RecipBound(b, be, n));
  }

  // ---- the remaining building blocks ---------------------------------------------

  function Level(c: real): Curve {
    (h: real) => c
  }

  function Ramp(c: real): Curve {
    (h: real) => c + h
  }

  function Minus(f: Curve): Curve {
    (h: real) => -f(h)
  }

  lemma LevelSlope(c: real)
    ensures HasSlope(Level(c), 0.0)
  {
    assert Expansion(Level(c), 0.0, Level(0.0), 1.0, 0.0);
  }

  lemma RampSlope(c: real)
    ensures HasSlope(Ramp(c), 1.0)
  {
    assert Expansion(Ramp(c), 1.0, Level(0.0), 1.0, 0.0);
  }

  lemma MinusSlope(f: Curve, df: real)
    requires HasSlope(f, df)
    ensures HasSlope(Minus(f), -df)
  {
    var u, r, m :| Expansion(f, df, u, r, m);
    forall h: real | Within(h, r)
      ensures ExpandsAt(Minus(f), -df, Minus(u), m, h)
    {
      assert ExpandsAt(f, df, u, m, h);
    }
    assert Expansion(Minus(f), -df, Minus(u), r, m);
  }

  // Curves that agree near 0 have the same slopes.
  lemma SlopeIsLocal(f: Curve, g: Curve, df: real, radius: real)
    requires HasSlope(f, df) && 0.0 < radius
    requires forall h: real :: Within(h, radius) ==> f(h) == g(h)
    ensures HasSlope(g, df)
  {
    var u, r, m :| Expansion(f, df, u, r, m);
    var r' := Min(r, radius);
    assert f(0.0) == g(0.0) by { assert Within(0.0, radius); }
    forall h: real | Within(h, r')
      ensures ExpandsAt(g, df, u, m, h)
    {
      assert ExpandsAt(f, df, u, m, h) && Within(h, radius);
    }
    assert Expansion(g, df, u, r', m);
  }
}
