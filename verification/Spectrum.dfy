// The 4x4 Jacobian of the four-state model: eigenvalues, characteristic polynomial and
// the closed "maximum" formula.  State order is [J, A, F, P].
module Spectrum {

  // The nine entries the contract lists; every other entry of the matrix is zero.
  datatype Jacobian = Jacobian(jj: real, ja: real, aj: real, aa: real, fa: real, ff: real,
                               pa: real, pf: real, pp: real) {
    function Trace(): real { jj + aa }
    function Det(): real { jj * aa - ja * aj }
    function Disc(): real { Trace() * Trace() - 4.0 * Det() }
  }

  datatype Vector = Vector(j: real, a: real, f: real, p: real)

  const ORIGIN := Vector(0.0, 0.0, 0.0, 0.0)

  function Apply(m: Jacobian, v: Vector): Vector {
    Vector(m.jj * v.j + m.ja * v.a,
           m.aj * v.j + m.aa * v.a,
           m.fa * v.a + m.ff * v.f,
           m.pa * v.a + m.pf * v.f + m.pp * v.p)
  }

  function Scale(c: real, v: Vector): Vector {
    Vector(c * v.j, c * v.a, c * v.f, c * v.p)
  }

  predicate IsEigenvector(m: Jacobian, lambda: real, v: Vector) {
    v != ORIGIN && Apply(m, v) == Scale(lambda, v)
  }

  ghost predicate IsEigenvalue(m: Jacobian, lambda: real) {
    exists v :: IsEigenvector(m, lambda, v)
  }

  // The larva-adult factor of the characteristic polynomial.
  function BlockPoly(m: Jacobian, lambda: real): real {
    lambda * lambda - m.Trace() * lambda + m.Det()
  }

  predicate IsRoot(m: Jacobian, lambda: real) {
    BlockPoly(m, lambda) == 0.0 || lambda == m.ff || lambda == m.pp
  }

  // ---- eigenvalues of the block-triangular matrix ---------------------------------

  lemma EigenvectorGivesRoot(m: Jacobian, lambda: real, v: Vector)
    requires IsEigenvector(m, lambda, v)
    ensures IsRoot(m, lambda)
  {
    if v.j != 0.0 || v.a != 0.0 {
      BlockKernelGivesRoot(m.jj - lambda, m.ja, m.aj, m.aa - lambda, v.j, v.a);
      assert BlockPoly(m, lambda) == (m.jj - lambda) * (m.aa - lambda) - m.ja * m.aj;
    } else if v.f != 0.0 {
      LowerRow(m.ff, lambda, v.f, m.fa, v.a, 0.0, 0.0);
    } else {
      LowerRow(m.pp, lambda, v.p, m.pa, v.a, m.pf, v.f);
    }
  }

  // A row whose only nonzero entry is on the diagonal.
  lemma LowerRow(d: real, lambda: real, x: real, c: real, y: real, e: real, z: real)
    requires c * y + e * z + d * x == lambda * x && y == 0.0 && z == 0.0 && x != 0.0
    ensures lambda == d
  {
    assert c * y == 0.0 && e * z == 0.0;
    assert (d - lambda) * x == 0.0;
  }

  lemma BlockKernelGivesRoot(a: real, b: real, c: real, d: real, x: real, y: real)
    requires a * x + b * y == 0.0 && c * x + d * y == 0.0
    requires x != 0.0 || y != 0.0
    ensures a * d - b * c == 0.0
  {
    calc { (a * d - b * c) * x; d * (a * x + b * y) - b * (c * x + d * y); 0.0; }
    calc { (a * d - b * c) * y; a * (c * x + d * y) - c * (a * x + b * y); 0.0; }
  }

  // A singular 2x2 block has a nonzero kernel vector.
  lemma BlockKernel(a: real, b: real, c: real, d: real) returns (x: real, y: real)
    requires a * d - b * c == 0.0
    ensures x != 0.0 || y != 0.0
    ensures a * x + b * y == 0.0 && c * x + d * y == 0.0
  {
    if c != 0.0 || d != 0.0 {
      x, y := -d, c;
    } else if a != 0.0 || b != 0.0 {
      x, y := -b, a;
    } else {
      x, y := 1.0, 0.0;
    }
  }

  // One row of (m - lambda)*v = 0 as a row of m*v = lambda*v.
  lemma RowMoved(d: real, lambda: real, x: real, rest: real)
    requires rest + (d - lambda) * x == 0.0
    ensures rest + d * x == lambda * x
  {
  }

  lemma SolveRow(d: real, lambda: real, rest: real) returns (x: real)
    requires d != lambda
    ensures rest + d * x == lambda * x
  {
    x := -rest / (d - lambda);
    assert (d - lambda) * x == -rest;
    RowMoved(d, lambda, x, rest);
  }

  lemma BlockSingular(m: Jacobian, lambda: real)
    requires BlockPoly(m, lambda) == 0.0
    ensures (m.jj - lambda) * (m.aa - lambda) - m.ja * m.aj == 0.0
  {
  }

  // An eigenvector of the larva-adult block.
  lemma BlockVector(m: Jacobian, lambda: real) returns (x: real, y: real)
    requires BlockPoly(m, lambda) == 0.0
    ensures x != 0.0 || y != 0.0
    ensures m.ja * y + m.jj * x == lambda * x && m.aj * x + m.aa * y == lambda * y
  {
    BlockSingular(m, lambda);
    hide BlockPoly;
    x, y := BlockKernel(m.jj - lambda, m.ja, m.aj, m.aa - lambda);
    RowMoved(m.jj, lambda, x, m.ja * y);
    RowMoved(m.aa, lambda, y, m.aj * x);
  }

  lemma BlockEigenvector(m: Jacobian, lambda: real) returns (v: Vector)
    requires BlockPoly(m, lambda) == 0.0 && lambda != m.ff && lambda != m.pp
    ensures IsEigenvector(m, lambda, v)
  {
    var x, y := BlockVector(m, lambda);
    hide BlockPoly;
    var f := SolveRow(m.ff, lambda, m.fa * y);
    var p := SolveRow(m.pp, lambda, m.pa * y + m.pf * f);
    v := Vector(x, y, f, p);
  }

  lemma RootGivesEigenvector(m: Jacobian, lambda: real) returns (v: Vector)
    requires IsRoot(m, lambda)
    ensures IsEigenvector(m, lambda, v)
  {
    if lambda == m.pp {
      v := Vector(0.0, 0.0, 0.0, 1.0);
    } else if lambda == m.ff {
      var p := SolveRow(m.pp, lambda, m.pf);
      v := Vector(0.0, 0.0, 1.0, p);
    } else {
      v := BlockEigenvector(m, lambda);
    }
  }

  // The real eigenvalues are exactly the roots of the larva-adult factor, ff and pp.
  lemma EigenvalueIffRoot(m: Jacobian, lambda: real)
    ensures IsEigenvalue(m, lambda) <==> IsRoot(m, lambda)
  {
    if IsEigenvalue(m, lambda) {
      var v :| IsEigenvector(m, lambda, v);
      EigenvectorGivesRoot(m, lambda, v);
    }
    if IsRoot(m, lambda) {
      var v := RootGivesEigenvector(m, lambda);
    }
  }

  // ---- characteristic polynomial by cofactors --------------------------------------

  function Det3(a: real, b: real, c: real, d: real, e: real, f: real, g: real, h: real, i: real): real {
    a * (e * i - f * h) - b * (d * i - f * g) + c * (d * h - e * g)
  }

  // det(lambda*I - m), expanded along the first row of the full 4x4 matrix.
  function CharPoly(m: Jacobian, l: real): real {
    (l - m.jj) * Det3(l - m.aa, 0.0, 0.0, -m.fa, l - m.ff, 0.0, -m.pa, -m.pf, l - m.pp)
    - (-m.ja) * Det3(-m.aj, 0.0, 0.0, 0.0, l - m.ff, 0.0, 0.0, -m.pf, l - m.pp)
    + 0.0 * Det3(-m.aj, l - m.aa, 0.0, 0.0, -m.fa, 0.0, 0.0, -m.pa, l - m.pp)
    - 0.0 * Det3(-m.aj, l - m.aa, 0.0, 0.0, -m.fa, l - m.ff, 0.0, -m.pa, -m.pf)
  }

  lemma CharPolyFactors(m: Jacobian, l: real)
    ensures CharPoly(m, l) == BlockPoly(m, l) * ((l - m.ff) * (l - m.pp))
  {
    var q := (l - m.ff) * (l - m.pp);
    assert Det3(l - m.aa, 0.0, 0.0, -m.fa, l - m.ff, 0.0, -m.pa, -m.pf, l - m.pp) == (l - m.aa) * q;
    assert Det3(-m.aj, 0.0, 0.0, 0.0, l - m.ff, 0.0, 0.0, -m.pf, l - m.pp) == -m.aj * q;
    CofactorSum(l - m.jj, l - m.aa, m.ja, m.aj, q);
    assert BlockPoly(m, l) == (l - m.jj) * (l - m.aa) - m.ja * m.aj;
    hide Det3, BlockPoly;
  }

  lemma CofactorSum(a: real, d: real, b: real, c: real, q: real)
    ensures a * (d * q) - (-b) * (-c * q) == (a * d - b * c) * q
  {
  }

  // ---- the four closed-form eigenvalues --------------------------------------------

  // s is the non-negative square root of the discriminant.
  predicate IsDiscRoot(m: Jacobian, s: real) {
    s >= 0.0 && s * s == m.Disc()
  }

  function LambdaPlus(m: Jacobian, s: real): real { (m.Trace() + s) / 2.0 }

  function LambdaMinus(m: Jacobian, s: real): real { (m.Trace() - s) / 2.0 }

  lemma BlockPolySplits(m: Jacobian, s: real, l: real)
    requires IsDiscRoot(m, s)
    ensures BlockPoly(m, l) == (l - LambdaPlus(m, s)) * (l - LambdaMinus(m, s))
  {
    var t, d := m.Trace(), m.Det();
    calc {
      (l - LambdaPlus(m, s)) * (l - LambdaMinus(m, s));
      l * l - t * l + (t * t - s * s) / 4.0;
      l * l - t * l + d;
    }
  }

  lemma ProductZero(x: real, y: real)
    ensures x * y == 0.0 <==> x == 0.0 || y == 0.0
  {
  }

  // The four listed numbers are exactly the real eigenvalues.
  lemma SpectrumIsFourLambdas(m: Jacobian, s: real, l: real)
    requires IsDiscRoot(m, s)
    ensures IsEigenvalue(m, l) <==> l in {LambdaPlus(m, s), LambdaMinus(m, s), m.ff, m.pp}
    ensures CharPoly(m, l) == 0.0 <==> IsEigenvalue(m, l)
  {
    hide BlockPoly, CharPoly, LambdaPlus, LambdaMinus, IsDiscRoot, IsEigenvalue;
    BlockPolySplits(m, s, l);
    ProductZero(l - LambdaPlus(m, s), l - LambdaMinus(m, s));
    EigenvalueIffRoot(m, l);
    CharPolyFactors(m, l);
    ProductZero(l - m.ff, l - m.pp);
    ProductZero(BlockPoly(m, l), (l - m.ff) * (l - m.pp));
  }

  lemma DiscAsSquares(m: Jacobian)
    ensures m.Disc() == (m.jj - m.aa) * (m.jj - m.aa) + 4.0 * (m.ja * m.aj)
  {
  }

  // ---- the maximum formula ---------------------------------------------------------

  function Max(x: real, y: real): real {
    if x < y then y else x
  }

  // (a + b + sqrt((a - b)^2)) / 2 is the larger of a and b.
  lemma HalfSumIsMax(a: real, b: real, s: real)
    requires s >= 0.0 && s * s == (a - b) * (a - b)
    ensures (a + b + s) / 2.0 == Max(a, b)
  {
    assert (s - (a - b)) * (s + (a - b)) == 0.0;
    ProductZero(s - (a - b), s + (a - b));
  }

  function Dominant(m: Jacobian, s: real): real {
    Max(Max(LambdaPlus(m, s), LambdaMinus(m, s)), Max(m.ff, m.pp))
  }

  lemma PlusDominatesMinus(m: Jacobian, s: real)
    requires IsDiscRoot(m, s)
    ensures LambdaMinus(m, s) <= LambdaPlus(m, s)
    ensures Dominant(m, s) == Max(LambdaPlus(m, s), Max(m.ff, m.pp))
  {
  }

  // Every eigenvalue is at most the dominant one, and it is itself an eigenvalue.
  lemma DominantIsGreatestEigenvalue(m: Jacobian, s: real)
    requires IsDiscRoot(m, s)
    ensures IsEigenvalue(m, Dominant(m, s))
    ensures forall l :: IsEigenvalue(m, l) ==> l <= Dominant(m, s)
  {
    SpectrumIsFourLambdas(m, s, Dominant(m, s));
    forall l | IsEigenvalue(m, l)
      ensures l <= Dominant(m, s)
    {
      SpectrumIsFourLambdas(m, s, l);
    }
  }

  // ---- stability without eigenvalues ------------------------------------------------

  lemma PositiveProduct(x: real, y: real)
    requires x > 0.0 && y > 0.0
    ensures x * y > 0.0
  {
  }

  lemma SquareOrder(x: real, y: real)
    requires 0.0 <= x && 0.0 <= y
    ensures x < y <==> x * x < y * y
  {
    assert (y - x) * (y + x) == y * y - x * x;
    if x < y { PositiveProduct(y - x, y + x); }
    assert x >= y ==> (x - y) * (y + x) >= 0.0;
  }

  lemma BlockStableIff(m: Jacobian, s: real)
    requires IsDiscRoot(m, s)
    ensures LambdaPlus(m, s) < 0.0 <==> m.Trace() < 0.0 && m.Det() > 0.0
  {
    if m.Trace() < 0.0 {
      SquareOrder(s, -m.Trace());
      assert (-m.Trace()) * (-m.Trace()) == m.Trace() * m.Trace();
    }
  }

  // The sign test on dominant_real_part is the trace-determinant criterion.
  lemma StableIff(m: Jacobian, s: real)
    requires IsDiscRoot(m, s)
    ensures Dominant(m, s) < 0.0 <==> m.Trace() < 0.0 && m.Det() > 0.0 && m.ff < 0.0 && m.pp < 0.0
  {
    PlusDominatesMinus(m, s);
    BlockStableIff(m, s);
  }
}
