// The four-state ecosystem ODE at fixed food and mechanism: its Jacobian, its interior
// equilibrium and the stability of that equilibrium.
module Stability {
  import opened Spectrum

  // f is the female ratio and k the juvenile capacity; both depend on food only.
  datatype Params = Params(b: real, f: real, k: real, muJ: real, m: real, muA: real,
                           rF: real, kF: real, attack: real,
                           rP: real, kP: real, benefit: real, cost: real)

  type State = Vector

  predicate Capacities(p: Params) {
    p.k != 0.0 && p.kF != 0.0 && p.kP != 0.0
  }

  predicate Positive(p: Params) {
    && p.b > 0.0 && p.f > 0.0 && p.k > 0.0 && p.muJ > 0.0 && p.m > 0.0 && p.muA > 0.0
    && p.rF > 0.0 && p.kF > 0.0 && p.attack > 0.0
    && p.rP > 0.0 && p.kP > 0.0 && p.benefit > 0.0 && p.cost > 0.0
  }

  predicate Interior(x: State) {
    x.j > 0.0 && x.a > 0.0 && x.f > 0.0 && x.p > 0.0
  }

  function RateJ(p: Params, x: State): real
    requires Capacities(p)
  {
    p.b * (p.f * (x.a * (1.0 - x.j / p.k))) - p.muJ * x.j
  }

  function RateA(p: Params, x: State): real {
    p.m * x.j - p.muA * x.a
  }

  function RateF(p: Params, x: State): real
    requires Capacities(p)
  {
    p.rF * (x.f * (1.0 - x.f / p.kF)) - p.attack * (x.a * x.f)
  }

  function RateP(p: Params, x: State): real
    requires Capacities(p)
  {
    p.rP * (x.p * (1.0 - x.p / p.kP)) + p.benefit * (x.f * x.p) - p.cost * (x.a * x.p)
  }

  // Squared Euclidean norm of the field.
  function ResidualSq(p: Params, x: State): real
    requires Capacities(p)
  {
    RateJ(p, x) * RateJ(p, x) + RateA(p, x) * RateA(p, x) + RateF(p, x) * RateF(p, x) + RateP(p, x) * RateP(p, x)
  }

  function Field(p: Params, x: State): Vector
    requires Capacities(p)
  {
    Vector(RateJ(p, x), RateA(p, x), RateF(p, x), RateP(p, x))
  }

  predicate Equilibrium(p: Params, x: State)
    requires Capacities(p)
  {
    Field(p, x) == ORIGIN
  }

  function JacobianAt(p: Params, x: State): Jacobian
    requires Capacities(p)
  {
    Jacobian(
      -(p.b * p.f * x.a / p.k + p.muJ),
      p.b * p.f * (1.0 - x.j / p.k),
      p.m,
      -p.muA,
      -(p.attack * x.f),
      p.rF * (1.0 - 2.0 * x.f / p.kF) - p.attack * x.a,
      -(p.cost * x.p),
      p.benefit * x.p,
      p.rP * (1.0 - 2.0 * x.p / p.kP) + p.benefit * x.f - p.cost * x.a)
  }

  // ---- arithmetic ------------------------------------------------------------------

  lemma DivMul(x: real, y: real)
    requires y != 0.0
    ensures x / y * y == x
  {
  }

  lemma DivScale(c: real, x: real, y: real)
    requires y != 0.0
    ensures c * x / y == c * (x / y)
  {
    var q := x / y;
    assert q * y == x;
    assert (c * q) * y == c * x;
  }

  lemma DivSum(x: real, h: real, y: real)
    requires y != 0.0
    ensures (x + h) / y == x / y + h / y
  {
    var q, r := x / y, h / y;
    assert (q + r) * y == x + h;
  }

  lemma CancelNonzero(c: real, x: real, y: real)
    requires c != 0.0 && c * x == c * y
    ensures x == y
  {
    assert c * (x - y) == 0.0;
  }

  lemma DivPositive(x: real, y: real)
    requires x > 0.0 && y > 0.0
    ensures x / y > 0.0
  {
    DivMul(x, y);
  }

  // ---- the Jacobian as the linear part of the field ---------------------------------

  function Shifted(x: Vector, h: Vector): Vector {
    Vector(x.j + h.j, x.a + h.a, x.f + h.f, x.p + h.p)
  }

  // What Field(x + h) - Field(x) - Jacobian(x)*h leaves: quadratic in h, independent of x.
  function Quadratic(p: Params, h: Vector): Vector
    requires Capacities(p)
  {
    Vector(-(p.b * p.f * (h.j / p.k) * h.a),
           0.0,
           -(p.rF * (h.f / p.kF) * h.f) - p.attack * (h.a * h.f),
           -(p.rP * (h.p / p.kP) * h.p) + p.benefit * (h.f * h.p) - p.cost * (h.a * h.p))
  }

  lemma LogisticExpansion(r: real, k: real, x: real, h: real)
    requires k != 0.0
    ensures r * ((x + h) * (1.0 - (x + h) / k))
         == r * (x * (1.0 - x / k)) + r * (1.0 - 2.0 * x / k) * h - r * (h / k) * h
  {
    var q, d := x / k, h / k;
    DivSum(x, h, k);
    DivScale(2.0, x, k);
    assert x * d == h * q by {
      assert (x * d) * k == x * h && (h * q) * k == h * x;
      CancelNonzero(k, x * d, h * q);
    }
    calc {
      r * ((x + h) * (1.0 - (q + d)));
      r * (x * (1.0 - q)) + r * (h - h * q - x * d) - r * (d * h);
      r * (x * (1.0 - q)) + r * (1.0 - 2.0 * q) * h - r * d * h;
    }
  }

  lemma RateJExpansion(p: Params, x: State, h: Vector)
    requires Capacities(p)
    ensures RateJ(p, Shifted(x, h)) == RateJ(p, x) + (JacobianAt(p, x).jj * h.j + JacobianAt(p, x).ja * h.a)
                                       + Quadratic(p, h).j
  {
    var q, d, c := x.j / p.k, h.j / p.k, p.b * p.f;
    DivSum(x.j, h.j, p.k);
    assert c * x.a / p.k * h.j == c * (x.a * d) by {
      assert (c * x.a / p.k) * p.k == c * x.a;
      CancelNonzero(p.k, c * x.a / p.k * h.j, c * (x.a * d)) by {
        assert p.k * (c * x.a / p.k * h.j) == c * x.a * h.j;
        assert p.k * (c * (x.a * d)) == c * x.a * (d * p.k);
      }
    }
    calc {
      RateJ(p, Shifted(x, h));
      c * ((x.a + h.a) * (1.0 - (q + d))) - p.muJ * (x.j + h.j);
      (c * (x.a * (1.0 - q)) - p.muJ * x.j) + (-(c * (x.a * d)) - p.muJ * h.j + c * (1.0 - q) * h.a) - c * d * h.a;
    }
  }

  lemma RateFExpansion(p: Params, x: State, h: Vector)
    requires Capacities(p)
    ensures RateF(p, Shifted(x, h)) == RateF(p, x) + (JacobianAt(p, x).fa * h.a + JacobianAt(p, x).ff * h.f)
                                       + Quadratic(p, h).f
  {
    LogisticExpansion(p.rF, p.kF, x.f, h.f);
    assert p.attack * ((x.a + h.a) * (x.f + h.f))
        == p.attack * (x.a * x.f) + p.attack * x.a * h.f + p.attack * x.f * h.a + p.attack * (h.a * h.f);
  }

  lemma RatePExpansion(p: Params, x: State, h: Vector)
    requires Capacities(p)
    ensures RateP(p, Shifted(x, h))
         == RateP(p, x) + (JacobianAt(p, x).pa * h.a + JacobianAt(p, x).pf * h.f + JacobianAt(p, x).pp * h.p)
            + Quadratic(p, h).p
  {
    LogisticExpansion(p.rP, p.kP, x.p, h.p);
    assert p.cost * ((x.a + h.a) * (x.p + h.p))
        == p.cost * (x.a * x.p) + p.cost * x.a * h.p + p.cost * x.p * h.a + p.cost * (h.a * h.p);
    assert p.benefit * ((x.f + h.f) * (x.p + h.p))
        == p.benefit * (x.f * x.p) + p.benefit * x.f * h.p + p.benefit * x.p * h.f + p.benefit * (h.f * h.p);
  }

  // The Jacobian is the exact linear part of the field at every state and for every step.
  lemma FieldExpansion(p: Params, x: State, h: Vector)
    requires Capacities(p)
    ensures Field(p, Shifted(x, h)) == Shifted(Shifted(Field(p, x), Apply(JacobianAt(p, x), h)), Quadratic(p, h))
  {
    hide RateJ, RateF, RateP, Quadratic, JacobianAt;
    RateJExpansion(p, x, h);
    RateFExpansion(p, x, h);
    RatePExpansion(p, x, h);
    FieldRows(p, x, h);
  }

  lemma FieldRows(p: Params, x: State, h: Vector)
    requires Capacities(p)
    ensures JacobianAt(p, x).aj == p.m && JacobianAt(p, x).aa == -p.muA && Quadratic(p, h).a == 0.0
    ensures RateA(p, Shifted(x, h)) == RateA(p, x) + (p.m * h.j + (-p.muA) * h.a)
  {
  }

  // ---- sign of the discriminant -----------------------------------------------------

  // The contract declares disc_JA non-negative.  On the whole state domain that holds
  // exactly when the larval overshoot J/k - 1 is small enough.
  lemma DiscNonnegativeIff(p: Params, x: State)
    requires Positive(p)
    ensures var m := JacobianAt(p, x);
            m.Disc() >= 0.0 <==> 4.0 * (p.b * p.f * p.m) * (x.j / p.k - 1.0) <= (m.jj - m.aa) * (m.jj - m.aa)
  {
    DiscAsSquares(JacobianAt(p, x));
    var c := p.b * p.f;
    assert JacobianAt(p, x).ja * JacobianAt(p, x).aj == -(c * p.m * (x.j / p.k - 1.0));
  }

  lemma RatioAtMostOne(x: real, k: real)
    requires k > 0.0
    ensures x / k <= 1.0 <==> x <= k
  {
    var q := x / k;
    DivMul(x, k);
    assert (1.0 - q) * k == k - x;
  }

  lemma DiscNonnegativeUpToCapacity(p: Params, x: State)
    requires Positive(p) && x.j <= p.k
    ensures JacobianAt(p, x).Disc() >= 0.0
  {
    RatioAtMostOne(x.j, p.k);
    var t := JacobianAt(p, x).jj - JacobianAt(p, x).aa;
    assert t * t >= 0.0;
    PositiveProduct(p.b, p.f);
    PositiveProduct(p.b * p.f, p.m);
    var c, u := 4.0 * (p.b * p.f * p.m), 1.0 - x.j / p.k;
    assert c * u >= 0.0;
    assert c * (x.j / p.k - 1.0) == -(c * u);
    DiscNonnegativeIff(p, x);
  }

  // ---- interior equilibria ----------------------------------------------------------

  // The reciprocal of the lamprey reproduction number.
  function Turnover(p: Params): real
    requires Positive(p)
  {
    PositiveProduct(p.b, p.f);
    PositiveProduct(p.b * p.f, p.m);
    (p.muJ * p.muA) / (p.b * p.f * p.m)
  }

  function StarJ(p: Params): real
    requires Positive(p)
  {
    p.k * (1.0 - Turnover(p))
  }

  // Adult, fish and parasite levels that balance their equations given the levels below.
  function AdultLevel(p: Params, j: real): real
    requires p.muA != 0.0
  {
    p.m * j / p.muA
  }

  function FishLevel(p: Params, a: real): real
    requires p.rF != 0.0
  {
    p.kF * (1.0 - p.attack * a / p.rF)
  }

  function ParasiteLevel(p: Params, a: real, f: real): real
    requires p.rP != 0.0
  {
    p.kP * (1.0 + (p.benefit * f - p.cost * a) / p.rP)
  }

  function StarA(p: Params): real
    requires Positive(p)
  {
    AdultLevel(p, StarJ(p))
  }

  function StarF(p: Params): real
    requires Positive(p)
  {
    FishLevel(p, StarA(p))
  }

  function StarP(p: Params): real
    requires Positive(p)
  {
    ParasiteLevel(p, StarA(p), StarF(p))
  }

  function Star(p: Params): State
    requires Positive(p)
  {
    Vector(StarJ(p), StarA(p), StarF(p), StarP(p))
  }

  // Three thresholds a caller can check on the parameters.
  predicate Feasible(p: Params)
    requires Positive(p)
  {
    && p.muJ * p.muA < p.b * p.f * p.m
    && p.attack * StarA(p) < p.rF
    && p.cost * StarA(p) < p.rP + p.benefit * StarF(p)
  }

  // rate*(1 - x/cap) = loss says x = cap*(1 - loss/rate).
  lemma LogisticBalance(rate: real, cap: real, x: real, loss: real)
    requires rate > 0.0 && cap > 0.0
    ensures rate * (1.0 - x / cap) == loss <==> x == cap * (1.0 - loss / rate)
  {
    var q, l := x / cap, loss / rate;
    DivMul(x, cap);
    DivMul(loss, rate);
    if rate * (1.0 - q) == loss {
      assert rate * l == loss;
      CancelNonzero(rate, 1.0 - q, l);
      assert x == cap * q;
    }
    if x == cap * (1.0 - l) {
      assert q * cap == (1.0 - l) * cap;
      CancelNonzero(cap, q, 1.0 - l);
      assert rate * (1.0 - q) == l * rate;
    }
  }

  lemma FactorOut(x: real, y: real)
    requires x != 0.0
    ensures x * y == 0.0 <==> y == 0.0
  {
  }

  lemma QuotientIs(x: real, y: real, z: real)
    requires z != 0.0
    ensures x == y / z <==> x * z == y
  {
    DivMul(y, z);
    if x * z == y { CancelNonzero(z, x, y / z); }
  }

  // The parasite's rate by the head, and its Jacobian entry.
  lemma ParasiteTerms(p: Params, x: State, growth: real, loss: real)
    requires Capacities(p) && growth == p.rP * (1.0 - x.p / p.kP) && loss == p.cost * x.a - p.benefit * x.f
    ensures RateP(p, x) == x.p * (growth - loss)
    ensures JacobianAt(p, x).pp == p.rP * (1.0 - 2.0 * x.p / p.kP) - loss
  {
    var room := 1.0 - x.p / p.kP;
    Regrouped(p.rP, room, p.benefit, x.f, p.cost, x.a, x.p, growth, loss);
  }

  lemma Regrouped(r: real, room: real, b: real, f: real, c: real, a: real, x: real, growth: real, loss: real)
    requires growth == r * room && loss == c * a - b * f
    ensures r * (x * room) + b * (f * x) - c * (a * x) == x * (growth - loss)
  {
  }

  lemma LogisticBalanceAt(x: real, rate: real, cap: real, growth: real, loss: real, total: real)
    requires x != 0.0 && rate > 0.0 && cap > 0.0 && growth == rate * (1.0 - x / cap) && total == x * (growth - loss)
    ensures total == 0.0 <==> x == cap * (1.0 - loss / rate)
  {
    FactorOut(x, growth - loss);
    LogisticBalance(rate, cap, x, loss);
  }

  // Births over an adult level that balances maturation.
  lemma LarvalTurnover(b: real, f: real, m: real, u: real, j: real, a: real, muJ: real, muA: real, rate: real, c: real, d: real)
    requires a * muA == m * j && rate == b * (f * (a * u)) - muJ * j && c == b * f * m && d == muJ * muA
    ensures rate * muA == j * (c * u - d)
  {
    calc {
      rate * muA;
      b * f * u * (a * muA) - muJ * j * muA;
      b * f * u * (m * j) - muJ * j * muA;
      j * (c * u - d);
    }
  }

  lemma LarvalBalanceBy(rate: real, j: real, k: real, c: real, u: real, d: real, muA: real)
    requires j != 0.0 && muA != 0.0 && k > 0.0 && c > 0.0 && u == 1.0 - j / k && rate * muA == j * (c * u - d)
    ensures rate == 0.0 <==> j == k * (1.0 - d / c)
  {
    FactorOut(j, c * u - d);
    FactorOut(muA, rate);
    LogisticBalance(c, k, j, d);
  }

  // With A = m*J/muA and J > 0 the larval balance fixes J.
  lemma LarvalBalance(p: Params, x: State)
    requires Positive(p) && x.j > 0.0 && x.a == AdultLevel(p, x.j)
    ensures RateJ(p, x) == 0.0 <==> x.j == StarJ(p)
  {
    LarvalBalanceAt(p, x, p.b * p.f * p.m, 1.0 - x.j / p.k, p.muJ * p.muA);
  }

  lemma StarJBy(p: Params, c: real, d: real)
    requires Positive(p) && c == p.b * p.f * p.m && d == p.muJ * p.muA
    ensures c > 0.0 && StarJ(p) == p.k * (1.0 - d / c)
  {
    PositiveProduct(p.b, p.f);
    PositiveProduct(p.b * p.f, p.m);
  }

  lemma AdultsBalance(p: Params, x: State)
    requires p.muA != 0.0 && x.a == AdultLevel(p, x.j)
    ensures x.a * p.muA == p.m * x.j
  {
    DivMul(p.m * x.j, p.muA);
  }

  lemma RateJBy(p: Params, x: State, u: real)
    requires Capacities(p) && u == 1.0 - x.j / p.k
    ensures RateJ(p, x) == p.b * (p.f * (x.a * u)) - p.muJ * x.j
  {
  }

  lemma LarvalRateBy(p: Params, x: State, c: real, u: real, d: real)
    requires Positive(p) && x.a == AdultLevel(p, x.j)
    requires c == p.b * p.f * p.m && u == 1.0 - x.j / p.k && d == p.muJ * p.muA
    ensures RateJ(p, x) * p.muA == x.j * (c * u - d)
  {
    AdultsBalance(p, x);
    RateJBy(p, x, u);
    hide RateJ, AdultLevel;
    LarvalTurnover(p.b, p.f, p.m, u, x.j, x.a, p.muJ, p.muA, RateJ(p, x), c, d);
  }

  lemma LarvalBalanceAt(p: Params, x: State, c: real, u: real, d: real)
    requires Positive(p) && x.j > 0.0 && x.a == AdultLevel(p, x.j)
    requires c == p.b * p.f * p.m && u == 1.0 - x.j / p.k && d == p.muJ * p.muA
    ensures RateJ(p, x) == 0.0 <==> x.j == StarJ(p)
  {
    StarJBy(p, c, d);
    LarvalRateBy(p, x, c, u, d);
    hide RateJ, StarJ, AdultLevel;
    LarvalBalanceBy(RateJ(p, x), x.j, p.k, c, u, d, p.muA);
  }

  // The fish's rate by the head.
  lemma FishTerms(p: Params, x: State, growth: real, loss: real)
    requires Capacities(p) && growth == p.rF * (1.0 - x.f / p.kF) && loss == p.attack * x.a
    ensures RateF(p, x) == x.f * (growth - loss)
  {
    Regrouped(p.rF, 1.0 - x.f / p.kF, 0.0, 0.0, p.attack, x.a, x.f, growth, loss);
  }

  lemma FishBalance(p: Params, x: State)
    requires Positive(p) && x.f > 0.0
    ensures RateF(p, x) == 0.0 <==> x.f == FishLevel(p, x.a)
  {
    FishBalanceAt(p, x, p.rF * (1.0 - x.f / p.kF), p.attack * x.a);
  }

  lemma FishBalanceAt(p: Params, x: State, growth: real, loss: real)
    requires Positive(p) && x.f > 0.0 && growth == p.rF * (1.0 - x.f / p.kF) && loss == p.attack * x.a
    ensures RateF(p, x) == 0.0 <==> x.f == FishLevel(p, x.a)
  {
    hide RateF;
    FishTerms(p, x, growth, loss);
    LogisticBalanceAt(x.f, p.rF, p.kF, growth, loss, RateF(p, x));
  }

  lemma NegatedShare(net: real, loss: real, rate: real, cap: real)
    requires rate != 0.0 && loss == -net
    ensures cap * (1.0 + net / rate) == cap * (1.0 - loss / rate)
  {
    var q, l := net / rate, loss / rate;
    assert q * rate == net && l * rate == loss;
    CancelNonzero(rate, q, -l);
  }

  lemma ParasiteLevelBy(p: Params, a: real, f: real, net: real, loss: real)
    requires p.rP != 0.0 && net == p.benefit * f - p.cost * a && loss == -net
    ensures ParasiteLevel(p, a, f) == p.kP * (1.0 - loss / p.rP)
  {
    NegatedShare(net, loss, p.rP, p.kP);
  }

  lemma ParasiteBalance(p: Params, x: State)
    requires Positive(p) && x.p > 0.0
    ensures RateP(p, x) == 0.0 <==> x.p == ParasiteLevel(p, x.a, x.f)
  {
    ParasiteBalanceAt(p, x, p.rP * (1.0 - x.p / p.kP), p.benefit * x.f - p.cost * x.a, p.cost * x.a - p.benefit * x.f);
  }

  lemma ParasiteBalanceAt(p: Params, x: State, growth: real, net: real, loss: real)
    requires Positive(p) && x.p > 0.0 && growth == p.rP * (1.0 - x.p / p.kP)
    requires net == p.benefit * x.f - p.cost * x.a && loss == p.cost * x.a - p.benefit * x.f
    ensures RateP(p, x) == 0.0 <==> x.p == ParasiteLevel(p, x.a, x.f)
  {
    hide RateP, JacobianAt, ParasiteLevel;
    ParasiteTerms(p, x, growth, loss);
    ParasiteLevelBy(p, x.a, x.f, net, loss);
    LogisticBalanceAt(x.p, p.rP, p.kP, growth, loss, RateP(p, x));
  }

  lemma AdultBalance(p: Params, x: State)
    requires Positive(p)
    ensures RateA(p, x) == 0.0 <==> x.a == AdultLevel(p, x.j)
  {
    QuotientIs(x.a, p.m * x.j, p.muA);
  }

  // An interior state is an equilibrium exactly when it is the closed form.
  lemma EquilibriumIsStar(p: Params, x: State)
    requires Positive(p) && Interior(x)
    ensures Equilibrium(p, x) <==> x == Star(p)
  {
    hide RateJ, RateA, RateF, RateP, StarJ, AdultLevel, FishLevel, ParasiteLevel;
    AdultBalance(p, x);
    if x.a == AdultLevel(p, x.j) {
      LarvalBalance(p, x);
    }
    FishBalance(p, x);
    ParasiteBalance(p, x);
  }

  lemma TurnoverBelowOne(p: Params)
    requires Positive(p)
    ensures Turnover(p) < 1.0 <==> p.muJ * p.muA < p.b * p.f * p.m
  {
    var c := p.b * p.f * p.m;
    PositiveProduct(p.b, p.f);
    PositiveProduct(p.b * p.f, p.m);
    DivMul(p.muJ * p.muA, c);
    SignOfGap(Turnover(p), p.muJ * p.muA, c);
  }

  lemma SignOfGap(q: real, x: real, c: real)
    requires c > 0.0 && q * c == x
    ensures q < 1.0 <==> x < c
  {
    assert (1.0 - q) * c == c - x;
    SignOfProduct(c, 1.0 - q);
  }

  lemma SignOfProduct(c: real, x: real)
    requires c > 0.0
    ensures c * x > 0.0 <==> x > 0.0
  {
    if x > 0.0 { PositiveProduct(c, x); }
    if x <= 0.0 { assert c * -x >= 0.0; }
  }

  lemma AdultSign(p: Params, j: real)
    requires Positive(p)
    ensures AdultLevel(p, j) > 0.0 <==> j > 0.0
  {
    var a := AdultLevel(p, j);
    DivMul(p.m * j, p.muA);
    assert p.muA * a == p.m * j;
    SignOfProduct(p.muA, a);
    SignOfProduct(p.m, j);
  }

  lemma FishSign(p: Params, a: real)
    requires Positive(p)
    ensures FishLevel(p, a) > 0.0 <==> p.attack * a < p.rF
  {
    var loss := p.attack * a;
    var q := loss / p.rF;
    DivMul(loss, p.rF);
    SignOfGap(q, loss, p.rF);
    SignOfProduct(p.kF, 1.0 - q);
  }

  lemma ParasiteSign(p: Params, a: real, f: real)
    requires Positive(p)
    ensures ParasiteLevel(p, a, f) > 0.0 <==> p.cost * a < p.rP + p.benefit * f
  {
    var net := p.benefit * f - p.cost * a;
    var q := net / p.rP;
    DivMul(net, p.rP);
    assert p.rP * (1.0 + q) == p.rP + net;
    SignOfProduct(p.rP, 1.0 + q);
    SignOfProduct(p.kP, 1.0 + q);
  }

  lemma LarvalSign(p: Params)
    requires Positive(p)
    ensures StarJ(p) > 0.0 <==> p.muJ * p.muA < p.b * p.f * p.m
  {
    TurnoverBelowOne(p);
    hide Turnover;
    SignOfProduct(p.k, 1.0 - Turnover(p));
  }

  lemma StarInteriorIff(p: Params)
    requires Positive(p)
    ensures Interior(Star(p)) <==> Feasible(p)
  {
    hide StarJ, AdultLevel, FishLevel, ParasiteLevel, Turnover;
    LarvalSign(p);
    AdultSign(p, StarJ(p));
    FishSign(p, StarA(p));
    ParasiteSign(p, StarA(p), StarF(p));
  }

  // A strictly positive equilibrium exists exactly under the three thresholds, and there
  // is never more than one.
  lemma InteriorEquilibriumIff(p: Params)
    requires Positive(p)
    ensures Feasible(p) <==> exists x :: Interior(x) && Equilibrium(p, x)
    ensures forall x, y :: Interior(x) && Equilibrium(p, x) && Interior(y) && Equilibrium(p, y) ==> x == y
  {
    StarInteriorIff(p);
    forall x | Interior(x) && Equilibrium(p, x)
      ensures x == Star(p)
    {
      EquilibriumIsStar(p, x);
    }
    if Feasible(p) {
      EquilibriumIsStar(p, Star(p));
      assert Interior(Star(p)) && Equilibrium(p, Star(p));
    }
  }

  // ---- stability of the interior equilibrium -----------------------------------------

  lemma TurnoverBalance(c: real, m: real, u: real, j: real, a: real, muJ: real, muA: real)
    requires j != 0.0 && c * (a * u) == muJ * j && m * j == muA * a
    ensures c * m * u == muJ * muA
  {
    calc {
      j * (c * m * u);
      c * u * (m * j);
      c * u * (muA * a);
      muA * (c * (a * u));
      j * (muJ * muA);
    }
    CancelNonzero(j, c * m * u, muJ * muA);
  }

  lemma RoomIsPositive(b: real, f: real, m: real, u: real, d: real)
    requires b > 0.0 && f > 0.0 && m > 0.0 && d > 0.0 && b * f * m * u == d
    ensures u > 0.0
  {
    PositiveProduct(b, f);
    PositiveProduct(b * f, m);
    SignOfProduct(b * f * m, u);
  }

  lemma LarvalScalars(b: real, f: real, m: real, u: real, j: real, a: real, muJ: real, muA: real)
    requires b > 0.0 && f > 0.0 && m > 0.0 && muJ > 0.0 && muA > 0.0 && j > 0.0
    requires b * f * (a * u) == muJ * j && m * j == muA * a
    ensures b * f * m * u == muJ * muA && u > 0.0
  {
    TurnoverBalance(b * f, m, u, j, a, muJ, muA);
    PositiveProduct(muJ, muA);
    RoomIsPositive(b, f, m, u, muJ * muA);
  }

  lemma LarvalFlows(p: Params, x: State)
    requires Positive(p) && Equilibrium(p, x)
    ensures p.b * p.f * (x.a * (1.0 - x.j / p.k)) == p.muJ * x.j && p.m * x.j == p.muA * x.a
  {
  }

  lemma LarvalEntry(p: Params, x: State)
    requires Positive(p) && Interior(x) && Equilibrium(p, x)
    ensures p.b * p.f * p.m * (1.0 - x.j / p.k) == p.muJ * p.muA && x.j < p.k
  {
    LarvalFlows(p, x);
    LarvalEntryAt(p, x, 1.0 - x.j / p.k);
  }

  lemma LarvalEntryAt(p: Params, x: State, u: real)
    requires Positive(p) && Interior(x) && u == 1.0 - x.j / p.k
    requires p.b * p.f * (x.a * u) == p.muJ * x.j && p.m * x.j == p.muA * x.a
    ensures p.b * p.f * p.m * u == p.muJ * p.muA && x.j < p.k
  {
    LarvalScalars(p.b, p.f, p.m, u, x.j, x.a, p.muJ, p.muA);
    RatioBelowOne(x.j, p.k);
  }

  lemma RatioBelowOne(x: real, k: real)
    requires k > 0.0
    ensures x / k < 1.0 <==> x < k
  {
    DivMul(x, k);
    SignOfGap(x / k, x, k);
  }

  // (rate*(1 - x/cap) = loss) turns the logistic slope into -rate*x/cap.
  lemma LogisticSlope(rate: real, cap: real, x: real, loss: real)
    requires cap != 0.0 && rate * (1.0 - x / cap) == loss
    ensures rate * (1.0 - 2.0 * x / cap) - loss == -(rate * (x / cap))
  {
    DivScale(2.0, x, cap);
  }

  lemma BlockEntry(p: Params, x: State)
    requires Positive(p) && Interior(x) && Equilibrium(p, x)
    ensures JacobianAt(p, x).Det() == p.b * p.f * x.a / p.k * p.muA
  {
    LarvalEntry(p, x);
    var q, u := p.b * p.f * x.a / p.k, 1.0 - x.j / p.k;
    assert JacobianAt(p, x).Det() == (q + p.muJ) * p.muA - p.b * p.f * u * p.m;
  }

  // A logistic species whose per-capita rates balance.
  lemma LogisticEntry(x: real, rate: real, cap: real, growth: real, loss: real, total: real)
    requires x != 0.0 && cap != 0.0 && growth == rate * (1.0 - x / cap) && total == x * (growth - loss) && total == 0.0
    ensures rate * (1.0 - 2.0 * x / cap) - loss == -(rate * (x / cap))
  {
    FactorOut(x, growth - loss);
    LogisticSlope(rate, cap, x, loss);
  }

  lemma FishEntryAt(p: Params, x: State, growth: real, loss: real)
    requires Positive(p) && Interior(x) && Equilibrium(p, x) && growth == p.rF * (1.0 - x.f / p.kF) && loss == p.attack * x.a
    ensures JacobianAt(p, x).ff == -(p.rF * (x.f / p.kF))
  {
    FishTerms(p, x, growth, loss);
    assert RateF(p, x) == 0.0 && JacobianAt(p, x).ff == p.rF * (1.0 - 2.0 * x.f / p.kF) - loss;
    hide Equilibrium, RateF, JacobianAt;
    LogisticEntry(x.f, p.rF, p.kF, growth, loss, RateF(p, x));
  }

  lemma FishEntry(p: Params, x: State)
    requires Positive(p) && Interior(x) && Equilibrium(p, x)
    ensures JacobianAt(p, x).ff == -(p.rF * (x.f / p.kF))
  {
    FishEntryAt(p, x, p.rF * (1.0 - x.f / p.kF), p.attack * x.a);
  }

  lemma ParasiteEntry(p: Params, x: State)
    requires Positive(p) && Interior(x) && Equilibrium(p, x)
    ensures JacobianAt(p, x).pp == -(p.rP * (x.p / p.kP))
  {
    var loss := p.cost * x.a - p.benefit * x.f;
    assert RateP(p, x) == 0.0;
    var growth := p.rP * (1.0 - x.p / p.kP);
    ParasiteTerms(p, x, growth, loss);
    hide Equilibrium, RateP, JacobianAt;
    LogisticEntry(x.p, p.rP, p.kP, growth, loss, RateP(p, x));
  }

  // The Jacobian entries at an interior equilibrium.
  lemma InteriorEntries(p: Params, x: State)
    requires Positive(p) && Interior(x) && Equilibrium(p, x)
    ensures var m := JacobianAt(p, x);
            && m.Det() == p.b * p.f * x.a / p.k * p.muA
            && m.ff == -(p.rF * (x.f / p.kF))
            && m.pp == -(p.rP * (x.p / p.kP))
  {
    BlockEntry(p, x);
    FishEntry(p, x);
    ParasiteEntry(p, x);
  }

  // Every interior equilibrium passes the contract's local asymptotic stability test: the
  // discriminant is non-negative and all four eigenvalues are negative.
  lemma InteriorEquilibriumIsStable(p: Params, x: State)
    requires Positive(p) && Interior(x) && Equilibrium(p, x)
    ensures JacobianAt(p, x).Disc() >= 0.0
    ensures forall s :: IsDiscRoot(JacobianAt(p, x), s) ==> Dominant(JacobianAt(p, x), s) < 0.0
  {
    var m := JacobianAt(p, x);
    LarvalEntry(p, x);
    DiscNonnegativeUpToCapacity(p, x);
    InteriorSigns(p, x);
    forall s | IsDiscRoot(m, s)
      ensures Dominant(m, s) < 0.0
    {
      StableIff(m, s);
    }
  }

  lemma InteriorSigns(p: Params, x: State)
    requires Positive(p) && Interior(x) && Equilibrium(p, x)
    ensures var m := JacobianAt(p, x); m.Trace() < 0.0 && m.Det() > 0.0 && m.ff < 0.0 && m.pp < 0.0
  {
    InteriorEntries(p, x);
    var q := p.b * p.f * x.a / p.k;
    PositiveProduct(p.b, p.f);
    PositiveProduct(p.b * p.f, x.a);
    DivPositive(p.b * p.f * x.a, p.k);
    PositiveProduct(q, p.muA);
    DivPositive(x.f, p.kF);
    PositiveProduct(p.rF, x.f / p.kF);
    DivPositive(x.p, p.kP);
    PositiveProduct(p.rP, x.p / p.kP);
  }

  // Where lampreys are absent the larva-adult block is unstable exactly under the first
  // existence threshold, whatever the other two levels are.
  lemma ExtinctionUnstableIff(p: Params, x: State, s: real)
    requires Positive(p) && x.j == 0.0 && x.a == 0.0 && IsDiscRoot(JacobianAt(p, x), s)
    ensures LambdaPlus(JacobianAt(p, x), s) > 0.0 <==> p.muJ * p.muA < p.b * p.f * p.m
  {
    var m := JacobianAt(p, x);
    assert p.b * p.f * x.a == 0.0 && 0.0 / p.k == 0.0;
    assert m.jj == -p.muJ && m.ja == p.b * p.f;
    assert m.Det() == p.muJ * p.muA - p.b * p.f * p.m;
    SquareOrder(-m.Trace(), s);
    assert (-m.Trace()) * (-m.Trace()) == m.Trace() * m.Trace();
  }

  // ---- a box on whose faces no rate points outwards ------------------------------------

  function TopA(p: Params): real
    requires Positive(p)
  {
    AdultLevel(p, p.k)
  }

  function TopP(p: Params): real
    requires Positive(p)
  {
    ParasiteLevel(p, 0.0, p.kF)
  }

  predicate InBox(p: Params, x: State)
    requires Positive(p)
  {
    0.0 <= x.j <= p.k && 0.0 <= x.a <= TopA(p) && 0.0 <= x.f <= p.kF && 0.0 <= x.p <= TopP(p)
  }

  // On each face of the box the field points inwards or along the face.
  lemma FieldPointsInward(p: Params, x: State)
    requires Positive(p) && InBox(p, x)
    ensures (x.j == 0.0 ==> RateJ(p, x) >= 0.0) && (x.j == p.k ==> RateJ(p, x) < 0.0)
    ensures (x.a == 0.0 ==> RateA(p, x) >= 0.0) && (x.a == TopA(p) ==> RateA(p, x) <= 0.0)
    ensures (x.f == 0.0 ==> RateF(p, x) == 0.0) && (x.f == p.kF ==> RateF(p, x) <= 0.0)
    ensures (x.p == 0.0 ==> RateP(p, x) == 0.0) && (x.p == TopP(p) ==> RateP(p, x) <= 0.0)
  {
    LarvalFaces(p, x);
    AdultFaces(p, x);
    FishFaces(p, x);
    ParasiteFaces(p, x);
  }

  lemma LarvalFaces(p: Params, x: State)
    requires Positive(p) && x.a >= 0.0
    ensures (x.j == 0.0 ==> RateJ(p, x) >= 0.0) && (x.j == p.k ==> RateJ(p, x) < 0.0)
  {
    if x.j == 0.0 {
      assert x.j / p.k == 0.0;
      PositiveProduct(p.b, p.f);
      assert RateJ(p, x) == p.b * p.f * x.a;
    } else if x.j == p.k {
      assert x.j / p.k == 1.0;
      PositiveProduct(p.muJ, p.k);
    }
  }

  lemma AdultFaces(p: Params, x: State)
    requires Positive(p) && 0.0 <= x.j <= p.k
    ensures (x.a == 0.0 ==> RateA(p, x) >= 0.0) && (x.a == TopA(p) ==> RateA(p, x) <= 0.0)
  {
    assert p.m * x.j >= 0.0 && p.m * (p.k - x.j) >= 0.0;
    if x.a == TopA(p) {
      DivMul(p.m * p.k, p.muA);
      assert p.muA * x.a == p.m * p.k;
    }
  }

  lemma FishFaces(p: Params, x: State)
    requires Positive(p) && x.a >= 0.0
    ensures (x.f == 0.0 ==> RateF(p, x) == 0.0) && (x.f == p.kF ==> RateF(p, x) <= 0.0)
  {
    if x.f == p.kF {
      assert x.f / p.kF == 1.0;
      assert x.a * x.f >= 0.0;
      assert p.attack * (x.a * x.f) >= 0.0;
    }
  }

  lemma ParasiteFaces(p: Params, x: State)
    requires Positive(p) && x.a >= 0.0 && 0.0 <= x.f <= p.kF && x.p >= 0.0
    ensures (x.p == 0.0 ==> RateP(p, x) == 0.0) && (x.p == TopP(p) ==> RateP(p, x) <= 0.0)
  {
    if x.p == TopP(p) {
      var gain := p.benefit * p.kF;
      var q, r := gain / p.rP, x.p / p.kP;
      DivMul(gain, p.rP);
      assert x.p == p.kP * (1.0 + q);
      DivMul(x.p, p.kP);
      CancelNonzero(p.kP, r, 1.0 + q);
      assert p.rP * (x.p * (1.0 - r)) == -(gain * x.p);
      var slack, loss := p.benefit * (p.kF - x.f), p.cost * x.a;
      assert slack >= 0.0 && loss >= 0.0;
      assert RateP(p, x) == -(slack * x.p) - loss * x.p;
      assert slack * x.p >= 0.0 && loss * x.p >= 0.0;
    }
  }
}
