// Consequences for the reviewed contract's metrics: domains, stability verdicts, reference state.
module CaseAResults {
  import opened Results
  import opened Expressions
  import opened Resolver
  import opened CaseA
  import opened CaseAValues
  import opened CaseASolution
  import opened CaseAOutcome
  import opened CaseAPartial
  import Spectrum
  import Stability

  // ---- the sex-ratio rule ------------------------------------------------------------------

  lemma NonnegativeProduct(x: real, y: real)
    requires x >= 0.0 && y >= 0.0
    ensures x * y >= 0.0
  {
    if x > 0.0 && y > 0.0 { Spectrum.PositiveProduct(x, y); }
  }

  lemma MixBounds(w: real, x: real, y: real, low: real, high: real)
    requires 0.0 <= w <= 1.0 && high <= x <= low && high <= y <= low
    ensures high <= w * x + (1.0 - w) * y <= low
  {
    NonnegativeProduct(w, x - high);
    NonnegativeProduct(1.0 - w, y - high);
    NonnegativeProduct(w, low - x);
    NonnegativeProduct(1.0 - w, low - y);
  }

  // Between the two data anchors for every switch position and every power value in [0, 1].
  lemma MaleRatioBounds(w: real, low: real, high: real, g: real)
    requires 0.0 <= w <= 1.0 && 0.0 <= g <= 1.0 && high <= low
    ensures high <= MaleRatioAt(w, low, high, g, (low + high) / 2.0) <= low
  {
    var adaptive := low - (low - high) * g;
    NonnegativeProduct(low - high, g);
    NonnegativeProduct(low - high, 1.0 - g);
    MixBounds(w, adaptive, (low + high) / 2.0, low, high);
  }

  lemma MaleRatioAnchors(low: real, high: real, g: real)
    ensures MaleRatioAt(1.0, low, high, 0.0, (low + high) / 2.0) == low
    ensures MaleRatioAt(1.0, low, high, 1.0, (low + high) / 2.0) == high
    ensures MaleRatioAt(0.0, low, high, g, (low + high) / 2.0) == (low + high) / 2.0
  {
  }

  // The review's anchor identities: recomputed from the food level alone, male_ratio is the low
  // ratio without food, the high ratio at full food, and the midpoint with the mechanism off; it
  // never leaves the range of the two anchors.
  lemma RecomputedAnchors(parameters: seq<(Name, real)>, raw: Values, base: Values, pw: PowerFn)
    requires FoodOnly(parameters, raw) && base == BaseOf(parameters, raw) && LawfulPower(pw) && HasRatioNames(base)
    requires 0.0 <= base[Food] <= 1.0 && base[SexRatioShape] > 0.0
    ensures var r := Recomputed(ContractModel(parameters), raw, MaleRatio, pw);
            && (base[AdaptationWeight] == 1.0 && base[Food] == 0.0 ==> r == Ok(base[SexLow]))
            && (base[AdaptationWeight] == 1.0 && base[Food] == 1.0 ==> r == Ok(base[SexHigh]))
            && (base[AdaptationWeight] == 0.0 ==> r == Ok((base[SexLow] + base[SexHigh]) / 2.0))
            && (0.0 <= base[AdaptationWeight] <= 1.0 && base[SexHigh] <= base[SexLow] ==> r.Ok? && base[SexHigh] <= r.value <= base[SexLow])
  {
    PowerInUnit(pw, base[Food], base[SexRatioShape]);
    PowerAtEnds(pw, base[SexRatioShape]);
    var g := pw(base[Food], base[SexRatioShape]).value;
    if 0.0 <= base[AdaptationWeight] <= 1.0 && base[SexHigh] <= base[SexLow] {
      MaleRatioBounds(base[AdaptationWeight], base[SexLow], base[SexHigh], g);
    }
    MaleRatioAnchors(base[SexLow], base[SexHigh], g);
    hide Recomputed, BaseOf, FoodOnly, LawfulPower, MaleRatioAt, HasRatioNames;
    FoodOnlyMaleRatio(parameters, raw, base, pw, g);
  }

  lemma PowerAtEnds(pw: PowerFn, g: real)
    requires LawfulPower(pw) && g > 0.0
    ensures pw(0.0, g) == Some(0.0) && pw(1.0, g) == Some(1.0)
  {
  }

  // Moving the switch changes the female ratio of the ODE and no other coefficient.
  lemma SwitchChangesOnlyFemaleRatio(base: Values, w: real, g: real)
    requires BaseComplete(base)
    ensures BaseComplete(base[AdaptationWeight := w])
    ensures ParamsAt(base[AdaptationWeight := w], g)
         == ParamsAt(base, g).(f := 1.0 - MaleRatioAt(w, base[SexLow], base[SexHigh], g, (base[SexLow] + base[SexHigh]) / 2.0))
  {
    var moved := base[AdaptationWeight := w];
    assert forall n :: IsBase(n) && n != AdaptationWeight ==> n in moved && moved[n] == base[n];
    hide MaleRatioAt, IsBase, IsDerived, Rank;
    assert CapacityOf(moved) == CapacityOf(base);
    hide CapacityOf;
  }

  // The symbols that depend on the female ratio.
  predicate ReadsSexRatio(n: Name) {
    || n == MaleRatio || n == FemaleRatio || n == RateJ || n == JacJJ || n == JacJA || n == TraceJA || n == DetJA || n == DiscJA
    || n == LambdaJAPlus || n == LambdaJAMinus || n == DominantRealPart || n == EquilibriumResidualSq
  }

  lemma RateIgnoresSexRatio(p: Stability.Params, q: Stability.Params, x: Spectrum.Vector, n: Name)
    requires Stability.Capacities(p) && q == p.(f := q.f) && 4 <= Rank(n) < 8 && n != RateJ
    ensures RateOf(q, x, n) == RateOf(p, x, n)
  {
  }

  lemma EntryIgnoresSexRatio(p: Stability.Params, q: Stability.Params, x: Spectrum.Vector, n: Name)
    requires Stability.Capacities(p) && q == p.(f := q.f) && 8 <= Rank(n) < 17 && n != JacJJ && n != JacJA
    ensures EntryOf(Stability.JacobianAt(q, x), n) == EntryOf(Stability.JacobianAt(p, x), n)
  {
    SameLowerEntries(p, q, x);
    hide Stability.JacobianAt;
  }

  lemma SameLowerEntries(p: Stability.Params, q: Stability.Params, x: Spectrum.Vector)
    requires Stability.Capacities(p) && q == p.(f := q.f)
    ensures var m, w := Stability.JacobianAt(p, x), Stability.JacobianAt(q, x); w == m.(jj := w.jj, ja := w.ja)
  {
    LowerEntriesAre(p, x);
    LowerEntriesAre(q, x);
    hide Stability.JacobianAt, Product, FishDiagonal, ParasiteDiagonal;
  }

  function Product(x: real, y: real): real {
    x * y
  }

  function FishDiagonal(rate: real, cap: real, attack: real, a: real, f: real): real
    requires cap != 0.0
  {
    rate * (1.0 - 2.0 * f / cap) - attack * a
  }

  function ParasiteDiagonal(rate: real, cap: real, benefit: real, cost: real, a: real, f: real, level: real): real
    requires cap != 0.0
  {
    rate * (1.0 - 2.0 * level / cap) + benefit * f - cost * a
  }

  lemma FishDiagonalIs(p: Stability.Params, x: Spectrum.Vector)
    requires Stability.Capacities(p)
    ensures Stability.JacobianAt(p, x).ff == FishDiagonal(p.rF, p.kF, p.attack, x.a, x.f)
  {
  }

  lemma ParasiteDiagonalIs(p: Stability.Params, x: Spectrum.Vector)
    requires Stability.Capacities(p)
    ensures Stability.JacobianAt(p, x).pp == ParasiteDiagonal(p.rP, p.kP, p.benefit, p.cost, x.a, x.f, x.p)
  {
  }

  lemma InteractionsAre(p: Stability.Params, x: Spectrum.Vector)
    requires Stability.Capacities(p)
    ensures var m := Stability.JacobianAt(p, x);
            m.fa == -Product(p.attack, x.f) && m.pa == -Product(p.cost, x.p) && m.pf == Product(p.benefit, x.p)
  {
  }

  // Below the larval row the entries are functions of coefficients other than the female ratio.
  lemma LowerEntriesAre(p: Stability.Params, x: Spectrum.Vector)
    requires Stability.Capacities(p)
    ensures var m := Stability.JacobianAt(p, x);
            && m.aj == p.m && m.aa == -p.muA
            && m.fa == -Product(p.attack, x.f) && m.ff == FishDiagonal(p.rF, p.kF, p.attack, x.a, x.f)
            && m.pa == -Product(p.cost, x.p) && m.pf == Product(p.benefit, x.p)
            && m.pp == ParasiteDiagonal(p.rP, p.kP, p.benefit, p.cost, x.a, x.f, x.p)
  {
    FishDiagonalIs(p, x);
    ParasiteDiagonalIs(p, x);
    InteractionsAre(p, x);
    assert Stability.JacobianAt(p, x).aj == p.m && Stability.JacobianAt(p, x).aa == -p.muA;
    hide Stability.JacobianAt, Product, FishDiagonal, ParasiteDiagonal;
  }

  lemma RootIgnoresSexRatio(p: Stability.Params, q: Stability.Params, x: Spectrum.Vector, s: real, t: real, n: Name)
    requires Stability.Capacities(p) && q == p.(f := q.f) && (n == LambdaF || n == LambdaP)
    ensures SpectralOf(Stability.JacobianAt(q, x), t, n) == SpectralOf(Stability.JacobianAt(p, x), s, n)
  {
  }

  lemma LateReadersOfSexRatio(n: Name)
    requires IsDerived(n) && !ReadsSexRatio(n)
    ensures Rank(n) >= 17 ==> n == LambdaF || n == LambdaP
    ensures Rank(n) < 4 ==> n == FixedMaleRatio || n == JuvCapacity
    ensures n != RateJ && n != JacJJ && n != JacJA
  {
  }

  lemma RatioIgnoresSwitch(base: Values, moved: Values, g: real, n: Name)
    requires BaseComplete(base) && BaseComplete(moved) && (n == FixedMaleRatio || n == JuvCapacity)
    requires ParamsAt(moved, g).k == ParamsAt(base, g).k && RatioOf(moved, g, FixedMaleRatio) == RatioOf(base, g, FixedMaleRatio)
    ensures RatioOf(moved, g, n) == RatioOf(base, g, n)
  {
    hide CapacityOf, MaleRatioOf, IsBase;
  }

  lemma ClosedIgnoresSexRatio(base: Values, moved: Values, g: real, s: real, t: real, n: Name)
    requires BaseComplete(base) && BaseComplete(moved) && IsDerived(n) && !ReadsSexRatio(n)
    requires Stability.Capacities(ParamsAt(base, g)) && ParamsAt(moved, g) == ParamsAt(base, g).(f := ParamsAt(moved, g).f)
    requires StateAt(moved) == StateAt(base) && RatioOf(moved, g, FixedMaleRatio) == RatioOf(base, g, FixedMaleRatio)
    ensures Stability.Capacities(ParamsAt(moved, g)) && Closed(moved, g, t, n) == Closed(base, g, s, n)
  {
    var p, q, x := ParamsAt(base, g), ParamsAt(moved, g), StateAt(base);
    LateReadersOfSexRatio(n);
    hide IsBase, BaseComplete, MaleRatioOf, CapacityOf, Rank, RateOf, EntryOf, SpectralOf, Stability.JacobianAt, StateAt, ParamsAt, RatioOf,
         ReadsSexRatio;
    if Rank(n) < 4 {
      RatioIgnoresSwitch(base, moved, g, n);
    } else if Rank(n) < 8 {
      RateIgnoresSexRatio(p, q, x, n);
    } else if Rank(n) < 17 {
      EntryIgnoresSexRatio(p, q, x, n);
    } else {
      RootIgnoresSexRatio(p, q, x, s, t, n);
    }
  }

  // The paired scenarios differ in the mechanism only: with the same raw state, moving the switch
  // leaves every recomputed symbol that does not depend on the female ratio as it was.
  lemma SwitchMovesOnlySexRatio(parameters: seq<(Name, real)>, moved: seq<(Name, real)>, raw: Values, w: real, symbol: Name, pw: PowerFn)
    requires LawfulPower(pw) && IsDerived(symbol) && !ReadsSexRatio(symbol)
    requires FullState(parameters, raw) && FullState(moved, raw) && BaseOf(moved, raw) == BaseOf(parameters, raw)[AdaptationWeight := w]
    requires Recomputed(ContractModel(parameters), raw, symbol, pw).Ok? && Recomputed(ContractModel(moved), raw, symbol, pw).Ok?
    ensures Recomputed(ContractModel(parameters), raw, symbol, pw) == Recomputed(ContractModel(moved), raw, symbol, pw)
  {
    var base := BaseOf(parameters, raw);
    FullStateOutcome(parameters, raw, symbol, pw);
    FullStateOutcome(moved, raw, symbol, pw);
    hide Recomputed, BaseOf, FullState, LawfulPower, IsDerived, ReadsSexRatio;
    SameSolution(base, w, symbol, pw);
  }

  lemma SameSolution(base: Values, w: real, n: Name, pw: PowerFn)
    requires BaseComplete(base) && BaseComplete(base[AdaptationWeight := w]) && LawfulPower(pw) && IsDerived(n) && !ReadsSexRatio(n)
    requires WellPosed(base, pw) && WellPosed(base[AdaptationWeight := w], pw)
    ensures SolutionAt(base[AdaptationWeight := w], pw, n) == SolutionAt(base, pw, n)
  {
    var moved := base[AdaptationWeight := w];
    var g := FoodPower(base, pw);
    SwitchChangesOnlyFemaleRatio(base, w, g);
    assert moved[Food] == base[Food] && moved[SexRatioShape] == base[SexRatioShape];
    assert StateAt(moved) == StateAt(base) && RatioOf(moved, g, FixedMaleRatio) == RatioOf(base, g, FixedMaleRatio);
    hide LawfulPower, IsDerived, ReadsSexRatio, StateAt, ParamsAt, Closed, Stability.JacobianAt, DiscRoot, IsBase, BaseComplete, RatioOf, MaleRatioAt;
    ClosedIgnoresSexRatio(base, moved, g, DiscRoot(base, pw), DiscRoot(moved, pw), n);
  }

  // ---- the reviewed domain -----------------------------------------------------------------

  ghost predicate Reviewed(base: Values)
    requires BaseComplete(base)
  {
    && 0.0 <= base[Food] <= 1.0 && base[SexRatioShape] > 0.0
    && 0.0 <= base[AdaptationWeight] <= 1.0 && 0.0 <= base[SexHigh] <= base[SexLow] < 1.0
    && PositiveRates(base)
  }

  ghost predicate PositiveRates(base: Values)
    requires BaseComplete(base)
  {
    && base[CapMin] > 0.0 && base[CapSlope] >= 0.0
    && base[BirthCoef] > 0.0 && base[Maturation] > 0.0 && base[MortLarva] > 0.0 && base[MortAdult] > 0.0
    && base[FishGrowth] > 0.0 && base[FishCapacity] > 0.0 && base[AttackRate] > 0.0
    && base[ParasiteGrowth] > 0.0 && base[ParasiteCapacity] > 0.0
    && base[FishBenefitPar] > 0.0 && base[LampreyCostPar] > 0.0
  }

  lemma CapacityIsPositive(base: Values)
    requires BaseComplete(base) && base[CapMin] > 0.0 && base[CapSlope] >= 0.0 && base[Food] >= 0.0
    ensures CapacityOf(base) > 0.0
  {
  }

  lemma PowerInUnit(pw: PowerFn, x: real, g: real)
    requires LawfulPower(pw) && 0.0 <= x <= 1.0 && g > 0.0
    ensures pw(x, g).Some? && 0.0 <= pw(x, g).value <= 1.0
  {
    assert InUnit(pw(x, g));
  }

  lemma FemaleRatioIsPositive(base: Values, g: real)
    requires BaseComplete(base) && 0.0 <= g <= 1.0
    requires 0.0 <= base[AdaptationWeight] <= 1.0 && base[SexHigh] <= base[SexLow] < 1.0
    ensures 1.0 - MaleRatioOf(base, g) > 0.0
  {
    MaleRatioBounds(base[AdaptationWeight], base[SexLow], base[SexHigh], g);
    hide MaleRatioAt;
  }

  lemma RatesMakePositive(base: Values, g: real)
    requires BaseComplete(base) && PositiveRates(base)
    requires 1.0 - MaleRatioOf(base, g) > 0.0 && CapacityOf(base) > 0.0
    ensures Stability.Positive(ParamsAt(base, g))
  {
    hide MaleRatioOf, CapacityOf, BaseComplete;
  }

  // In the reviewed domain every coefficient of the ODE is positive.
  lemma ReviewedIsPositive(base: Values, pw: PowerFn)
    requires BaseComplete(base) && Reviewed(base) && LawfulPower(pw)
    ensures pw(base[Food], base[SexRatioShape]).Some?
    ensures Stability.Positive(ParamsAt(base, pw(base[Food], base[SexRatioShape]).value))
  {
    PowerInUnit(pw, base[Food], base[SexRatioShape]);
    var g := pw(base[Food], base[SexRatioShape]).value;
    assert base[CapMin] > 0.0 && base[CapSlope] >= 0.0;
    hide LawfulPower, PositiveRates, MaleRatioOf, CapacityOf;
    FemaleRatioIsPositive(base, g);
    CapacityIsPositive(base);
    RatesMakePositive(base, g);
  }

  // Larval overshoot small enough for a real larva-adult pair.
  ghost predicate OvershootAdmitted(base: Values, g: real)
    requires BaseComplete(base) && Stability.Positive(ParamsAt(base, g))
  {
    var p, x := ParamsAt(base, g), StateAt(base);
    var m := Stability.JacobianAt(p, x);
    4.0 * (p.b * p.f * p.m) * (x.j / p.k - 1.0) <= (m.jj - m.aa) * (m.jj - m.aa)
  }

  // In the reviewed domain evaluability is exactly the overshoot condition, and it always
  // holds up to the larval capacity.
  lemma ReviewedWellPosedIff(base: Values, pw: PowerFn)
    requires BaseComplete(base) && Reviewed(base) && LawfulPower(pw)
    ensures var g := pw(base[Food], base[SexRatioShape]);
            && g.Some? && Stability.Positive(ParamsAt(base, g.value))
            && (WellPosed(base, pw) <==> OvershootAdmitted(base, g.value))
            && (base[StateJ] <= CapacityOf(base) ==> WellPosed(base, pw))
  {
    ReviewedIsPositive(base, pw);
    var g := pw(base[Food], base[SexRatioShape]).value;
    var p, x := ParamsAt(base, g), StateAt(base);
    hide LawfulPower, Reviewed, MaleRatioOf, CapacityOf, Stability.JacobianAt;
    Stability.DiscNonnegativeIff(p, x);
    if x.j <= p.k { Stability.DiscNonnegativeUpToCapacity(p, x); }
  }

  // ---- the stability metrics ---------------------------------------------------------------

  lemma RootIsDiscRoot(base: Values, pw: PowerFn, m: Spectrum.Jacobian)
    requires BaseComplete(base) && WellPosed(base, pw) && LawfulPower(pw)
    requires m == Stability.JacobianAt(ParamsAt(base, FoodPower(base, pw)), StateAt(base))
    ensures Spectrum.IsDiscRoot(m, DiscRoot(base, pw))
  {
    RootLaw(pw, m.Disc());
    hide LawfulPower, Stability.JacobianAt;
  }

  ghost function JacobianFor(base: Values, pw: PowerFn): Spectrum.Jacobian
    requires BaseComplete(base) && WellPosed(base, pw)
  {
    Stability.JacobianAt(ParamsAt(base, FoodPower(base, pw)), StateAt(base))
  }

  // Whenever the dominant_real_part metric is reported, it is the greatest eigenvalue of the
  // Jacobian of the ODE, and its sign is the trace-determinant criterion.
  lemma DominantMetric(parameters: seq<(Name, real)>, raw: Values, base: Values, pw: PowerFn, v: real)
    requires FullState(parameters, raw) && LawfulPower(pw) && base == BaseOf(parameters, raw)
    requires Recomputed(ContractModel(parameters), raw, DominantRealPart, pw) == Ok(v)
    ensures BaseComplete(base) && WellPosed(base, pw)
    ensures var m := JacobianFor(base, pw);
            && Spectrum.IsEigenvalue(m, v)
            && (forall l :: Spectrum.IsEigenvalue(m, l) ==> l <= v)
            && (v < 0.0 <==> m.Trace() < 0.0 && m.Det() > 0.0 && m.ff < 0.0 && m.pp < 0.0)
  {
    hide Recomputed, BaseOf, FullState, LawfulPower, WellPosed, BaseComplete, JacobianFor, SolutionAt, DiscRoot;
    FullStateOutcome(parameters, raw, DominantRealPart, pw);
    DominantIs(base, pw, v);
  }

  lemma DominantIs(base: Values, pw: PowerFn, v: real)
    requires BaseComplete(base) && LawfulPower(pw) && WellPosed(base, pw) && v == SolutionAt(base, pw, DominantRealPart)
    ensures var m := JacobianFor(base, pw);
            && Spectrum.IsEigenvalue(m, v)
            && (forall l :: Spectrum.IsEigenvalue(m, l) ==> l <= v)
            && (v < 0.0 <==> m.Trace() < 0.0 && m.Det() > 0.0 && m.ff < 0.0 && m.pp < 0.0)
  {
    var m := JacobianFor(base, pw);
    var s := DiscRoot(base, pw);
    RootIsDiscRoot(base, pw, m);
    DominantSolution(base, pw);
    hide WellPosed, JacobianFor, DiscRoot, SolutionAt, LawfulPower, BaseComplete,
         Spectrum.Dominant, Spectrum.IsDiscRoot, Spectrum.IsEigenvalue;
    Spectrum.DominantIsGreatestEigenvalue(m, s);
    Spectrum.StableIff(m, s);
  }

  lemma DominantSolution(base: Values, pw: PowerFn)
    requires BaseComplete(base) && WellPosed(base, pw) && LawfulPower(pw)
    ensures SolutionAt(base, pw, DominantRealPart) == Spectrum.Dominant(JacobianFor(base, pw), DiscRoot(base, pw))
  {
    hide LawfulPower, Stability.JacobianAt, Spectrum.Dominant;
  }

  lemma ResidualSolution(base: Values, pw: PowerFn)
    requires BaseComplete(base) && WellPosed(base, pw) && LawfulPower(pw)
    ensures SolutionAt(base, pw, EquilibriumResidualSq)
         == Stability.ResidualSq(ParamsAt(base, FoodPower(base, pw)), StateAt(base))
  {
    hide LawfulPower, Stability.JacobianAt, Stability.ResidualSq, DiscRoot;
  }

  lemma SquareSign(x: real)
    ensures x * x >= 0.0 && (x * x == 0.0 <==> x == 0.0)
  {
    Spectrum.ProductZero(x, x);
  }

  lemma SumOfSquares(j: real, a: real, f: real, p: real)
    ensures j * j + a * a + f * f + p * p == 0.0 <==> j == 0.0 && a == 0.0 && f == 0.0 && p == 0.0
  {
    SquareSign(j);
    SquareSign(a);
    SquareSign(f);
    SquareSign(p);
  }

  lemma ResidualZeroIff(p: Stability.Params, x: Spectrum.Vector)
    requires Stability.Capacities(p)
    ensures Stability.ResidualSq(p, x) == 0.0 <==> Stability.Equilibrium(p, x)
  {
    hide Stability.RateJ, Stability.RateA, Stability.RateF, Stability.RateP;
    SumOfSquares(Stability.RateJ(p, x), Stability.RateA(p, x), Stability.RateF(p, x), Stability.RateP(p, x));
  }

  // The residual metric is zero exactly at the equilibria of the ODE.
  lemma ResidualMetric(parameters: seq<(Name, real)>, raw: Values, pw: PowerFn)
    requires FullState(parameters, raw) && LawfulPower(pw)
    ensures BaseComplete(BaseOf(parameters, raw))
    ensures var base := BaseOf(parameters, raw);
            Recomputed(ContractModel(parameters), raw, EquilibriumResidualSq, pw) == Ok(0.0)
            <==> WellPosed(base, pw) && Stability.Equilibrium(ParamsAt(base, FoodPower(base, pw)), StateAt(base))
  {
    FullStateOutcome(parameters, raw, EquilibriumResidualSq, pw);
    var base := BaseOf(parameters, raw);
    hide Recomputed, BaseOf, FullState, LawfulPower, SolutionAt, Stability.Equilibrium, Stability.ResidualSq;
    if WellPosed(base, pw) {
      ResidualSolution(base, pw);
      ResidualZeroIff(ParamsAt(base, FoodPower(base, pw)), StateAt(base));
    }
  }

  // A strictly positive raw state whose residual metric is zero always passes the contract's
  // local asymptotic stability test.
  lemma EquilibriumMetricsAreStable(parameters: seq<(Name, real)>, raw: Values, base: Values, pw: PowerFn)
    requires FullState(parameters, raw) && LawfulPower(pw) && base == BaseOf(parameters, raw) && BaseComplete(base)
    requires Reviewed(base) && Stability.Interior(StateAt(base))
    requires Recomputed(ContractModel(parameters), raw, EquilibriumResidualSq, pw) == Ok(0.0)
    ensures var r := Recomputed(ContractModel(parameters), raw, DominantRealPart, pw); r.Ok? && r.value < 0.0
  {
    hide Recomputed, BaseOf, FullState, LawfulPower, Reviewed, SolutionAt, Stability.Equilibrium, Stability.Interior, WellPosed, StateAt,
         FoodPower, ParamsAt, BaseComplete, IsBase;
    ResidualMetric(parameters, raw, pw);
    DominantOutcome(parameters, raw, base, pw);
    StableSolution(base, pw);
  }

  ghost function DominantAt(base: Values, pw: PowerFn): real
    requires BaseComplete(base) && WellPosed(base, pw) && LawfulPower(pw)
  {
    SolutionAt(base, pw, DominantRealPart)
  }

  lemma DominantOutcome(parameters: seq<(Name, real)>, raw: Values, base: Values, pw: PowerFn)
    requires LawfulPower(pw) && BaseComplete(base) && WellPosed(base, pw)
    requires base == BaseOf(parameters, raw) && FullState(parameters, raw)
    ensures var r := Recomputed(ContractModel(parameters), raw, DominantRealPart, pw);
            r.Ok? && r.value == DominantAt(base, pw)
  {
    hide Recomputed, BaseOf, FullState, LawfulPower, SolutionAt, WellPosed, BaseComplete;
    FullStateOutcome(parameters, raw, DominantRealPart, pw);
  }

  lemma StableSolution(base: Values, pw: PowerFn)
    requires BaseComplete(base) && LawfulPower(pw) && Reviewed(base) && WellPosed(base, pw)
    requires Stability.Interior(StateAt(base)) && Stability.Equilibrium(ParamsAt(base, FoodPower(base, pw)), StateAt(base))
    ensures DominantAt(base, pw) < 0.0
  {
    ReviewedIsPositive(base, pw);
    DominantSolution(base, pw);
    RootIsDiscRoot(base, pw, JacobianFor(base, pw));
    hide LawfulPower, Reviewed, SolutionAt, DiscRoot, StateAt, ParamsAt, Stability.JacobianAt, Stability.Equilibrium, Spectrum.Dominant,
         Spectrum.IsDiscRoot, Stability.Interior, Stability.Positive;
    Stability.InteriorEquilibriumIsStable(ParamsAt(base, FoodPower(base, pw)), StateAt(base));
  }
}
