// The baseline numbers of the contract: reference state, scenario outcomes, and two concrete
// states that show where the contract's numerical tests stop short of the exact statements.
module CaseAReference {
  import opened Results
  import opened Expressions
  import opened Resolver
  import opened CaseA
  import opened CaseAValues
  import opened CaseASolution
  import opened CaseAOutcome
  import opened CaseAResults
  import opened Spectrum
  import opened Stability

  const SEX_LOW := 0.78
  const SEX_HIGH := 0.56

  // The baseline coefficients at food e with power value g = e^1 and switch w.
  function BaselineAt(e: real, w: real): Params {
    Params(0.8, 1.0 - MaleRatioAt(w, SEX_LOW, SEX_HIGH, e, (SEX_LOW + SEX_HIGH) / 2.0), 0.2 + 0.8 * e,
           0.15, 0.2, 0.25, 0.6, 1.0, 0.3, 0.15, 1.0, 0.4, 0.15)
  }

  // The reference state as exact rationals.
  const REFERENCE := Vector(153.0 / 880.0, 153.0 / 1100.0, 2047.0 / 2200.0, 11029.0 / 3300.0)

  // The decimals the contract ships.
  const PRINTED := Vector(0.17386363636363633, 0.13909090909090907, 0.9304545454545454, 3.3421212121212127)

  lemma ReferenceBalances()
    ensures Positive(BaselineAt(0.5, 1.0)) && Interior(REFERENCE) && Equilibrium(BaselineAt(0.5, 1.0), REFERENCE)
  {
  }

  // At half food the sex ratio is the midpoint of its anchors for every switch position.
  lemma HalfFoodIgnoresSwitch(w: real)
    ensures BaselineAt(0.5, w) == BaselineAt(0.5, 1.0)
  {
    var mid := (SEX_LOW + SEX_HIGH) / 2.0;
    assert SEX_LOW - (SEX_LOW - SEX_HIGH) * 0.5 == mid;
    MixOfEqual(w, mid);
    MixOfEqual(1.0, mid);
  }

  lemma MixOfEqual(w: real, x: real)
    ensures w * x + (1.0 - w) * x == x
  {
  }

  // At half food, wherever the switch is set, the rational reference state is the only
  // strictly positive equilibrium, and it is stable.
  lemma ReferenceIsTheEquilibrium(w: real, x: Vector, s: real)
    ensures BaselineAt(0.5, w) == BaselineAt(0.5, 1.0) && Positive(BaselineAt(0.5, w)) && Feasible(BaselineAt(0.5, w))
    ensures Interior(x) && Equilibrium(BaselineAt(0.5, w), x) <==> x == REFERENCE
    ensures IsDiscRoot(JacobianAt(BaselineAt(0.5, w), REFERENCE), s)
            ==> Dominant(JacobianAt(BaselineAt(0.5, w), REFERENCE), s) < 0.0
  {
    HalfFoodIgnoresSwitch(w);
    ReferenceBalances();
    var p := BaselineAt(0.5, 1.0);
    hide Equilibrium, Feasible, JacobianAt, IsDiscRoot, Dominant;
    InteriorEquilibriumIff(p);
    InteriorEquilibriumIsStable(p, REFERENCE);
  }

  predicate Near(x: real, y: real, tolerance: real) {
    -tolerance <= x - y <= tolerance
  }

  // The shipped decimals agree with the exact equilibrium to 1e-15 per level, and leave a
  // squared residual many orders below the contract's 1e-10 criterion.
  lemma PrintedReference()
    ensures Near(PRINTED.j, REFERENCE.j, 0.000000000000001) && Near(PRINTED.a, REFERENCE.a, 0.000000000000001)
    ensures Near(PRINTED.f, REFERENCE.f, 0.000000000000001) && Near(PRINTED.p, REFERENCE.p, 0.000000000000001)
    ensures ResidualSq(BaselineAt(0.5, 1.0), PRINTED) <= 0.0000000000000000000000000001
  {
  }

  // ---- which scenarios admit coexistence -----------------------------------------------------

  // Without food the adaptive mechanism loses the interior equilibrium and the fixed ratio
  // keeps it; at full food both keep it.
  lemma ScenarioCoexistence()
    ensures Positive(BaselineAt(0.0, 1.0)) && !Feasible(BaselineAt(0.0, 1.0))
    ensures Positive(BaselineAt(0.0, 0.0)) && Feasible(BaselineAt(0.0, 0.0))
    ensures Positive(BaselineAt(1.0, 1.0)) && Feasible(BaselineAt(1.0, 1.0))
    ensures Positive(BaselineAt(1.0, 0.0)) && Feasible(BaselineAt(1.0, 0.0))
  {
  }

  // In the adaptive low-resource scenario no strictly positive state can be an equilibrium.
  lemma AdaptiveLowResourceHasNoCoexistence(x: Vector)
    requires Interior(x)
    ensures Positive(BaselineAt(0.0, 1.0)) && !Equilibrium(BaselineAt(0.0, 1.0), x)
  {
    ScenarioCoexistence();
    hide Equilibrium, Feasible;
    InteriorEquilibriumIff(BaselineAt(0.0, 1.0));
  }

  // ---- where the numerical criteria stop short ---------------------------------------------

  // A strictly positive state near extinction.
  const SPARSE := Vector(0.000001, 0.000001, 0.000001, 0.000001)

  // The 1e-10 residual criterion does not imply the sign: SPARSE passes it and is unstable.
  lemma ResidualCriterionAdmitsUnstable()
    ensures Interior(SPARSE) && ResidualSq(BaselineAt(0.5, 1.0), SPARSE) <= 0.0000000001
    ensures var m := JacobianAt(BaselineAt(0.5, 1.0), SPARSE);
            m.Disc() >= 0.0 && forall s :: IsDiscRoot(m, s) ==> Dominant(m, s) > 0.0
  {
    var p := BaselineAt(0.5, 1.0);
    NearExtinction(SPARSE);
    ReferenceBalances();
    hide ResidualSq, JacobianAt, BaselineAt, Equilibrium;
    DiscNonnegativeUpToCapacity(p, SPARSE);
    assert forall s :: Dominant(JacobianAt(p, SPARSE), s) >= JacobianAt(p, SPARSE).ff;
  }

  lemma NearExtinction(x: Vector)
    requires x == SPARSE
    ensures ResidualSq(BaselineAt(0.5, 1.0), x) <= 0.0000000001
    ensures JacobianAt(BaselineAt(0.5, 1.0), x).ff > 0.0 && x.j <= BaselineAt(0.5, 1.0).k
  {
  }

  // The contract declares the discriminant non-negative; at full food twice the larval
  // capacity without adults makes it negative.
  lemma DiscriminantCanBeNegative(f: real, p: real)
    ensures Positive(BaselineAt(1.0, 1.0)) && JacobianAt(BaselineAt(1.0, 1.0), Vector(2.0, 0.0, f, p)).Disc() < 0.0
  {
    ScenarioCoexistence();
    var q := BaselineAt(1.0, 1.0);
    var m := JacobianAt(q, Vector(2.0, 0.0, f, p));
    assert m.jj == -0.15 && m.aa == -0.25 && m.ja * m.aj == -0.0704;
    DiscAsSquares(m);
  }

  // ---- the baseline as a recomputation input -----------------------------------------------

  ghost predicate IsBaseline(base: Values, e: real, w: real)
    requires BaseComplete(base)
  {
    && base[Food] == e && base[AdaptationWeight] == w && base[SexLow] == SEX_LOW && base[SexHigh] == SEX_HIGH
    && base[SexRatioShape] == 1.0 && base[CapMin] == 0.2 && base[CapSlope] == 0.8
    && BaselineRates(base)
  }

  ghost predicate BaselineRates(base: Values)
    requires BaseComplete(base)
  {
    && base[BirthCoef] == 0.8 && base[Maturation] == 0.2 && base[MortLarva] == 0.15 && base[MortAdult] == 0.25
    && base[FishGrowth] == 0.6 && base[FishCapacity] == 1.0 && base[AttackRate] == 0.3
    && base[ParasiteGrowth] == 0.15 && base[ParasiteCapacity] == 1.0 && base[FishBenefitPar] == 0.4 && base[LampreyCostPar] == 0.15
  }

  lemma BaselineParams(base: Values, e: real, w: real)
    requires BaseComplete(base) && IsBaseline(base, e, w)
    ensures ParamsAt(base, e) == BaselineAt(e, w)
  {
    assert CapacityOf(base) == 0.2 + 0.8 * e;
    assert MaleRatioOf(base, e) == MaleRatioAt(w, SEX_LOW, SEX_HIGH, e, (SEX_LOW + SEX_HIGH) / 2.0);
    hide MaleRatioAt, MaleRatioOf, CapacityOf, IsBase;
  }

  // Every assignment of values to parameters is the value of some parameter list.
  lemma {:induction false} EveryAssignmentIsListed(values: Values) returns (parameters: seq<(Name, real)>)
    ensures ParameterValues(parameters) == values
    decreases |values|
  {
    if values == map[] {
      parameters := [];
    } else {
      var n :| n in values;
      var rest := values - {n};
      assert rest.Keys == values.Keys - {n};
      var before := EveryAssignmentIsListed(rest);
      parameters := before + [(n, values[n])];
      assert parameters[..|parameters| - 1] == before;
      assert rest[n := values[n]] == values;
    }
  }

  // ---- concrete recomputation inputs ---------------------------------------------------------

  // The baseline's value of a base symbol, at food e, switch w and state x.
  function InputOf(n: Name, e: real, w: real, x: Vector): real {
    match n
    case Food => e case AdaptationWeight => w case SexLow => SEX_LOW case SexHigh => SEX_HIGH
    case StateJ => x.j case StateA => x.a case StateF => x.f case StateP => x.p
    case InitJ => REFERENCE.j case InitA => REFERENCE.a case InitF => REFERENCE.f case InitP => REFERENCE.p
    case SexRatioShape => 1.0 case CapMin => 0.2 case CapSlope => 0.8
    case BirthCoef => 0.8 case Maturation => 0.2 case MortLarva => 0.15 case MortAdult => 0.25
    case FishGrowth => 0.6 case FishCapacity => 1.0 case AttackRate => 0.3
    case ParasiteGrowth => 0.15 case ParasiteCapacity => 1.0 case FishBenefitPar => 0.4 case LampreyCostPar => 0.15
    case _ => 0.0
  }

  function InputsOf(names: set<Name>, e: real, w: real, x: Vector): Values {
    map n | n in names :: InputOf(n, e, w, x)
  }

  lemma InputsAreRates(base: Values, e: real, w: real, x: Vector)
    requires BaseComplete(base) && forall n :: n in base ==> base[n] == InputOf(n, e, w, x)
    ensures BaselineRates(base)
  {
  }

  lemma InputsAreBaseline(base: Values, e: real, w: real, x: Vector)
    requires BaseComplete(base) && forall n :: n in base ==> base[n] == InputOf(n, e, w, x)
    ensures IsBaseline(base, e, w) && StateAt(base) == x
  {
    InputsAreRates(base, e, w, x);
    hide BaselineRates;
  }

  lemma InputsAreBase(parameters: seq<(Name, real)>, raw: Values, e: real, w: real, x: Vector)
    requires ParameterValues(parameters) == InputsOf(PARAMETERS, e, w, x) && raw == InputsOf({Food} + STATES, e, w, x)
    ensures FullState(parameters, raw)
    ensures forall n :: n in BaseOf(parameters, raw) ==> BaseOf(parameters, raw)[n] == InputOf(n, e, w, x)
  {
    hide PARAMETERS, STATES, DERIVED, InputOf, ContractEquations, ParameterValues;
  }

  // Every food level, switch position and state is the input of some recomputation.
  lemma BaselineInput(e: real, w: real, x: Vector) returns (parameters: seq<(Name, real)>, raw: Values)
    ensures FullState(parameters, raw) && BaseComplete(BaseOf(parameters, raw))
    ensures IsBaseline(BaseOf(parameters, raw), e, w) && StateAt(BaseOf(parameters, raw)) == x
  {
    parameters := EveryAssignmentIsListed(InputsOf(PARAMETERS, e, w, x));
    raw := InputsOf({Food} + STATES, e, w, x);
    InputsAreBase(parameters, raw, e, w, x);
    hide PARAMETERS, STATES, InputOf, FullState, BaseOf, IsBaseline, StateAt;
    BaseKeys(parameters, raw);
    InputsAreBaseline(BaseOf(parameters, raw), e, w, x);
  }

  // One evaluation fault spoils every derived symbol: for the overshooting state even male_ratio,
  // whose own equation is unaffected, cannot be recomputed.
  lemma OvershootFaultsEverySymbol(parameters: seq<(Name, real)>, raw: Values, base: Values, symbol: Name, pw: PowerFn)
    requires FullState(parameters, raw) && LawfulPower(pw) && IsDerived(symbol)
    requires base == BaseOf(parameters, raw) && BaseComplete(base) && IsBaseline(base, 1.0, 1.0)
    requires base[StateJ] == 2.0 && base[StateA] == 0.0
    ensures var r := Recomputed(ContractModel(parameters), raw, symbol, pw); r.Err? && r.error.Fault?
  {
    assert pw(1.0, 1.0) == Some(1.0);
    BaselineParams(base, 1.0, 1.0);
    DiscriminantCanBeNegative(base[StateF], base[StateP]);
    assert StateAt(base) == Vector(2.0, 0.0, base[StateF], base[StateP]);
    hide ParamsAt, StateAt, BaselineAt, JacobianAt, LawfulPower, IsBaseline, BaseOf, Recomputed, FullState;
    FullStateOutcome(parameters, raw, symbol, pw);
  }

  // There is such an input: larvae at twice their capacity, no adults, full food.
  lemma OvershootHappens(pw: PowerFn) returns (parameters: seq<(Name, real)>, raw: Values)
    requires LawfulPower(pw)
    ensures FullState(parameters, raw)
    ensures forall symbol :: IsDerived(symbol) ==>
              var r := Recomputed(ContractModel(parameters), raw, symbol, pw); r.Err? && r.error.Fault?
  {
    parameters, raw := BaselineInput(1.0, 1.0, Vector(2.0, 0.0, 1.0, 1.0));
    hide Recomputed, LawfulPower, IsBaseline, FullState, BaseOf, BaseComplete;
    forall symbol | IsDerived(symbol)
      ensures var r := Recomputed(ContractModel(parameters), raw, symbol, pw); r.Err? && r.error.Fault?
    {
      OvershootFaultsEverySymbol(parameters, raw, BaseOf(parameters, raw), symbol, pw);
    }
  }

  lemma SparseIsWellPosed(base: Values, pw: PowerFn)
    requires BaseComplete(base) && IsBaseline(base, 0.5, 1.0) && StateAt(base) == SPARSE && LawfulPower(pw)
    ensures WellPosed(base, pw) && FoodPower(base, pw) == 0.5 && ParamsAt(base, 0.5) == BaselineAt(0.5, 1.0)
  {
    assert pw(0.5, 1.0) == Some(0.5);
    BaselineParams(base, 0.5, 1.0);
    ResidualCriterionAdmitsUnstable();
    ReferenceBalances();
    hide LawfulPower, BaselineRates, BaselineAt, ParamsAt, StateAt, JacobianAt, Equilibrium, ResidualSq;
  }

  lemma SparseSolution(base: Values, pw: PowerFn)
    requires BaseComplete(base) && IsBaseline(base, 0.5, 1.0) && StateAt(base) == SPARSE && LawfulPower(pw)
    ensures WellPosed(base, pw) && IsDerived(EquilibriumResidualSq) && IsDerived(DominantRealPart)
    ensures SolutionAt(base, pw, EquilibriumResidualSq) <= 0.0000000001 && SolutionAt(base, pw, DominantRealPart) > 0.0
  {
    SparseIsWellPosed(base, pw);
    assert IsDerived(EquilibriumResidualSq) && IsDerived(DominantRealPart);
    hide LawfulPower, IsBaseline, BaseComplete, WellPosed, StateAt, ParamsAt, SolutionAt, BaselineAt, JacobianAt,
         ResidualSq, Dominant, IsDiscRoot, DiscRoot, FoodPower, SPARSE, IsDerived;
    ResidualSolution(base, pw);
    DominantSolution(base, pw);
    RootIsDiscRoot(base, pw, JacobianFor(base, pw));
    ResidualCriterionAdmitsUnstable();
  }

  // The same on the recomputed metrics: a strictly positive raw state with a residual within
  // the criterion and a positive dominant_real_part.
  lemma ResidualMetricAdmitsUnstable(pw: PowerFn) returns (parameters: seq<(Name, real)>, raw: Values, residual: real, dominant: real)
    requires LawfulPower(pw)
    ensures Recomputed(ContractModel(parameters), raw, EquilibriumResidualSq, pw) == Ok(residual) && residual <= 0.0000000001
    ensures Recomputed(ContractModel(parameters), raw, DominantRealPart, pw) == Ok(dominant) && dominant > 0.0
    ensures FullState(parameters, raw) && BaseComplete(BaseOf(parameters, raw)) && Interior(StateAt(BaseOf(parameters, raw)))
  {
    parameters, raw := BaselineInput(0.5, 1.0, SPARSE);
    var base := BaseOf(parameters, raw);
    SparseSolution(base, pw);
    hide Recomputed, LawfulPower, IsBaseline, FullState, BaseOf, BaseComplete, WellPosed, StateAt, SolutionAt, IsDerived;
    FullStateOutcome(parameters, raw, EquilibriumResidualSq, pw);
    FullStateOutcome(parameters, raw, DominantRealPart, pw);
    residual, dominant := SolutionAt(base, pw, EquilibriumResidualSq), SolutionAt(base, pw, DominantRealPart);
  }
}
