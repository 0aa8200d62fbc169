// The listed Jacobian equations are the partial derivatives of the listed ODE equations,
// and every entry the contract does not list is zero.
module CaseAJacobian {
  import opened Results
  import opened Expressions
  import opened Slopes
  import opened Differentiation
  import opened CaseA
  import opened CaseAValues
  import Spectrum
  import Stability

  datatype Axis = AxisJ | AxisA | AxisF | AxisP

  function StateName(s: Axis): Name {
    match s case AxisJ => StateJ case AxisA => StateA case AxisF => StateF case AxisP => StateP
  }

  // The right-hand side of the ODE in each coordinate.
  function RateTree(r: Axis): Expr {
    match r
    case AxisJ => Body(RateJ)
    case AxisA => Body(RateA)
    case AxisF => Body(RateF)
    case AxisP => Body(RateP)
  }

  function Component(v: Spectrum.Vector, r: Axis): real {
    match r case AxisJ => v.j case AxisA => v.a case AxisF => v.f case AxisP => v.p
  }

  function Unit(s: Axis, h: real): Spectrum.Vector {
    match s
    case AxisJ => Spectrum.Vector(h, 0.0, 0.0, 0.0)
    case AxisA => Spectrum.Vector(0.0, h, 0.0, 0.0)
    case AxisF => Spectrum.Vector(0.0, 0.0, h, 0.0)
    case AxisP => Spectrum.Vector(0.0, 0.0, 0.0, h)
  }

  // Row r, column s of the 4x4 matrix; the seven unlisted entries are zero.
  function Entry(m: Spectrum.Jacobian, r: Axis, s: Axis): real {
    match (r, s)
    case (AxisJ, AxisJ) => m.jj
    case (AxisJ, AxisA) => m.ja
    case (AxisA, AxisJ) => m.aj
    case (AxisA, AxisA) => m.aa
    case (AxisF, AxisA) => m.fa
    case (AxisF, AxisF) => m.ff
    case (AxisP, AxisA) => m.pa
    case (AxisP, AxisF) => m.pf
    case (AxisP, AxisP) => m.pp
    case _ => 0.0
  }

  // The tree of the equation that defines an entry, where the contract lists one.
  function EntryTree(r: Axis, s: Axis): Option<Expr> {
    match (r, s)
    case (AxisJ, AxisJ) => Some(Body(JacJJ))
    case (AxisJ, AxisA) => Some(Body(JacJA))
    case (AxisA, AxisJ) => Some(Body(JacAJ))
    case (AxisA, AxisA) => Some(Body(JacAA))
    case (AxisF, AxisA) => Some(Body(JacFA))
    case (AxisF, AxisF) => Some(Body(JacFF))
    case (AxisP, AxisA) => Some(Body(JacPA))
    case (AxisP, AxisF) => Some(Body(JacPF))
    case (AxisP, AxisP) => Some(Body(JacPP))
    case _ => None
  }

  function Curvature(p: Stability.Params, r: Axis, s: Axis): real
    requires Stability.Capacities(p)
  {
    match (r, s)
    case (AxisF, AxisF) => -(p.rF / p.kF)
    case (AxisP, AxisP) => -(p.rP / p.kP)
    case _ => 0.0
  }

  lemma EntryIsMatrixEntry(m: Spectrum.Jacobian, r: Axis, s: Axis, h: real)
    ensures Component(Spectrum.Apply(m, Unit(s, h)), r) == h * Entry(m, r, s)
  {
  }

  lemma CurvatureIsQuadratic(p: Stability.Params, r: Axis, s: Axis, h: real)
    requires Stability.Capacities(p)
    ensures Component(Stability.Quadratic(p, Unit(s, h)), r) == (h * h) * Curvature(p, r, s)
  {
    Stability.DivScale(p.rF, h, p.kF);
    Stability.DivScale(p.rP, h, p.kP);
    assert 0.0 / p.k == 0.0 && 0.0 / p.kF == 0.0 && 0.0 / p.kP == 0.0;
    RateOverCapacity(p.rF, h, p.kF);
    RateOverCapacity(p.rP, h, p.kP);
  }

  lemma RateOverCapacity(r: real, h: real, k: real)
    requires k != 0.0
    ensures r * (h / k) * h == (h * h) * (r / k)
  {
    assert h / k * k == h && r / k * k == r;
    Stability.CancelNonzero(k, r * (h / k), h * (r / k));
  }

  // The field along one axis is a quadratic polynomial in the step.
  lemma FieldAlong(p: Stability.Params, x: Spectrum.Vector, r: Axis, s: Axis, h: real)
    requires Stability.Capacities(p)
    ensures Component(Stability.Field(p, Stability.Shifted(x, Unit(s, h))), r)
         == Component(Stability.Field(p, x), r) + h * Entry(Stability.JacobianAt(p, x), r, s) + (h * h) * Curvature(p, r, s)
  {
    hide Stability.Field, Stability.JacobianAt, Stability.Quadratic, Spectrum.Apply, Entry, Curvature;
    Stability.FieldExpansion(p, x, Unit(s, h));
    EntryIsMatrixEntry(Stability.JacobianAt(p, x), r, s, h);
    CurvatureIsQuadratic(p, r, s, h);
  }

  function Parabola(c: real, slope: real, q: real): Curve {
    (h: real) => c + h * slope + (h * h) * q
  }

  lemma ParabolaSlope(c: real, slope: real, q: real)
    ensures HasSlope(Parabola(c, slope, q), slope)
  {
    var bound := Magnitude(q);
    forall h: real | Within(h, 1.0)
      ensures ExpandsAt(Parabola(c, slope, q), slope, Level(q), bound, h)
    {
    }
    assert Expansion(Parabola(c, slope, q), slope, Level(q), 1.0, bound);
  }

  lemma RateValue(r: Axis, env: Values, pw: PowerFn)
    requires Complete(env) && Stability.Capacities(ParamsOf(env))
    ensures Evaluates(RateTree(r), env, pw, Component(Stability.Field(ParamsOf(env), StateOf(env)), r))
  {
    hide Evaluates, Body, Stability.RateJ, Stability.RateA, Stability.RateF, Stability.RateP;
    match r
    case AxisJ => RateJValue(env, pw);
    case AxisA => RateAValue(env, pw);
    case AxisF => RateFValue(env, pw);
    case AxisP => RatePValue(env, pw);
  }

  lemma ShiftedEnvironment(env: Values, s: Axis, h: real)
    requires Complete(env)
    ensures Complete(Shift(env, StateName(s), h))
    ensures ParamsOf(Shift(env, StateName(s), h)) == ParamsOf(env)
    ensures StateOf(Shift(env, StateName(s), h)) == Stability.Shifted(StateOf(env), Unit(s, h))
  {
  }

  lemma FieldIsParabola(p: Stability.Params, x: Spectrum.Vector, r: Axis, s: Axis, h: real, c: real, slope: real, q: real)
    requires Stability.Capacities(p)
    requires c == Component(Stability.Field(p, x), r) && slope == Entry(Stability.JacobianAt(p, x), r, s) && q == Curvature(p, r, s)
    ensures Component(Stability.Field(p, Stability.Shifted(x, Unit(s, h))), r) == Parabola(c, slope, q)(h)
  {
    hide Stability.Field, Stability.JacobianAt, Entry, Curvature, Component, Unit, Stability.Shifted;
    FieldAlong(p, x, r, s, h);
  }

  lemma RateAlong(r: Axis, s: Axis, env: Values, shifted: Values, pw: PowerFn, h: real, c: real, slope: real, q: real)
    requires Complete(env) && Stability.Capacities(ParamsOf(env))
    requires Complete(shifted) && ParamsOf(shifted) == ParamsOf(env)
    requires StateOf(shifted) == Stability.Shifted(StateOf(env), Unit(s, h))
    requires c == Component(Stability.Field(ParamsOf(env), StateOf(env)), r)
    requires slope == Entry(Stability.JacobianAt(ParamsOf(env), StateOf(env)), r, s) && q == Curvature(ParamsOf(env), r, s)
    ensures Evaluates(RateTree(r), shifted, pw, Parabola(c, slope, q)(h))
  {
    hide Stability.Field, Stability.JacobianAt, Stability.Shifted, Entry, Curvature, Evaluates, RateTree, ParamsOf, StateOf, Complete,
         Component, Unit, Parabola;
    RateValue(r, shifted, pw);
    FieldIsParabola(ParamsOf(env), StateOf(env), r, s, h, c, slope, q);
    EvaluatesAt(RateTree(r), shifted, pw, Component(Stability.Field(ParamsOf(shifted), StateOf(shifted)), r), Parabola(c, slope, q)(h));
  }

  // Each rate has the matrix entry as its partial derivative at every state.
  lemma RateHasEntry(r: Axis, s: Axis, env: Values, pw: PowerFn)
    requires Complete(env) && Stability.Capacities(ParamsOf(env))
    ensures HasDerivative(RateTree(r), StateName(s), env, pw,
                          Entry(Stability.JacobianAt(ParamsOf(env), StateOf(env)), r, s))
  {
    hide Stability.Field, Stability.JacobianAt, Entry, Curvature, Evaluate, RateTree, HasSlope, ParamsOf, StateOf, Parabola;
    var p, x := ParamsOf(env), StateOf(env);
    var c, slope, q := Component(Stability.Field(p, x), r), Entry(Stability.JacobianAt(p, x), r, s), Curvature(p, r, s);
    ParabolaSlope(c, slope, q);
    forall h: real
      ensures Evaluates(RateTree(r), Shift(env, StateName(s), h), pw, Parabola(c, slope, q)(h))
    {
      ShiftedEnvironment(env, s, h);
      RateAlong(r, s, env, Shift(env, StateName(s), h), pw, h, c, slope, q);
    }
    FromCurve(RateTree(r), StateName(s), env, pw, Parabola(c, slope, q), slope, 1.0);
  }

  lemma SmoothLeaves(x: Name)
    ensures forall n :: Smooth(Symbol(n), x)
    ensures forall c :: Smooth(Constant(c), x)
  {
  }

  lemma SmoothTwo(a: Expr, b: Expr, x: Name)
    requires Smooth(a, x) && Smooth(b, x)
    ensures Smooth(Add([a, b]), x) && Smooth(Multiply([a, b]), x) && Smooth(Subtract(a, b), x) && Smooth(Divide(a, b), x)
  {
    assert [a, b][1..] == [b] && [b][1..] == [];
    assert SmoothAll([b], x);
    assert SmoothAll([a, b], x);
  }

  lemma SmoothPair(a: Name, b: Name, x: Name)
    ensures Smooth(RoomTree(a, b), x) && Smooth(PairTree(a, b), x)
  {
    SmoothLeaves(x);
    hide Smooth, SmoothAll;
    SmoothTwo(Symbol(a), Symbol(b), x);
    SmoothTwo(One(), Divide(Symbol(a), Symbol(b)), x);
  }

  lemma SmoothHelpers(a: Name, b: Name, c: Name, x: Name)
    ensures Smooth(RoomTree(a, b), x) && Smooth(PairTree(a, b), x)
    ensures Smooth(TripleTree(a, b, c), x) && Smooth(LogisticTree(a, b, c), x)
  {
    SmoothLeaves(x);
    hide Smooth, SmoothAll, RoomTree, PairTree;
    SmoothPair(a, b, x);
    SmoothPair(b, c, x);
    SmoothTwo(Symbol(a), PairTree(b, c), x);
    SmoothTwo(Symbol(b), RoomTree(b, c), x);
    SmoothTwo(Symbol(a), Multiply([Symbol(b), RoomTree(b, c)]), x);
  }

  // No rate contains a power, so the differentiation rules cover all four.
  lemma RatesAreSmooth(r: Axis, x: Name)
    ensures Smooth(RateTree(r), x)
  {
    SmoothLeaves(x);
    hide Smooth, SmoothAll, RoomTree, PairTree, TripleTree, LogisticTree;
    match r
    case AxisJ =>
      SmoothHelpers(StateJ, JuvCapacity, Food, x);
      SmoothHelpers(MortLarva, StateJ, Food, x);
      var inner := Multiply([Symbol(StateA), RoomTree(StateJ, JuvCapacity)]);
      SmoothTwo(Symbol(StateA), RoomTree(StateJ, JuvCapacity), x);
      SmoothTwo(Symbol(FemaleRatio), inner, x);
      SmoothTwo(Symbol(BirthCoef), Multiply([Symbol(FemaleRatio), inner]), x);
      SmoothTwo(Multiply([Symbol(BirthCoef), Multiply([Symbol(FemaleRatio), inner])]), PairTree(MortLarva, StateJ), x);
    case AxisA =>
      SmoothHelpers(Maturation, StateJ, Food, x);
      SmoothHelpers(MortAdult, StateA, Food, x);
      SmoothTwo(PairTree(Maturation, StateJ), PairTree(MortAdult, StateA), x);
    case AxisF =>
      SmoothHelpers(FishGrowth, StateF, FishCapacity, x);
      SmoothHelpers(AttackRate, StateA, StateF, x);
      SmoothTwo(LogisticTree(FishGrowth, StateF, FishCapacity), TripleTree(AttackRate, StateA, StateF), x);
    case AxisP =>
      SmoothHelpers(ParasiteGrowth, StateP, ParasiteCapacity, x);
      SmoothHelpers(FishBenefitPar, StateF, StateP, x);
      SmoothHelpers(LampreyCostPar, StateA, StateP, x);
      SmoothTwo(LogisticTree(ParasiteGrowth, StateP, ParasiteCapacity), TripleTree(FishBenefitPar, StateF, StateP), x);
      SmoothTwo(Add([LogisticTree(ParasiteGrowth, StateP, ParasiteCapacity), TripleTree(FishBenefitPar, StateF, StateP)]),
                TripleTree(LampreyCostPar, StateA, StateP), x);
  }

  // The symbolic derivative of each rate evaluates to the matrix entry.
  lemma SymbolicJacobian(r: Axis, s: Axis, env: Values, pw: PowerFn)
    requires LawfulPower(pw) && Complete(env) && Stability.Capacities(ParamsOf(env))
    ensures Evaluates(Derivative(RateTree(r), StateName(s)), env, pw,
                      Entry(Stability.JacobianAt(ParamsOf(env), StateOf(env)), r, s))
  {
    hide RateTree, Evaluate, Entry, Stability.JacobianAt, Derivative, HasSlope, LawfulPower, ParamsOf, StateOf, Stability.Field;
    RateValue(r, env, pw);
    RatesAreSmooth(r, StateName(s));
    DerivativeCorrect(RateTree(r), StateName(s), env, pw);
    RateHasEntry(r, s, env, pw);
    SlopeIsUnique(Along(RateTree(r), StateName(s), env, pw),
                  Evaluate(Derivative(RateTree(r), StateName(s)), env, pw).value,
                  Entry(Stability.JacobianAt(ParamsOf(env), StateOf(env)), r, s));
  }

  lemma EntryValue(r: Axis, s: Axis, env: Values, pw: PowerFn)
    requires Complete(env) && Stability.Capacities(ParamsOf(env)) && EntryTree(r, s).Some?
    ensures Evaluates(EntryTree(r, s).value, env, pw, Entry(Stability.JacobianAt(ParamsOf(env), StateOf(env)), r, s))
  {
    hide Body, Evaluates, Evaluate, Stability.JacobianAt, ParamsOf, StateOf, Complete, Stability.Capacities;
    match (r, s)
    case (AxisJ, AxisJ) => JacJJValue(env, pw);
    case (AxisJ, AxisA) => JacJAValue(env, pw);
    case (AxisA, _) => JacConstantValues(env, pw);
    case (AxisF, AxisA) => JacFAValue(env, pw);
    case (AxisF, AxisF) => JacFFValue(env, pw);
    case (AxisP, AxisA) => JacPAValue(env, pw);
    case (AxisP, AxisF) => JacPFValue(env, pw);
    case (AxisP, AxisP) => JacPPValue(env, pw);
  }

  // For all sixteen entries and every environment: the symbolic derivative of the ODE tree
  // has the value of the listed Jacobian tree, and value zero where none is listed.
  lemma JacobianIsDerivative(r: Axis, s: Axis, env: Values, pw: PowerFn)
    requires LawfulPower(pw) && Complete(env) && Stability.Capacities(ParamsOf(env))
    ensures match EntryTree(r, s)
            case Some(e) => Evaluate(Derivative(RateTree(r), StateName(s)), env, pw) == Evaluate(e, env, pw)
            case None => Evaluates(Derivative(RateTree(r), StateName(s)), env, pw, 0.0)
  {
    hide RateTree, Evaluate, Evaluates, Derivative, LawfulPower, ParamsOf, StateOf, Stability.JacobianAt, Entry, Complete,
         Stability.Capacities;
    var m := Stability.JacobianAt(ParamsOf(env), StateOf(env));
    SymbolicJacobian(r, s, env, pw);
    match EntryTree(r, s) {
      case None => UnlistedIsZero(m, r, s);
      case Some(e) =>
        EntryValue(r, s, env, pw);
        SameEvaluation(Derivative(RateTree(r), StateName(s)), e, env, pw, Entry(m, r, s));
    }
  }

  lemma UnlistedIsZero(m: Spectrum.Jacobian, r: Axis, s: Axis)
    requires EntryTree(r, s) == None
    ensures Entry(m, r, s) == 0.0
  {
  }

  lemma SameEvaluation(a: Expr, b: Expr, env: Values, pw: PowerFn, x: real)
    requires Evaluates(a, env, pw, x) && Evaluates(b, env, pw, x)
    ensures Evaluate(a, env, pw) == Evaluate(b, env, pw)
  {
    hide Evaluate;
  }
}
