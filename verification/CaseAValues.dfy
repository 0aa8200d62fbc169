// What the contract's trees evaluate to, in terms of the ODE, its Jacobian and spectrum.
module CaseAValues {
  import opened Results
  import opened Expressions
  import opened CaseA
  import Spectrum
  import Stability

  // Every named symbol has a value.
  ghost predicate Complete(env: Values) {
    forall n: Name :: !n.Other? ==> n in env
  }

  ghost function ParamsOf(env: Values): Stability.Params
    requires Complete(env)
  {
    Stability.Params(env[BirthCoef], env[FemaleRatio], env[JuvCapacity], env[MortLarva], env[Maturation], env[MortAdult],
                     env[FishGrowth], env[FishCapacity], env[AttackRate],
                     env[ParasiteGrowth], env[ParasiteCapacity], env[FishBenefitPar], env[LampreyCostPar])
  }

  ghost function StateOf(env: Values): Spectrum.Vector
    requires Complete(env)
  {
    Spectrum.Vector(env[StateJ], env[StateA], env[StateF], env[StateP])
  }

  predicate Evaluates(e: Expr, env: Values, pw: PowerFn, x: real) {
    var r := Evaluate(e, env, pw);
    r.Ok? && r.value == x
  }

  lemma EvaluatesAt(e: Expr, env: Values, pw: PowerFn, x: real, y: real)
    requires Evaluates(e, env, pw, x) && x == y
    ensures Evaluates(e, env, pw, y)
  {
  }

  // ---- trees built from a few symbols --------------------------------------------------

  lemma LeafValues(env: Values, pw: PowerFn)
    ensures forall n :: n in env ==> Evaluate(Symbol(n), env, pw) == Ok(env[n])
    ensures forall c :: Evaluate(Constant(c), env, pw) == Ok(c)
  {
  }

  lemma QuotientIsDivision(x: real, y: real)
    requires y != 0.0
    ensures Quotient(x, y) == x / y
  {
  }

  lemma RoomValue(level: Name, capacity: Name, env: Values, pw: PowerFn)
    requires level in env && capacity in env
    ensures Evaluate(RoomTree(level, capacity), env, pw).Ok? <==> env[capacity] != 0.0
    ensures env[capacity] != 0.0 ==> Evaluate(RoomTree(level, capacity), env, pw).value == 1.0 - env[level] / env[capacity]
  {
    LeafValues(env, pw);
    DivideValue(Symbol(level), Symbol(capacity), env, pw);
    SubtractOk(One(), Divide(Symbol(level), Symbol(capacity)), env, pw);
    hide Evaluate, Quotient;
    if env[capacity] != 0.0 {
      QuotientIsDivision(env[level], env[capacity]);
      SubtractValue(One(), Divide(Symbol(level), Symbol(capacity)), env, pw);
    }
  }

  lemma SubtractOk(l: Expr, r: Expr, env: Values, pw: PowerFn)
    ensures Evaluate(Subtract(l, r), env, pw).Ok? <==> Evaluate(l, env, pw).Ok? && Evaluate(r, env, pw).Ok?
  {
  }

  lemma PairValue(a: Name, b: Name, env: Values, pw: PowerFn)
    requires a in env && b in env
    ensures Evaluate(PairTree(a, b), env, pw).Ok?
    ensures Evaluate(PairTree(a, b), env, pw).value == env[a] * env[b]
  {
    LeafValues(env, pw);
    hide Evaluate;
    MultiplyPair(Symbol(a), Symbol(b), env, pw);
  }

  lemma TripleValue(a: Name, b: Name, c: Name, env: Values, pw: PowerFn)
    requires a in env && b in env && c in env
    ensures Evaluate(TripleTree(a, b, c), env, pw).Ok?
    ensures Evaluate(TripleTree(a, b, c), env, pw).value == env[a] * (env[b] * env[c])
  {
    LeafValues(env, pw);
    hide Evaluate, PairTree;
    PairValue(b, c, env, pw);
    MultiplyPair(Symbol(a), PairTree(b, c), env, pw);
  }

  lemma LogisticValue(rate: Name, level: Name, capacity: Name, env: Values, pw: PowerFn)
    requires rate in env && level in env && capacity in env && env[capacity] != 0.0
    ensures Evaluate(LogisticTree(rate, level, capacity), env, pw).Ok?
    ensures Evaluate(LogisticTree(rate, level, capacity), env, pw).value
         == env[rate] * (env[level] * (1.0 - env[level] / env[capacity]))
  {
    LeafValues(env, pw);
    hide Evaluate, RoomTree;
    RoomValue(level, capacity, env, pw);
    MultiplyPair(Symbol(level), RoomTree(level, capacity), env, pw);
    MultiplyPair(Symbol(rate), Multiply([Symbol(level), RoomTree(level, capacity)]), env, pw);
  }

  lemma LogisticSlopeValue(rate: Name, level: Name, capacity: Name, env: Values, pw: PowerFn)
    requires rate in env && level in env && capacity in env && env[capacity] != 0.0
    ensures Evaluate(LogisticSlopeTree(rate, level, capacity), env, pw).Ok?
    ensures Evaluate(LogisticSlopeTree(rate, level, capacity), env, pw).value
         == env[rate] * (1.0 - 2.0 * env[level] / env[capacity])
  {
    LeafValues(env, pw);
    hide Evaluate, Quotient;
    var double := Multiply([Constant(2.0), Symbol(level)]);
    MultiplyPair(Constant(2.0), Symbol(level), env, pw);
    DivideValue(double, Symbol(capacity), env, pw);
    QuotientOf(Evaluate(double, env, pw).value, 2.0 * env[level], env[capacity]);
    SubtractValue(One(), Divide(double, Symbol(capacity)), env, pw);
    MultiplyPair(Symbol(rate), Subtract(One(), Divide(double, Symbol(capacity))), env, pw);
  }

  lemma QuotientOf(x: real, z: real, y: real)
    requires y != 0.0 && x == z
    ensures Quotient(x, y) == z / y
  {
  }

  lemma SquareTree(e: Expr, env: Values, pw: PowerFn)
    requires LawfulPower(pw) && Evaluate(e, env, pw).Ok?
    ensures Evaluate(Square(e), env, pw).Ok?
    ensures Evaluate(Square(e), env, pw).value == Evaluate(e, env, pw).value * Evaluate(e, env, pw).value
  {
    LeafValues(env, pw);
    hide Evaluate, LawfulPower;
    var x := Evaluate(e, env, pw).value;
    SquareLaw(pw, x);
    PowerValue(e, Constant(2.0), env, pw, x, 2.0);
  }

  lemma RootLaw(pw: PowerFn, x: real)
    requires LawfulPower(pw)
    ensures pw(x, 0.5).Some? <==> x >= 0.0
    ensures x >= 0.0 ==> pw(x, 0.5).value >= 0.0 && pw(x, 0.5).value * pw(x, 0.5).value == x
  {
    if x >= 0.0 { assert IsRoot(x, pw(x, 0.5)); }
  }

  lemma RootTree(e: Expr, env: Values, pw: PowerFn, x: real)
    requires LawfulPower(pw) && Evaluate(e, env, pw) == Ok(x)
    ensures Evaluate(Root(e), env, pw).Ok? <==> x >= 0.0
    ensures x >= 0.0 ==> Evaluate(Root(e), env, pw).value == pw(x, 0.5).value
  {
    LeafValues(env, pw);
    hide Evaluate, LawfulPower;
    RootLaw(pw, x);
    PowerValue(e, Constant(0.5), env, pw, x, 0.5);
  }

  // The (a + b + sqrt((a - b)^2)) / 2 tree is the larger operand.
  lemma MaxTreeValue(a: Expr, b: Expr, env: Values, pw: PowerFn)
    requires LawfulPower(pw) && Evaluate(a, env, pw).Ok? && Evaluate(b, env, pw).Ok?
    ensures Evaluate(MaxTree(a, b), env, pw).Ok?
    ensures Evaluate(MaxTree(a, b), env, pw).value
         == Spectrum.Max(Evaluate(a, env, pw).value, Evaluate(b, env, pw).value)
  {
    LeafValues(env, pw);
    hide Evaluate, LawfulPower, Square, Root, Quotient;
    var gap := Subtract(a, b);
    var x, y := Evaluate(a, env, pw).value, Evaluate(b, env, pw).value;
    SubtractValue(a, b, env, pw);
    SquareTree(gap, env, pw);
    var q := Evaluate(Square(gap), env, pw).value;
    assert q == (x - y) * (x - y);
    RootTree(Square(gap), env, pw, q);
    RootLaw(pw, q);
    var s := pw(q, 0.5).value;
    var sum := Add([a, b, Root(Square(gap))]);
    AddThree(a, b, Root(Square(gap)), env, pw);
    DivideValue(sum, Constant(2.0), env, pw);
    QuotientOf(Evaluate(sum, env, pw).value, x + y + s, 2.0);
    Spectrum.HalfSumIsMax(x, y, s);
  }

  // ---- the ODE, its Jacobian and its spectrum ---------------------------------------------

  lemma RateJValue(env: Values, pw: PowerFn)
    requires Complete(env) && Stability.Capacities(ParamsOf(env))
    ensures Evaluates(Body(RateJ), env, pw, Stability.RateJ(ParamsOf(env), StateOf(env)))
  {
    LeafValues(env, pw);
    hide Evaluate, RoomTree, PairTree;
    RoomValue(StateJ, JuvCapacity, env, pw);
    PairValue(MortLarva, StateJ, env, pw);
    var room := RoomTree(StateJ, JuvCapacity);
    MultiplyPair(Symbol(StateA), room, env, pw);
    MultiplyPair(Symbol(FemaleRatio), Multiply([Symbol(StateA), room]), env, pw);
    var births := Multiply([Symbol(BirthCoef), Multiply([Symbol(FemaleRatio), Multiply([Symbol(StateA), room])])]);
    MultiplyPair(Symbol(BirthCoef), Multiply([Symbol(FemaleRatio), Multiply([Symbol(StateA), room])]), env, pw);
    SubtractValue(births, PairTree(MortLarva, StateJ), env, pw);
  }

  lemma RateAValue(env: Values, pw: PowerFn)
    requires Complete(env)
    ensures Evaluates(Body(RateA), env, pw, Stability.RateA(ParamsOf(env), StateOf(env)))
  {
    hide Evaluate, PairTree;
    PairValue(Maturation, StateJ, env, pw);
    PairValue(MortAdult, StateA, env, pw);
    SubtractValue(PairTree(Maturation, StateJ), PairTree(MortAdult, StateA), env, pw);
  }

  lemma RateFValue(env: Values, pw: PowerFn)
    requires Complete(env) && Stability.Capacities(ParamsOf(env))
    ensures Evaluates(Body(RateF), env, pw, Stability.RateF(ParamsOf(env), StateOf(env)))
  {
    hide Evaluate, LogisticTree, TripleTree;
    LogisticValue(FishGrowth, StateF, FishCapacity, env, pw);
    TripleValue(AttackRate, StateA, StateF, env, pw);
    SubtractValue(LogisticTree(FishGrowth, StateF, FishCapacity), TripleTree(AttackRate, StateA, StateF), env, pw);
  }

  lemma RatePValue(env: Values, pw: PowerFn)
    requires Complete(env) && Stability.Capacities(ParamsOf(env))
    ensures Evaluates(Body(RateP), env, pw, Stability.RateP(ParamsOf(env), StateOf(env)))
  {
    hide Evaluate, LogisticTree, TripleTree;
    LogisticValue(ParasiteGrowth, StateP, ParasiteCapacity, env, pw);
    TripleValue(FishBenefitPar, StateF, StateP, env, pw);
    TripleValue(LampreyCostPar, StateA, StateP, env, pw);
    AddPair(LogisticTree(ParasiteGrowth, StateP, ParasiteCapacity), TripleTree(FishBenefitPar, StateF, StateP), env, pw);
    SubtractValue(Add([LogisticTree(ParasiteGrowth, StateP, ParasiteCapacity), TripleTree(FishBenefitPar, StateF, StateP)]),
                  TripleTree(LampreyCostPar, StateA, StateP), env, pw);
  }

  lemma BirthsValue(env: Values, pw: PowerFn)
    requires Complete(env) && env[JuvCapacity] != 0.0
    ensures Evaluates(Divide(Multiply([Symbol(BirthCoef), Symbol(FemaleRatio), Symbol(StateA)]), Symbol(JuvCapacity)), env, pw,
                      env[BirthCoef] * env[FemaleRatio] * env[StateA] / env[JuvCapacity])
  {
    LeafValues(env, pw);
    hide Evaluate, Quotient;
    var births := Multiply([Symbol(BirthCoef), Symbol(FemaleRatio), Symbol(StateA)]);
    MultiplyThree(Symbol(BirthCoef), Symbol(FemaleRatio), Symbol(StateA), env, pw);
    DivideValue(births, Symbol(JuvCapacity), env, pw);
    QuotientOf(Evaluate(births, env, pw).value, env[BirthCoef] * env[FemaleRatio] * env[StateA], env[JuvCapacity]);
  }

  lemma NegatedSum(a: Expr, b: Expr, env: Values, pw: PowerFn, x: real, y: real)
    requires Evaluates(a, env, pw, x) && Evaluates(b, env, pw, y)
    ensures Evaluates(Negate(Add([a, b])), env, pw, -(x + y))
  {
    hide Evaluate;
    AddPair(a, b, env, pw);
    NegateValue(Add([a, b]), env, pw);
  }

  lemma JacJJTree(env: Values, pw: PowerFn)
    requires Complete(env) && env[JuvCapacity] != 0.0
    ensures Evaluates(Body(JacJJ), env, pw,
                      -(env[BirthCoef] * env[FemaleRatio] * env[StateA] / env[JuvCapacity] + env[MortLarva]))
  {
    hide Evaluate, Evaluates;
    BirthsValue(env, pw);
    SymbolEvaluates(MortLarva, env, pw);
    NegatedSum(Divide(Multiply([Symbol(BirthCoef), Symbol(FemaleRatio), Symbol(StateA)]), Symbol(JuvCapacity)), Symbol(MortLarva), env, pw,
               env[BirthCoef] * env[FemaleRatio] * env[StateA] / env[JuvCapacity], env[MortLarva]);
  }

  lemma JacJJValue(env: Values, pw: PowerFn)
    requires Complete(env) && Stability.Capacities(ParamsOf(env))
    ensures Evaluates(Body(JacJJ), env, pw, Stability.JacobianAt(ParamsOf(env), StateOf(env)).jj)
  {
    JacJJTree(env, pw);
    hide Evaluate, Body;
  }

  lemma SymbolEvaluates(n: Name, env: Values, pw: PowerFn)
    requires n in env
    ensures Evaluates(Symbol(n), env, pw, env[n])
  {
  }

  lemma JacJAValue(env: Values, pw: PowerFn)
    requires Complete(env) && Stability.Capacities(ParamsOf(env))
    ensures Evaluates(Body(JacJA), env, pw, Stability.JacobianAt(ParamsOf(env), StateOf(env)).ja)
  {
    LeafValues(env, pw);
    hide Evaluate, RoomTree;
    RoomValue(StateJ, JuvCapacity, env, pw);
    MultiplyThree(Symbol(BirthCoef), Symbol(FemaleRatio), RoomTree(StateJ, JuvCapacity), env, pw);
  }

  lemma JacFFTree(env: Values, pw: PowerFn)
    requires Complete(env) && env[FishCapacity] != 0.0
    ensures Evaluates(Body(JacFF), env, pw,
                      env[FishGrowth] * (1.0 - 2.0 * env[StateF] / env[FishCapacity]) - env[AttackRate] * env[StateA])
  {
    hide Evaluate, LogisticSlopeTree, PairTree;
    LogisticSlopeValue(FishGrowth, StateF, FishCapacity, env, pw);
    PairValue(AttackRate, StateA, env, pw);
    SubtractValue(LogisticSlopeTree(FishGrowth, StateF, FishCapacity), PairTree(AttackRate, StateA), env, pw);
  }

  lemma JacFFValue(env: Values, pw: PowerFn)
    requires Complete(env) && Stability.Capacities(ParamsOf(env))
    ensures Evaluates(Body(JacFF), env, pw, Stability.JacobianAt(ParamsOf(env), StateOf(env)).ff)
  {
    hide Evaluates, Body, Stability.JacobianAt, ParamsOf, StateOf;
    FishEntryIs(env);
    JacFFTree(env, pw);
    EvaluatesAt(Body(JacFF), env, pw,
                env[FishGrowth] * (1.0 - 2.0 * env[StateF] / env[FishCapacity]) - env[AttackRate] * env[StateA],
                Stability.JacobianAt(ParamsOf(env), StateOf(env)).ff);
  }

  lemma FishEntryIs(env: Values)
    requires Complete(env) && Stability.Capacities(ParamsOf(env))
    ensures env[FishCapacity] != 0.0 && Stability.JacobianAt(ParamsOf(env), StateOf(env)).ff
         == env[FishGrowth] * (1.0 - 2.0 * env[StateF] / env[FishCapacity]) - env[AttackRate] * env[StateA]
  {
  }

  lemma JacPPTree(env: Values, pw: PowerFn)
    requires Complete(env) && env[ParasiteCapacity] != 0.0
    ensures Evaluates(Body(JacPP), env, pw,
                      env[ParasiteGrowth] * (1.0 - 2.0 * env[StateP] / env[ParasiteCapacity])
                      + env[FishBenefitPar] * env[StateF] - env[LampreyCostPar] * env[StateA])
  {
    hide Evaluate, LogisticSlopeTree, PairTree;
    var growth, gain, loss := LogisticSlopeTree(ParasiteGrowth, StateP, ParasiteCapacity),
                              PairTree(FishBenefitPar, StateF), PairTree(LampreyCostPar, StateA);
    LogisticSlopeValue(ParasiteGrowth, StateP, ParasiteCapacity, env, pw);
    PairValue(FishBenefitPar, StateF, env, pw);
    PairValue(LampreyCostPar, StateA, env, pw);
    NegateValue(loss, env, pw);
    AddThree(growth, gain, Negate(loss), env, pw);
  }

  lemma JacPPValue(env: Values, pw: PowerFn)
    requires Complete(env) && Stability.Capacities(ParamsOf(env))
    ensures Evaluates(Body(JacPP), env, pw, Stability.JacobianAt(ParamsOf(env), StateOf(env)).pp)
  {
    hide Evaluates, Body, Stability.JacobianAt, ParamsOf, StateOf;
    ParasiteEntryIs(env);
    JacPPTree(env, pw);
    EvaluatesAt(Body(JacPP), env, pw,
                env[ParasiteGrowth] * (1.0 - 2.0 * env[StateP] / env[ParasiteCapacity])
                + env[FishBenefitPar] * env[StateF] - env[LampreyCostPar] * env[StateA],
                Stability.JacobianAt(ParamsOf(env), StateOf(env)).pp);
  }

  lemma ParasiteEntryIs(env: Values)
    requires Complete(env) && Stability.Capacities(ParamsOf(env))
    ensures env[ParasiteCapacity] != 0.0 && Stability.JacobianAt(ParamsOf(env), StateOf(env)).pp
         == env[ParasiteGrowth] * (1.0 - 2.0 * env[StateP] / env[ParasiteCapacity])
            + env[FishBenefitPar] * env[StateF] - env[LampreyCostPar] * env[StateA]
  {
  }

  lemma JacConstantValues(env: Values, pw: PowerFn)
    requires Complete(env) && Stability.Capacities(ParamsOf(env))
    ensures Evaluates(Body(JacAJ), env, pw, Stability.JacobianAt(ParamsOf(env), StateOf(env)).aj)
    ensures Evaluates(Body(JacAA), env, pw, Stability.JacobianAt(ParamsOf(env), StateOf(env)).aa)
  {
    SymbolEvaluates(Maturation, env, pw);
    SymbolEvaluates(MortAdult, env, pw);
    NegateValue(Symbol(MortAdult), env, pw);
  }

  lemma NegatedPair(a: Name, b: Name, env: Values, pw: PowerFn)
    requires a in env && b in env
    ensures Evaluates(Negate(PairTree(a, b)), env, pw, -(env[a] * env[b]))
  {
    hide Evaluate, PairTree;
    PairValue(a, b, env, pw);
    NegateValue(PairTree(a, b), env, pw);
  }

  lemma JacFAValue(env: Values, pw: PowerFn)
    requires Complete(env) && Stability.Capacities(ParamsOf(env))
    ensures Evaluates(Body(JacFA), env, pw, Stability.JacobianAt(ParamsOf(env), StateOf(env)).fa)
  {
    hide Evaluate, PairTree;
    NegatedPair(AttackRate, StateF, env, pw);
  }

  lemma JacPAValue(env: Values, pw: PowerFn)
    requires Complete(env) && Stability.Capacities(ParamsOf(env))
    ensures Evaluates(Body(JacPA), env, pw, Stability.JacobianAt(ParamsOf(env), StateOf(env)).pa)
  {
    hide Evaluate, PairTree;
    NegatedPair(LampreyCostPar, StateP, env, pw);
  }

  lemma JacPFValue(env: Values, pw: PowerFn)
    requires Complete(env) && Stability.Capacities(ParamsOf(env))
    ensures Evaluates(Body(JacPF), env, pw, Stability.JacobianAt(ParamsOf(env), StateOf(env)).pf)
  {
    hide Evaluate, PairTree;
    PairValue(FishBenefitPar, StateP, env, pw);
  }

  ghost function JacobianOf(env: Values): Spectrum.Jacobian
    requires Complete(env)
  {
    Spectrum.Jacobian(env[JacJJ], env[JacJA], env[JacAJ], env[JacAA], env[JacFA], env[JacFF], env[JacPA], env[JacPF], env[JacPP])
  }

  lemma TraceValue(env: Values, pw: PowerFn)
    requires Complete(env)
    ensures Evaluates(Body(TraceJA), env, pw, JacobianOf(env).Trace())
  {
    LeafValues(env, pw);
    hide Evaluate;
    AddPair(Symbol(JacJJ), Symbol(JacAA), env, pw);
  }

  lemma DetValue(env: Values, pw: PowerFn)
    requires Complete(env)
    ensures Evaluates(Body(DetJA), env, pw, JacobianOf(env).Det())
  {
    hide Evaluate, PairTree;
    PairValue(JacJJ, JacAA, env, pw);
    PairValue(JacJA, JacAJ, env, pw);
    SubtractValue(PairTree(JacJJ, JacAA), PairTree(JacJA, JacAJ), env, pw);
  }

  lemma DiscValue(env: Values, pw: PowerFn)
    requires Complete(env) && LawfulPower(pw)
    ensures Evaluates(Body(DiscJA), env, pw, env[TraceJA] * env[TraceJA] - 4.0 * env[DetJA])
  {
    LeafValues(env, pw);
    hide Evaluate, LawfulPower, Square;
    SquareTree(Symbol(TraceJA), env, pw);
    MultiplyPair(Constant(4.0), Symbol(DetJA), env, pw);
    SubtractValue(Square(Symbol(TraceJA)), Multiply([Constant(4.0), Symbol(DetJA)]), env, pw);
  }

  lemma LambdaValues(env: Values, pw: PowerFn)
    requires Complete(env) && LawfulPower(pw) && env[DiscJA] >= 0.0
    ensures var s := pw(env[DiscJA], 0.5);
            && s.Some?
            && Evaluates(Body(LambdaJAPlus), env, pw, (env[TraceJA] + s.value) / 2.0)
            && Evaluates(Body(LambdaJAMinus), env, pw, (env[TraceJA] - s.value) / 2.0)
  {
    LeafValues(env, pw);
    hide Evaluate, LawfulPower, Root, Quotient;
    RootLaw(pw, env[DiscJA]);
    RootTree(Symbol(DiscJA), env, pw, env[DiscJA]);
    var s := pw(env[DiscJA], 0.5).value;
    var plus, minus := Add([Symbol(TraceJA), Root(Symbol(DiscJA))]), Subtract(Symbol(TraceJA), Root(Symbol(DiscJA)));
    AddPair(Symbol(TraceJA), Root(Symbol(DiscJA)), env, pw);
    SubtractValue(Symbol(TraceJA), Root(Symbol(DiscJA)), env, pw);
    DivideValue(plus, Constant(2.0), env, pw);
    DivideValue(minus, Constant(2.0), env, pw);
    QuotientOf(Evaluate(plus, env, pw).value, env[TraceJA] + s, 2.0);
    QuotientOf(Evaluate(minus, env, pw).value, env[TraceJA] - s, 2.0);
  }

  lemma LambdaNeedsDisc(env: Values, pw: PowerFn)
    requires Complete(env) && LawfulPower(pw) && env[DiscJA] < 0.0
    ensures Evaluate(Body(LambdaJAPlus), env, pw).Err?
  {
    LeafValues(env, pw);
    hide Evaluate, LawfulPower, Root, Quotient;
    RootTree(Symbol(DiscJA), env, pw, env[DiscJA]);
    AddOk(Symbol(TraceJA), Root(Symbol(DiscJA)), env, pw);
    DivideValue(Add([Symbol(TraceJA), Root(Symbol(DiscJA))]), Constant(2.0), env, pw);
  }

  lemma AddOk(a: Expr, b: Expr, env: Values, pw: PowerFn)
    ensures Evaluate(Add([a, b]), env, pw).Ok? ==> Evaluate(a, env, pw).Ok? && Evaluate(b, env, pw).Ok?
  {
    hide Evaluate;
    assert [a, b][1..] == [b];
    SumStep([a, b], env, pw);
    SumStep([b], env, pw);
  }

  lemma MaxOf(a: Expr, b: Expr, env: Values, pw: PowerFn, x: real, y: real)
    requires LawfulPower(pw) && Evaluates(a, env, pw, x) && Evaluates(b, env, pw, y)
    ensures Evaluates(MaxTree(a, b), env, pw, Spectrum.Max(x, y))
  {
    hide Evaluate, LawfulPower, MaxTree;
    MaxTreeValue(a, b, env, pw);
  }

  lemma DominantValue(env: Values, pw: PowerFn)
    requires Complete(env) && LawfulPower(pw)
    ensures Evaluates(Body(DominantRealPart), env, pw,
                      Spectrum.Max(env[LambdaJAPlus], Spectrum.Max(env[LambdaF], env[LambdaP])))
  {
    hide Evaluate, Evaluates, LawfulPower, MaxTree, Spectrum.Max;
    SymbolEvaluates(LambdaJAPlus, env, pw);
    SymbolEvaluates(LambdaF, env, pw);
    SymbolEvaluates(LambdaP, env, pw);
    MaxOf(Symbol(LambdaF), Symbol(LambdaP), env, pw, env[LambdaF], env[LambdaP]);
    MaxOf(Symbol(LambdaJAPlus), MaxTree(Symbol(LambdaF), Symbol(LambdaP)), env, pw,
          env[LambdaJAPlus], Spectrum.Max(env[LambdaF], env[LambdaP]));
  }

  lemma DiagonalValues(env: Values, pw: PowerFn)
    requires Complete(env)
    ensures Evaluates(Body(LambdaF), env, pw, env[JacFF]) && Evaluates(Body(LambdaP), env, pw, env[JacPP])
  {
    SymbolEvaluates(JacFF, env, pw);
    SymbolEvaluates(JacPP, env, pw);
  }

  lemma ResidualValue(env: Values, pw: PowerFn)
    requires Complete(env) && LawfulPower(pw)
    ensures Evaluates(Body(EquilibriumResidualSq), env, pw,
                      env[RateJ] * env[RateJ] + env[RateA] * env[RateA] + env[RateF] * env[RateF] + env[RateP] * env[RateP])
  {
    LeafValues(env, pw);
    hide Evaluate, LawfulPower, Square;
    SquareTree(Symbol(RateJ), env, pw);
    SquareTree(Symbol(RateA), env, pw);
    SquareTree(Symbol(RateF), env, pw);
    SquareTree(Symbol(RateP), env, pw);
    AddFour(Square(Symbol(RateJ)), Square(Symbol(RateA)), Square(Symbol(RateF)), Square(Symbol(RateP)), env, pw);
  }

  // ---- the sex-ratio rule ------------------------------------------------------------------

  // The male ratio, given g = E^shape.
  function MaleRatioAt(weight: real, low: real, high: real, g: real, fixed: real): real {
    weight * (low - (low - high) * g) + (1.0 - weight) * fixed
  }

  lemma RatioValues(env: Values, pw: PowerFn)
    requires Complete(env)
    ensures Evaluates(Body(FixedMaleRatio), env, pw, (env[SexLow] + env[SexHigh]) / 2.0)
    ensures Evaluates(Body(FemaleRatio), env, pw, 1.0 - env[MaleRatio])
    ensures Evaluates(Body(JuvCapacity), env, pw, env[CapMin] + env[CapSlope] * env[Food])
  {
    LeafValues(env, pw);
    hide Evaluate, Quotient, PairTree;
    AddPair(Symbol(SexLow), Symbol(SexHigh), env, pw);
    DivideValue(Add([Symbol(SexLow), Symbol(SexHigh)]), Constant(2.0), env, pw);
    QuotientOf(Evaluate(Add([Symbol(SexLow), Symbol(SexHigh)]), env, pw).value, env[SexLow] + env[SexHigh], 2.0);
    SubtractValue(One(), Symbol(MaleRatio), env, pw);
    PairValue(CapSlope, Food, env, pw);
    AddPair(Symbol(CapMin), PairTree(CapSlope, Food), env, pw);
  }

  lemma SexRuleValue(env: Values, pw: PowerFn, g: real)
    requires Complete(env) && pw(env[Food], env[SexRatioShape]) == Some(g)
    ensures Evaluates(Body(MaleRatio), env, pw,
                      MaleRatioAt(env[AdaptationWeight], env[SexLow], env[SexHigh], g, env[FixedMaleRatio]))
  {
    LeafValues(env, pw);
    hide Evaluate;
    var power, gap := Power(Symbol(Food), Symbol(SexRatioShape)), Subtract(Symbol(SexLow), Symbol(SexHigh));
    PowerValue(Symbol(Food), Symbol(SexRatioShape), env, pw, env[Food], env[SexRatioShape]);
    SubtractValue(Symbol(SexLow), Symbol(SexHigh), env, pw);
    MultiplyPair(gap, power, env, pw);
    SubtractValue(Symbol(SexLow), Multiply([gap, power]), env, pw);
    MultiplyPair(Symbol(AdaptationWeight), AdaptiveTree(), env, pw);
    SubtractValue(One(), Symbol(AdaptationWeight), env, pw);
    MultiplyPair(Subtract(One(), Symbol(AdaptationWeight)), Symbol(FixedMaleRatio), env, pw);
    AddPair(Multiply([Symbol(AdaptationWeight), AdaptiveTree()]),
            Multiply([Subtract(One(), Symbol(AdaptationWeight)), Symbol(FixedMaleRatio)]), env, pw);
  }

  lemma SexRuleNeedsPower(env: Values, pw: PowerFn)
    requires Complete(env) && pw(env[Food], env[SexRatioShape]) == None
    ensures Evaluate(Body(MaleRatio), env, pw).Err?
  {
    LeafValues(env, pw);
    PowerValue(Symbol(Food), Symbol(SexRatioShape), env, pw, env[Food], env[SexRatioShape]);
    var power, gap := Power(Symbol(Food), Symbol(SexRatioShape)), Subtract(Symbol(SexLow), Symbol(SexHigh));
    MultiplyOk(gap, power, env, pw);
    SubtractOk(Symbol(SexLow), Multiply([gap, power]), env, pw);
    hide Evaluate;
    MultiplyOk(Symbol(AdaptationWeight), AdaptiveTree(), env, pw);
    AddOk(Multiply([Symbol(AdaptationWeight), AdaptiveTree()]),
          Multiply([Subtract(One(), Symbol(AdaptationWeight)), Symbol(FixedMaleRatio)]), env, pw);
  }

  lemma MultiplyOk(a: Expr, b: Expr, env: Values, pw: PowerFn)
    ensures Evaluate(Multiply([a, b]), env, pw).Ok? ==> Evaluate(a, env, pw).Ok? && Evaluate(b, env, pw).Ok?
  {
    hide Evaluate;
    assert [a, b][1..] == [b];
    ProductStep([a, b], env, pw);
    ProductStep([b], env, pw);
  }
}
