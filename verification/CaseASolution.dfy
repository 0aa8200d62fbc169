// The recomputation applied to the contract's own equation list and a full raw state.
module CaseASolution {
  import opened Results
  import opened Expressions
  import opened Resolver
  import opened Meaning
  import opened CaseA
  import opened CaseAValues
  import Spectrum
  import Stability

  function ContractDefinitions(): seq<Definition> {
    seq(26, i requires 0 <= i < 26 => (ListedAt(i); Definition(Listed()[i], Body(Listed()[i]))))
  }

  // The defining equations, followed by the initial values and the switch bounds, which
  // reuse base symbols on the left and therefore define nothing.
  function ContractEquations(): seq<Equation> {
    seq(26, i requires 0 <= i < 26 => Equation(Symbol(ContractDefinitions()[i].target), ContractDefinitions()[i].body)) + [
      Equation(Symbol(StateJ), Symbol(InitJ)),
      Equation(Symbol(StateA), Symbol(InitA)),
      Equation(Symbol(StateF), Symbol(InitF)),
      Equation(Symbol(StateP), Symbol(InitP)),
      Equation(Symbol(AdaptationWeight), Constant(0.0)),
      Equation(Symbol(AdaptationWeight), Constant(1.0))]
  }

  function ContractModel(parameters: seq<(Name, real)>): Model {
    Model({Food}, STATES, DERIVED, parameters, ContractEquations())
  }

  lemma DefinitionAt(i: nat)
    requires i < 26
    ensures var d := ContractDefinitions()[i];
            IsDerived(d.target) && Rank(d.target) == i && Listed()[i] == d.target && d.body == Body(d.target)
  {
    ListedAt(i);
  }

  lemma TargetsOfContract()
    ensures Targets(ContractDefinitions()) == DERIVED
  {
    forall n
      ensures n in Targets(ContractDefinitions()) <==> n in DERIVED
    {
      DerivedNames(n);
      if n in DERIVED {
        ListedByRank(n);
        DefinitionAt(Rank(n));
        assert ContractDefinitions()[Rank(n)] in ContractDefinitions();
      }
      if n in Targets(ContractDefinitions()) {
        var d :| d in ContractDefinitions() && d.target == n;
        var i :| 0 <= i < 26 && ContractDefinitions()[i] == d;
        DefinitionAt(i);
      }
    }
  }

  lemma ContractIsDistinct()
    ensures Distinct(ContractDefinitions())
  {
    forall i, k | 0 <= i < k < |ContractDefinitions()|
      ensures ContractDefinitions()[i].target != ContractDefinitions()[k].target
    {
      DefinitionAt(i);
      DefinitionAt(k);
    }
    DistinctByIndex(ContractDefinitions());
  }

  // The contract lists every equation after the equations it depends on.
  lemma ContractIsOrdered(known: set<Name>)
    requires forall n :: IsBase(n) ==> n in known
    ensures Ordered(ContractDefinitions(), known)
  {
    forall i, t | 0 <= i < |ContractDefinitions()| && t in Refs(ContractDefinitions()[i].body)
      ensures Available(ContractDefinitions(), known, i, t)
    {
      DefinitionAt(i);
      var n := ContractDefinitions()[i].target;
      BodyRefs(n);
      DependenciesAreRanked(n, t);
      if IsDerived(t) {
        ListedByRank(t);
        DefinitionAt(Rank(t));
        assert ContractDefinitions()[Rank(t)].target == t;
      }
    }
    OrderedByIndex(ContractDefinitions(), known);
  }

  lemma DefiningEquation(k: nat)
    requires k < 26
    ensures |ContractEquations()| == 32 && |ContractDefinitions()| == 26
    ensures ContractEquations()[k] == Equation(Symbol(ContractDefinitions()[k].target), ContractDefinitions()[k].body)
    ensures ContractDefinitions()[k].target in DERIVED
  {
    DefinitionAt(k);
    DerivedNames(ContractDefinitions()[k].target);
    hide ContractDefinitions, DERIVED, Rank;
  }

  lemma TrailingEquation(k: nat)
    requires 26 <= k < 32
    ensures |ContractEquations()| == 32
    ensures var q := ContractEquations()[k]; q.lhs.Symbol? && q.lhs.name !in DERIVED
  {
    var q := ContractEquations()[k];
    hide ContractDefinitions;
    assert q.lhs.Symbol? && q.lhs.name in {StateJ, StateA, StateF, StateP, AdaptationWeight};
    DerivedNames(q.lhs.name);
    hide DERIVED, ContractEquations;
  }

  // What has been collected after i equations.
  function CollectedBy(i: nat): seq<Definition>
    requires i <= 32
  {
    if i <= 26 then ContractDefinitions()[..i] else ContractDefinitions()
  }

  lemma AssignNext(es: seq<Equation>, derived: set<Name>, k: nat, ds: seq<Definition>, d: Definition)
    requires k < |es| && Assignments(es[..k], derived) == Ok(ds)
    requires es[k] == Equation(Symbol(d.target), d.body) && d.target in derived && d.target !in Targets(ds)
    ensures Assignments(es[..k + 1], derived) == Ok(ds + [d])
  {
    assert es[..k + 1][..k] == es[..k] && es[..k + 1][k] == es[k];
    hide Targets;
  }

  lemma AssignSkip(es: seq<Equation>, derived: set<Name>, k: nat, ds: seq<Definition>)
    requires k < |es| && Assignments(es[..k], derived) == Ok(ds)
    requires es[k].lhs.Symbol? && es[k].lhs.name !in derived
    ensures Assignments(es[..k + 1], derived) == Ok(ds)
  {
    assert es[..k + 1][..k] == es[..k] && es[..k + 1][k] == es[k];
    hide Targets;
  }

  lemma {:induction false} PrefixAssignments(i: nat)
    requires i <= 32
    ensures |ContractEquations()| == 32 && Assignments(ContractEquations()[..i], DERIVED) == Ok(CollectedBy(i))
  {
    DefiningEquation(0);
    var es, ds := ContractEquations(), ContractDefinitions();
    hide ContractEquations, ContractDefinitions, DERIVED;
    assert es[..0] == [] && ds[..0] == [] && ds[..26] == ds;
    if i > 0 {
      hide Assignments, Targets;
      var k := i - 1;
      PrefixAssignments(k);
      if k < 26 {
        DefiningEquation(k);
        NotYetAssigned(k);
        AssignNext(es, DERIVED, k, ds[..k], ds[k]);
        assert ds[..i] == ds[..k] + [ds[k]];
      } else {
        TrailingEquation(k);
        AssignSkip(es, DERIVED, k, ds);
      }
    }
  }

  lemma NotYetAssigned(k: nat)
    requires k < 26
    ensures ContractDefinitions()[k].target !in Targets(ContractDefinitions()[..k])
  {
    forall d | d in ContractDefinitions()[..k]
      ensures d.target != ContractDefinitions()[k].target
    {
      var i :| 0 <= i < k && ContractDefinitions()[..k][i] == d;
      DefinitionAt(i);
      DefinitionAt(k);
    }
  }

  lemma ContractAssignments()
    ensures Assignments(ContractEquations(), DERIVED) == Ok(ContractDefinitions())
  {
    PrefixAssignments(32);
    assert ContractEquations()[..32] == ContractEquations();
  }

  // ---- the closed form of every derived symbol ------------------------------------------

  ghost predicate BaseComplete(base: Values) {
    forall n :: IsBase(n) ==> n in base
  }

  function MaleRatioOf(base: Values, g: real): real
    requires BaseComplete(base)
  {
    MaleRatioAt(base[AdaptationWeight], base[SexLow], base[SexHigh], g, (base[SexLow] + base[SexHigh]) / 2.0)
  }

  function CapacityOf(base: Values): real
    requires BaseComplete(base)
  {
    base[CapMin] + base[CapSlope] * base[Food]
  }

  function ParamsAt(base: Values, g: real): Stability.Params
    requires BaseComplete(base)
  {
    Stability.Params(base[BirthCoef], 1.0 - MaleRatioOf(base, g), CapacityOf(base), base[MortLarva], base[Maturation],
                     base[MortAdult], base[FishGrowth], base[FishCapacity], base[AttackRate],
                     base[ParasiteGrowth], base[ParasiteCapacity], base[FishBenefitPar], base[LampreyCostPar])
  }

  function StateAt(base: Values): Spectrum.Vector
    requires BaseComplete(base)
  {
    Spectrum.Vector(base[StateJ], base[StateA], base[StateF], base[StateP])
  }

  // The raw state on which every equation can be evaluated.
  ghost predicate WellPosed(base: Values, pw: PowerFn)
    requires BaseComplete(base)
  {
    var g := pw(base[Food], base[SexRatioShape]);
    && g.Some?
    && Stability.Capacities(ParamsAt(base, g.value))
    && Stability.JacobianAt(ParamsAt(base, g.value), StateAt(base)).Disc() >= 0.0
  }

  // The nine entries, as a table from entry symbol to entry.
  function EntryOf(m: Spectrum.Jacobian, n: Name): real
    requires 8 <= Rank(n) < 17
  {
    match n
    case JacJJ => m.jj case JacJA => m.ja case JacAJ => m.aj case JacAA => m.aa
    case JacFA => m.fa case JacFF => m.ff
    case JacPA => m.pa case JacPF => m.pf case JacPP => m.pp
  }

  function RatioOf(base: Values, g: real, n: Name): real
    requires BaseComplete(base) && Rank(n) < 4
  {
    match n
    case FixedMaleRatio => (base[SexLow] + base[SexHigh]) / 2.0
    case MaleRatio => MaleRatioOf(base, g)
    case FemaleRatio => 1.0 - MaleRatioOf(base, g)
    case JuvCapacity => CapacityOf(base)
  }

  function RateOf(p: Stability.Params, x: Spectrum.Vector, n: Name): real
    requires Stability.Capacities(p) && 4 <= Rank(n) < 8
  {
    match n
    case RateJ => Stability.RateJ(p, x)
    case RateA => Stability.RateA(p, x)
    case RateF => Stability.RateF(p, x)
    case RateP => Stability.RateP(p, x)
  }

  function SpectralOf(m: Spectrum.Jacobian, s: real, n: Name): real
    requires 17 <= Rank(n) < 25
  {
    match n
    case TraceJA => m.Trace()
    case DetJA => m.Det()
    case DiscJA => m.Disc()
    case LambdaJAPlus => Spectrum.LambdaPlus(m, s)
    case LambdaJAMinus => Spectrum.LambdaMinus(m, s)
    case LambdaF => m.ff
    case LambdaP => m.pp
    case DominantRealPart => Spectrum.Dominant(m, s)
  }

  // The closed form: g is E^shape and s the square root of the discriminant.
  function Closed(base: Values, g: real, s: real, n: Name): real
    requires BaseComplete(base) && IsDerived(n) && Stability.Capacities(ParamsAt(base, g))
  {
    var p, x := ParamsAt(base, g), StateAt(base);
    if Rank(n) < 4 then RatioOf(base, g, n)
    else if Rank(n) < 8 then RateOf(p, x, n)
    else if Rank(n) < 17 then EntryOf(Stability.JacobianAt(p, x), n)
    else if Rank(n) < 25 then SpectralOf(Stability.JacobianAt(p, x), s, n)
    else Stability.ResidualSq(p, x)
  }

  // The values g and s of a well-posed state.
  ghost function FoodPower(base: Values, pw: PowerFn): real
    requires BaseComplete(base) && WellPosed(base, pw)
  {
    pw(base[Food], base[SexRatioShape]).value
  }

  ghost function DiscRoot(base: Values, pw: PowerFn): real
    requires BaseComplete(base) && WellPosed(base, pw) && LawfulPower(pw)
  {
    var disc := Stability.JacobianAt(ParamsAt(base, FoodPower(base, pw)), StateAt(base)).Disc();
    RootLaw(pw, disc);
    pw(disc, 0.5).value
  }

  ghost function SolutionAt(base: Values, pw: PowerFn, n: Name): real
    requires BaseComplete(base) && WellPosed(base, pw) && LawfulPower(pw) && IsDerived(n)
  {
    Closed(base, FoodPower(base, pw), DiscRoot(base, pw), n)
  }

  // ---- satisfying environments are the closed form --------------------------------------

  ghost predicate Extends(env: Values, base: Values) {
    forall n :: n in base ==> n in env && env[n] == base[n]
  }

  ghost predicate Solves(env: Values, pw: PowerFn) {
    Complete(env) && forall n :: IsDerived(n) ==> Evaluates(Body(n), env, pw, env[n])
  }

  ghost predicate IsClosed(env: Values, base: Values, g: real, s: real)
    requires BaseComplete(base) && Stability.Capacities(ParamsAt(base, g)) && Complete(env)
  {
    forall n :: IsDerived(n) ==> env[n] == Closed(base, g, s, n)
  }

  lemma EvaluatesUnique(e: Expr, env: Values, pw: PowerFn, x: real, y: real)
    requires Evaluates(e, env, pw, x) && Evaluates(e, env, pw, y)
    ensures x == y
  {
  }

  lemma Forced(n: Name, env: Values, pw: PowerFn, x: real)
    requires IsDerived(n) && Solves(env, pw) && Evaluates(Body(n), env, pw, x)
    ensures env[n] == x
  {
    hide Body, Evaluate;
    EvaluatesUnique(Body(n), env, pw, env[n], x);
  }

  lemma ForcedOk(n: Name, env: Values, pw: PowerFn)
    requires IsDerived(n) && Solves(env, pw)
    ensures Evaluate(Body(n), env, pw).Ok?
  {
    hide Body, Evaluate;
    assert Evaluates(Body(n), env, pw, env[n]);
  }

  lemma PowerForced(env: Values, pw: PowerFn)
    requires Solves(env, pw)
    ensures pw(env[Food], env[SexRatioShape]).Some?
  {
    ForcedOk(MaleRatio, env, pw);
    hide Evaluate, Body;
    if pw(env[Food], env[SexRatioShape]) == None { SexRuleNeedsPower(env, pw); }
  }

  lemma RatioTreesForced(env: Values, pw: PowerFn)
    requires Solves(env, pw)
    ensures env[FixedMaleRatio] == (env[SexLow] + env[SexHigh]) / 2.0
    ensures env[FemaleRatio] == 1.0 - env[MaleRatio]
    ensures env[JuvCapacity] == env[CapMin] + env[CapSlope] * env[Food]
  {
    hide Evaluate, Evaluates, Body;
    RatioValues(env, pw);
    Forced(FixedMaleRatio, env, pw, (env[SexLow] + env[SexHigh]) / 2.0);
    Forced(FemaleRatio, env, pw, 1.0 - env[MaleRatio]);
    Forced(JuvCapacity, env, pw, env[CapMin] + env[CapSlope] * env[Food]);
  }

  lemma SexRuleForced(env: Values, pw: PowerFn, g: real)
    requires Solves(env, pw) && pw(env[Food], env[SexRatioShape]) == Some(g)
    ensures env[MaleRatio] == MaleRatioAt(env[AdaptationWeight], env[SexLow], env[SexHigh], g, env[FixedMaleRatio])
  {
    hide Evaluate, Evaluates, Body, MaleRatioAt;
    SexRuleValue(env, pw, g);
    Forced(MaleRatio, env, pw, MaleRatioAt(env[AdaptationWeight], env[SexLow], env[SexHigh], g, env[FixedMaleRatio]));
  }

  lemma RatiosForced(env: Values, base: Values, pw: PowerFn, g: real)
    requires BaseComplete(base) && pw(base[Food], base[SexRatioShape]) == Some(g) && Solves(env, pw) && Extends(env, base)
    ensures env[MaleRatio] == MaleRatioOf(base, g)
    ensures env[FixedMaleRatio] == (base[SexLow] + base[SexHigh]) / 2.0
  {
    SameRatioBase(env, base);
    assert Complete(env);
    hide Solves, Extends, BaseComplete, MaleRatioAt, Complete, MaleRatioOf;
    RatioTreesForced(env, pw);
    SexRuleForced(env, pw, g);
    MaleRatioIs(base, g, env[FixedMaleRatio]);
  }

  lemma SameParams(env: Values, base: Values, g: real)
    requires BaseComplete(base) && Complete(env) && Extends(env, base)
    requires env[FemaleRatio] == 1.0 - MaleRatioOf(base, g) && env[JuvCapacity] == CapacityOf(base)
    ensures ParamsOf(env) == ParamsAt(base, g) && StateOf(env) == StateAt(base)
  {
    hide MaleRatioOf, CapacityOf;
  }

  lemma ParamsForced(env: Values, base: Values, pw: PowerFn, g: real)
    requires BaseComplete(base) && Extends(env, base) && Solves(env, pw)
    requires pw(base[Food], base[SexRatioShape]) == Some(g)
    ensures ParamsOf(env) == ParamsAt(base, g) && StateOf(env) == StateAt(base)
    ensures env[FemaleRatio] == 1.0 - MaleRatioOf(base, g) && env[JuvCapacity] == CapacityOf(base)
  {
    hide Evaluate, Evaluates, Body, MaleRatioOf;
    SameRatioBase(env, base);
    RatioTreesForced(env, pw);
    RatiosForced(env, base, pw, g);
    SameParams(env, base, g);
  }

  lemma MaleRatioIs(base: Values, g: real, fixed: real)
    requires BaseComplete(base) && fixed == (base[SexLow] + base[SexHigh]) / 2.0
    ensures MaleRatioOf(base, g) == MaleRatioAt(base[AdaptationWeight], base[SexLow], base[SexHigh], g, fixed)
  {
  }

  lemma SameRatioBase(env: Values, base: Values)
    requires BaseComplete(base) && Complete(env) && Extends(env, base)
    ensures env[Food] == base[Food] && env[SexRatioShape] == base[SexRatioShape]
    ensures env[AdaptationWeight] == base[AdaptationWeight]
    ensures env[SexLow] == base[SexLow] && env[SexHigh] == base[SexHigh]
    ensures env[CapMin] == base[CapMin] && env[CapSlope] == base[CapSlope]
  {
  }

  // ---- a state is evaluable only when the three capacities are nonzero -------------------

  lemma LogisticNeedsCapacity(rate: Name, level: Name, capacity: Name, env: Values, pw: PowerFn)
    requires rate in env && level in env && capacity in env
    requires Evaluate(LogisticTree(rate, level, capacity), env, pw).Ok?
    ensures env[capacity] != 0.0
  {
    hide Evaluate, RoomTree;
    MultiplyOk(Symbol(rate), Multiply([Symbol(level), RoomTree(level, capacity)]), env, pw);
    MultiplyOk(Symbol(level), RoomTree(level, capacity), env, pw);
    RoomValue(level, capacity, env, pw);
  }

  lemma RateJNeedsCapacity(env: Values, pw: PowerFn)
    requires Complete(env) && Evaluate(Body(RateJ), env, pw).Ok?
    ensures env[JuvCapacity] != 0.0
  {
    hide Evaluate, RoomTree, PairTree;
    var room := RoomTree(StateJ, JuvCapacity);
    var inner := Multiply([Symbol(StateA), room]);
    var births := Multiply([Symbol(BirthCoef), Multiply([Symbol(FemaleRatio), inner])]);
    SubtractOk(births, PairTree(MortLarva, StateJ), env, pw);
    MultiplyOk(Symbol(BirthCoef), Multiply([Symbol(FemaleRatio), inner]), env, pw);
    MultiplyOk(Symbol(FemaleRatio), inner, env, pw);
    MultiplyOk(Symbol(StateA), room, env, pw);
    RoomValue(StateJ, JuvCapacity, env, pw);
  }

  lemma RateFNeedsCapacity(env: Values, pw: PowerFn)
    requires Complete(env) && Evaluate(Body(RateF), env, pw).Ok?
    ensures env[FishCapacity] != 0.0
  {
    hide Evaluate, LogisticTree, TripleTree;
    SubtractOk(LogisticTree(FishGrowth, StateF, FishCapacity), TripleTree(AttackRate, StateA, StateF), env, pw);
    LogisticNeedsCapacity(FishGrowth, StateF, FishCapacity, env, pw);
  }

  lemma RatePNeedsCapacity(env: Values, pw: PowerFn)
    requires Complete(env) && Evaluate(Body(RateP), env, pw).Ok?
    ensures env[ParasiteCapacity] != 0.0
  {
    hide Evaluate, LogisticTree, TripleTree;
    var growth, gain := LogisticTree(ParasiteGrowth, StateP, ParasiteCapacity), TripleTree(FishBenefitPar, StateF, StateP);
    SubtractOk(Add([growth, gain]), TripleTree(LampreyCostPar, StateA, StateP), env, pw);
    AddOk(growth, gain, env, pw);
    LogisticNeedsCapacity(ParasiteGrowth, StateP, ParasiteCapacity, env, pw);
  }

  lemma CapacitiesForced(env: Values, pw: PowerFn)
    requires Solves(env, pw)
    ensures Stability.Capacities(ParamsOf(env))
  {
    hide Evaluate, Body, Evaluates;
    ForcedOk(RateJ, env, pw);
    RateJNeedsCapacity(env, pw);
    ForcedOk(RateF, env, pw);
    RateFNeedsCapacity(env, pw);
    ForcedOk(RateP, env, pw);
    RatePNeedsCapacity(env, pw);
  }

  // ---- rates, Jacobian and spectrum of a satisfying environment ---------------------------

  ghost predicate RatesMatch(env: Values)
    requires Complete(env) && Stability.Capacities(ParamsOf(env))
  {
    forall n :: 4 <= Rank(n) < 8 ==> env[n] == RateOf(ParamsOf(env), StateOf(env), n)
  }

  lemma RatesEvaluate(env: Values, pw: PowerFn, n: Name)
    requires Complete(env) && Stability.Capacities(ParamsOf(env)) && 4 <= Rank(n) < 8
    ensures Evaluates(Body(n), env, pw, RateOf(ParamsOf(env), StateOf(env), n))
  {
    hide Evaluate, Evaluates, Body, Stability.RateJ, Stability.RateA, Stability.RateF, Stability.RateP;
    match n
    case RateJ => RateJValue(env, pw);
    case RateA => RateAValue(env, pw);
    case RateF => RateFValue(env, pw);
    case RateP => RatePValue(env, pw);
  }

  lemma RatesForced(env: Values, pw: PowerFn)
    requires Solves(env, pw) && Stability.Capacities(ParamsOf(env))
    ensures RatesMatch(env)
  {
    hide Evaluate, Evaluates, Body, RateOf, ParamsOf, StateOf;
    forall n | 4 <= Rank(n) < 8
      ensures env[n] == RateOf(ParamsOf(env), StateOf(env), n)
    {
      RatesEvaluate(env, pw, n);
      Forced(n, env, pw, RateOf(ParamsOf(env), StateOf(env), n));
    }
  }

  lemma EntriesEvaluate(env: Values, pw: PowerFn, n: Name)
    requires Complete(env) && Stability.Capacities(ParamsOf(env)) && 8 <= Rank(n) < 17
    ensures Evaluates(Body(n), env, pw, EntryOf(Stability.JacobianAt(ParamsOf(env), StateOf(env)), n))
  {
    hide Evaluate, Evaluates, Body, Stability.JacobianAt;
    match n
    case JacJJ => JacJJValue(env, pw);
    case JacJA => JacJAValue(env, pw);
    case JacAJ => JacConstantValues(env, pw);
    case JacAA => JacConstantValues(env, pw);
    case JacFA => JacFAValue(env, pw);
    case JacFF => JacFFValue(env, pw);
    case JacPA => JacPAValue(env, pw);
    case JacPF => JacPFValue(env, pw);
    case JacPP => JacPPValue(env, pw);
  }

  lemma EntriesForced(env: Values, pw: PowerFn)
    requires Solves(env, pw) && Stability.Capacities(ParamsOf(env))
    ensures JacobianOf(env) == Stability.JacobianAt(ParamsOf(env), StateOf(env))
  {
    hide Evaluate, Evaluates, Body, Stability.JacobianAt;
    var m := Stability.JacobianAt(ParamsOf(env), StateOf(env));
    forall n | 8 <= Rank(n) < 17
      ensures env[n] == EntryOf(m, n)
    {
      EntriesEvaluate(env, pw, n);
      Forced(n, env, pw, EntryOf(m, n));
    }
    EntriesMakeJacobian(env, m);
  }

  ghost predicate EntriesMatch(env: Values, m: Spectrum.Jacobian)
    requires Complete(env)
  {
    forall n :: 8 <= Rank(n) < 17 ==> env[n] == EntryOf(m, n)
  }

  lemma EntriesMakeJacobian(env: Values, m: Spectrum.Jacobian)
    requires Complete(env) && EntriesMatch(env, m)
    ensures JacobianOf(env) == m
  {
    BlockEntries(env, m);
    LowerEntries(env, m);
    hide Complete, EntriesMatch;
  }

  lemma BlockEntries(env: Values, m: Spectrum.Jacobian)
    requires Complete(env) && EntriesMatch(env, m)
    ensures var j := JacobianOf(env); j.jj == m.jj && j.ja == m.ja && j.aj == m.aj && j.aa == m.aa
  {
    assert Rank(JacJJ) == 8 && Rank(JacJA) == 9 && Rank(JacAJ) == 10 && Rank(JacAA) == 11;
    hide Complete, Rank;
  }

  lemma LowerEntries(env: Values, m: Spectrum.Jacobian)
    requires Complete(env) && EntriesMatch(env, m)
    ensures var j := JacobianOf(env); j.fa == m.fa && j.ff == m.ff && j.pa == m.pa && j.pf == m.pf && j.pp == m.pp
  {
    assert Rank(JacFA) == 12 && Rank(JacFF) == 13 && Rank(JacPA) == 14 && Rank(JacPF) == 15 && Rank(JacPP) == 16;
    hide Complete, Rank;
  }

  ghost predicate SpectrumMatch(env: Values, m: Spectrum.Jacobian, s: real)
    requires Complete(env)
  {
    && env[LambdaJAPlus] == Spectrum.LambdaPlus(m, s) && env[LambdaJAMinus] == Spectrum.LambdaMinus(m, s)
    && env[LambdaF] == m.ff && env[LambdaP] == m.pp
    && env[DominantRealPart] == Spectrum.Dominant(m, s)
  }

  ghost predicate InvariantsMatch(env: Values, m: Spectrum.Jacobian)
    requires Complete(env)
  {
    env[TraceJA] == m.Trace() && env[DetJA] == m.Det() && env[DiscJA] == m.Disc()
  }

  lemma TraceForced(env: Values, pw: PowerFn)
    requires Solves(env, pw)
    ensures env[TraceJA] == JacobianOf(env).Trace()
  {
    hide Evaluate, Evaluates, Body, JacobianOf;
    TraceValue(env, pw);
    Forced(TraceJA, env, pw, JacobianOf(env).Trace());
  }

  lemma DetForced(env: Values, pw: PowerFn)
    requires Solves(env, pw)
    ensures env[DetJA] == JacobianOf(env).Det()
  {
    hide Evaluate, Evaluates, Body, JacobianOf;
    DetValue(env, pw);
    Forced(DetJA, env, pw, JacobianOf(env).Det());
  }

  lemma DiscIsForced(env: Values, pw: PowerFn)
    requires Solves(env, pw) && LawfulPower(pw)
    ensures env[DiscJA] == env[TraceJA] * env[TraceJA] - 4.0 * env[DetJA]
  {
    hide Evaluate, Evaluates, Body, LawfulPower;
    DiscValue(env, pw);
    Forced(DiscJA, env, pw, env[TraceJA] * env[TraceJA] - 4.0 * env[DetJA]);
  }

  lemma InvariantsForced(env: Values, pw: PowerFn)
    requires Solves(env, pw) && LawfulPower(pw)
    ensures InvariantsMatch(env, JacobianOf(env))
  {
    hide Evaluates, LawfulPower, JacobianOf;
    TraceForced(env, pw);
    DetForced(env, pw);
    DiscIsForced(env, pw);
  }

  lemma DiscForced(env: Values, pw: PowerFn)
    requires Solves(env, pw) && LawfulPower(pw)
    ensures env[DiscJA] >= 0.0
  {
    hide Evaluate, Evaluates, Body, LawfulPower;
    ForcedOk(LambdaJAPlus, env, pw);
    if env[DiscJA] < 0.0 { LambdaNeedsDisc(env, pw); }
  }

  lemma LambdasForced(env: Values, pw: PowerFn, s: real)
    requires Solves(env, pw) && LawfulPower(pw) && env[DiscJA] >= 0.0 && pw(env[DiscJA], 0.5) == Some(s)
    ensures env[LambdaJAPlus] == (env[TraceJA] + s) / 2.0 && env[LambdaJAMinus] == (env[TraceJA] - s) / 2.0
  {
    hide Evaluate, Evaluates, Body, LawfulPower;
    LambdaValues(env, pw);
    Forced(LambdaJAPlus, env, pw, (env[TraceJA] + s) / 2.0);
    Forced(LambdaJAMinus, env, pw, (env[TraceJA] - s) / 2.0);
  }

  lemma DominantForced(env: Values, pw: PowerFn)
    requires Solves(env, pw) && LawfulPower(pw)
    ensures env[LambdaF] == env[JacFF] && env[LambdaP] == env[JacPP]
    ensures env[DominantRealPart] == Spectrum.Max(env[LambdaJAPlus], Spectrum.Max(env[LambdaF], env[LambdaP]))
  {
    hide Evaluate, Evaluates, Body, LawfulPower, Spectrum.Max;
    DiagonalValues(env, pw);
    Forced(LambdaF, env, pw, env[JacFF]);
    Forced(LambdaP, env, pw, env[JacPP]);
    DominantValue(env, pw);
    Forced(DominantRealPart, env, pw, Spectrum.Max(env[LambdaJAPlus], Spectrum.Max(env[LambdaF], env[LambdaP])));
  }

  lemma SpectrumForced(env: Values, pw: PowerFn, m: Spectrum.Jacobian, s: real)
    requires Solves(env, pw) && LawfulPower(pw) && m == JacobianOf(env) && Spectrum.IsDiscRoot(m, s)
    requires pw(env[DiscJA], 0.5) == Some(s) && env[DiscJA] >= 0.0 && env[TraceJA] == m.Trace()
    ensures SpectrumMatch(env, m, s)
  {
    hide LawfulPower, Evaluates, Spectrum.IsDiscRoot, Spectrum.Dominant, Spectrum.Max;
    LambdasForced(env, pw, s);
    DominantForced(env, pw);
    Spectrum.PlusDominatesMinus(m, s);
    hide Solves, Complete;
  }

  lemma ResidualForced(env: Values, pw: PowerFn)
    requires Solves(env, pw) && LawfulPower(pw) && Stability.Capacities(ParamsOf(env)) && RatesMatch(env)
    ensures env[EquilibriumResidualSq] == Stability.ResidualSq(ParamsOf(env), StateOf(env))
  {
    hide Evaluates, LawfulPower, Stability.ResidualSq, RatesMatch, ParamsOf, StateOf;
    ResidualFromRates(env, pw);
    SameSquares(env);
  }

  lemma ResidualFromRates(env: Values, pw: PowerFn)
    requires Solves(env, pw) && LawfulPower(pw)
    ensures env[EquilibriumResidualSq]
         == env[RateJ] * env[RateJ] + env[RateA] * env[RateA] + env[RateF] * env[RateF] + env[RateP] * env[RateP]
  {
    hide Evaluate, Evaluates, Body, LawfulPower;
    ResidualValue(env, pw);
    Forced(EquilibriumResidualSq, env, pw,
           env[RateJ] * env[RateJ] + env[RateA] * env[RateA] + env[RateF] * env[RateF] + env[RateP] * env[RateP]);
  }

  lemma SameSquares(env: Values)
    requires Complete(env) && Stability.Capacities(ParamsOf(env)) && RatesMatch(env)
    ensures Stability.ResidualSq(ParamsOf(env), StateOf(env))
         == env[RateJ] * env[RateJ] + env[RateA] * env[RateA] + env[RateF] * env[RateF] + env[RateP] * env[RateP]
  {
    hide Stability.RateJ, Stability.RateA, Stability.RateF, Stability.RateP, ParamsOf, StateOf;
  }

  // ---- the groups together are the closed form -------------------------------------------

  ghost predicate RatiosMatch(env: Values, base: Values, g: real)
    requires BaseComplete(base) && Complete(env)
  {
    && env[FixedMaleRatio] == (base[SexLow] + base[SexHigh]) / 2.0
    && env[MaleRatio] == MaleRatioOf(base, g)
    && env[FemaleRatio] == 1.0 - MaleRatioOf(base, g)
    && env[JuvCapacity] == CapacityOf(base)
  }

  ghost predicate GroupsMatch(env: Values, base: Values, g: real, s: real)
    requires BaseComplete(base) && Complete(env)
  {
    && RatiosMatch(env, base, g)
    && ParamsOf(env) == ParamsAt(base, g) && StateOf(env) == StateAt(base)
    && Stability.Capacities(ParamsOf(env))
    && RatesMatch(env)
    && JacobianOf(env) == Stability.JacobianAt(ParamsOf(env), StateOf(env))
    && InvariantsMatch(env, JacobianOf(env))
    && SpectrumMatch(env, JacobianOf(env), s)
    && env[EquilibriumResidualSq] == Stability.ResidualSq(ParamsOf(env), StateOf(env))
  }

  lemma GroupsAreClosed(env: Values, base: Values, g: real, s: real)
    requires BaseComplete(base) && Complete(env) && GroupsMatch(env, base, g, s)
    ensures Stability.Capacities(ParamsAt(base, g)) && IsClosed(env, base, g, s)
  {
    forall n | IsDerived(n)
      ensures env[n] == Closed(base, g, s, n)
    {
      if Rank(n) < 8 {
        EarlyAreClosed(env, base, g, s, n);
      } else if Rank(n) < 17 {
        EntriesAreClosed(env, base, g, s, n);
      } else {
        LateAreClosed(env, base, g, s, n);
      }
    }
  }

  lemma EarlyAreClosed(env: Values, base: Values, g: real, s: real, n: Name)
    requires BaseComplete(base) && Complete(env) && IsDerived(n) && Rank(n) < 8 && GroupsMatch(env, base, g, s)
    ensures env[n] == Closed(base, g, s, n)
  {
    hide Stability.RateJ, Stability.RateA, Stability.RateF, Stability.RateP, ParamsOf, ParamsAt, StateOf, StateAt,
         Stability.JacobianAt, JacobianOf, Complete, BaseComplete, SpectrumMatch, InvariantsMatch, MaleRatioOf, Stability.ResidualSq;
  }

  lemma EntriesAreClosed(env: Values, base: Values, g: real, s: real, n: Name)
    requires BaseComplete(base) && Complete(env) && IsDerived(n) && 8 <= Rank(n) < 17 && GroupsMatch(env, base, g, s)
    ensures env[n] == Closed(base, g, s, n)
  {
    hide ParamsOf, ParamsAt, StateOf, StateAt, RatesMatch, RatiosMatch, Stability.ResidualSq,
         Stability.JacobianAt, Complete, BaseComplete, SpectrumMatch, InvariantsMatch, MaleRatioOf;
  }

  lemma LateAreClosed(env: Values, base: Values, g: real, s: real, n: Name)
    requires BaseComplete(base) && Complete(env) && IsDerived(n) && 17 <= Rank(n) && GroupsMatch(env, base, g, s)
    ensures env[n] == Closed(base, g, s, n)
  {
    hide ParamsOf, ParamsAt, StateOf, StateAt, RatesMatch, RatiosMatch, Stability.ResidualSq, JacobianOf,
         Stability.JacobianAt, Complete, BaseComplete, MaleRatioOf, Spectrum.LambdaPlus, Spectrum.LambdaMinus, Spectrum.Dominant;
  }

  lemma SolvesGroups(env: Values, base: Values, pw: PowerFn, g: real, s: real)
    requires BaseComplete(base) && Extends(env, base) && Solves(env, pw) && LawfulPower(pw)
    requires pw(base[Food], base[SexRatioShape]) == Some(g)
    requires env[DiscJA] >= 0.0 && pw(env[DiscJA], 0.5) == Some(s)
    ensures GroupsMatch(env, base, g, s)
  {
    assert Complete(env);
    hide Solves, Extends, Evaluates, LawfulPower, RatesMatch, ParamsOf, ParamsAt, StateOf, StateAt, JacobianOf, MaleRatioOf, CapacityOf,
         Stability.JacobianAt, Stability.ResidualSq, Stability.Capacities, SpectrumMatch, Spectrum.IsDiscRoot, Complete, BaseComplete;
    ParamsForced(env, base, pw, g);
    RatiosForced(env, base, pw, g);
    CapacitiesForced(env, pw);
    RatesForced(env, pw);
    EntriesForced(env, pw);
    InvariantsForced(env, pw);
    RootOfDisc(env, pw, s);
    SpectrumForced(env, pw, JacobianOf(env), s);
    ResidualForced(env, pw);
  }

  // Whatever satisfies every equation extends a well-posed state and is its closed form.
  lemma SolvesIsClosed(env: Values, base: Values, pw: PowerFn)
    requires BaseComplete(base) && Extends(env, base) && Solves(env, pw) && LawfulPower(pw)
    ensures WellPosed(base, pw) && IsClosed(env, base, FoodPower(base, pw), DiscRoot(base, pw))
  {
    SameRatioBase(env, base);
    PowerForced(env, pw);
    DiscForced(env, pw);
    RootLaw(pw, env[DiscJA]);
    var g, s := pw(base[Food], base[SexRatioShape]).value, pw(env[DiscJA], 0.5).value;
    SolvesGroups(env, base, pw, g, s);
    hide Solves, Extends, LawfulPower, RatiosMatch, RatesMatch, SpectrumMatch, ParamsOf, ParamsAt, StateOf, StateAt, JacobianOf,
         Stability.JacobianAt, Stability.ResidualSq, Stability.Capacities, Complete, BaseComplete;
    GroupsAreClosed(env, base, g, s);
  }

  // ---- the closed form satisfies every equation --------------------------------------------

  lemma ClosedRatios(env: Values, base: Values, g: real, s: real)
    requires BaseComplete(base) && Complete(env) && Stability.Capacities(ParamsAt(base, g)) && IsClosed(env, base, g, s)
    ensures RatiosMatch(env, base, g)
  {
    assert IsDerived(FixedMaleRatio) && IsDerived(MaleRatio) && IsDerived(FemaleRatio) && IsDerived(JuvCapacity);
    hide Complete, BaseComplete, Rank, ParamsAt, MaleRatioOf;
  }

  lemma ClosedRates(env: Values, base: Values, g: real, s: real)
    requires BaseComplete(base) && Complete(env) && Stability.Capacities(ParamsAt(base, g)) && IsClosed(env, base, g, s)
    requires ParamsOf(env) == ParamsAt(base, g) && StateOf(env) == StateAt(base)
    ensures RatesMatch(env)
  {
    forall n | 4 <= Rank(n) < 8
      ensures env[n] == RateOf(ParamsOf(env), StateOf(env), n)
    {
      hide Complete, BaseComplete, ParamsAt, ParamsOf, StateAt, StateOf, RateOf;
      assert IsDerived(n);
    }
  }

  lemma ClosedResidual(env: Values, base: Values, g: real, s: real)
    requires BaseComplete(base) && Complete(env) && Stability.Capacities(ParamsAt(base, g)) && IsClosed(env, base, g, s)
    requires ParamsOf(env) == ParamsAt(base, g) && StateOf(env) == StateAt(base)
    ensures env[EquilibriumResidualSq] == Stability.ResidualSq(ParamsOf(env), StateOf(env))
  {
    assert IsDerived(EquilibriumResidualSq);
    hide Complete, BaseComplete, Rank, ParamsAt, ParamsOf, StateAt, StateOf, Stability.JacobianAt, MaleRatioOf,
         Stability.ResidualSq;
  }

  lemma ClosedEntries(env: Values, base: Values, g: real, s: real)
    requires BaseComplete(base) && Complete(env) && Stability.Capacities(ParamsAt(base, g)) && IsClosed(env, base, g, s)
    requires ParamsOf(env) == ParamsAt(base, g) && StateOf(env) == StateAt(base)
    ensures JacobianOf(env) == Stability.JacobianAt(ParamsOf(env), StateOf(env))
  {
    var m := Stability.JacobianAt(ParamsOf(env), StateOf(env));
    forall n | 8 <= Rank(n) < 17
      ensures env[n] == EntryOf(m, n)
    {
      hide Complete, BaseComplete, ParamsAt, ParamsOf, StateAt, StateOf, Stability.JacobianAt;
      assert IsDerived(n);
    }
    hide ParamsAt, ParamsOf, StateAt, StateOf, Stability.JacobianAt, JacobianOf, IsClosed, Complete, BaseComplete;
    EntriesMakeJacobian(env, m);
  }

  ghost predicate SpectralTable(env: Values, m: Spectrum.Jacobian, s: real)
    requires Complete(env)
  {
    forall n :: 17 <= Rank(n) < 25 ==> env[n] == SpectralOf(m, s, n)
  }

  lemma ClosedTable(env: Values, base: Values, g: real, s: real, m: Spectrum.Jacobian)
    requires BaseComplete(base) && Complete(env) && Stability.Capacities(ParamsAt(base, g)) && IsClosed(env, base, g, s)
    requires m == Stability.JacobianAt(ParamsAt(base, g), StateAt(base))
    ensures SpectralTable(env, m, s)
  {
    forall n | 17 <= Rank(n) < 25
      ensures env[n] == SpectralOf(m, s, n)
    {
      hide Complete, BaseComplete, ParamsAt, StateAt, Stability.JacobianAt, SpectralOf;
      assert IsDerived(n);
    }
  }

  lemma ClosedSpectrum(env: Values, base: Values, g: real, s: real)
    requires BaseComplete(base) && Complete(env) && Stability.Capacities(ParamsAt(base, g)) && IsClosed(env, base, g, s)
    requires JacobianOf(env) == Stability.JacobianAt(ParamsAt(base, g), StateAt(base))
    ensures InvariantsMatch(env, JacobianOf(env)) && SpectrumMatch(env, JacobianOf(env), s)
  {
    hide IsClosed, Complete, BaseComplete, ParamsAt, StateAt, JacobianOf, Stability.JacobianAt, InvariantsMatch, SpectrumMatch, SpectralTable;
    ClosedTable(env, base, g, s, JacobianOf(env));
    InvariantsFromTable(env, JacobianOf(env), s);
    SpectrumFromTable(env, JacobianOf(env), s);
  }

  lemma InvariantsFromTable(env: Values, m: Spectrum.Jacobian, s: real)
    requires Complete(env) && SpectralTable(env, m, s)
    ensures InvariantsMatch(env, m)
  {
    assert Rank(TraceJA) == 17 && Rank(DetJA) == 18 && Rank(DiscJA) == 19;
    hide Complete, Rank;
  }

  lemma SpectrumFromTable(env: Values, m: Spectrum.Jacobian, s: real)
    requires Complete(env) && SpectralTable(env, m, s)
    ensures SpectrumMatch(env, m, s)
  {
    assert Rank(LambdaJAPlus) == 20 && Rank(LambdaJAMinus) == 21 && Rank(LambdaF) == 22 && Rank(LambdaP) == 23 && Rank(DominantRealPart) == 24;
    hide Complete, Rank, Spectrum.LambdaPlus, Spectrum.LambdaMinus, Spectrum.Dominant;
  }

  lemma ClosedGroups(env: Values, base: Values, g: real, s: real)
    requires BaseComplete(base) && Complete(env) && Extends(env, base) && Stability.Capacities(ParamsAt(base, g))
    requires IsClosed(env, base, g, s)
    ensures GroupsMatch(env, base, g, s)
  {
    ClosedRatios(env, base, g, s);
    hide IsClosed, Complete, BaseComplete, Extends, MaleRatioOf, CapacityOf;
    SameParams(env, base, g);
    ClosedRates(env, base, g, s);
    ClosedResidual(env, base, g, s);
    ClosedEntries(env, base, g, s);
    ClosedSpectrum(env, base, g, s);
  }

  lemma FixedRatioHolds(env: Values, base: Values, pw: PowerFn, g: real)
    requires BaseComplete(base) && Complete(env) && Extends(env, base) && RatiosMatch(env, base, g)
    ensures Evaluates(Body(FixedMaleRatio), env, pw, env[FixedMaleRatio])
  {
    SameRatioBase(env, base);
    hide Evaluate, Evaluates, Body, Extends, MaleRatioOf, MaleRatioAt;
    RatioValues(env, pw);
    EvaluatesAt(Body(FixedMaleRatio), env, pw, (env[SexLow] + env[SexHigh]) / 2.0, env[FixedMaleRatio]);
  }

  lemma FemaleRatioHolds(env: Values, base: Values, pw: PowerFn, g: real)
    requires BaseComplete(base) && Complete(env) && RatiosMatch(env, base, g)
    ensures Evaluates(Body(FemaleRatio), env, pw, env[FemaleRatio])
  {
    hide Evaluate, Evaluates, Body, MaleRatioOf, CapacityOf, BaseComplete;
    RatioValues(env, pw);
    EvaluatesAt(Body(FemaleRatio), env, pw, 1.0 - env[MaleRatio], env[FemaleRatio]);
  }

  lemma JuvCapacityHolds(env: Values, base: Values, pw: PowerFn, g: real)
    requires BaseComplete(base) && Complete(env) && Extends(env, base) && RatiosMatch(env, base, g)
    ensures Evaluates(Body(JuvCapacity), env, pw, env[JuvCapacity])
  {
    SameCapacity(env, base);
    hide Evaluate, Evaluates, Body, Extends, MaleRatioOf, BaseComplete, CapacityOf;
    RatioValues(env, pw);
    EvaluatesAt(Body(JuvCapacity), env, pw, env[CapMin] + env[CapSlope] * env[Food], env[JuvCapacity]);
  }

  lemma SameCapacity(env: Values, base: Values)
    requires BaseComplete(base) && Complete(env) && Extends(env, base)
    ensures env[CapMin] + env[CapSlope] * env[Food] == CapacityOf(base)
  {
    SameRatioBase(env, base);
    hide Extends;
  }

  lemma SexRuleHolds(env: Values, base: Values, pw: PowerFn, g: real)
    requires BaseComplete(base) && Complete(env) && Extends(env, base) && RatiosMatch(env, base, g)
    requires pw(base[Food], base[SexRatioShape]) == Some(g)
    ensures Evaluates(Body(MaleRatio), env, pw, env[MaleRatio])
  {
    SameRatioBase(env, base);
    hide Evaluate, Evaluates, Body, Extends, MaleRatioAt, BaseComplete;
    SexRuleValue(env, pw, g);
    MaleRatioIs(base, g, env[FixedMaleRatio]);
    EvaluatesAt(Body(MaleRatio), env, pw,
                MaleRatioAt(env[AdaptationWeight], env[SexLow], env[SexHigh], g, env[FixedMaleRatio]), env[MaleRatio]);
  }

  lemma RateTreesHold(env: Values, pw: PowerFn, n: Name)
    requires Complete(env) && Stability.Capacities(ParamsOf(env)) && RatesMatch(env) && 4 <= Rank(n) < 8
    ensures Evaluates(Body(n), env, pw, env[n])
  {
    hide Evaluate, Evaluates, Body, RateOf, ParamsOf, StateOf;
    RatesEvaluate(env, pw, n);
    EvaluatesAt(Body(n), env, pw, RateOf(ParamsOf(env), StateOf(env), n), env[n]);
  }

  lemma EntryTreesHold(env: Values, pw: PowerFn, n: Name)
    requires Complete(env) && Stability.Capacities(ParamsOf(env)) && 8 <= Rank(n) < 17
    requires JacobianOf(env) == Stability.JacobianAt(ParamsOf(env), StateOf(env))
    ensures Evaluates(Body(n), env, pw, env[n])
  {
    EntryOfJacobian(env, n);
    hide Evaluate, Evaluates, Body, ParamsOf, StateOf, JacobianOf, Stability.JacobianAt, EntryOf;
    EntriesEvaluate(env, pw, n);
    EvaluatesAt(Body(n), env, pw, EntryOf(Stability.JacobianAt(ParamsOf(env), StateOf(env)), n), env[n]);
  }

  lemma EntryOfJacobian(env: Values, n: Name)
    requires Complete(env) && 8 <= Rank(n) < 17
    ensures EntryOf(JacobianOf(env), n) == env[n]
  {
    hide Complete;
  }

  lemma InvariantTreesHold(env: Values, pw: PowerFn, n: Name)
    requires Complete(env) && LawfulPower(pw) && InvariantsMatch(env, JacobianOf(env)) && 17 <= Rank(n) < 20
    ensures Evaluates(Body(n), env, pw, env[n])
  {
    hide Evaluate, Evaluates, Body, LawfulPower, JacobianOf;
    match n
    case TraceJA => TraceValue(env, pw); EvaluatesAt(Body(n), env, pw, JacobianOf(env).Trace(), env[n]);
    case DetJA => DetValue(env, pw); EvaluatesAt(Body(n), env, pw, JacobianOf(env).Det(), env[n]);
    case DiscJA => DiscValue(env, pw); EvaluatesAt(Body(n), env, pw, env[TraceJA] * env[TraceJA] - 4.0 * env[DetJA], env[n]);
  }

  lemma PlusTreeHolds(env: Values, pw: PowerFn, m: Spectrum.Jacobian, s: real)
    requires Complete(env) && LawfulPower(pw) && SpectrumMatch(env, m, s)
    requires env[TraceJA] == m.Trace() && env[DiscJA] >= 0.0 && pw(env[DiscJA], 0.5) == Some(s)
    ensures Evaluates(Body(LambdaJAPlus), env, pw, env[LambdaJAPlus])
  {
    hide Evaluate, Evaluates, Body, LawfulPower, Spectrum.Dominant, Spectrum.LambdaMinus;
    LambdaValues(env, pw);
    EvaluatesAt(Body(LambdaJAPlus), env, pw, (env[TraceJA] + s) / 2.0, env[LambdaJAPlus]);
  }

  lemma MinusTreeHolds(env: Values, pw: PowerFn, m: Spectrum.Jacobian, s: real)
    requires Complete(env) && LawfulPower(pw) && SpectrumMatch(env, m, s)
    requires env[TraceJA] == m.Trace() && env[DiscJA] >= 0.0 && pw(env[DiscJA], 0.5) == Some(s)
    ensures Evaluates(Body(LambdaJAMinus), env, pw, env[LambdaJAMinus])
  {
    hide Evaluate, Evaluates, Body, LawfulPower, Spectrum.Dominant, Spectrum.LambdaPlus;
    LambdaValues(env, pw);
    EvaluatesAt(Body(LambdaJAMinus), env, pw, (env[TraceJA] - s) / 2.0, env[LambdaJAMinus]);
  }

  lemma DominantTreesHold(env: Values, pw: PowerFn, m: Spectrum.Jacobian, s: real, n: Name)
    requires Complete(env) && LawfulPower(pw) && m == JacobianOf(env) && SpectrumMatch(env, m, s) && Spectrum.IsDiscRoot(m, s)
    requires n in {LambdaF, LambdaP, DominantRealPart}
    ensures Evaluates(Body(n), env, pw, env[n])
  {
    hide Evaluate, Evaluates, Body, LawfulPower, Spectrum.Dominant, Spectrum.Max, Spectrum.LambdaPlus, Spectrum.LambdaMinus, Spectrum.IsDiscRoot;
    Spectrum.PlusDominatesMinus(m, s);
    match n
    case LambdaF => DiagonalValues(env, pw); EvaluatesAt(Body(n), env, pw, env[JacFF], env[n]);
    case LambdaP => DiagonalValues(env, pw); EvaluatesAt(Body(n), env, pw, env[JacPP], env[n]);
    case DominantRealPart =>
      DominantValue(env, pw);
      EvaluatesAt(Body(n), env, pw, Spectrum.Max(env[LambdaJAPlus], Spectrum.Max(env[LambdaF], env[LambdaP])), env[n]);
  }

  lemma ResidualTreeHolds(env: Values, pw: PowerFn)
    requires Complete(env) && LawfulPower(pw) && Stability.Capacities(ParamsOf(env)) && RatesMatch(env)
    requires env[EquilibriumResidualSq] == Stability.ResidualSq(ParamsOf(env), StateOf(env))
    ensures Evaluates(Body(EquilibriumResidualSq), env, pw, env[EquilibriumResidualSq])
  {
    hide Evaluate, Evaluates, Body, LawfulPower, Stability.ResidualSq, RatesMatch, ParamsOf, StateOf;
    ResidualValue(env, pw);
    SameSquares(env);
    EvaluatesAt(Body(EquilibriumResidualSq), env, pw,
                env[RateJ] * env[RateJ] + env[RateA] * env[RateA] + env[RateF] * env[RateF] + env[RateP] * env[RateP],
                env[EquilibriumResidualSq]);
  }

  lemma EarlyTreesHold(env: Values, base: Values, pw: PowerFn, g: real, s: real, n: Name)
    requires IsDerived(n) && Rank(n) < 17 && Complete(env) && BaseComplete(base)
    requires pw(base[Food], base[SexRatioShape]) == Some(g) && GroupsMatch(env, base, g, s) && Extends(env, base)
    ensures Evaluates(Body(n), env, pw, env[n])
  {
    hide Evaluate, Evaluates, Body, Extends, BaseComplete, Complete, RatiosMatch, RatesMatch, SpectrumMatch, InvariantsMatch,
         ParamsOf, ParamsAt, StateOf, StateAt, JacobianOf, Stability.JacobianAt, Stability.ResidualSq;
    if n == MaleRatio {
      SexRuleHolds(env, base, pw, g);
    } else if n == FixedMaleRatio {
      FixedRatioHolds(env, base, pw, g);
    } else if n == FemaleRatio {
      FemaleRatioHolds(env, base, pw, g);
    } else if n == JuvCapacity {
      JuvCapacityHolds(env, base, pw, g);
    } else if Rank(n) < 8 {
      RateTreesHold(env, pw, n);
    } else {
      EntryTreesHold(env, pw, n);
    }
  }

  lemma LateTreesHold(env: Values, base: Values, pw: PowerFn, g: real, s: real, n: Name)
    requires Complete(env) && env[DiscJA] >= 0.0 && pw(env[DiscJA], 0.5) == Some(s)
    requires IsDerived(n) && 17 <= Rank(n) && BaseComplete(base) && LawfulPower(pw) && GroupsMatch(env, base, g, s)
    ensures Evaluates(Body(n), env, pw, env[n])
  {
    RootOfDisc(env, pw, s);
    var m := JacobianOf(env);
    hide Evaluate, Evaluates, Body, LawfulPower, BaseComplete, Complete, RatiosMatch, RatesMatch, SpectrumMatch, InvariantsMatch,
         ParamsOf, ParamsAt, StateOf, StateAt, JacobianOf, Stability.JacobianAt, Stability.ResidualSq, Spectrum.IsDiscRoot;
    if Rank(n) < 20 {
      InvariantTreesHold(env, pw, n);
    } else if n == LambdaJAPlus {
      PlusTreeHolds(env, pw, m, s);
    } else if n == LambdaJAMinus {
      MinusTreeHolds(env, pw, m, s);
    } else if n == EquilibriumResidualSq {
      ResidualTreeHolds(env, pw);
    } else {
      DominantTreesHold(env, pw, m, s, n);
    }
  }

  lemma RootOfDisc(env: Values, pw: PowerFn, s: real)
    requires Complete(env) && LawfulPower(pw) && InvariantsMatch(env, JacobianOf(env))
    requires env[DiscJA] >= 0.0 && pw(env[DiscJA], 0.5) == Some(s)
    ensures Spectrum.IsDiscRoot(JacobianOf(env), s) && env[TraceJA] == JacobianOf(env).Trace()
  {
    RootLaw(pw, env[DiscJA]);
    hide LawfulPower, JacobianOf;
  }

  // The closed form of a well-posed state satisfies all twenty-six equations.
  lemma ClosedSolves(env: Values, base: Values, pw: PowerFn)
    requires BaseComplete(base) && Complete(env) && Extends(env, base) && LawfulPower(pw) && WellPosed(base, pw)
    requires IsClosed(env, base, FoodPower(base, pw), DiscRoot(base, pw))
    ensures Solves(env, pw)
  {
    var g, s := FoodPower(base, pw), DiscRoot(base, pw);
    ClosedGroups(env, base, g, s);
    var disc := Stability.JacobianAt(ParamsAt(base, g), StateAt(base)).Disc();
    assert env[DiscJA] == disc;
    RootLaw(pw, disc);
    forall n | IsDerived(n)
      ensures Evaluates(Body(n), env, pw, env[n])
    {
      if Rank(n) < 17 {
        EarlyTreesHold(env, base, pw, g, s, n);
      } else {
        LateTreesHold(env, base, pw, g, s, n);
      }
    }
  }
}
