// The reviewed Case A contract: its formal equations as expression trees, in list order,
// with the symbols and dependencies each equation declares.
// An equation that defines a derived symbol is identified with that symbol.
module CaseA {
  import opened Results
  import opened Expressions
  import opened Resolver

  const STATES := {StateJ, StateA, StateF, StateP}

  const PARAMETERS := {
    SexRatioShape, CapMin, CapSlope, BirthCoef, Maturation, MortLarva, MortAdult,
    FishGrowth, FishCapacity, AttackRate, ParasiteGrowth, ParasiteCapacity,
    FishBenefitPar, LampreyCostPar, AdaptationWeight, SexLow, SexHigh,
    InitJ, InitA, InitF, InitP }

  const DERIVED := {
    FixedMaleRatio, MaleRatio, FemaleRatio, JuvCapacity, RateJ, RateA, RateF, RateP,
    JacJJ, JacJA, JacAJ, JacAA, JacFA, JacFF, JacPA, JacPF, JacPP,
    TraceJA, DetJA, DiscJA, LambdaJAPlus, LambdaJAMinus, LambdaF, LambdaP,
    DominantRealPart, EquilibriumResidualSq }

  // Position of the defining equation in the contract's list.
  function Rank(n: Name): nat {
    match n
    case FixedMaleRatio => 0 case MaleRatio => 1 case FemaleRatio => 2 case JuvCapacity => 3
    case RateJ => 4 case RateA => 5 case RateF => 6 case RateP => 7
    case JacJJ => 8 case JacJA => 9 case JacAJ => 10 case JacAA => 11 case JacFA => 12
    case JacFF => 13 case JacPA => 14 case JacPF => 15 case JacPP => 16
    case TraceJA => 17 case DetJA => 18 case DiscJA => 19
    case LambdaJAPlus => 20 case LambdaJAMinus => 21 case LambdaF => 22 case LambdaP => 23
    case DominantRealPart => 24 case EquilibriumResidualSq => 25
    case _ => 26
  }

  predicate IsDerived(n: Name) {
    !n.Other? && Rank(n) < 26
  }

  // Decision variable, states, parameters and constants.
  predicate IsBase(n: Name) {
    !n.Other? && !IsDerived(n)
  }

  lemma DerivedNames(n: Name)
    ensures n in DERIVED <==> IsDerived(n)
  {
    if n in DERIVED { DerivedIsRanked(n); }
    if IsDerived(n) { RankedIsDerived(n); }
    hide DERIVED, IsDerived;
  }

  lemma DerivedIsRanked(n: Name)
    requires n in DERIVED
    ensures IsDerived(n)
  {
  }

  lemma RankedIsDerived(n: Name)
    requires IsDerived(n)
    ensures n in DERIVED
  {
  }

  lemma BaseNames(n: Name)
    ensures n == Food || n in STATES || n in PARAMETERS <==> IsBase(n)
  {
    if IsBase(n) { BaseIsNamed(n); }
    if n in PARAMETERS { ParameterIsBase(n); }
  }

  lemma BaseIsNamed(n: Name)
    requires IsBase(n)
    ensures n == Food || n in STATES || n in PARAMETERS
  {
  }

  lemma ParameterIsBase(n: Name)
    requires n in PARAMETERS
    ensures IsBase(n)
  {
  }

  function Square(e: Expr): Expr { Power(e, Constant(2.0)) }

  function Root(e: Expr): Expr { Power(e, Constant(0.5)) }

  // max(a, b) written as (a + b + sqrt((a - b)^2)) / 2.
  function MaxTree(a: Expr, b: Expr): Expr {
    Divide(Add([a, b, Root(Square(Subtract(a, b)))]), Constant(2.0))
  }

  function One(): Expr { Constant(1.0) }

  // 1 - level/capacity
  function RoomTree(level: Name, capacity: Name): Expr {
    Subtract(One(), Divide(Symbol(level), Symbol(capacity)))
  }

  // rate*(level*(1 - level/capacity))
  function LogisticTree(rate: Name, level: Name, capacity: Name): Expr {
    Multiply([Symbol(rate), Multiply([Symbol(level), RoomTree(level, capacity)])])
  }

  // rate*(1 - 2*level/capacity)
  function LogisticSlopeTree(rate: Name, level: Name, capacity: Name): Expr {
    Multiply([Symbol(rate), Subtract(One(), Divide(Multiply([Constant(2.0), Symbol(level)]), Symbol(capacity)))])
  }

  function PairTree(a: Name, b: Name): Expr {
    Multiply([Symbol(a), Symbol(b)])
  }

  // a*(b*c)
  function TripleTree(a: Name, b: Name, c: Name): Expr {
    Multiply([Symbol(a), PairTree(b, c)])
  }

  // The adaptive branch of the sex-ratio rule.
  function AdaptiveTree(): Expr {
    Subtract(Symbol(SexLow), Multiply([Subtract(Symbol(SexLow), Symbol(SexHigh)),
                                       Power(Symbol(Food), Symbol(SexRatioShape))]))
  }

  // The right-hand side of the equation that defines n.
  function Body(n: Name): Expr
    requires IsDerived(n)
  {
    match n
    case FixedMaleRatio => Divide(Add([Symbol(SexLow), Symbol(SexHigh)]), Constant(2.0))
    case MaleRatio =>
      Add([Multiply([Symbol(AdaptationWeight), AdaptiveTree()]),
           Multiply([Subtract(One(), Symbol(AdaptationWeight)), Symbol(FixedMaleRatio)])])
    case FemaleRatio => Subtract(One(), Symbol(MaleRatio))
    case JuvCapacity => Add([Symbol(CapMin), PairTree(CapSlope, Food)])
    case RateJ =>
      Subtract(Multiply([Symbol(BirthCoef), Multiply([Symbol(FemaleRatio),
                 Multiply([Symbol(StateA), RoomTree(StateJ, JuvCapacity)])])]),
               PairTree(MortLarva, StateJ))
    case RateA => Subtract(PairTree(Maturation, StateJ), PairTree(MortAdult, StateA))
    case RateF => Subtract(LogisticTree(FishGrowth, StateF, FishCapacity), TripleTree(AttackRate, StateA, StateF))
    case RateP =>
      Subtract(Add([LogisticTree(ParasiteGrowth, StateP, ParasiteCapacity), TripleTree(FishBenefitPar, StateF, StateP)]),
               TripleTree(LampreyCostPar, StateA, StateP))
    case JacJJ =>
      Negate(Add([Divide(Multiply([Symbol(BirthCoef), Symbol(FemaleRatio), Symbol(StateA)]), Symbol(JuvCapacity)),
                  Symbol(MortLarva)]))
    case JacJA => Multiply([Symbol(BirthCoef), Symbol(FemaleRatio), RoomTree(StateJ, JuvCapacity)])
    case JacAJ => Symbol(Maturation)
    case JacAA => Negate(Symbol(MortAdult))
    case JacFA => Negate(PairTree(AttackRate, StateF))
    case JacFF => Subtract(LogisticSlopeTree(FishGrowth, StateF, FishCapacity), PairTree(AttackRate, StateA))
    case JacPA => Negate(PairTree(LampreyCostPar, StateP))
    case JacPF => PairTree(FishBenefitPar, StateP)
    case JacPP =>
      Add([LogisticSlopeTree(ParasiteGrowth, StateP, ParasiteCapacity), PairTree(FishBenefitPar, StateF),
           Negate(PairTree(LampreyCostPar, StateA))])
    case TraceJA => Add([Symbol(JacJJ), Symbol(JacAA)])
    case DetJA =>
      Subtract(PairTree(JacJJ, JacAA), PairTree(JacJA, JacAJ))
    case DiscJA => Subtract(Square(Symbol(TraceJA)), Multiply([Constant(4.0), Symbol(DetJA)]))
    case LambdaJAPlus => Divide(Add([Symbol(TraceJA), Root(Symbol(DiscJA))]), Constant(2.0))
    case LambdaJAMinus => Divide(Subtract(Symbol(TraceJA), Root(Symbol(DiscJA))), Constant(2.0))
    case LambdaF => Symbol(JacFF)
    case LambdaP => Symbol(JacPP)
    case DominantRealPart => MaxTree(Symbol(LambdaJAPlus), MaxTree(Symbol(LambdaF), Symbol(LambdaP)))
    case EquilibriumResidualSq =>
      Add([Square(Symbol(RateJ)), Square(Symbol(RateA)), Square(Symbol(RateF)), Square(Symbol(RateP))])
  }

  // The symbols an equation declares besides its own left-hand side.
  function DeclaredRefs(n: Name): set<Name>
    requires IsDerived(n)
  {
    match n
    case FixedMaleRatio => {SexLow, SexHigh}
    case MaleRatio => {AdaptationWeight, SexLow, SexHigh, Food, SexRatioShape, FixedMaleRatio}
    case FemaleRatio => {MaleRatio}
    case JuvCapacity => {CapMin, CapSlope, Food}
    case RateJ => {BirthCoef, FemaleRatio, StateA, StateJ, JuvCapacity, MortLarva}
    case RateA => {Maturation, StateJ, MortAdult, StateA}
    case RateF => {FishGrowth, StateF, FishCapacity, AttackRate, StateA}
    case RateP => {ParasiteGrowth, StateP, ParasiteCapacity, FishBenefitPar, StateF, LampreyCostPar, StateA}
    case JacJJ => {BirthCoef, FemaleRatio, StateA, JuvCapacity, MortLarva}
    case JacJA => {BirthCoef, FemaleRatio, StateJ, JuvCapacity}
    case JacAJ => {Maturation}
    case JacAA => {MortAdult}
    case JacFA => {AttackRate, StateF}
    case JacFF => {FishGrowth, StateF, FishCapacity, AttackRate, StateA}
    case JacPA => {LampreyCostPar, StateP}
    case JacPF => {FishBenefitPar, StateP}
    case JacPP => {ParasiteGrowth, StateP, ParasiteCapacity, FishBenefitPar, StateF, LampreyCostPar, StateA}
    case TraceJA => {JacJJ, JacAA}
    case DetJA => {JacJJ, JacAA, JacJA, JacAJ}
    case DiscJA => {TraceJA, DetJA}
    case LambdaJAPlus => {TraceJA, DiscJA}
    case LambdaJAMinus => {TraceJA, DiscJA}
    case LambdaF => {JacFF}
    case LambdaP => {JacPP}
    case DominantRealPart => {LambdaJAPlus, LambdaJAMinus, LambdaF, LambdaP}
    case EquilibriumResidualSq => {RateJ, RateA, RateF, RateP}
  }

  // The equations an equation declares it depends on.
  function DeclaredDependencies(n: Name): set<Name>
    requires IsDerived(n)
  {
    match n
    case MaleRatio => {FixedMaleRatio}
    case FemaleRatio => {MaleRatio}
    case RateJ => {FemaleRatio, JuvCapacity}
    case JacJJ => {FemaleRatio, JuvCapacity}
    case JacJA => {FemaleRatio, JuvCapacity}
    case TraceJA => {JacJJ, JacAA}
    case DetJA => {JacJJ, JacAA, JacJA, JacAJ}
    case DiscJA => {TraceJA, DetJA}
    case LambdaJAPlus => {TraceJA, DiscJA}
    case LambdaJAMinus => {TraceJA, DiscJA}
    case LambdaF => {JacFF}
    case LambdaP => {JacPP}
    case DominantRealPart => {LambdaJAPlus, LambdaJAMinus, LambdaF, LambdaP}
    case EquilibriumResidualSq => {RateJ, RateA, RateF, RateP}
    case _ => {}
  }

  function Listed(): (order: seq<Name>) {
    [FixedMaleRatio, MaleRatio, FemaleRatio, JuvCapacity, RateJ, RateA, RateF, RateP,
     JacJJ, JacJA, JacAJ, JacAA, JacFA, JacFF, JacPA, JacPF, JacPP,
     TraceJA, DetJA, DiscJA, LambdaJAPlus, LambdaJAMinus, LambdaF, LambdaP,
     DominantRealPart, EquilibriumResidualSq]
  }

  // ---- structure of the declarations --------------------------------------------------

  lemma RefsLeaves()
    ensures forall n :: Refs(Symbol(n)) == {n}
    ensures forall c :: Refs(Constant(c)) == {}
  {
  }

  lemma RefsTwo(a: Expr, b: Expr)
    ensures RefsAll([a, b]) == Refs(a) + Refs(b)
    ensures Refs(Add([a, b])) == Refs(Multiply([a, b])) == Refs(a) + Refs(b)
  {
    assert [a, b][1..] == [b] && [b][1..] == [];
    assert RefsAll([b]) == Refs(b) + RefsAll([]);
  }

  lemma RefsThree(a: Expr, b: Expr, c: Expr)
    ensures RefsAll([a, b, c]) == Refs(a) + Refs(b) + Refs(c)
    ensures Refs(Add([a, b, c])) == Refs(Multiply([a, b, c])) == Refs(a) + Refs(b) + Refs(c)
  {
    assert [a, b, c][1..] == [b, c];
    RefsTwo(b, c);
  }

  lemma RefsFour(a: Expr, b: Expr, c: Expr, d: Expr)
    ensures Refs(Add([a, b, c, d])) == Refs(a) + Refs(b) + Refs(c) + Refs(d)
  {
    assert [a, b, c, d][1..] == [b, c, d];
    RefsThree(b, c, d);
  }

  lemma RefsNodes(a: Expr, b: Expr)
    ensures Refs(Subtract(a, b)) == Refs(Divide(a, b)) == Refs(Power(a, b)) == Refs(a) + Refs(b)
    ensures Refs(Negate(a)) == Refs(a)
  {
  }

  lemma RefsRoom(a: Name, b: Name)
    ensures Refs(RoomTree(a, b)) == Refs(PairTree(a, b)) == {a, b}
  {
    RefsLeaves();
    hide Refs, RefsAll;
    RefsNodes(Symbol(a), Symbol(b));
    RefsNodes(One(), Divide(Symbol(a), Symbol(b)));
    RefsTwo(Symbol(a), Symbol(b));
  }

  lemma RefsLogistic(a: Name, b: Name, c: Name)
    ensures Refs(TripleTree(a, b, c)) == Refs(LogisticTree(a, b, c)) == {a, b, c}
  {
    RefsLeaves();
    RefsRoom(b, c);
    hide Refs, RefsAll, RoomTree, PairTree;
    RefsTwo(Symbol(a), PairTree(b, c));
    RefsTwo(Symbol(b), RoomTree(b, c));
    RefsTwo(Symbol(a), Multiply([Symbol(b), RoomTree(b, c)]));
  }

  lemma RefsLogisticSlope(a: Name, b: Name, c: Name)
    ensures Refs(LogisticSlopeTree(a, b, c)) == {a, b, c}
  {
    RefsLeaves();
    hide Refs, RefsAll;
    var double := Multiply([Constant(2.0), Symbol(b)]);
    RefsTwo(Constant(2.0), Symbol(b));
    RefsNodes(double, Symbol(c));
    RefsNodes(One(), Divide(double, Symbol(c)));
    RefsTwo(Symbol(a), Subtract(One(), Divide(double, Symbol(c))));
  }

  lemma RefsHelpers(a: Name, b: Name, c: Name)
    ensures Refs(RoomTree(a, b)) == {a, b}
    ensures Refs(PairTree(a, b)) == {a, b}
    ensures Refs(TripleTree(a, b, c)) == {a, b, c}
    ensures Refs(LogisticTree(a, b, c)) == {a, b, c}
    ensures Refs(LogisticSlopeTree(a, b, c)) == {a, b, c}
  {
    hide Refs, RefsAll, RoomTree, PairTree, TripleTree, LogisticTree, LogisticSlopeTree;
    RefsRoom(a, b);
    RefsLogistic(a, b, c);
    RefsLogisticSlope(a, b, c);
  }

  lemma RefsSquare(e: Expr)
    ensures Refs(Square(e)) == Refs(e) && Refs(Root(e)) == Refs(e)
  {
    RefsLeaves();
    RefsNodes(e, Constant(2.0));
    RefsNodes(e, Constant(0.5));
  }

  lemma RefsMax(a: Expr, b: Expr)
    ensures Refs(MaxTree(a, b)) == Refs(a) + Refs(b)
  {
    RefsLeaves();
    hide Refs, Square, Root;
    var gap := Subtract(a, b);
    RefsNodes(a, b);
    RefsSquare(gap);
    RefsSquare(Square(gap));
    RefsThree(a, b, Root(Square(gap)));
    RefsNodes(Add([a, b, Root(Square(gap))]), Constant(2.0));
  }

  // Every tree mentions exactly the symbols its equation declares, with one exception: the
  // dominant-eigenvalue equation declares lambda_JA_minus and never uses it.
  lemma BodyRefs(n: Name)
    requires IsDerived(n)
    ensures Refs(Body(n)) == if n == DominantRealPart then DeclaredRefs(n) - {LambdaJAMinus} else DeclaredRefs(n)
  {
    if Rank(n) < 8 {
      BodyRefsEarly(n);
    } else if Rank(n) < 17 {
      BodyRefsJacobian(n);
    } else {
      BodyRefsSpectral(n);
    }
  }

  lemma BodyRefsEarly(n: Name)
    requires IsDerived(n) && Rank(n) < 8
    ensures Refs(Body(n)) == DeclaredRefs(n)
  {
    RefsLeaves();
    hide Refs, RefsAll, RoomTree, PairTree, TripleTree, LogisticTree;
    match n
    case FixedMaleRatio =>
      RefsTwo(Symbol(SexLow), Symbol(SexHigh));
      RefsNodes(Add([Symbol(SexLow), Symbol(SexHigh)]), Constant(2.0));
    case MaleRatio =>
      RefsSexRule();
    case FemaleRatio => RefsNodes(One(), Symbol(MaleRatio));
    case JuvCapacity =>
      RefsHelpers(CapSlope, Food, Food);
      RefsTwo(Symbol(CapMin), PairTree(CapSlope, Food));
    case RateJ =>
      RefsHelpers(StateJ, JuvCapacity, Food);
      RefsHelpers(MortLarva, StateJ, Food);
      var inner := Multiply([Symbol(StateA), RoomTree(StateJ, JuvCapacity)]);
      RefsTwo(Symbol(StateA), RoomTree(StateJ, JuvCapacity));
      RefsTwo(Symbol(FemaleRatio), inner);
      RefsTwo(Symbol(BirthCoef), Multiply([Symbol(FemaleRatio), inner]));
      RefsNodes(Multiply([Symbol(BirthCoef), Multiply([Symbol(FemaleRatio), inner])]), PairTree(MortLarva, StateJ));
    case RateA =>
      RefsHelpers(Maturation, StateJ, Food);
      RefsHelpers(MortAdult, StateA, Food);
      RefsNodes(PairTree(Maturation, StateJ), PairTree(MortAdult, StateA));
    case RateF =>
      RefsHelpers(FishGrowth, StateF, FishCapacity);
      RefsHelpers(AttackRate, StateA, StateF);
      RefsNodes(LogisticTree(FishGrowth, StateF, FishCapacity), TripleTree(AttackRate, StateA, StateF));
    case RateP =>
      RefsHelpers(ParasiteGrowth, StateP, ParasiteCapacity);
      RefsHelpers(FishBenefitPar, StateF, StateP);
      RefsHelpers(LampreyCostPar, StateA, StateP);
      var gain := Add([LogisticTree(ParasiteGrowth, StateP, ParasiteCapacity), TripleTree(FishBenefitPar, StateF, StateP)]);
      RefsTwo(LogisticTree(ParasiteGrowth, StateP, ParasiteCapacity), TripleTree(FishBenefitPar, StateF, StateP));
      RefsNodes(gain, TripleTree(LampreyCostPar, StateA, StateP));
  }

  lemma RefsSexRule()
    ensures Refs(Body(MaleRatio)) == DeclaredRefs(MaleRatio)
  {
    RefsLeaves();
    hide Refs, RefsAll;
    var gap, power := Subtract(Symbol(SexLow), Symbol(SexHigh)), Power(Symbol(Food), Symbol(SexRatioShape));
    RefsNodes(Symbol(SexLow), Symbol(SexHigh));
    RefsNodes(Symbol(Food), Symbol(SexRatioShape));
    RefsTwo(gap, power);
    RefsNodes(Symbol(SexLow), Multiply([gap, power]));
    RefsTwo(Symbol(AdaptationWeight), AdaptiveTree());
    var rest := Subtract(One(), Symbol(AdaptationWeight));
    RefsNodes(One(), Symbol(AdaptationWeight));
    RefsTwo(rest, Symbol(FixedMaleRatio));
    RefsTwo(Multiply([Symbol(AdaptationWeight), AdaptiveTree()]), Multiply([rest, Symbol(FixedMaleRatio)]));
  }

  lemma BodyRefsJacobian(n: Name)
    requires IsDerived(n) && 8 <= Rank(n) < 17
    ensures Refs(Body(n)) == DeclaredRefs(n)
  {
    RefsLeaves();
    hide Refs, RefsAll, RoomTree, PairTree, LogisticSlopeTree;
    match n
    case JacJJ =>
      var births := Multiply([Symbol(BirthCoef), Symbol(FemaleRatio), Symbol(StateA)]);
      RefsThree(Symbol(BirthCoef), Symbol(FemaleRatio), Symbol(StateA));
      RefsNodes(births, Symbol(JuvCapacity));
      RefsTwo(Divide(births, Symbol(JuvCapacity)), Symbol(MortLarva));
      RefsNodes(Add([Divide(births, Symbol(JuvCapacity)), Symbol(MortLarva)]), One());
    case JacJA =>
      RefsHelpers(StateJ, JuvCapacity, Food);
      RefsThree(Symbol(BirthCoef), Symbol(FemaleRatio), RoomTree(StateJ, JuvCapacity));
    case JacAJ =>
    case JacAA => RefsNodes(Symbol(MortAdult), One());
    case JacFA =>
      RefsHelpers(AttackRate, StateF, Food);
      RefsNodes(PairTree(AttackRate, StateF), One());
    case JacFF =>
      RefsHelpers(FishGrowth, StateF, FishCapacity);
      RefsHelpers(AttackRate, StateA, Food);
      RefsNodes(LogisticSlopeTree(FishGrowth, StateF, FishCapacity), PairTree(AttackRate, StateA));
    case JacPA =>
      RefsHelpers(LampreyCostPar, StateP, Food);
      RefsNodes(PairTree(LampreyCostPar, StateP), One());
    case JacPF => RefsHelpers(FishBenefitPar, StateP, Food);
    case JacPP =>
      RefsHelpers(ParasiteGrowth, StateP, ParasiteCapacity);
      RefsHelpers(FishBenefitPar, StateF, Food);
      RefsHelpers(LampreyCostPar, StateA, Food);
      RefsNodes(PairTree(LampreyCostPar, StateA), One());
      RefsThree(LogisticSlopeTree(ParasiteGrowth, StateP, ParasiteCapacity), PairTree(FishBenefitPar, StateF),
                Negate(PairTree(LampreyCostPar, StateA)));
  }

  lemma BodyRefsSpectral(n: Name)
    requires IsDerived(n) && 17 <= Rank(n)
    ensures Refs(Body(n)) == if n == DominantRealPart then DeclaredRefs(n) - {LambdaJAMinus} else DeclaredRefs(n)
  {
    RefsLeaves();
    hide Refs, RefsAll, PairTree, Square, Root, MaxTree;
    match n
    case TraceJA => RefsTwo(Symbol(JacJJ), Symbol(JacAA));
    case DetJA =>
      RefsHelpers(JacJJ, JacAA, Food);
      RefsHelpers(JacJA, JacAJ, Food);
      RefsNodes(PairTree(JacJJ, JacAA), PairTree(JacJA, JacAJ));
    case DiscJA =>
      RefsSquare(Symbol(TraceJA));
      RefsTwo(Constant(4.0), Symbol(DetJA));
      RefsNodes(Square(Symbol(TraceJA)), Multiply([Constant(4.0), Symbol(DetJA)]));
    case LambdaJAPlus =>
      RefsSquare(Symbol(DiscJA));
      RefsTwo(Symbol(TraceJA), Root(Symbol(DiscJA)));
      RefsNodes(Add([Symbol(TraceJA), Root(Symbol(DiscJA))]), Constant(2.0));
    case LambdaJAMinus =>
      RefsSquare(Symbol(DiscJA));
      RefsNodes(Symbol(TraceJA), Root(Symbol(DiscJA)));
      RefsNodes(Subtract(Symbol(TraceJA), Root(Symbol(DiscJA))), Constant(2.0));
    case LambdaF =>
    case LambdaP =>
    case DominantRealPart =>
      RefsMax(Symbol(LambdaF), Symbol(LambdaP));
      RefsMax(Symbol(LambdaJAPlus), MaxTree(Symbol(LambdaF), Symbol(LambdaP)));
    case EquilibriumResidualSq =>
      RefsSquare(Symbol(RateJ));
      RefsSquare(Symbol(RateA));
      RefsSquare(Symbol(RateF));
      RefsSquare(Symbol(RateP));
      RefsFour(Square(Symbol(RateJ)), Square(Symbol(RateA)), Square(Symbol(RateF)), Square(Symbol(RateP)));
  }

  // The declared dependencies are exactly the defining equations of the declared derived
  // symbols, and every dependency is listed earlier: the graph has no cycle.
  lemma DependenciesAreRanked(n: Name, d: Name)
    requires IsDerived(n)
    ensures d in DeclaredDependencies(n) <==> d in DeclaredRefs(n) && IsDerived(d)
    ensures d in DeclaredDependencies(n) ==> Rank(d) < Rank(n)
    ensures d in DeclaredRefs(n) ==> IsDerived(d) || IsBase(d)
  {
    hide DeclaredRefs, DeclaredDependencies, Rank;
    if d in DeclaredRefs(n) { RefsAreRanked(n, d); }
    if d in DeclaredDependencies(n) { DependenciesAreRefs(n, d); }
  }

  predicate RefIsRanked(n: Name, d: Name)
    requires IsDerived(n)
  {
    if IsDerived(d) then d in DeclaredDependencies(n) && Rank(d) < Rank(n) else IsBase(d)
  }

  lemma RefsAreRanked(n: Name, d: Name)
    requires IsDerived(n) && d in DeclaredRefs(n)
    ensures RefIsRanked(n, d)
  {
    hide DeclaredRefs, RefIsRanked;
    if Rank(n) < 1 {
      FixedRatioRefs(n, d);
    } else if Rank(n) < 2 {
      SexRuleRefs(n, d);
    } else if Rank(n) < 4 {
      RatioRefs(n, d);
    } else if Rank(n) < 5 {
      LarvalRateRefs(n, d);
    } else if Rank(n) < 6 {
      AdultRateRefs(n, d);
    } else if Rank(n) < 7 {
      FishRateRefs(n, d);
    } else if Rank(n) < 8 {
      ParasiteRateRefs(n, d);
    } else if Rank(n) < 9 {
      LarvalEntryRefs(n, d);
    } else if Rank(n) < 10 {
      BirthEntryRefs(n, d);
    } else if Rank(n) < 12 {
      AdultEntryRefs(n, d);
    } else if Rank(n) < 14 {
      FishEntryRefs(n, d);
    } else if Rank(n) < 16 {
      ParasiteEntryRefs(n, d);
    } else if Rank(n) < 17 {
      LastEntryRefs(n, d);
    } else if Rank(n) < 20 {
      InvariantRefs(n, d);
    } else {
      SpectralRefs(n, d);
    }
  }

  lemma FixedRatioRefs(n: Name, d: Name)
    requires IsDerived(n) && 0 <= Rank(n) < 1 && d in DeclaredRefs(n)
    ensures RefIsRanked(n, d)
  {
    match n
    case FixedMaleRatio =>
  }

  lemma SexRuleRefs(n: Name, d: Name)
    requires IsDerived(n) && 1 <= Rank(n) < 2 && d in DeclaredRefs(n)
    ensures RefIsRanked(n, d)
  {
    match n
    case MaleRatio =>
  }

  lemma RatioRefs(n: Name, d: Name)
    requires IsDerived(n) && 2 <= Rank(n) < 4 && d in DeclaredRefs(n)
    ensures RefIsRanked(n, d)
  {
    match n
    case FemaleRatio =>
    case JuvCapacity =>
  }

  lemma LarvalRateRefs(n: Name, d: Name)
    requires IsDerived(n) && 4 <= Rank(n) < 5 && d in DeclaredRefs(n)
    ensures RefIsRanked(n, d)
  {
    match n
    case RateJ =>
  }

  lemma AdultRateRefs(n: Name, d: Name)
    requires IsDerived(n) && 5 <= Rank(n) < 6 && d in DeclaredRefs(n)
    ensures RefIsRanked(n, d)
  {
    match n
    case RateA =>
  }

  lemma FishRateRefs(n: Name, d: Name)
    requires IsDerived(n) && 6 <= Rank(n) < 7 && d in DeclaredRefs(n)
    ensures RefIsRanked(n, d)
  {
    match n
    case RateF =>
  }

  lemma ParasiteRateRefs(n: Name, d: Name)
    requires IsDerived(n) && 7 <= Rank(n) < 8 && d in DeclaredRefs(n)
    ensures RefIsRanked(n, d)
  {
    match n
    case RateP =>
  }

  lemma LarvalEntryRefs(n: Name, d: Name)
    requires IsDerived(n) && 8 <= Rank(n) < 9 && d in DeclaredRefs(n)
    ensures RefIsRanked(n, d)
  {
    match n
    case JacJJ =>
  }

  lemma BirthEntryRefs(n: Name, d: Name)
    requires IsDerived(n) && 9 <= Rank(n) < 10 && d in DeclaredRefs(n)
    ensures RefIsRanked(n, d)
  {
    match n
    case JacJA =>
  }

  lemma AdultEntryRefs(n: Name, d: Name)
    requires IsDerived(n) && 10 <= Rank(n) < 12 && d in DeclaredRefs(n)
    ensures RefIsRanked(n, d)
  {
    match n
    case JacAJ =>
    case JacAA =>
  }

  lemma FishEntryRefs(n: Name, d: Name)
    requires IsDerived(n) && 12 <= Rank(n) < 14 && d in DeclaredRefs(n)
    ensures RefIsRanked(n, d)
  {
    match n
    case JacFA =>
    case JacFF =>
  }

  lemma ParasiteEntryRefs(n: Name, d: Name)
    requires IsDerived(n) && 14 <= Rank(n) < 16 && d in DeclaredRefs(n)
    ensures RefIsRanked(n, d)
  {
    match n
    case JacPA =>
    case JacPF =>
  }

  lemma LastEntryRefs(n: Name, d: Name)
    requires IsDerived(n) && 16 <= Rank(n) < 17 && d in DeclaredRefs(n)
    ensures RefIsRanked(n, d)
  {
    match n
    case JacPP =>
  }

  lemma InvariantRefs(n: Name, d: Name)
    requires IsDerived(n) && 17 <= Rank(n) < 20 && d in DeclaredRefs(n)
    ensures RefIsRanked(n, d)
  {
    match n
    case TraceJA =>
    case DetJA =>
    case DiscJA =>
  }

  lemma SpectralRefs(n: Name, d: Name)
    requires IsDerived(n) && 20 <= Rank(n) < 26 && d in DeclaredRefs(n)
    ensures RefIsRanked(n, d)
  {
    match n
    case LambdaJAPlus =>
    case LambdaJAMinus =>
    case LambdaF =>
    case LambdaP =>
    case DominantRealPart =>
    case EquilibriumResidualSq =>
  }

  lemma DependenciesAreRefs(n: Name, d: Name)
    requires IsDerived(n) && d in DeclaredDependencies(n)
    ensures d in DeclaredRefs(n) && IsDerived(d)
  {
    hide DeclaredRefs, DeclaredDependencies;
    if Rank(n) < 17 {
      EarlyDependencies(n, d);
    } else if Rank(n) < 18 {
      TraceDependencies(n, d);
    } else if Rank(n) < 19 {
      DetDependencies(n, d);
    } else if Rank(n) < 22 {
      DiscDependencies(n, d);
    } else if Rank(n) < 24 {
      DiagonalDependencies(n, d);
    } else if Rank(n) < 25 {
      DominantDependencies(n, d);
    } else {
      ResidualDependencies(n, d);
    }
  }

  lemma EarlyDependencies(n: Name, d: Name)
    requires IsDerived(n) && 0 <= Rank(n) < 17 && d in DeclaredDependencies(n)
    ensures d in DeclaredRefs(n) && IsDerived(d)
  {
    match n
    case FixedMaleRatio =>
    case MaleRatio =>
    case FemaleRatio =>
    case JuvCapacity =>
    case RateJ =>
    case RateA =>
    case RateF =>
    case RateP =>
    case JacJJ =>
    case JacJA =>
    case JacAJ =>
    case JacAA =>
    case JacFA =>
    case JacFF =>
    case JacPA =>
    case JacPF =>
    case JacPP =>
  }

  lemma TraceDependencies(n: Name, d: Name)
    requires IsDerived(n) && 17 <= Rank(n) < 18 && d in DeclaredDependencies(n)
    ensures d in DeclaredRefs(n) && IsDerived(d)
  {
    match n
    case TraceJA =>
  }

  lemma DetDependencies(n: Name, d: Name)
    requires IsDerived(n) && 18 <= Rank(n) < 19 && d in DeclaredDependencies(n)
    ensures d in DeclaredRefs(n) && IsDerived(d)
  {
    match n
    case DetJA =>
  }

  lemma DiscDependencies(n: Name, d: Name)
    requires IsDerived(n) && 19 <= Rank(n) < 22 && d in DeclaredDependencies(n)
    ensures d in DeclaredRefs(n) && IsDerived(d)
  {
    match n
    case DiscJA =>
    case LambdaJAPlus =>
    case LambdaJAMinus =>
  }

  lemma DiagonalDependencies(n: Name, d: Name)
    requires IsDerived(n) && 22 <= Rank(n) < 24 && d in DeclaredDependencies(n)
    ensures d in DeclaredRefs(n) && IsDerived(d)
  {
    match n
    case LambdaF =>
    case LambdaP =>
  }

  lemma DominantDependencies(n: Name, d: Name)
    requires IsDerived(n) && 24 <= Rank(n) < 25 && d in DeclaredDependencies(n)
    ensures d in DeclaredRefs(n) && IsDerived(d)
  {
    match n
    case DominantRealPart =>
  }

  lemma ResidualDependencies(n: Name, d: Name)
    requires IsDerived(n) && 25 <= Rank(n) < 26 && d in DeclaredDependencies(n)
    ensures d in DeclaredRefs(n) && IsDerived(d)
  {
    match n
    case EquilibriumResidualSq =>
  }

  lemma ListedAt(i: nat)
    requires i < 26
    ensures !Listed()[i].Other? && Rank(Listed()[i]) == i
  {
    if i < 9 {
      ListedEarly(i);
    } else if i < 18 {
      ListedMiddle(i);
    } else {
      ListedLate(i);
    }
  }

  lemma ListedEarly(i: nat)
    requires i < 9
    ensures !Listed()[i].Other? && Rank(Listed()[i]) == i
  {
  }

  lemma ListedMiddle(i: nat)
    requires 9 <= i < 18
    ensures !Listed()[i].Other? && Rank(Listed()[i]) == i
  {
  }

  lemma ListedLate(i: nat)
    requires 18 <= i < 26
    ensures !Listed()[i].Other? && Rank(Listed()[i]) == i
  {
  }

  lemma ListedByRank(n: Name)
    requires IsDerived(n)
    ensures Rank(n) < 26 && Listed()[Rank(n)] == n
  {
  }
}
