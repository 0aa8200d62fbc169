// A raw state that holds only the food level: the sex ratio can be recomputed although most
// of the contract has no meaning.
module CaseAPartial {
  import opened Results
  import opened Expressions
  import opened Resolver
  import opened Meaning
  import opened CaseA
  import opened CaseAValues
  import opened CaseASolution
  import opened CaseAOutcome

  ghost predicate FoodOnly(parameters: seq<(Name, real)>, raw: Values) {
    ParameterValues(parameters).Keys == PARAMETERS && Food in raw && raw.Keys !! STATES
  }

  // The derived symbols that need no state.
  predicate NeedsNoState(n: Name) {
    n == FixedMaleRatio || n == MaleRatio || n == FemaleRatio || n == JuvCapacity || n == JacAJ || n == JacAA
  }

  predicate IsState(n: Name) {
    n == StateJ || n == StateA || n == StateF || n == StateP
  }

  predicate NeedsState(n: Name) {
    IsState(n) || (IsDerived(n) && !NeedsNoState(n))
  }

  // An operand that needs a state.
  function Blocker(n: Name): Name
    requires IsDerived(n) && !NeedsNoState(n)
  {
    match n
    case RateJ => StateA case RateA => StateJ case RateF => StateF case RateP => StateP
    case JacJJ => StateA case JacJA => StateJ case JacFA => StateF case JacFF => StateF
    case JacPA => StateP case JacPF => StateP case JacPP => StateP
    case TraceJA => JacJJ case DetJA => JacJJ case DiscJA => TraceJA
    case LambdaJAPlus => TraceJA case LambdaJAMinus => TraceJA case LambdaF => JacFF case LambdaP => JacPP
    case DominantRealPart => LambdaF case EquilibriumResidualSq => RateJ
  }

  lemma BlockerBlocks(n: Name)
    requires IsDerived(n) && !NeedsNoState(n)
    ensures Blocker(n) in Refs(Body(n)) && NeedsState(Blocker(n))
  {
    BodyRefs(n);
    hide Refs, Body;
    BlockerIsDeclared(n);
  }

  lemma BlockerIsDeclared(n: Name)
    requires IsDerived(n) && !NeedsNoState(n)
    ensures Blocker(n) in DeclaredRefs(n) && NeedsState(Blocker(n)) && Blocker(n) != LambdaJAMinus
  {
  }

  ghost predicate NoStates(base: Values) {
    forall n :: n in base <==> IsBase(n) && !IsState(n)
  }

  ghost predicate IsContract(defs: Definitions) {
    (forall n :: n in defs <==> IsDerived(n)) && forall n :: IsDerived(n) ==> defs[n] == Body(n)
  }

  lemma MissingOperand(defs: Definitions, base: Values, pw: PowerFn, depth: nat, n: Name, t: Name)
    requires n in defs && n !in base && depth > 0 && t in Refs(defs[n]) && Expand(defs, base, pw, depth - 1, t).None?
    ensures Expand(defs, base, pw, depth, n).None?
  {
  }

  lemma BlockedNames(defs: Definitions, base: Values, n: Name)
    requires IsContract(defs) && NoStates(base) && NeedsState(n)
    ensures n !in base && (if IsDerived(n) then n in defs && defs[n] == Body(n) else n !in defs)
  {
    hide Body;
  }

  lemma NoExpansion(defs: Definitions, base: Values, pw: PowerFn, depth: nat, n: Name)
    requires n !in base && (n !in defs || depth == 0)
    ensures Expand(defs, base, pw, depth, n).None?
  {
    hide Refs, Evaluate;
  }

  lemma BlockedDerived(defs: Definitions, base: Values, pw: PowerFn, depth: nat, n: Name)
    requires IsContract(defs) && NoStates(base) && IsDerived(n) && !NeedsNoState(n) && depth > 0
    requires Expand(defs, base, pw, depth - 1, Blocker(n)).None?
    ensures Expand(defs, base, pw, depth, n).None?
  {
    BlockedNames(defs, base, n);
    BlockerBlocks(n);
    hide Refs, Body, Evaluate, Blocker, IsContract, NoStates, NeedsState, NeedsNoState, IsDerived, Expand;
    MissingOperand(defs, base, pw, depth, n, Blocker(n));
  }

  lemma BlockedLeaf(defs: Definitions, base: Values, pw: PowerFn, depth: nat, n: Name)
    requires IsContract(defs) && NoStates(base) && NeedsState(n) && (depth == 0 || !IsDerived(n))
    ensures Expand(defs, base, pw, depth, n).None?
  {
    BlockedNames(defs, base, n);
    hide Refs, Body, Evaluate, IsContract, NoStates, NeedsState, IsDerived, Expand;
    NoExpansion(defs, base, pw, depth, n);
  }

  // Whatever needs a state has no meaning.
  lemma {:induction false} BlockedIsMeaningless(defs: Definitions, base: Values, pw: PowerFn, depth: nat, n: Name)
    requires IsContract(defs) && NoStates(base) && NeedsState(n)
    ensures Expand(defs, base, pw, depth, n).None?
    decreases depth
  {
    hide *;
    NeedsStateCases(n);
    if IsDerived(n) && depth > 0 {
      BlockerBlocks(n);
      BlockedIsMeaningless(defs, base, pw, depth - 1, Blocker(n));
      BlockedDerived(defs, base, pw, depth, n);
    } else {
      BlockedLeaf(defs, base, pw, depth, n);
    }
  }

  lemma NeedsStateCases(n: Name)
    requires NeedsState(n)
    ensures IsDerived(n) ==> !NeedsNoState(n)
  {
    hide Rank;
  }

  // An environment extended to every symbol of the contract.
  ghost function Filled(env: Values): Values {
    map n | n in PARAMETERS + STATES + {Food} + DERIVED :: if n in env then env[n] else 0.0
  }

  lemma FilledIsComplete(env: Values)
    ensures Complete(Filled(env)) && forall n :: n in env && n in Filled(env) ==> Filled(env)[n] == env[n]
  {
    hide PARAMETERS, STATES, DERIVED;
    forall n | IsBase(n) || IsDerived(n)
      ensures n in Filled(env)
    {
      BaseNames(n);
      DerivedNames(n);
    }
  }

  lemma SameOnFilled(n: Name, env: Values, pw: PowerFn)
    requires IsDerived(n) && Refs(Body(n)) <= env.Keys
    ensures Evaluate(Body(n), env, pw) == Evaluate(Body(n), Filled(env), pw)
  {
    FilledIsComplete(env);
    BodyRefs(n);
    forall r | r in Refs(Body(n))
      ensures r in Filled(env)
    {
      DependenciesAreRanked(n, r);
    }
    hide Filled, Body, Evaluate;
    OnlyRefsMatter(Body(n), env, Filled(env), pw);
  }

  lemma StatelessEntries(env: Values, pw: PowerFn)
    requires Complete(env)
    ensures Evaluate(Body(JacAJ), env, pw).Ok? && Evaluate(Body(JacAA), env, pw).Ok?
  {
    SymbolEvaluates(Maturation, env, pw);
    SymbolEvaluates(MortAdult, env, pw);
    NegateValue(Symbol(MortAdult), env, pw);
    hide Evaluate;
  }

  lemma StatelessRatios(env: Values, pw: PowerFn)
    requires Complete(env)
    ensures Evaluate(Body(FixedMaleRatio), env, pw).Ok? && Evaluate(Body(FemaleRatio), env, pw).Ok?
    ensures Evaluate(Body(JuvCapacity), env, pw).Ok?
  {
    RatioValues(env, pw);
    hide Evaluate, Body;
  }

  lemma StatelessSexRule(env: Values, pw: PowerFn)
    requires Complete(env) && pw(env[Food], env[SexRatioShape]).Some?
    ensures Evaluate(Body(MaleRatio), env, pw).Ok?
  {
    SexRuleValue(env, pw, pw(env[Food], env[SexRatioShape]).value);
    hide Evaluate, Body;
  }

  // Of the symbols that need no state only the sex rule can fail, and only for want of a power.
  lemma StatelessEvaluate(n: Name, env: Values, pw: PowerFn)
    requires NeedsNoState(n) && Complete(env) && (n == MaleRatio ==> pw(env[Food], env[SexRatioShape]).Some?)
    ensures Evaluate(Body(n), env, pw).Ok?
  {
    hide Evaluate, Body, Complete, IsBase, IsDerived, Rank;
    StatelessEntries(env, pw);
    StatelessRatios(env, pw);
    if n == MaleRatio { StatelessSexRule(env, pw); }
  }

  lemma BaseMeansItself(defs: Definitions, base: Values, pw: PowerFn, n: Name)
    requires n in base
    ensures Means(defs, base, pw, n, base[n])
  {
    assert Expand(defs, base, pw, 0, n) == Some(base[n]);
  }

  lemma OperandIsBase(defs: Definitions, base: Values, pw: PowerFn, n: Name, env: Values, t: Name)
    requires n in defs && EnvironmentFor(defs, base, pw, n, env) && t in Refs(defs[n]) && t in base
    ensures t in env && env[t] == base[t]
  {
    hide Refs, Means;
    BaseMeansItself(defs, base, pw, t);
    MeaningIsUnique(defs, base, pw, t, env[t], base[t]);
  }

  lemma NothingMeansBlocked(defs: Definitions, base: Values, pw: PowerFn, n: Name, v: real)
    requires IsContract(defs) && NoStates(base) && NeedsState(n)
    ensures !Means(defs, base, pw, n, v)
  {
    forall depth: nat
      ensures Expand(defs, base, pw, depth, n).None?
    {
      BlockedIsMeaningless(defs, base, pw, depth, n);
    }
    hide Expand, IsContract, NoStates, NeedsState;
  }

  // An environment for a definition can only exist when no operand needs a state.
  lemma EnvironmentNeedsNoState(defs: Definitions, base: Values, pw: PowerFn, n: Name, env: Values)
    requires IsContract(defs) && NoStates(base) && n in defs && EnvironmentFor(defs, base, pw, n, env)
    ensures IsDerived(n) && defs[n] == Body(n) && Refs(Body(n)) <= env.Keys && NeedsNoState(n)
  {
    assert IsDerived(n) && defs[n] == Body(n);
    if !NeedsNoState(n) {
      BlockerBlocks(n);
      var t := Blocker(n);
      hide Refs, Body, Means, Blocker, NeedsState;
      NothingMeansBlocked(defs, base, pw, t, env[t]);
    }
  }

  lemma SexRuleRefers()
    ensures Food in Refs(Body(MaleRatio)) && SexRatioShape in Refs(Body(MaleRatio))
  {
    BodyRefs(MaleRatio);
    hide Refs, Body;
  }

  lemma ContractHas(defs: Definitions, n: Name)
    requires IsContract(defs) && IsDerived(n)
    ensures n in defs && defs[n] == Body(n)
  {
    hide Body, IsDerived;
  }

  lemma StatelessHas(base: Values, n: Name)
    requires NoStates(base) && IsBase(n) && !IsState(n)
    ensures n in base
  {
    hide IsBase, IsState;
  }

  lemma SexRuleNames(defs: Definitions, base: Values)
    requires IsContract(defs) && NoStates(base)
    ensures Food in base && SexRatioShape in base && MaleRatio in defs
    ensures Food in Refs(defs[MaleRatio]) && SexRatioShape in Refs(defs[MaleRatio])
  {
    hide IsContract, NoStates, Refs, Body;
    ContractHas(defs, MaleRatio);
    StatelessHas(base, Food);
    StatelessHas(base, SexRatioShape);
    SexRuleRefers();
  }

  lemma SexRuleOperands(defs: Definitions, base: Values, pw: PowerFn, env: Values)
    requires MaleRatio in defs && EnvironmentFor(defs, base, pw, MaleRatio, env) && IsContract(defs) && NoStates(base)
    ensures Food in base && SexRatioShape in base && Complete(Filled(env))
    ensures Filled(env)[Food] == base[Food] && Filled(env)[SexRatioShape] == base[SexRatioShape]
  {
    SexRuleNames(defs, base);
    FilledIsComplete(env);
    hide Refs, Means, Filled, IsContract, NoStates;
    OperandIsBase(defs, base, pw, MaleRatio, env, Food);
    OperandIsBase(defs, base, pw, MaleRatio, env, SexRatioShape);
  }

  // Without states the only definition that can fail is the sex rule, for want of a power.
  lemma FaultyIsSexRule(defs: Definitions, base: Values, pw: PowerFn, n: Name)
    requires IsContract(defs) && NoStates(base) && Faulty(defs, base, pw, n)
    ensures n == MaleRatio && Food in base && SexRatioShape in base && pw(base[Food], base[SexRatioShape]).None?
  {
    var env: Values :| EnvironmentFor(defs, base, pw, n, env) && Evaluate(defs[n], env, pw).Err?;
    EnvironmentNeedsNoState(defs, base, pw, n, env);
    SameOnFilled(n, env, pw);
    FilledIsComplete(env);
    if n == MaleRatio { SexRuleOperands(defs, base, pw, env); }
    hide Evaluate, Filled, Body, EnvironmentFor, IsContract, NoStates, Complete;
    if n != MaleRatio || pw(base[Food], base[SexRatioShape]).Some? { StatelessEvaluate(n, Filled(env), pw); }
  }

  // ---- the sex ratio from the food level alone ----------------------------------------------

  lemma ContractBody(n: Name)
    requires IsDerived(n)
    ensures n in DefinitionMap(ContractDefinitions()) && DefinitionMap(ContractDefinitions())[n] == Body(n)
  {
    ContractIsDistinct();
    ListedByRank(n);
    DefinitionAt(Rank(n));
    NonEmptyContract();
    hide DefinitionMap, Body, ContractDefinitions, Distinct, Listed;
    DefinitionMapOf(ContractDefinitions());
    assert ContractDefinitions()[Rank(n)] in ContractDefinitions();
  }

  lemma ContractIsContract()
    ensures IsContract(DefinitionMap(ContractDefinitions()))
  {
    ContractIsDistinct();
    TargetsOfContract();
    DerivedAreDerived();
    hide DefinitionMap, Body, ContractDefinitions, Distinct, DERIVED, IsDerived;
    DefinitionMapOf(ContractDefinitions());
    forall n | IsDerived(n)
      ensures DefinitionMap(ContractDefinitions())[n] == Body(n)
    {
      ContractBody(n);
    }
  }

  // The complete environment used for the evaluation: base values, the midpoint, zeros.
  ghost function Trial(base: Values, mid: real): Values {
    Filled(base)[FixedMaleRatio := mid]
  }

  lemma TrialIs(base: Values, mid: real)
    requires NoStates(base)
    ensures Complete(Trial(base, mid)) && Trial(base, mid)[FixedMaleRatio] == mid
    ensures forall n :: n in base ==> n in Trial(base, mid) && Trial(base, mid)[n] == base[n]
  {
    FilledIsComplete(base);
    assert FixedMaleRatio !in base;
    hide Filled;
    forall n | n in base
      ensures n in Trial(base, mid) && Trial(base, mid)[n] == base[n]
    {
      assert IsBase(n);
    }
  }

  ghost predicate HasRatioNames(base: Values) {
    SexLow in base && SexHigh in base && Food in base && SexRatioShape in base && AdaptationWeight in base
  }

  lemma RatioNames(base: Values)
    requires NoStates(base)
    ensures HasRatioNames(base)
  {
    assert IsBase(SexLow) && IsBase(SexHigh) && IsBase(Food) && IsBase(SexRatioShape) && IsBase(AdaptationWeight);
    hide IsBase;
  }

  lemma RatioOperands(base: Values)
    requires HasRatioNames(base)
    ensures forall t :: t in Refs(Body(FixedMaleRatio)) ==> t in base
    ensures forall t :: t in Refs(Body(MaleRatio)) ==> t in base || t == FixedMaleRatio
  {
    BodyRefs(FixedMaleRatio);
    BodyRefs(MaleRatio);
    hide Refs, Body, IsDerived;
    assert DeclaredRefs(FixedMaleRatio) == {SexLow, SexHigh};
    assert DeclaredRefs(MaleRatio) == {AdaptationWeight, SexLow, SexHigh, Food, SexRatioShape, FixedMaleRatio};
    hide DeclaredRefs;
  }

  // The two ratio equations evaluated in the trial environment.
  lemma TrialMidpoint(base: Values, pw: PowerFn, mid: real)
    requires SexLow in base && SexHigh in base && mid == (base[SexLow] + base[SexHigh]) / 2.0
    requires IsDerived(FixedMaleRatio) && NoStates(base)
    ensures Evaluates(Body(FixedMaleRatio), Trial(base, mid), pw, mid)
  {
    TrialIs(base, mid);
    var env := Trial(base, mid);
    assert env[SexLow] == base[SexLow] && env[SexHigh] == base[SexHigh];
    hide Evaluates, Body, Trial, NoStates;
    RatioValues(env, pw);
  }

  lemma SexRuleAt(env: Values, pw: PowerFn, e: real, shape: real, g: real, w: real, low: real, high: real, mid: real, v: real)
    requires Complete(env) && env[AdaptationWeight] == w && env[SexLow] == low && env[SexHigh] == high && env[FixedMaleRatio] == mid
    requires env[Food] == e && env[SexRatioShape] == shape && pw(e, shape) == Some(g) && v == MaleRatioAt(w, low, high, g, mid)
    ensures Evaluates(Body(MaleRatio), env, pw, v)
  {
    hide Evaluates, Body, MaleRatioAt;
    SexRuleValue(env, pw, g);
  }

  lemma TrialAt(base: Values, mid: real, n: Name)
    requires NoStates(base) && n in base
    ensures n in Trial(base, mid) && Trial(base, mid)[n] == base[n]
  {
    TrialIs(base, mid);
    hide NoStates, Trial;
  }

  lemma TrialSexRule(base: Values, pw: PowerFn, e: real, shape: real, g: real, w: real, low: real, high: real, mid: real, v: real)
    requires HasRatioNames(base) && base[Food] == e && base[SexRatioShape] == shape
    requires base[AdaptationWeight] == w && base[SexLow] == low && base[SexHigh] == high
    requires pw(e, shape) == Some(g) && v == MaleRatioAt(w, low, high, g, mid) && IsDerived(MaleRatio) && NoStates(base)
    ensures Evaluates(Body(MaleRatio), Trial(base, mid), pw, v)
  {
    hide Evaluates, Body, Trial, NoStates, MaleRatioAt, Complete;
    TrialComplete(base, mid);
    TrialAt(base, mid, Food);
    TrialAt(base, mid, SexRatioShape);
    TrialAt(base, mid, AdaptationWeight);
    TrialAt(base, mid, SexLow);
    TrialAt(base, mid, SexHigh);
    SexRuleAt(Trial(base, mid), pw, e, shape, g, w, low, high, mid, v);
  }

  lemma TrialComplete(base: Values, mid: real)
    requires NoStates(base)
    ensures Complete(Trial(base, mid)) && FixedMaleRatio in Trial(base, mid) && Trial(base, mid)[FixedMaleRatio] == mid
  {
    TrialIs(base, mid);
    hide NoStates, Filled;
  }

  // A definition whose operands have the trial's values as meanings.
  lemma TrialMeans(defs: Definitions, base: Values, pw: PowerFn, mid: real, n: Name, v: real)
    requires NoStates(base) && n in defs && n !in base && Evaluates(defs[n], Trial(base, mid), pw, v)
    requires forall t :: t in Refs(defs[n]) ==> t in base || (t == FixedMaleRatio && Means(defs, base, pw, FixedMaleRatio, mid))
    ensures Means(defs, base, pw, n, v)
  {
    var env := Trial(base, mid);
    TrialIs(base, mid);
    hide Evaluate, Trial, Means, Refs, NoStates;
    forall t | t in Refs(defs[n])
      ensures t in env && Means(defs, base, pw, t, env[t])
    {
      if t in base { BaseMeansItself(defs, base, pw, t); }
    }
    DefinitionMeans(defs, base, pw, n, env);
  }

  lemma MidpointMeans(defs: Definitions, base: Values, pw: PowerFn, mid: real)
    requires IsContract(defs) && NoStates(base) && SexLow in base && SexHigh in base && mid == (base[SexLow] + base[SexHigh]) / 2.0
    ensures Means(defs, base, pw, FixedMaleRatio, mid)
  {
    RatioNames(base);
    RatioOperands(base);
    BlockedNamesNot(defs, base);
    hide Evaluates, Body, Trial, Means, Refs, IsContract, NoStates;
    TrialMidpoint(base, pw, mid);
    TrialMeans(defs, base, pw, mid, FixedMaleRatio, mid);
  }

  lemma BlockedNamesNot(defs: Definitions, base: Values)
    requires IsContract(defs) && NoStates(base)
    ensures FixedMaleRatio in defs && defs[FixedMaleRatio] == Body(FixedMaleRatio) && FixedMaleRatio !in base
    ensures MaleRatio in defs && defs[MaleRatio] == Body(MaleRatio) && MaleRatio !in base
  {
    assert IsDerived(FixedMaleRatio) && IsDerived(MaleRatio);
    hide Body;
  }

  lemma MaleRatioMeans(defs: Definitions, base: Values, pw: PowerFn, g: real, mid: real, v: real)
    requires IsContract(defs) && NoStates(base) && HasRatioNames(base)
    requires mid == (base[SexLow] + base[SexHigh]) / 2.0 && pw(base[Food], base[SexRatioShape]) == Some(g)
    requires v == MaleRatioAt(base[AdaptationWeight], base[SexLow], base[SexHigh], g, mid)
    ensures Means(defs, base, pw, MaleRatio, v)
  {
    RatioOperands(base);
    BlockedNamesNot(defs, base);
    hide Evaluates, Body, Trial, Means, Refs, IsContract, NoStates, MaleRatioAt;
    MidpointMeans(defs, base, pw, mid);
    TrialSexRule(base, pw, base[Food], base[SexRatioShape], g, base[AdaptationWeight], base[SexLow], base[SexHigh], mid, v);
    TrialMeans(defs, base, pw, mid, MaleRatio, v);
  }

  lemma FoodOnlyBase(parameters: seq<(Name, real)>, raw: Values)
    requires FoodOnly(parameters, raw)
    ensures NoStates(BaseOf(parameters, raw))
    ensures ParameterValues(parameters).Keys * Restricted(raw, {Food} + STATES).Keys == {}
  {
    var variables := Restricted(raw, {Food} + STATES);
    FoodOnlyKeys(raw);
    ParametersAreNotVariables();
    assert BaseOf(parameters, raw).Keys == PARAMETERS + {Food} by {
      hide PARAMETERS, STATES, DERIVED, ParameterValues, ContractEquations, Restricted;
    }
    hide ParameterValues, Restricted, BaseOf, PARAMETERS, DERIVED;
    StatelessNames(BaseOf(parameters, raw));
  }

  lemma FoodOnlyKeys(raw: Values)
    requires Food in raw && raw.Keys !! STATES
    ensures Restricted(raw, {Food} + STATES).Keys == {Food}
  {
    hide STATES;
  }

  lemma StatelessNames(base: Values)
    requires base.Keys == PARAMETERS + {Food}
    ensures NoStates(base)
  {
    forall n
      ensures n in base <==> IsBase(n) && !IsState(n)
    {
      BaseNames(n);
      StateNames(n);
      hide PARAMETERS, IsBase, IsState;
      assert n in base <==> n in base.Keys;
    }
  }

  lemma StateNames(n: Name)
    ensures n in STATES <==> IsState(n)
    ensures IsState(n) ==> n !in PARAMETERS && n != Food
  {
  }

  lemma FoodOnlyFacts(parameters: seq<(Name, real)>, raw: Values, base: Values, pw: PowerFn)
    requires FoodOnly(parameters, raw) && base == BaseOf(parameters, raw)
    ensures IsContract(DefinitionMap(ContractDefinitions())) && NoStates(base)
    ensures HasRatioNames(base)
    ensures Agrees(DefinitionMap(ContractDefinitions()), base, pw, MaleRatio, Recomputed(ContractModel(parameters), raw, MaleRatio, pw))
  {
    hide Recomputed, BaseOf, IsContract, NoStates, FoodOnly, DefinitionMap, ContractDefinitions, Agrees;
    FoodOnlyBase(parameters, raw);
    RatioNames(base);
    ContractIsContract();
    FoodOnlyAgrees(parameters, raw, base, pw);
  }

  // What the review's anchor checks rely on: with only the food level in the raw state the sex
  // ratio is recomputed exactly, whatever else is missing.
  lemma FoodOnlyMaleRatio(parameters: seq<(Name, real)>, raw: Values, base: Values, pw: PowerFn, g: real)
    requires FoodOnly(parameters, raw) && base == BaseOf(parameters, raw)
    requires Food in base && SexRatioShape in base && pw(base[Food], base[SexRatioShape]) == Some(g)
    ensures AdaptationWeight in base && SexLow in base && SexHigh in base
    ensures var r := Recomputed(ContractModel(parameters), raw, MaleRatio, pw);
            r.Ok? && r.value == MaleRatioAt(base[AdaptationWeight], base[SexLow], base[SexHigh], g, (base[SexLow] + base[SexHigh]) / 2.0)
  {
    hide Recomputed, BaseOf, IsContract, NoStates, FoodOnly, DefinitionMap, ContractDefinitions, Agrees, MaleRatioAt;
    FoodOnlyFacts(parameters, raw, base, pw);
    var mid := (base[SexLow] + base[SexHigh]) / 2.0;
    AgreedRatio(DefinitionMap(ContractDefinitions()), base, pw, g, mid,
                MaleRatioAt(base[AdaptationWeight], base[SexLow], base[SexHigh], g, mid),
                Recomputed(ContractModel(parameters), raw, MaleRatio, pw));
  }

  lemma FoodOnlyNeedsPower(parameters: seq<(Name, real)>, raw: Values, base: Values, pw: PowerFn)
    requires FoodOnly(parameters, raw) && base == BaseOf(parameters, raw)
    requires Food in base && SexRatioShape in base && pw(base[Food], base[SexRatioShape]).None?
    ensures Recomputed(ContractModel(parameters), raw, MaleRatio, pw).Err?
  {
    hide Recomputed, BaseOf, IsContract, NoStates, FoodOnly, DefinitionMap, ContractDefinitions, Agrees;
    FoodOnlyFacts(parameters, raw, base, pw);
    AgreedFailure(DefinitionMap(ContractDefinitions()), base, pw, Recomputed(ContractModel(parameters), raw, MaleRatio, pw));
  }

  lemma AgreedRatio(defs: Definitions, base: Values, pw: PowerFn, g: real, mid: real, v: real, r: Outcome)
    requires IsContract(defs) && NoStates(base) && HasRatioNames(base)
    requires mid == (base[SexLow] + base[SexHigh]) / 2.0 && pw(base[Food], base[SexRatioShape]) == Some(g)
    requires v == MaleRatioAt(base[AdaptationWeight], base[SexLow], base[SexHigh], g, mid)
    requires Agrees(defs, base, pw, MaleRatio, r)
    ensures r.Ok? && r.value == v
  {
    hide IsContract, NoStates, Expand, Faulty, Means, Meaningful, MaleRatioAt;
    MaleRatioMeans(defs, base, pw, g, mid, v);
    MeansImpliesMeaningful(defs, base, pw, MaleRatio, v);
    if r.Ok? {
      MeaningIsUnique(defs, base, pw, MaleRatio, r.value, v);
    } else if r.error.Fault? {
      var t :| Faulty(defs, base, pw, t);
      FaultyIsSexRule(defs, base, pw, t);
    }
  }

  lemma AgreedFailure(defs: Definitions, base: Values, pw: PowerFn, r: Outcome)
    requires IsContract(defs) && NoStates(base) && Food in base && SexRatioShape in base && pw(base[Food], base[SexRatioShape]).None?
    requires Agrees(defs, base, pw, MaleRatio, r)
    ensures r.Err?
  {
    hide IsContract, NoStates, Expand, Faulty, Means;
    if r.Ok? { SexRuleMeaningless(defs, base, pw, r.value); }
  }

  lemma FoodOnlyAgrees(parameters: seq<(Name, real)>, raw: Values, base: Values, pw: PowerFn)
    requires FoodOnly(parameters, raw) && base == BaseOf(parameters, raw)
    ensures Agrees(DefinitionMap(ContractDefinitions()), base, pw, MaleRatio, Recomputed(ContractModel(parameters), raw, MaleRatio, pw))
  {
    FoodOnlyBase(parameters, raw);
    ContractAssignments();
    DerivedAreDerived();
    var model := ContractModel(parameters);
    assert Separate(model, raw) by {
      hide DERIVED, BaseOf, PARAMETERS, STATES, IsDerived, IsState;
      assert forall n :: n in base ==> !IsDerived(n);
    }
    assert IsDerived(MaleRatio);
    hide DERIVED, PARAMETERS, STATES, ContractEquations, Assignments, Resolve, ParameterValues, Restricted, Agrees, DefinitionMap, IsDerived;
    RecomputationAgrees(model, raw, MaleRatio, pw);
    NotOverriding(parameters, raw, pw);
  }

  lemma NotOverriding(parameters: seq<(Name, real)>, raw: Values, pw: PowerFn)
    requires FoodOnly(parameters, raw)
    ensures Recomputed(ContractModel(parameters), raw, MaleRatio, pw) != Err(OverridesParameter)
  {
    FoodOnlyBase(parameters, raw);
    ContractAssignments();
    DerivedAreDerived();
    assert IsDerived(MaleRatio);
    hide DERIVED, PARAMETERS, STATES, ContractEquations, Assignments, ParameterValues, Restricted, ContractDefinitions, Pass;
    ResolveNeverOverrides(ContractDefinitions(), BaseOf(parameters, raw), MaleRatio, pw);
  }

  lemma {:induction false} ResolveNeverOverrides(ds: seq<Definition>, values: Values, n: Name, pw: PowerFn)
    ensures Resolve(ds, values, n, pw) != Err(OverridesParameter)
    decreases |ds|
  {
    if ds != [] {
      var sweep := Pass(ds, values, pw);
      hide Pass;
      if sweep.Ok? && n !in sweep.value.values && |sweep.value.rest| != |ds| {
        ResolveNeverOverrides(sweep.value.rest, sweep.value.values, n, pw);
      }
    }
  }

  // Without the power the sex rule has no value.
  lemma SexRuleMeaningless(defs: Definitions, base: Values, pw: PowerFn, v: real)
    requires IsContract(defs) && NoStates(base) && Food in base && SexRatioShape in base && pw(base[Food], base[SexRatioShape]).None?
    ensures !Means(defs, base, pw, MaleRatio, v)
  {
    forall depth: nat
      ensures Expand(defs, base, pw, depth, MaleRatio).None?
    {
      SexRuleNotExpanded(defs, base, pw, depth);
    }
    hide Expand;
  }

  lemma ExpandedIsEnvironment(defs: Definitions, base: Values, pw: PowerFn, depth: nat, n: Name)
    requires n in defs && depth > 0 && forall t :: t in Refs(defs[n]) ==> Expand(defs, base, pw, depth - 1, t).Some?
    ensures EnvironmentFor(defs, base, pw, n, Expanded(defs, base, pw, depth, n))
  {
    var env := Expanded(defs, base, pw, depth, n);
    hide Refs;
    forall t | t in Refs(defs[n])
      ensures Means(defs, base, pw, t, env[t])
    {
      assert Expand(defs, base, pw, depth - 1, t) == Some(env[t]);
    }
  }

  lemma SexRuleFails(defs: Definitions, base: Values, pw: PowerFn, env: Values)
    requires IsContract(defs) && NoStates(base) && EnvironmentFor(defs, base, pw, MaleRatio, env)
    requires Food in base && SexRatioShape in base && pw(base[Food], base[SexRatioShape]).None?
    ensures MaleRatio in defs && Evaluate(defs[MaleRatio], env, pw).Err?
  {
    BlockedNamesNot(defs, base);
    assert IsDerived(MaleRatio);
    hide IsContract, NoStates, Evaluate, Body, Refs, Filled, Means;
    SexRuleOperands(defs, base, pw, env);
    SameOnFilled(MaleRatio, env, pw);
    SexRuleNeedsPower(Filled(env), pw);
  }

  lemma FailingDefinition(defs: Definitions, base: Values, pw: PowerFn, depth: nat, n: Name)
    requires n in defs && n !in base
    requires depth > 0 && (forall t :: t in Refs(defs[n]) ==> Expand(defs, base, pw, depth - 1, t).Some?)
             ==> Evaluate(defs[n], Expanded(defs, base, pw, depth, n), pw).Err?
    ensures Expand(defs, base, pw, depth, n).None?
  {
    hide Evaluate, Refs, Expanded;
  }

  lemma SexRuleNotExpanded(defs: Definitions, base: Values, pw: PowerFn, depth: nat)
    requires IsContract(defs) && NoStates(base) && Food in base && SexRatioShape in base && pw(base[Food], base[SexRatioShape]).None?
    ensures Expand(defs, base, pw, depth, MaleRatio).None?
  {
    BlockedNamesNot(defs, base);
    hide IsContract, NoStates, Evaluate, Body, Refs, Expanded, EnvironmentFor, Expand;
    if depth > 0 && forall t :: t in Refs(defs[MaleRatio]) ==> Expand(defs, base, pw, depth - 1, t).Some? {
      ExpandedIsEnvironment(defs, base, pw, depth, MaleRatio);
      SexRuleFails(defs, base, pw, Expanded(defs, base, pw, depth, MaleRatio));
    }
    FailingDefinition(defs, base, pw, depth, MaleRatio);
  }
}
