// What the recomputation returns for the reviewed contract, for every parameter list and
// every full raw state.
module CaseAOutcome {
  import opened Results
  import opened Expressions
  import opened Resolver
  import opened Meaning
  import opened CaseA
  import opened CaseAValues
  import opened CaseASolution
  import Spectrum
  import Stability

  // Every parameter has a value and the raw state holds food and the four levels.
  ghost predicate FullState(parameters: seq<(Name, real)>, raw: Values) {
    ParameterValues(parameters).Keys == PARAMETERS && {Food} + STATES <= raw.Keys
  }

  function BaseOf(parameters: seq<(Name, real)>, raw: Values): Values {
    BaseValues(ContractModel(parameters), raw)
  }

  ghost predicate ExactlyBase(base: Values) {
    forall n :: n in base <==> IsBase(n)
  }

  lemma RestrictedKeys(raw: Values, names: set<Name>)
    requires names <= raw.Keys
    ensures Restricted(raw, names).Keys == names
  {
  }

  lemma BaseKeySets(parameters: seq<(Name, real)>, raw: Values)
    requires FullState(parameters, raw)
    ensures BaseOf(parameters, raw).Keys == PARAMETERS + ({Food} + STATES)
    ensures Restricted(raw, {Food} + STATES).Keys == {Food} + STATES
  {
    hide PARAMETERS, STATES, DERIVED, ParameterValues, ContractEquations, Restricted;
    RestrictedKeys(raw, {Food} + STATES);
  }

  lemma ExactKeys(base: Values)
    requires base.Keys == PARAMETERS + ({Food} + STATES)
    ensures ExactlyBase(base)
  {
    hide PARAMETERS, STATES, IsBase;
    forall n
      ensures n in base <==> IsBase(n)
    {
      BaseNames(n);
      assert n in base <==> n in base.Keys;
    }
  }

  lemma BaseKeys(parameters: seq<(Name, real)>, raw: Values)
    requires FullState(parameters, raw)
    ensures ExactlyBase(BaseOf(parameters, raw)) && BaseComplete(BaseOf(parameters, raw))
  {
    BaseKeySets(parameters, raw);
    hide BaseOf, FullState, IsBase;
    ExactKeys(BaseOf(parameters, raw));
    hide PARAMETERS, STATES;
  }

  lemma NothingOverridden(parameters: seq<(Name, real)>, raw: Values)
    requires FullState(parameters, raw)
    ensures ParameterValues(parameters).Keys * Restricted(raw, {Food} + STATES).Keys == {}
  {
    BaseKeySets(parameters, raw);
    ParametersAreNotVariables();
    hide ParameterValues, Restricted, BaseOf, PARAMETERS, STATES;
  }

  lemma ParametersAreNotVariables()
    ensures PARAMETERS * ({Food} + STATES) == {}
  {
  }

  lemma SatisfiesEach(env: Values, pw: PowerFn)
    requires Solves(env, pw)
    ensures forall d :: d in ContractDefinitions() ==> Satisfies(env, d, pw)
  {
    forall d | d in ContractDefinitions()
      ensures Satisfies(env, d, pw)
    {
      var i :| 0 <= i < 26 && ContractDefinitions()[i] == d;
      DefinitionAt(i);
      hide Evaluate, Body;
      assert Evaluates(Body(d.target), env, pw, env[d.target]);
    }
  }

  lemma SolvesAll(env: Values, pw: PowerFn)
    requires Complete(env) && forall d :: d in ContractDefinitions() ==> Satisfies(env, d, pw)
    ensures Solves(env, pw)
  {
    forall n | IsDerived(n)
      ensures Evaluates(Body(n), env, pw, env[n])
    {
      ListedByRank(n);
      DefinitionAt(Rank(n));
      assert ContractDefinitions()[Rank(n)] in ContractDefinitions();
      hide Evaluate, Body;
      assert Satisfies(env, ContractDefinitions()[Rank(n)], pw);
    }
  }

  lemma EvaluatedKeys(base: Values, all: Values)
    requires ExactlyBase(base) && all.Keys == base.Keys + DERIVED && forall n :: n in base ==> all[n] == base[n]
    ensures Complete(all) && Extends(all, base)
  {
    DerivedAreDerived();
    hide DERIVED, IsDerived;
  }

  lemma EvaluatedSatisfies(base: Values, pw: PowerFn)
    requires ExactlyBase(base) && InOrder(ContractDefinitions(), base, pw).Ok?
    ensures var all := InOrder(ContractDefinitions(), base, pw).value;
            Complete(all) && Extends(all, base) && Solves(all, pw)
  {
    var all := InOrder(ContractDefinitions(), base, pw).value;
    ContractIsDistinct();
    TargetsOfContract();
    TargetsAreNew(base);
    ContractIsOrdered(base.Keys);
    hide InOrder, ContractDefinitions, DERIVED, IsBase, IsDerived, Distinct, Ordered, Targets, Satisfies, Solves, Extends, Complete, ExactlyBase;
    InOrderSatisfies(ContractDefinitions(), base, pw);
    EvaluatedKeys(base, all);
    SolvesAll(all, pw);
  }

  lemma TargetsAreNew(base: Values)
    requires ExactlyBase(base)
    ensures DERIVED !! base.Keys
  {
    DerivedAreDerived();
    hide DERIVED, IsDerived;
  }

  // In-order evaluation of the contract succeeds exactly on well-posed states.
  lemma EvaluableIsWellPosed(base: Values, pw: PowerFn)
    requires ExactlyBase(base) && LawfulPower(pw) && InOrder(ContractDefinitions(), base, pw).Ok?
    ensures WellPosed(base, pw)
    ensures var all := InOrder(ContractDefinitions(), base, pw).value;
            Complete(all) && forall n :: IsDerived(n) ==> all[n] == SolutionAt(base, pw, n)
  {
    EvaluatedSatisfies(base, pw);
    var all := InOrder(ContractDefinitions(), base, pw).value;
    hide InOrder, LawfulPower, Solves, Extends, Closed, ContractDefinitions;
    SolvesIsClosed(all, base, pw);
  }

  lemma DerivedAreDerived()
    ensures forall n :: n in DERIVED <==> IsDerived(n)
  {
    forall n
      ensures n in DERIVED <==> IsDerived(n)
    {
      DerivedNames(n);
    }
  }

  ghost function ClosedEnvironment(base: Values, pw: PowerFn): Values
    requires BaseComplete(base) && WellPosed(base, pw) && LawfulPower(pw)
  {
    DerivedAreDerived();
    map n | n in base.Keys + DERIVED :: if n in DERIVED then SolutionAt(base, pw, n) else base[n]
  }

  lemma WellPosedIsEvaluable(base: Values, pw: PowerFn)
    requires ExactlyBase(base) && LawfulPower(pw) && WellPosed(base, pw)
    ensures InOrder(ContractDefinitions(), base, pw).Ok?
  {
    var env := ClosedEnvironment(base, pw);
    DerivedAreDerived();
    ClosedEnvironmentSolves(base, pw);
    SatisfiesEach(env, pw);
    ContractIsOrdered(base.Keys);
    hide LawfulPower, ContractDefinitions, ClosedEnvironment;
    InOrderFollows(ContractDefinitions(), base, env, pw);
  }

  lemma ClosedEnvironmentIs(base: Values, pw: PowerFn)
    requires ExactlyBase(base) && LawfulPower(pw) && WellPosed(base, pw)
    ensures var env := ClosedEnvironment(base, pw);
            && Complete(env) && Extends(env, base)
            && forall n :: IsDerived(n) ==> env[n] == SolutionAt(base, pw, n)
  {
    DerivedAreDerived();
    hide LawfulPower, SolutionAt, WellPosed, DERIVED, IsDerived;
  }

  lemma ClosedEnvironmentSolves(base: Values, pw: PowerFn)
    requires ExactlyBase(base) && LawfulPower(pw) && WellPosed(base, pw)
    ensures Extends(ClosedEnvironment(base, pw), base) && Solves(ClosedEnvironment(base, pw), pw)
  {
    var env := ClosedEnvironment(base, pw);
    ClosedEnvironmentIs(base, pw);
    hide LawfulPower, ClosedEnvironment, Closed, Complete, Extends, DERIVED;
    assert IsClosed(env, base, FoodPower(base, pw), DiscRoot(base, pw));
    ClosedSolves(env, base, pw);
  }

  // The recomputed scalar of any derived symbol, for every parameter list and full state:
  // the closed form where the state is well posed, an evaluation fault everywhere else.
  lemma FullStateOutcome(parameters: seq<(Name, real)>, raw: Values, symbol: Name, pw: PowerFn)
    requires FullState(parameters, raw) && LawfulPower(pw) && IsDerived(symbol)
    ensures BaseComplete(BaseOf(parameters, raw))
    ensures var r := Recomputed(ContractModel(parameters), raw, symbol, pw);
            if WellPosed(BaseOf(parameters, raw), pw)
            then r == Ok(SolutionAt(BaseOf(parameters, raw), pw, symbol))
            else r.Err? && r.error.Fault?
  {
    var base := BaseOf(parameters, raw);
    BaseKeys(parameters, raw);
    SinglePass(parameters, raw, symbol, pw);
    hide Recomputed, InOrder, LawfulPower, WellPosed, SolutionAt, ContractDefinitions, FullState, BaseOf;
    if WellPosed(base, pw) {
      WellPosedIsEvaluable(base, pw);
      EvaluableIsWellPosed(base, pw);
    } else if InOrder(ContractDefinitions(), base, pw).Ok? {
      EvaluableIsWellPosed(base, pw);
    }
  }

  function Reported(r: Result<Values, EvalError>, symbol: Name): Outcome {
    match r
    case Err(e) => Err(Fault(e))
    case Ok(env) => if symbol in env then Ok(env[symbol]) else Err(Unresolved)
  }

  // The fixpoint ends after one sweep in list order.
  lemma SinglePass(parameters: seq<(Name, real)>, raw: Values, symbol: Name, pw: PowerFn)
    requires FullState(parameters, raw) && IsDerived(symbol)
    ensures Recomputed(ContractModel(parameters), raw, symbol, pw) ==
            Reported(InOrder(ContractDefinitions(), BaseOf(parameters, raw), pw), symbol)
  {
    var base := BaseOf(parameters, raw);
    BaseKeys(parameters, raw);
    NothingOverridden(parameters, raw);
    ContractAssignments();
    DerivedAreDerived();
    ContractIsOrdered(base.Keys);
    OrderedPass(ContractDefinitions(), base, pw);
    NonEmptyContract();
    hide ContractDefinitions, InOrder, Pass, DERIVED, PARAMETERS, STATES, Ordered, ContractEquations, ParameterValues, Restricted,
         IsDerived, Assignments, BaseComplete, ExactlyBase;
    ResolveOnePass(ContractDefinitions(), base, symbol, pw);
  }

  lemma NonEmptyContract()
    ensures |ContractDefinitions()| == 26
  {
  }

  lemma ResolveOnePass(ds: seq<Definition>, base: Values, symbol: Name, pw: PowerFn)
    requires ds != []
    requires Pass(ds, base, pw) ==
             match InOrder(ds, base, pw)
             case Err(e) => Err(e)
             case Ok(all) => Ok(Sweep(all, []))
    ensures Resolve(ds, base, symbol, pw) == Reported(InOrder(ds, base, pw), symbol)
  {
    hide Pass, InOrder;
  }

  // Evaluating the contract's equations from first to last gives every symbol the value that
  // recursive expansion through its operands gives it, for every assignment to base symbols.
  lemma ContractOrderIsMeaning(base: Values, pw: PowerFn)
    requires ExactlyBase(base)
    ensures match InOrder(ContractDefinitions(), base, pw)
            case Err(_) => exists s :: Faulty(DefinitionMap(ContractDefinitions()), base, pw, s)
            case Ok(env) => DERIVED <= env.Keys && forall s :: s in env ==> Means(DefinitionMap(ContractDefinitions()), base, pw, s, env[s])
  {
    ContractIsDistinct();
    TargetsOfContract();
    TargetsAreNew(base);
    ContractIsOrdered(base.Keys);
    hide InOrder, ContractDefinitions, DERIVED, IsBase, IsDerived, Distinct, Ordered, Targets, ExactlyBase, DefinitionMap, Faulty, Means;
    ListOrderIsMeaning(ContractDefinitions(), base, pw);
  }
}
