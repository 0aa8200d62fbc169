// Recomputation of one derived scalar from the formal equations: a fixpoint over the
// pending definitions, proved against recursive expansion.
module Resolver {
  import opened Results
  import opened Expressions

  datatype Equation = Equation(lhs: Expr, rhs: Expr)

  datatype Definition = Definition(target: Name, body: Expr)

  datatype Model = Model(decision: set<Name>, state: set<Name>, derived: set<Name>,
                         parameters: seq<(Name, real)>, equations: seq<Equation>)

  datatype ResolveError =
    | NotDerived
    | OverridesParameter
    | DuplicateDefinition(target: Name)
    | Unresolved
    | Fault(error: EvalError)

  type Outcome = Result<real, ResolveError>

  // ---- specification: one sweep over the pending definitions, then repeat -----------

  datatype Sweep = Sweep(values: Values, rest: seq<Definition>)

  function Pass(pending: seq<Definition>, values: Values, pw: PowerFn): (r: Result<Sweep, EvalError>)
    ensures r.Ok? ==> |r.value.rest| <= |pending|
  {
    if pending == [] then Ok(Sweep(values, []))
    else
      var d := pending[0];
      if Refs(d.body) <= values.Keys then
        match Evaluate(d.body, values, pw)
        case Err(e) => Err(e)
        case Ok(v) => Pass(pending[1..], values[d.target := v], pw)
      else
        match Pass(pending[1..], values, pw)
        case Err(e) => Err(e)
        case Ok(s) => Ok(Sweep(s.values, [d] + s.rest))
  }

  function Resolve(pending: seq<Definition>, values: Values, symbol: Name, pw: PowerFn): Outcome
    decreases |pending|
  {
    if pending == [] then Err(Unresolved)
    else
      match Pass(pending, values, pw)
      case Err(e) => Err(Fault(e))
      case Ok(s) =>
        if symbol in s.values then Ok(s.values[symbol])
        else if |s.rest| == |pending| then Err(Unresolved)
        else Resolve(s.rest, s.values, symbol, pw)
  }

  function ParameterValues(parameters: seq<(Name, real)>): Values {
    if parameters == [] then map[]
    else
      var last := parameters[|parameters| - 1];
      ParameterValues(parameters[..|parameters| - 1])[last.0 := last.1]
  }

  function Restricted(raw: Values, names: set<Name>): Values {
    map n | n in raw && n in names :: raw[n]
  }

  function Targets(ds: seq<Definition>): set<Name> {
    set d | d in ds :: d.target
  }

  // The defining equations of derived symbols, in list order.
  function Assignments(equations: seq<Equation>, derived: set<Name>): Result<seq<Definition>, ResolveError> {
    if equations == [] then Ok([])
    else
      var k := |equations| - 1;
      match Assignments(equations[..k], derived)
      case Err(e) => Err(e)
      case Ok(ds) =>
        var q := equations[k];
        if !q.lhs.Symbol? || q.lhs.name !in derived then Ok(ds)
        else if q.lhs.name in Targets(ds) then Err(DuplicateDefinition(q.lhs.name))
        else Ok(ds + [Definition(q.lhs.name, q.rhs)])
  }

  function BaseValues(model: Model, raw: Values): Values {
    ParameterValues(model.parameters) + Restricted(raw, model.decision + model.state)
  }

  function Recomputed(model: Model, raw: Values, symbol: Name, pw: PowerFn): Outcome {
    if symbol !in model.derived then Err(NotDerived)
    else if ParameterValues(model.parameters).Keys * Restricted(raw, model.decision + model.state).Keys != {} then
      Err(OverridesParameter)
    else
      match Assignments(model.equations, model.derived)
      case Err(e) => Err(e)
      case Ok(ds) => Resolve(ds, BaseValues(model, raw), symbol, pw)
  }

  // ---- the loops of the program ------------------------------------------------------

  lemma PassSkips(done: seq<Definition>, d: Definition, tail: seq<Definition>)
    ensures (done + [d]) + tail == done + ([d] + tail)
  {
  }

  // One sweep: ready definitions are evaluated and deleted, the others stay in order.
  method RunPass(pending: seq<Definition>, values: Values, pw: PowerFn) returns (r: Result<Sweep, EvalError>)
    ensures r == Pass(pending, values, pw)
  {
    var vals, rest := values, [];
    var i := 0;
    assert pending[0..] == pending;
    assert forall t: seq<Definition> :: [] + t == t;
    while i < |pending|
      invariant 0 <= i <= |pending|
      invariant Pass(pending, values, pw) ==
                match Pass(pending[i..], vals, pw)
                case Err(e) => Err(e)
                case Ok(s) => Ok(Sweep(s.values, rest + s.rest))
    {
      var d := pending[i];
      assert pending[i..][1..] == pending[i + 1..];
      if Refs(d.body) <= vals.Keys {
        match Evaluate(d.body, vals, pw) {
          case Err(e) => return Err(e);
          case Ok(v) => vals := vals[d.target := v];
        }
      } else {
        var tail := Pass(pending[i + 1..], vals, pw);
        if tail.Ok? { PassSkips(rest, d, tail.value.rest); }
        rest := rest + [d];
      }
      i := i + 1;
    }
    assert rest + [] == rest;
    r := Ok(Sweep(vals, rest));
  }

  method CollectAssignments(equations: seq<Equation>, derived: set<Name>) returns (r: Result<seq<Definition>, ResolveError>)
    ensures r == Assignments(equations, derived)
  {
    var ds: seq<Definition> := [];
    var i := 0;
    while i < |equations|
      invariant 0 <= i <= |equations|
      invariant Assignments(equations[..i], derived) == Ok(ds)
    {
      var q := equations[i];
      assert equations[..i + 1][..i] == equations[..i];
      if q.lhs.Symbol? && q.lhs.name in derived {
        if q.lhs.name in Targets(ds) {
          ErrorPropagates(equations, derived, i + 1);
          return Err(DuplicateDefinition(q.lhs.name));
        }
        ds := ds + [Definition(q.lhs.name, q.rhs)];
      }
      i := i + 1;
    }
    assert equations[..i] == equations;
    r := Ok(ds);
  }

  lemma {:induction false} ErrorPropagates(equations: seq<Equation>, derived: set<Name>, i: nat)
    requires i <= |equations| && Assignments(equations[..i], derived).Err?
    ensures Assignments(equations, derived) == Assignments(equations[..i], derived)
  {
    if i < |equations| {
      var k := |equations| - 1;
      assert equations[..k][..i] == equations[..i];
      ErrorPropagates(equations[..k], derived, i);
    } else {
      assert equations[..i] == equations;
    }
  }

  // The recomputation itself, with the loop over the remaining definitions.
  method AlgebraicValue(model: Model, raw: Values, symbol: Name, pw: PowerFn) returns (r: Outcome)
    ensures r == Recomputed(model, raw, symbol, pw)
  {
    if symbol !in model.derived {
      return Err(NotDerived);
    }
    var parameters := ParameterValues(model.parameters);
    var variables := Restricted(raw, model.decision + model.state);
    if parameters.Keys * variables.Keys != {} {
      return Err(OverridesParameter);
    }
    var collected := CollectAssignments(model.equations, model.derived);
    if collected.Err? {
      return Err(collected.error);
    }
    var remaining, values := collected.value, parameters + variables;
    while remaining != []
      invariant Recomputed(model, raw, symbol, pw) == Resolve(remaining, values, symbol, pw)
      decreases |remaining|
    {
      var sweep := RunPass(remaining, values, pw);
      match sweep {
        case Err(e) => return Err(Fault(e));
        case Ok(s) =>
          if symbol in s.values {
            return Ok(s.values[symbol]);
          }
          if |s.rest| == |remaining| {
            return Err(Unresolved);
          }
          remaining, values := s.rest, s.values;
      }
    }
    r := Err(Unresolved);
  }
}
