// Which inputs a recomputation refuses, and what it collects from the others.
module Refusals {
  import opened Results
  import opened Expressions
  import opened Resolver

  // The i-th equation defines a derived symbol.
  predicate Defines(equations: seq<Equation>, derived: set<Name>, i: nat)
    requires i < |equations|
  {
    equations[i].lhs.Symbol? && equations[i].lhs.name in derived
  }

  // The j-th equation defines a symbol that an earlier one defines already.
  ghost predicate DefinesAgain(equations: seq<Equation>, derived: set<Name>, j: nat)
    requires j < |equations|
  {
    Defines(equations, derived, j) && exists i :: 0 <= i < j && equations[i].lhs == equations[j].lhs
  }

  ghost predicate FirstAgain(equations: seq<Equation>, derived: set<Name>, j: nat)
    requires j < |equations|
  {
    DefinesAgain(equations, derived, j) && forall i :: 0 <= i < j ==> !DefinesAgain(equations, derived, i)
  }

  // The definitions are those of the equations at these places, in order, and there are no others.
  ghost predicate ListedAt(equations: seq<Equation>, derived: set<Name>, ds: seq<Definition>, at: seq<nat>) {
    && |at| == |ds|
    && (forall k :: 0 <= k < |at| ==> at[k] < |equations| && Defines(equations, derived, at[k])
                                      && ds[k] == Definition(equations[at[k]].lhs.name, equations[at[k]].rhs))
    && (forall k, l :: 0 <= k < l < |at| ==> at[k] < at[l])
    && forall i :: 0 <= i < |equations| && Defines(equations, derived, i) ==> i in at
  }

  lemma LongerList(equations: seq<Equation>, q: Equation, derived: set<Name>)
    ensures forall i :: 0 <= i < |equations| ==>
              && Defines(equations + [q], derived, i) == Defines(equations, derived, i)
              && DefinesAgain(equations + [q], derived, i) == DefinesAgain(equations, derived, i)
  {
    var all := equations + [q];
    assert forall i :: 0 <= i < |equations| ==> all[i] == equations[i];
    forall j | 0 <= j < |equations|
      ensures DefinesAgain(all, derived, j) == DefinesAgain(equations, derived, j)
    {
      assert forall i :: 0 <= i < j ==> (all[i].lhs == all[j].lhs <==> equations[i].lhs == equations[j].lhs);
    }
  }

  // A definition is repeated exactly when its target is among those collected before.
  lemma AgainIffCollected(equations: seq<Equation>, q: Equation, derived: set<Name>, ds: seq<Definition>, at: seq<nat>)
    requires ListedAt(equations, derived, ds, at) && q.lhs.Symbol? && q.lhs.name in derived
    ensures DefinesAgain(equations + [q], derived, |equations|) <==> q.lhs.name in Targets(ds)
  {
    var all := equations + [q];
    if q.lhs.name in Targets(ds) {
      var k :| 0 <= k < |ds| && ds[k].target == q.lhs.name;
      assert all[at[k]].lhs == all[|equations|].lhs;
    }
    if i :| 0 <= i < |equations| && all[i].lhs == q.lhs {
      assert Defines(equations, derived, i);
      var k :| 0 <= k < |at| && at[k] == i;
      assert ds[k] in ds;
    }
  }

  lemma {:induction false} CollectedInOrder(equations: seq<Equation>, derived: set<Name>) returns (at: seq<nat>)
    requires Assignments(equations, derived).Ok?
    ensures ListedAt(equations, derived, Assignments(equations, derived).value, at)
    ensures forall j :: 0 <= j < |equations| ==> !DefinesAgain(equations, derived, j)
  {
    at := [];
    if equations != [] {
      var k := |equations| - 1;
      var before, q := equations[..k], equations[k];
      assert equations == before + [q];
      at := CollectedInOrder(before, derived);
      LongerList(before, q, derived);
      if Defines(equations, derived, k) {
        AgainIffCollected(before, q, derived, Assignments(before, derived).value, at);
        at := at + [k];
      }
    }
  }

  lemma {:induction false} FirstRepetition(equations: seq<Equation>, derived: set<Name>) returns (j: nat)
    requires Assignments(equations, derived).Err?
    ensures j < |equations| && FirstAgain(equations, derived, j)
    ensures Assignments(equations, derived) == Err(DuplicateDefinition(equations[j].lhs.name))
  {
    var k := |equations| - 1;
    var before, q := equations[..k], equations[k];
    assert equations == before + [q];
    LongerList(before, q, derived);
    if Assignments(before, derived).Err? {
      j := FirstRepetition(before, derived);
    } else {
      j := k;
      var at := CollectedInOrder(before, derived);
      AgainIffCollected(before, q, derived, Assignments(before, derived).value, at);
    }
  }

  // ---- the whole recomputation -----------------------------------------------------------------

  predicate IsParameter(model: Model, n: Name) {
    exists i :: 0 <= i < |model.parameters| && model.parameters[i].0 == n
  }

  // A raw value of a decision or state variable carries the name of a parameter.
  ghost predicate Overrides(model: Model, raw: Values) {
    exists n :: n in raw && n in model.decision + model.state && IsParameter(model, n)
  }

  ghost predicate Repeats(model: Model) {
    exists j :: 0 <= j < |model.equations| && DefinesAgain(model.equations, model.derived, j)
  }

  lemma {:induction false} ParameterNames(parameters: seq<(Name, real)>, n: Name)
    ensures n in ParameterValues(parameters) <==> exists i :: 0 <= i < |parameters| && parameters[i].0 == n
    ensures forall i :: 0 <= i < |parameters| && parameters[i].0 == n && (forall j :: i < j < |parameters| ==> parameters[j].0 != n) ==>
              ParameterValues(parameters)[n] == parameters[i].1
  {
    if parameters != [] {
      var k := |parameters| - 1;
      assert parameters == parameters[..k] + [parameters[k]];
      ParameterNames(parameters[..k], n);
    }
  }

  lemma {:induction false} ResolveErrors(pending: seq<Definition>, values: Values, symbol: Name, pw: PowerFn)
    ensures var r := Resolve(pending, values, symbol, pw); r.Err? ==> r.error.Unresolved? || r.error.Fault?
    decreases |pending|
  {
    if pending != [] {
      var s := Pass(pending, values, pw);
      if s.Ok? && symbol !in s.value.values && |s.value.rest| != |pending| { ResolveErrors(s.value.rest, s.value.values, symbol, pw); }
    }
  }

  lemma OverridesIff(model: Model, raw: Values)
    ensures ParameterValues(model.parameters).Keys * Restricted(raw, model.decision + model.state).Keys != {} <==> Overrides(model, raw)
  {
    var base := ParameterValues(model.parameters).Keys * Restricted(raw, model.decision + model.state).Keys;
    forall n
      ensures n in base <==> n in raw && n in model.decision + model.state && IsParameter(model, n)
    {
      ParameterNames(model.parameters, n);
    }
    if Overrides(model, raw) {
      var n :| n in raw && n in model.decision + model.state && IsParameter(model, n);
      assert n in base;
    }
  }

  // The three refusals, in the order they are looked for: an unknown symbol, a raw value for a
  // parameter, and a derived symbol defined twice, named by the first repetition.
  lemma RefusalsIff(model: Model, raw: Values, symbol: Name, pw: PowerFn)
    ensures var r := Recomputed(model, raw, symbol, pw);
            && (r == Err(NotDerived) <==> symbol !in model.derived)
            && (r == Err(OverridesParameter) <==> symbol in model.derived && Overrides(model, raw))
            && (r.Err? && r.error.DuplicateDefinition? <==> symbol in model.derived && !Overrides(model, raw) && Repeats(model))
    ensures symbol in model.derived && !Overrides(model, raw) ==>
              forall j :: 0 <= j < |model.equations| && FirstAgain(model.equations, model.derived, j) ==>
                Recomputed(model, raw, symbol, pw) == Err(DuplicateDefinition(model.equations[j].lhs.name))
  {
    OverridesIff(model, raw);
    var collected := Assignments(model.equations, model.derived);
    if collected.Err? {
      var j := FirstRepetition(model.equations, model.derived);
      forall i | 0 <= i < |model.equations| && FirstAgain(model.equations, model.derived, i)
        ensures i == j
      {
        if i < j {} else if j < i {}
      }
    } else {
      var at := CollectedInOrder(model.equations, model.derived);
      ResolveErrors(collected.value, BaseValues(model, raw), symbol, pw);
    }
  }

  // What the definitions start from: the last of the parameters of a name, and the raw values
  // of decision and state variables.
  lemma BaseValuesAre(model: Model, raw: Values, n: Name)
    ensures n in BaseValues(model, raw) <==> IsParameter(model, n) || (n in raw && n in model.decision + model.state)
    ensures n in raw && n in model.decision + model.state ==> BaseValues(model, raw)[n] == raw[n]
    ensures !Overrides(model, raw) ==>
              forall i :: 0 <= i < |model.parameters| && model.parameters[i].0 == n
                          && (forall j :: i < j < |model.parameters| ==> model.parameters[j].0 != n) ==>
                BaseValues(model, raw)[n] == model.parameters[i].1
  {
    ParameterNames(model.parameters, n);
  }
}
