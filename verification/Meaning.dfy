// What a derived symbol means, independently of any evaluation order: recursive expansion
// through its defining equations.  The fixpoint of Resolver agrees with it.
module Meaning {
  import opened Results
  import opened Expressions
  import opened Resolver

  type Definitions = map<Name, Expr>

  // The value of s after at most `depth` nested expansions.
  ghost function Expand(defs: Definitions, base: Values, pw: PowerFn, depth: nat, s: Name): Option<real>
    decreases depth, 1
  {
    if s in base then Some(base[s])
    else if s !in defs || depth == 0 then None
    else if forall t :: t in Refs(defs[s]) ==> Expand(defs, base, pw, depth - 1, t).Some? then
      match Evaluate(defs[s], Expanded(defs, base, pw, depth, s), pw)
      case Err(_) => None
      case Ok(v) => Some(v)
    else None
  }

  // The values of the symbols the definition of s refers to.
  ghost function Expanded(defs: Definitions, base: Values, pw: PowerFn, depth: nat, s: Name): Values
    requires s in defs && depth > 0
    requires forall t :: t in Refs(defs[s]) ==> Expand(defs, base, pw, depth - 1, t).Some?
    decreases depth, 0
  {
    map t | t in Refs(defs[s]) :: Expand(defs, base, pw, depth - 1, t).value
  }

  ghost predicate Means(defs: Definitions, base: Values, pw: PowerFn, s: Name, v: real) {
    exists depth: nat :: Expand(defs, base, pw, depth, s) == Some(v)
  }

  ghost predicate Meaningful(defs: Definitions, base: Values, pw: PowerFn, s: Name) {
    exists depth: nat :: Expand(defs, base, pw, depth, s).Some?
  }

  // All operands of s have values, yet its own definition cannot be evaluated.
  ghost predicate Faulty(defs: Definitions, base: Values, pw: PowerFn, s: Name) {
    && s in defs && s !in base
    && exists env: Values :: EnvironmentFor(defs, base, pw, s, env) && Evaluate(defs[s], env, pw).Err?
  }

  ghost predicate EnvironmentFor(defs: Definitions, base: Values, pw: PowerFn, s: Name, env: Values)
    requires s in defs
  {
    Refs(defs[s]) <= env.Keys && forall t :: t in Refs(defs[s]) ==> Means(defs, base, pw, t, env[t])
  }

  // ---- expansion is stable in the depth -----------------------------------------------

  lemma {:induction false} DeeperKeeps(defs: Definitions, base: Values, pw: PowerFn, n: nat, m: nat, s: Name)
    requires n <= m && Expand(defs, base, pw, n, s).Some?
    ensures Expand(defs, base, pw, m, s) == Expand(defs, base, pw, n, s)
    decreases n
  {
    if s !in base {
      forall t | t in Refs(defs[s])
        ensures Expand(defs, base, pw, m - 1, t) == Expand(defs, base, pw, n - 1, t)
      {
        DeeperKeeps(defs, base, pw, n - 1, m - 1, t);
      }
      assert Expanded(defs, base, pw, m, s) == Expanded(defs, base, pw, n, s);
    }
  }

  lemma MeaningIsUnique(defs: Definitions, base: Values, pw: PowerFn, s: Name, v: real, w: real)
    requires Means(defs, base, pw, s, v) && Means(defs, base, pw, s, w)
    ensures v == w
  {
    var n: nat :| Expand(defs, base, pw, n, s) == Some(v);
    var m: nat :| Expand(defs, base, pw, m, s) == Some(w);
    var k := if n < m then m else n;
    DeeperKeeps(defs, base, pw, n, k, s);
    DeeperKeeps(defs, base, pw, m, k, s);
  }

  // One depth that serves a whole finite set of meaningful symbols.
  lemma {:induction false} CommonDepth(defs: Definitions, base: Values, pw: PowerFn, names: set<Name>, env: Values) returns (depth: nat)
    requires names <= env.Keys && forall t :: t in names ==> Means(defs, base, pw, t, env[t])
    ensures forall t :: t in names ==> Expand(defs, base, pw, depth, t) == Some(env[t])
    decreases |names|
  {
    if names == {} {
      depth := 0;
    } else {
      var t :| t in names;
      var n: nat :| Expand(defs, base, pw, n, t) == Some(env[t]);
      var m := CommonDepth(defs, base, pw, names - {t}, env);
      depth := if n < m then m else n;
      forall u | u in names
        ensures Expand(defs, base, pw, depth, u) == Some(env[u])
      {
        if u == t {
          DeeperKeeps(defs, base, pw, n, depth, u);
        } else {
          DeeperKeeps(defs, base, pw, m, depth, u);
        }
      }
    }
  }

  // A definition evaluated over meanings of its operands gives the meaning of its target.
  lemma DefinitionMeans(defs: Definitions, base: Values, pw: PowerFn, s: Name, env: Values)
    requires s in defs && s !in base && EnvironmentFor(defs, base, pw, s, env) && Evaluate(defs[s], env, pw).Ok?
    ensures Means(defs, base, pw, s, Evaluate(defs[s], env, pw).value)
  {
    var n := CommonDepth(defs, base, pw, Refs(defs[s]), env);
    var exact := Expanded(defs, base, pw, n + 1, s);
    OnlyRefsMatter(defs[s], env, exact, pw);
    assert Expand(defs, base, pw, n + 1, s) == Some(Evaluate(defs[s], env, pw).value);
  }

  // ---- the state of the fixpoint -------------------------------------------------------

  ghost predicate Distinct(ds: seq<Definition>) {
    ds == [] || (ds[0].target !in Targets(ds[1..]) && Distinct(ds[1..]))
  }

  // `others` are the targets of definitions skipped earlier in the same sweep.
  ghost predicate Consistent(defs: Definitions, base: Values, pw: PowerFn, pending: seq<Definition>, others: set<Name>, values: Values) {
    && Distinct(pending)
    && (forall d :: d in pending ==> d.target in defs && defs[d.target] == d.body && d.target !in values && d.target !in others)
    && others !! values.Keys
    && base.Keys <= values.Keys
    && (forall n :: n in values ==> Means(defs, base, pw, n, values[n]))
    && (forall n :: n in defs ==> n in values || n in others || n in Targets(pending))
  }

  lemma TargetsStep(ds: seq<Definition>)
    requires ds != []
    ensures Targets(ds) == {ds[0].target} + Targets(ds[1..])
  {
    assert ds == [ds[0]] + ds[1..];
  }

  lemma TargetsCons(d: Definition, ds: seq<Definition>)
    ensures Targets([d] + ds) == {d.target} + Targets(ds)
  {
    TargetsStep([d] + ds);
    assert ([d] + ds)[1..] == ds;
  }

  // The first pending definition is ready and evaluates: its value is its meaning.
  lemma TakeStep(defs: Definitions, base: Values, pw: PowerFn, pending: seq<Definition>, others: set<Name>, values: Values)
    requires Consistent(defs, base, pw, pending, others, values) && pending != []
    requires Refs(pending[0].body) <= values.Keys && Evaluate(pending[0].body, values, pw).Ok?
    ensures Consistent(defs, base, pw, pending[1..], others,
                       values[pending[0].target := Evaluate(pending[0].body, values, pw).value])
  {
    var d := pending[0];
    assert d in pending;
    assert forall e :: e in pending[1..] ==> e in pending;
    DefinitionMeans(defs, base, pw, d.target, values);
    TargetsStep(pending);
  }

  lemma SkipStep(defs: Definitions, base: Values, pw: PowerFn, pending: seq<Definition>, others: set<Name>, values: Values)
    requires Consistent(defs, base, pw, pending, others, values) && pending != []
    ensures Consistent(defs, base, pw, pending[1..], others + {pending[0].target}, values)
  {
    assert pending[0] in pending;
    assert forall e :: e in pending[1..] ==> e in pending;
    TargetsStep(pending);
  }

  lemma UnskipStep(defs: Definitions, base: Values, pw: PowerFn, d: Definition, rest: seq<Definition>, others: set<Name>, values: Values)
    requires Consistent(defs, base, pw, rest, others + {d.target}, values)
    requires d.target in defs && defs[d.target] == d.body && d.target !in others
    ensures Consistent(defs, base, pw, [d] + rest, others, values)
  {
    TargetsCons(d, rest);
    assert ([d] + rest)[1..] == rest;
  }

  // One sweep keeps every known value meaningful; a sweep that fails found a faulty symbol.
  lemma {:induction false} PassSound(defs: Definitions, base: Values, pw: PowerFn, pending: seq<Definition>, others: set<Name>, values: Values)
    requires Consistent(defs, base, pw, pending, others, values)
    ensures match Pass(pending, values, pw)
            case Err(_) => exists s :: Faulty(defs, base, pw, s)
            case Ok(s) => Consistent(defs, base, pw, s.rest, others, s.values)
  {
    if pending != [] {
      var d := pending[0];
      assert d in pending;
      if Refs(d.body) <= values.Keys {
        match Evaluate(d.body, values, pw) {
          case Err(_) =>
            assert EnvironmentFor(defs, base, pw, d.target, values);
            assert Faulty(defs, base, pw, d.target);
          case Ok(v) =>
            TakeStep(defs, base, pw, pending, others, values);
            PassSound(defs, base, pw, pending[1..], others, values[d.target := v]);
        }
      } else {
        SkipStep(defs, base, pw, pending, others, values);
        PassSound(defs, base, pw, pending[1..], others + {d.target}, values);
        var tail := Pass(pending[1..], values, pw);
        if tail.Ok? {
          UnskipStep(defs, base, pw, d, tail.value.rest, others, tail.value.values);
        }
      }
    }
  }

  // A sweep without progress changed nothing and found nothing ready.
  lemma {:induction false} NoProgress(pending: seq<Definition>, values: Values, pw: PowerFn)
    requires Pass(pending, values, pw).Ok? && |Pass(pending, values, pw).value.rest| == |pending|
    ensures Pass(pending, values, pw).value.values == values
    ensures forall d :: d in pending ==> !(Refs(d.body) <= values.Keys)
  {
    if pending != [] {
      NoProgress(pending[1..], values, pw);
      assert pending == [pending[0]] + pending[1..];
    }
  }

  // With nothing ready, no symbol outside the known values has a meaning.
  lemma {:induction false} StuckIsMeaningless(defs: Definitions, base: Values, pw: PowerFn, pending: seq<Definition>, values: Values, depth: nat, s: Name)
    requires Consistent(defs, base, pw, pending, {}, values)
    requires forall d :: d in pending ==> !(Refs(d.body) <= values.Keys)
    ensures Expand(defs, base, pw, depth, s).Some? ==> s in values
    decreases depth
  {
    if Expand(defs, base, pw, depth, s).Some? && s !in values {
      assert s in Targets(pending);
      var d :| d in pending && d.target == s;
      forall t | t in Refs(d.body)
        ensures t in values
      {
        StuckIsMeaningless(defs, base, pw, pending, values, depth - 1, t);
      }
      assert false;
    }
  }

  // The three outcomes of the fixpoint, each with what it says about the meaning.
  ghost predicate Agrees(defs: Definitions, base: Values, pw: PowerFn, s: Name, r: Outcome) {
    match r
    case Ok(v) => Means(defs, base, pw, s, v)
    case Err(Fault(_)) => exists t :: Faulty(defs, base, pw, t)
    case Err(Unresolved) => !Meaningful(defs, base, pw, s)
    case Err(_) => false
  }

  lemma StuckOutcome(defs: Definitions, base: Values, pw: PowerFn, pending: seq<Definition>, values: Values, s: Name)
    requires Consistent(defs, base, pw, pending, {}, values) && s !in values
    requires forall d :: d in pending ==> !(Refs(d.body) <= values.Keys)
    ensures Agrees(defs, base, pw, s, Err(Unresolved))
  {
    forall depth: nat
      ensures Expand(defs, base, pw, depth, s).None?
    {
      StuckIsMeaningless(defs, base, pw, pending, values, depth, s);
    }
  }

  lemma {:induction false} ResolveAgrees(defs: Definitions, base: Values, pw: PowerFn, pending: seq<Definition>, values: Values, s: Name)
    requires Consistent(defs, base, pw, pending, {}, values) && s !in values
    ensures Agrees(defs, base, pw, s, Resolve(pending, values, s, pw))
    decreases |pending|
  {
    if pending == [] {
      StuckOutcome(defs, base, pw, pending, values, s);
    } else {
      PassSound(defs, base, pw, pending, {}, values);
      var sweep := Pass(pending, values, pw);
      if sweep.Ok? {
        var known := sweep.value.values;
        assert forall n :: n in known ==> Means(defs, base, pw, n, known[n]);
        if s !in known {
          hide Pass, Evaluate, Expand, Means, Faulty, Targets, Distinct;
          if |sweep.value.rest| == |pending| {
            NoProgress(pending, values, pw);
            StuckOutcome(defs, base, pw, pending, values, s);
          } else {
            ResolveAgrees(defs, base, pw, sweep.value.rest, known, s);
          }
        }
      }
    }
  }

  // ---- whole models ---------------------------------------------------------------------

  ghost function DefinitionMap(ds: seq<Definition>): Definitions {
    if ds == [] then map[] else DefinitionMap(ds[1..])[ds[0].target := ds[0].body]
  }

  lemma {:induction false} DefinitionMapOf(ds: seq<Definition>)
    requires Distinct(ds)
    ensures DefinitionMap(ds).Keys == Targets(ds)
    ensures forall d :: d in ds ==> d.target in DefinitionMap(ds) && DefinitionMap(ds)[d.target] == d.body
  {
    if ds != [] {
      DefinitionMapOf(ds[1..]);
      TargetsStep(ds);
      assert ds == [ds[0]] + ds[1..];
    }
  }

  lemma {:induction false} DistinctSnoc(ds: seq<Definition>, d: Definition)
    requires Distinct(ds) && d.target !in Targets(ds)
    ensures Distinct(ds + [d])
  {
    if ds != [] {
      TargetsStep(ds);
      DistinctSnoc(ds[1..], d);
      assert (ds + [d])[1..] == ds[1..] + [d];
      assert Targets(ds[1..] + [d]) == Targets(ds[1..]) + {d.target};
    } else {
      assert [d][1..] == [];
    }
  }

  lemma {:induction false} AssignmentsDistinct(equations: seq<Equation>, derived: set<Name>)
    requires Assignments(equations, derived).Ok?
    ensures Distinct(Assignments(equations, derived).value)
    ensures Targets(Assignments(equations, derived).value) <= derived
  {
    if equations != [] {
      var k := |equations| - 1;
      AssignmentsDistinct(equations[..k], derived);
      var ds, q := Assignments(equations[..k], derived).value, equations[k];
      if q.lhs.Symbol? && q.lhs.name in derived {
        DistinctSnoc(ds, Definition(q.lhs.name, q.rhs));
      }
    }
  }

  // The derived symbols are neither parameters nor supplied variables.
  ghost predicate Separate(model: Model, raw: Values) {
    model.derived !! BaseValues(model, raw).Keys
  }

  lemma InitiallyConsistent(ds: seq<Definition>, base: Values, pw: PowerFn)
    requires Distinct(ds) && Targets(ds) !! base.Keys
    ensures Consistent(DefinitionMap(ds), base, pw, ds, {}, base)
  {
    DefinitionMapOf(ds);
    forall n | n in base
      ensures Means(DefinitionMap(ds), base, pw, n, base[n])
    {
      assert Expand(DefinitionMap(ds), base, pw, 0, n) == Some(base[n]);
    }
    forall d | d in ds
      ensures d.target !in base
    {
      assert d.target in Targets(ds);
    }
  }

  // The recomputed scalar is the meaning of the symbol; failure means either that some
  // resolvable definition cannot be evaluated or that the symbol has no meaning.
  lemma RecomputationAgrees(model: Model, raw: Values, symbol: Name, pw: PowerFn)
    requires Assignments(model.equations, model.derived).Ok? && Separate(model, raw) && symbol in model.derived
    ensures var r := Recomputed(model, raw, symbol, pw);
            var defs := DefinitionMap(Assignments(model.equations, model.derived).value);
            r == Err(OverridesParameter) || Agrees(defs, BaseValues(model, raw), pw, symbol, r)
  {
    var ds, base := Assignments(model.equations, model.derived).value, BaseValues(model, raw);
    AssignmentsDistinct(model.equations, model.derived);
    InitiallyConsistent(ds, base, pw);
    ResolveAgrees(DefinitionMap(ds), base, pw, ds, base, symbol);
  }

  // Without faulty definitions the listing order is irrelevant.
  lemma OrderIsIrrelevant(p: seq<Definition>, q: seq<Definition>, base: Values, s: Name, pw: PowerFn)
    requires Distinct(p) && Distinct(q) && DefinitionMap(p) == DefinitionMap(q)
    requires Targets(p) !! base.Keys && s !in base
    requires forall t :: !Faulty(DefinitionMap(p), base, pw, t)
    ensures Resolve(p, base, s, pw) == Resolve(q, base, s, pw)
  {
    var defs := DefinitionMap(p);
    DefinitionMapOf(p);
    DefinitionMapOf(q);
    InitiallyConsistent(p, base, pw);
    InitiallyConsistent(q, base, pw);
    ResolveAgrees(defs, base, pw, p, base, s);
    ResolveAgrees(defs, base, pw, q, base, s);
    SameOutcome(defs, base, pw, s, Resolve(p, base, s, pw), Resolve(q, base, s, pw));
  }

  lemma SameOutcome(defs: Definitions, base: Values, pw: PowerFn, s: Name, r: Outcome, t: Outcome)
    requires Agrees(defs, base, pw, s, r) && Agrees(defs, base, pw, s, t)
    requires forall u :: !Faulty(defs, base, pw, u)
    ensures r == t
  {
    hide Expand, Faulty;
    match (r, t)
    case (Ok(v), Ok(w)) => MeaningIsUnique(defs, base, pw, s, v, w);
    case (Ok(v), Err(e)) => MeansImpliesMeaningful(defs, base, pw, s, v);
    case (Err(e), Ok(w)) => MeansImpliesMeaningful(defs, base, pw, s, w);
    case (Err(e), Err(f)) =>
  }

  lemma MeansImpliesMeaningful(defs: Definitions, base: Values, pw: PowerFn, s: Name, v: real)
    requires Means(defs, base, pw, s, v)
    ensures Meaningful(defs, base, pw, s)
  {
    hide Expand;
  }

  // ---- lists in dependency order ----------------------------------------------------------

  // Every definition refers to known symbols or to targets listed before it.
  ghost predicate Ordered(pending: seq<Definition>, known: set<Name>) {
    pending == [] || (Refs(pending[0].body) <= known && Ordered(pending[1..], known + {pending[0].target}))
  }

  // Plain evaluation from first to last.
  function InOrder(pending: seq<Definition>, values: Values, pw: PowerFn): Result<Values, EvalError> {
    if pending == [] then Ok(values)
    else
      match Evaluate(pending[0].body, values, pw)
      case Err(e) => Err(e)
      case Ok(v) => InOrder(pending[1..], values[pending[0].target := v], pw)
  }

  // For an ordered list a single sweep does everything.
  lemma {:induction false} OrderedPass(pending: seq<Definition>, values: Values, pw: PowerFn)
    requires Ordered(pending, values.Keys)
    ensures Pass(pending, values, pw) ==
            match InOrder(pending, values, pw)
            case Err(e) => Err(e)
            case Ok(all) => Ok(Sweep(all, []))
  {
    if pending != [] {
      match Evaluate(pending[0].body, values, pw) {
        case Err(_) =>
        case Ok(v) =>
          assert values[pending[0].target := v].Keys == values.Keys + {pending[0].target};
          OrderedPass(pending[1..], values[pending[0].target := v], pw);
      }
    }
  }

  // Evaluating an ordered list from first to last yields the meaning of every symbol.
  lemma ListOrderIsMeaning(ds: seq<Definition>, base: Values, pw: PowerFn)
    requires Distinct(ds) && Targets(ds) !! base.Keys && Ordered(ds, base.Keys)
    ensures match InOrder(ds, base, pw)
            case Err(_) => exists s :: Faulty(DefinitionMap(ds), base, pw, s)
            case Ok(all) => Targets(ds) <= all.Keys && forall s :: s in all ==> Means(DefinitionMap(ds), base, pw, s, all[s])
  {
    InitiallyConsistent(ds, base, pw);
    PassSound(DefinitionMap(ds), base, pw, ds, {}, base);
    OrderedPass(ds, base, pw);
    DefinitionMapOf(ds);
  }

  // An environment that satisfies the definitions is what in-order evaluation computes.
  ghost predicate Satisfies(env: Values, d: Definition, pw: PowerFn) {
    d.target in env && Evaluate(d.body, env, pw) == Ok(env[d.target])
  }

  lemma {:induction false} InOrderFollows(pending: seq<Definition>, values: Values, env: Values, pw: PowerFn)
    requires Ordered(pending, values.Keys) && values.Keys <= env.Keys
    requires forall n :: n in values ==> values[n] == env[n]
    requires forall d :: d in pending ==> Satisfies(env, d, pw)
    ensures InOrder(pending, values, pw).Ok?
    ensures var all := InOrder(pending, values, pw).value;
            all.Keys == values.Keys + Targets(pending) && forall n :: n in all ==> n in env && all[n] == env[n]
  {
    if pending != [] {
      var d := pending[0];
      assert d in pending && forall e :: e in pending[1..] ==> e in pending;
      OnlyRefsMatter(d.body, values, env, pw);
      var next := values[d.target := env[d.target]];
      assert next.Keys == values.Keys + {d.target};
      InOrderFollows(pending[1..], next, env, pw);
      TargetsStep(pending);
    }
  }

  // What in-order evaluation returns satisfies every definition and keeps what was known.
  lemma {:induction false} InOrderSatisfies(pending: seq<Definition>, values: Values, pw: PowerFn)
    requires Ordered(pending, values.Keys) && Distinct(pending) && Targets(pending) !! values.Keys
    requires InOrder(pending, values, pw).Ok?
    ensures var all := InOrder(pending, values, pw).value;
            && all.Keys == values.Keys + Targets(pending)
            && (forall n :: n in values ==> all[n] == values[n])
            && (forall d :: d in pending ==> Satisfies(all, d, pw))
  {
    if pending != [] {
      var d := pending[0];
      var v := Evaluate(d.body, values, pw).value;
      var next := values[d.target := v];
      TargetsStep(pending);
      assert next.Keys == values.Keys + {d.target};
      InOrderSatisfies(pending[1..], next, pw);
      var all := InOrder(pending, values, pw).value;
      OnlyRefsMatter(d.body, values, all, pw);
      assert all[d.target] == next[d.target] == v;
      assert pending == [d] + pending[1..];
    }
  }

  // Index forms of the two list conditions.
  lemma {:induction false} DistinctByIndex(ds: seq<Definition>)
    requires forall i, k :: 0 <= i < k < |ds| ==> ds[i].target != ds[k].target
    ensures Distinct(ds)
  {
    if ds != [] {
      forall d | d in ds[1..]
        ensures d.target != ds[0].target
      {
        var k :| 0 <= k < |ds[1..]| && ds[1..][k] == d;
        assert ds[k + 1] == d;
      }
      DistinctByIndex(ds[1..]);
    }
  }

  ghost predicate Available(ds: seq<Definition>, known: set<Name>, i: nat, t: Name)
    requires i < |ds|
  {
    t in known || exists k :: 0 <= k < i && ds[k].target == t
  }

  lemma {:induction false} OrderedByIndex(ds: seq<Definition>, known: set<Name>)
    requires forall i, t :: 0 <= i < |ds| && t in Refs(ds[i].body) ==> Available(ds, known, i, t)
    ensures Ordered(ds, known)
  {
    if ds != [] {
      assert forall t :: t in Refs(ds[0].body) ==> Available(ds, known, 0, t);
      var rest, more := ds[1..], known + {ds[0].target};
      forall i, t | 0 <= i < |rest| && t in Refs(rest[i].body)
        ensures Available(rest, more, i, t)
      {
        assert Available(ds, known, i + 1, t);
        if t !in more {
          var k :| 0 <= k < i + 1 && ds[k].target == t;
          assert rest[k - 1].target == t;
        }
      }
      OrderedByIndex(rest, more);
    }
  }
}
