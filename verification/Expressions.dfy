// The expression tree of the formal model and its evaluator.
module Expressions {
  import opened Results

  // The symbols of the reviewed contract.  Other(..) keeps the name space open,
  // so results stated for every tree are not results about these names only.
  datatype Name =
      // decision and state variables
    | Food | StateJ | StateA | StateF | StateP
      // parameters and constants
    | SexRatioShape | CapMin | CapSlope | BirthCoef | Maturation | MortLarva | MortAdult
    | FishGrowth | FishCapacity | AttackRate | ParasiteGrowth | ParasiteCapacity
    | FishBenefitPar | LampreyCostPar | AdaptationWeight | SexLow | SexHigh
    | InitJ | InitA | InitF | InitP
      // derived variables
    | FixedMaleRatio | MaleRatio | FemaleRatio | JuvCapacity
    | RateJ | RateA | RateF | RateP
    | JacJJ | JacJA | JacAJ | JacAA | JacFA | JacFF | JacPA | JacPF | JacPP
    | TraceJA | DetJA | DiscJA | LambdaJAPlus | LambdaJAMinus | LambdaF | LambdaP
    | DominantRealPart | EquilibriumResidualSq
    | Other(text: string)

  datatype Expr =
    | Constant(value: real)
    | Symbol(name: Name)
    | Add(terms: seq<Expr>)
    | Subtract(minuend: Expr, subtrahend: Expr)
    | Multiply(factors: seq<Expr>)
    | Divide(dividend: Expr, divisor: Expr)
    | Power(base: Expr, exponent: Expr)
    | Negate(operand: Expr)

  datatype EvalError = MissingSymbol(name: Name) | DivisionByZero | PowerNotReal

  type Values = map<Name, real>
  type Evaluation = Result<real, EvalError>

  // Exponentiation is not definable by arithmetic on `real`, so it is a parameter:
  // None stands for the complex or undefined cases the evaluator rejects.
  type PowerFn = (real, real) -> Option<real>

  // What is used of real exponentiation: squares, square roots (defined exactly for
  // non-negative arguments), the first power, and x^g on the unit interval.
  ghost predicate LawfulPower(pw: PowerFn) {
    && (forall x: real :: pw(x, 2.0) == Some(x * x))
    && (forall x: real :: pw(x, 1.0) == Some(x))
    && (forall x: real :: x < 0.0 ==> pw(x, 0.5) == None)
    && (forall x: real :: x >= 0.0 ==> IsRoot(x, pw(x, 0.5)))
    && (forall g: real :: g > 0.0 ==> pw(0.0, g) == Some(0.0) && pw(1.0, g) == Some(1.0))
    && (forall x: real, g: real :: 0.0 <= x <= 1.0 && g > 0.0 ==> InUnit(pw(x, g)))
  }

  lemma SquareLaw(pw: PowerFn, x: real)
    requires LawfulPower(pw)
    ensures pw(x, 2.0).Some? && pw(x, 2.0).value == x * x
  {
  }

  predicate IsRoot(x: real, r: Option<real>) {
    r.Some? && r.value >= 0.0 && r.value * r.value == x
  }

  predicate InUnit(r: Option<real>) {
    r.Some? && 0.0 <= r.value <= 1.0
  }

  function Sum(xs: seq<real>): real {
    if xs == [] then 0.0 else xs[0] + Sum(xs[1..])
  }

  function Product(xs: seq<real>): real {
    if xs == [] then 1.0 else xs[0] * Product(xs[1..])
  }

  function Quotient(x: real, y: real): real
    requires y != 0.0
  {
    x / y
  }

  function Evaluate(e: Expr, values: Values, pw: PowerFn): Evaluation
    decreases e, 1
  {
    match e
    case Constant(v) => Ok(v)
    case Symbol(n) => if n in values then Ok(values[n]) else Err(MissingSymbol(n))
    case Add(es) =>
      (match EvaluateAll(es, values, pw)
       case Err(err) => Err(err)
       case Ok(xs) => Ok(Sum(xs)))
    case Multiply(es) =>
      (match EvaluateAll(es, values, pw)
       case Err(err) => Err(err)
       case Ok(xs) => Ok(Product(xs)))
    case Subtract(l, r) =>
      (match (Evaluate(l, values, pw), Evaluate(r, values, pw))
       case (Err(err), _) => Err(err)
       case (Ok(_), Err(err)) => Err(err)
       case (Ok(x), Ok(y)) => Ok(x - y))
    case Divide(l, r) =>
      (match (Evaluate(l, values, pw), Evaluate(r, values, pw))
       case (Err(err), _) => Err(err)
       case (Ok(_), Err(err)) => Err(err)
       case (Ok(x), Ok(y)) => if y == 0.0 then Err(DivisionByZero) else Ok(Quotient(x, y)))
    case Power(b, g) =>
      (match (Evaluate(b, values, pw), Evaluate(g, values, pw))
       case (Err(err), _) => Err(err)
       case (Ok(_), Err(err)) => Err(err)
       case (Ok(x), Ok(y)) =>
         match pw(x, y)
         case None => Err(PowerNotReal)
         case Some(v) => Ok(v))
    case Negate(x) =>
      (match Evaluate(x, values, pw)
       case Err(err) => Err(err)
       case Ok(v) => Ok(-v))
  }

  // Operands are evaluated left to right; the first failure is the one reported.
  function EvaluateAll(es: seq<Expr>, values: Values, pw: PowerFn): (r: Result<seq<real>, EvalError>)
    ensures r.Ok? ==> |r.value| == |es|
    decreases es, 0
  {
    if es == [] then Ok([])
    else
      match Evaluate(es[0], values, pw)
      case Err(err) => Err(err)
      case Ok(x) =>
        match EvaluateAll(es[1..], values, pw)
        case Err(err) => Err(err)
        case Ok(xs) => Ok([x] + xs)
  }

  function Refs(e: Expr): set<Name>
    decreases e, 1
  {
    match e
    case Constant(_) => {}
    case Symbol(n) => {n}
    case Add(es) => RefsAll(es)
    case Multiply(es) => RefsAll(es)
    case Subtract(l, r) => Refs(l) + Refs(r)
    case Divide(l, r) => Refs(l) + Refs(r)
    case Power(b, g) => Refs(b) + Refs(g)
    case Negate(x) => Refs(x)
  }

  function RefsAll(es: seq<Expr>): set<Name>
    decreases es, 0
  {
    if es == [] then {} else Refs(es[0]) + RefsAll(es[1..])
  }

  ghost predicate AgreeOn(names: set<Name>, v: Values, w: Values) {
    forall n :: n in names ==> (n in v <==> n in w) && (n in v ==> v[n] == w[n])
  }

  // A tree's outcome, value or failure, depends on its own symbols only.
  lemma {:induction false} OnlyRefsMatter(e: Expr, v: Values, w: Values, pw: PowerFn)
    requires AgreeOn(Refs(e), v, w)
    ensures Evaluate(e, v, pw) == Evaluate(e, w, pw)
    decreases e, 1
  {
    match e
    case Constant(_) =>
    case Symbol(n) =>
    case Add(es) => OnlyRefsMatterAll(es, v, w, pw);
    case Multiply(es) => OnlyRefsMatterAll(es, v, w, pw);
    case Subtract(l, r) => OnlyRefsMatter(l, v, w, pw); OnlyRefsMatter(r, v, w, pw);
    case Divide(l, r) => OnlyRefsMatter(l, v, w, pw); OnlyRefsMatter(r, v, w, pw);
    case Power(b, g) => OnlyRefsMatter(b, v, w, pw); OnlyRefsMatter(g, v, w, pw);
    case Negate(x) => OnlyRefsMatter(x, v, w, pw);
  }

  lemma {:induction false} OnlyRefsMatterAll(es: seq<Expr>, v: Values, w: Values, pw: PowerFn)
    requires AgreeOn(RefsAll(es), v, w)
    ensures EvaluateAll(es, v, pw) == EvaluateAll(es, w, pw)
    decreases es, 0
  {
    if es != [] {
      OnlyRefsMatter(es[0], v, w, pw);
      OnlyRefsMatterAll(es[1..], v, w, pw);
    }
  }

  // ---- how compound trees evaluate -----------------------------------------------

  lemma SumStep(es: seq<Expr>, v: Values, pw: PowerFn)
    requires es != []
    ensures var (all, head, tail) := (Evaluate(Add(es), v, pw), Evaluate(es[0], v, pw), Evaluate(Add(es[1..]), v, pw));
            && (all.Ok? <==> head.Ok? && tail.Ok?)
            && (all.Ok? ==> all.value == head.value + tail.value)
  {
    var head, tail := Evaluate(es[0], v, pw), EvaluateAll(es[1..], v, pw);
    if head.Ok? && tail.Ok? {
      var xs := [head.value] + tail.value;
      assert xs[1..] == tail.value;
      assert EvaluateAll(es, v, pw) == Ok(xs);
    }
  }

  lemma ProductStep(es: seq<Expr>, v: Values, pw: PowerFn)
    requires es != []
    ensures var (all, head, tail) := (Evaluate(Multiply(es), v, pw), Evaluate(es[0], v, pw), Evaluate(Multiply(es[1..]), v, pw));
            && (all.Ok? <==> head.Ok? && tail.Ok?)
            && (all.Ok? ==> all.value == head.value * tail.value)
  {
    var head, tail := Evaluate(es[0], v, pw), EvaluateAll(es[1..], v, pw);
    if head.Ok? && tail.Ok? {
      var xs := [head.value] + tail.value;
      assert xs[1..] == tail.value;
      assert EvaluateAll(es, v, pw) == Ok(xs);
    }
  }

  lemma AddPair(a: Expr, b: Expr, v: Values, pw: PowerFn)
    requires Evaluate(a, v, pw).Ok? && Evaluate(b, v, pw).Ok?
    ensures Evaluate(Add([a, b]), v, pw).Ok?
    ensures Evaluate(Add([a, b]), v, pw).value == Evaluate(a, v, pw).value + Evaluate(b, v, pw).value
  {
    assert Evaluate(Add([]), v, pw) == Ok(0.0);
    hide Evaluate;
    assert [a, b][1..] == [b] && [b][1..] == [];
    SumStep([a, b], v, pw);
    SumStep([b], v, pw);
  }

  lemma MultiplyPair(a: Expr, b: Expr, v: Values, pw: PowerFn)
    requires Evaluate(a, v, pw).Ok? && Evaluate(b, v, pw).Ok?
    ensures Evaluate(Multiply([a, b]), v, pw).Ok?
    ensures Evaluate(Multiply([a, b]), v, pw).value == Evaluate(a, v, pw).value * Evaluate(b, v, pw).value
  {
    assert Evaluate(Multiply([]), v, pw) == Ok(1.0);
    hide Evaluate;
    assert [a, b][1..] == [b] && [b][1..] == [];
    ProductStep([a, b], v, pw);
    ProductStep([b], v, pw);
  }

  lemma PowerValue(b: Expr, g: Expr, v: Values, pw: PowerFn, x: real, y: real)
    requires Evaluate(b, v, pw) == Ok(x) && Evaluate(g, v, pw) == Ok(y)
    ensures Evaluate(Power(b, g), v, pw) == if pw(x, y).Some? then Ok(pw(x, y).value) else Err(PowerNotReal)
  {
  }

  lemma DivideValue(l: Expr, r: Expr, v: Values, pw: PowerFn)
    ensures var (all, x, y) := (Evaluate(Divide(l, r), v, pw), Evaluate(l, v, pw), Evaluate(r, v, pw));
            && (all.Ok? <==> x.Ok? && y.Ok? && y.value != 0.0)
            && (all.Ok? ==> all.value == Quotient(x.value, y.value))
  {
    hide Quotient;
  }

  lemma SubtractValue(l: Expr, r: Expr, v: Values, pw: PowerFn)
    requires Evaluate(l, v, pw).Ok? && Evaluate(r, v, pw).Ok?
    ensures Evaluate(Subtract(l, r), v, pw).Ok?
    ensures Evaluate(Subtract(l, r), v, pw).value == Evaluate(l, v, pw).value - Evaluate(r, v, pw).value
  {
  }

  lemma MultiplyThree(a: Expr, b: Expr, c: Expr, v: Values, pw: PowerFn)
    requires Evaluate(a, v, pw).Ok? && Evaluate(b, v, pw).Ok? && Evaluate(c, v, pw).Ok?
    ensures Evaluate(Multiply([a, b, c]), v, pw).Ok?
    ensures Evaluate(Multiply([a, b, c]), v, pw).value
         == Evaluate(a, v, pw).value * (Evaluate(b, v, pw).value * Evaluate(c, v, pw).value)
  {
    hide Evaluate;
    assert [a, b, c][1..] == [b, c];
    ProductStep([a, b, c], v, pw);
    MultiplyPair(b, c, v, pw);
  }

  lemma AddThree(a: Expr, b: Expr, c: Expr, v: Values, pw: PowerFn)
    requires Evaluate(a, v, pw).Ok? && Evaluate(b, v, pw).Ok? && Evaluate(c, v, pw).Ok?
    ensures Evaluate(Add([a, b, c]), v, pw).Ok?
    ensures Evaluate(Add([a, b, c]), v, pw).value
         == Evaluate(a, v, pw).value + Evaluate(b, v, pw).value + Evaluate(c, v, pw).value
  {
    hide Evaluate;
    assert [a, b, c][1..] == [b, c];
    SumStep([a, b, c], v, pw);
    AddPair(b, c, v, pw);
  }

  lemma AddFour(a: Expr, b: Expr, c: Expr, d: Expr, v: Values, pw: PowerFn)
    requires Evaluate(a, v, pw).Ok? && Evaluate(b, v, pw).Ok? && Evaluate(c, v, pw).Ok? && Evaluate(d, v, pw).Ok?
    ensures Evaluate(Add([a, b, c, d]), v, pw).Ok?
    ensures Evaluate(Add([a, b, c, d]), v, pw).value
         == Evaluate(a, v, pw).value + Evaluate(b, v, pw).value + Evaluate(c, v, pw).value + Evaluate(d, v, pw).value
  {
    hide Evaluate;
    assert [a, b, c, d][1..] == [b, c, d];
    SumStep([a, b, c, d], v, pw);
    AddThree(b, c, d, v, pw);
  }

  lemma NegateValue(a: Expr, v: Values, pw: PowerFn)
    requires Evaluate(a, v, pw).Ok?
    ensures Evaluate(Negate(a), v, pw) == Ok(-Evaluate(a, v, pw).value)
  {
  }
}
