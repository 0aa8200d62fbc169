// Symbolic partial derivatives of expression trees, proved against Slopes.
module Differentiation {
  import opened Results
  import opened Expressions
  import opened Slopes

  function Derivative(e: Expr, x: Name): Expr
    decreases e, 1
  {
    match e
    case Constant(_) => Constant(0.0)
    case Symbol(n) => Constant(if n == x then 1.0 else 0.0)
    case Add(es) => Add(DerivativeEach(es, x))
    case Multiply(es) => DerivativeOfProduct(es, x)
    case Subtract(l, r) => Subtract(Derivative(l, x), Derivative(r, x))
    case Divide(l, r) =>
      Divide(Subtract(Multiply([Derivative(l, x), r]), Multiply([l, Derivative(r, x)])), Multiply([r, r]))
    case Power(b, g) =>
      if x !in Refs(e) then Constant(0.0) else Multiply([Constant(2.0), Multiply([b, Derivative(b, x)])])
    case Negate(a) => Negate(Derivative(a, x))
  }

  function DerivativeEach(es: seq<Expr>, x: Name): seq<Expr>
    decreases es, 0
  {
    if es == [] then [] else [Derivative(es[0], x)] + DerivativeEach(es[1..], x)
  }

  function DerivativeOfProduct(es: seq<Expr>, x: Name): Expr
    decreases es, 0
  {
    if es == [] then Constant(0.0)
    else Add([Multiply([Derivative(es[0], x), Multiply(es[1..])]), Multiply([es[0], DerivativeOfProduct(es[1..], x)])])
  }

  // The trees the rules cover: the only powers of x are squares.
  predicate Smooth(e: Expr, x: Name)
    decreases e, 1
  {
    match e
    case Constant(_) => true
    case Symbol(_) => true
    case Add(es) => SmoothAll(es, x)
    case Multiply(es) => SmoothAll(es, x)
    case Subtract(l, r) => Smooth(l, x) && Smooth(r, x)
    case Divide(l, r) => Smooth(l, x) && Smooth(r, x)
    case Power(b, g) => x !in Refs(e) || (g == Constant(2.0) && Smooth(b, x))
    case Negate(a) => Smooth(a, x)
  }

  predicate SmoothAll(es: seq<Expr>, x: Name)
    decreases es, 0
  {
    es == [] || (Smooth(es[0], x) && SmoothAll(es[1..], x))
  }

  // ---- the value of a tree as x moves --------------------------------------------

  function Shift(values: Values, x: Name, h: real): Values
    requires x in values
  {
    values[x := values[x] + h]
  }

  function Along(e: Expr, x: Name, values: Values, pw: PowerFn): Curve
    requires x in values
  {
    (h: real) =>
      var r := Evaluate(e, Shift(values, x, h), pw);
      if r.Ok? then r.value else 0.0
  }

  ghost predicate DefinedNear(e: Expr, x: Name, values: Values, pw: PowerFn, radius: real)
    requires x in values
  {
    0.0 < radius && forall h: real :: Within(h, radius) ==> Evaluate(e, Shift(values, x, h), pw).Ok?
  }

  // The tree is defined on an interval around the point and has this derivative there.
  ghost predicate HasDerivative(e: Expr, x: Name, values: Values, pw: PowerFn, slope: real)
    requires x in values
  {
    && (exists radius :: DefinedNear(e, x, values, pw, radius))
    && HasSlope(Along(e, x, values, pw), slope)
  }

  lemma NoShift(values: Values, x: Name)
    requires x in values
    ensures Shift(values, x, 0.0) == values
  {
  }

  lemma FromCurve(e: Expr, x: Name, values: Values, pw: PowerFn, f: Curve, slope: real, radius: real)
    requires x in values && 0.0 < radius && HasSlope(f, slope)
    requires forall h: real :: Within(h, radius) ==>
               Evaluate(e, Shift(values, x, h), pw).Ok? && Evaluate(e, Shift(values, x, h), pw).value == f(h)
    ensures HasDerivative(e, x, values, pw, slope)
  {
    assert DefinedNear(e, x, values, pw, radius);
    SlopeIsLocal(f, Along(e, x, values, pw), slope, radius);
  }

  lemma CommonDomain(a: Expr, b: Expr, x: Name, values: Values, pw: PowerFn, da: real, db: real) returns (radius: real)
    requires x in values && HasDerivative(a, x, values, pw, da) && HasDerivative(b, x, values, pw, db)
    ensures DefinedNear(a, x, values, pw, radius) && DefinedNear(b, x, values, pw, radius)
  {
    var r1 :| DefinedNear(a, x, values, pw, r1);
    var r2 :| DefinedNear(b, x, values, pw, r2);
    radius := Min(r1, r2);
  }

  // e evaluates to the sum of a and b wherever both are defined.
  ghost predicate IsSum(e: Expr, a: Expr, b: Expr, pw: PowerFn) {
    forall v: Values :: Evaluate(a, v, pw).Ok? && Evaluate(b, v, pw).Ok? ==>
      Evaluate(e, v, pw).Ok? && Evaluate(e, v, pw).value == Evaluate(a, v, pw).value + Evaluate(b, v, pw).value
  }

  lemma SumDerivative(e: Expr, a: Expr, b: Expr, x: Name, values: Values, pw: PowerFn, da: real, db: real)
    requires x in values && HasDerivative(a, x, values, pw, da) && HasDerivative(b, x, values, pw, db)
    requires IsSum(e, a, b, pw)
    ensures HasDerivative(e, x, values, pw, da + db)
  {
    hide Evaluate, HasSlope;
    var r := CommonDomain(a, b, x, values, pw, da, db);
    var f, g := Along(a, x, values, pw), Along(b, x, values, pw);
    SumSlope(f, g, da, db);
    forall h: real | Within(h, r)
      ensures Evaluate(e, Shift(values, x, h), pw).Ok?
      ensures Evaluate(e, Shift(values, x, h), pw).value == Plus(f, g)(h)
    {
      var v := Shift(values, x, h);
      assert f(h) == Evaluate(a, v, pw).value && g(h) == Evaluate(b, v, pw).value;
    }
    FromCurve(e, x, values, pw, Plus(f, g), da + db, r);
  }

  // e evaluates to the product of a and b wherever both are defined.
  ghost predicate IsProduct(e: Expr, a: Expr, b: Expr, pw: PowerFn) {
    forall v: Values :: Evaluate(a, v, pw).Ok? && Evaluate(b, v, pw).Ok? ==> ProductAt(e, a, b, v, pw)
  }

  predicate ProductAt(e: Expr, a: Expr, b: Expr, v: Values, pw: PowerFn) {
    var ra, rb, re := Evaluate(a, v, pw), Evaluate(b, v, pw), Evaluate(e, v, pw);
    ra.Ok? && rb.Ok? && re.Ok? && re.value == ra.value * rb.value
  }

  lemma ProductAlong(e: Expr, a: Expr, b: Expr, x: Name, values: Values, pw: PowerFn, h: real)
    requires x in values && ProductAt(e, a, b, Shift(values, x, h), pw)
    ensures Evaluate(e, Shift(values, x, h), pw).Ok?
    ensures Evaluate(e, Shift(values, x, h), pw).value == Times(Along(a, x, values, pw), Along(b, x, values, pw))(h)
  {
    hide Evaluate;
  }

  lemma ProductDerivative(e: Expr, a: Expr, b: Expr, x: Name, values: Values, pw: PowerFn, da: real, db: real,
                          a0: real, b0: real, slope: real)
    requires slope == da * b0 + a0 * db
    requires x in values && HasDerivative(a, x, values, pw, da) && HasDerivative(b, x, values, pw, db)
    requires IsProduct(e, a, b, pw)
    requires Evaluate(a, values, pw) == Ok(a0) && Evaluate(b, values, pw) == Ok(b0)
    ensures HasDerivative(e, x, values, pw, slope)
  {
    hide Evaluate, HasSlope, Times, ProductAt;
    var r := CommonDomain(a, b, x, values, pw, da, db);
    var f, g := Along(a, x, values, pw), Along(b, x, values, pw);
    NoShift(values, x);
    ProductSlopeAt(f, g, da, db, a0, b0, slope);
    forall h: real | Within(h, r)
      ensures Evaluate(e, Shift(values, x, h), pw).Ok?
      ensures Evaluate(e, Shift(values, x, h), pw).value == Times(f, g)(h)
    {
      ProductAlong(e, a, b, x, values, pw, h);
    }
    FromCurve(e, x, values, pw, Times(f, g), slope, r);
  }

  lemma ProductSlopeAt(f: Curve, g: Curve, df: real, dg: real, f0: real, g0: real, slope: real)
    requires HasSlope(f, df) && HasSlope(g, dg) && f(0.0) == f0 && g(0.0) == g0 && slope == df * g0 + f0 * dg
    ensures HasSlope(Times(f, g), slope)
  {
    ProductSlope(f, g, df, dg);
    SameSlope(Times(f, g), df * g(0.0) + f(0.0) * dg, slope);
  }

  lemma SameSlope(f: Curve, s: real, t: real)
    requires HasSlope(f, s) && s == t
    ensures HasSlope(f, t)
  {
  }

  function Inverse(r: Expr): Expr {
    Divide(Constant(1.0), r)
  }

  lemma InverseValue(r: Expr, v: Values, pw: PowerFn)
    ensures var (inverse, y) := (Evaluate(Inverse(r), v, pw), Evaluate(r, v, pw));
            && (inverse.Ok? <==> y.Ok? && y.value != 0.0)
            && (inverse.Ok? ==> inverse.value == Quotient(1.0, y.value))
  {
    hide Quotient;
    assert Evaluate(Constant(1.0), v, pw) == Ok(1.0);
  }

  lemma AlongValue(e: Expr, x: Name, values: Values, pw: PowerFn, h: real)
    requires x in values && Evaluate(e, Shift(values, x, h), pw).Ok?
    ensures Along(e, x, values, pw)(h) == Evaluate(e, Shift(values, x, h), pw).value
  {
    hide Evaluate;
  }

  lemma ReciprocalValue(g: Curve, h: real)
    ensures Reciprocal(g)(h) == if g(h) == 0.0 then 0.0 else Quotient(1.0, g(h))
  {
  }

  lemma InverseAlong(r: Expr, x: Name, values: Values, pw: PowerFn, h: real)
    requires x in values && Evaluate(r, Shift(values, x, h), pw).Ok? && Along(r, x, values, pw)(h) != 0.0
    ensures var inverse := Evaluate(Inverse(r), Shift(values, x, h), pw);
            inverse.Ok? && inverse.value == Reciprocal(Along(r, x, values, pw))(h)
  {
    hide Evaluate, Along, Reciprocal, Inverse, Quotient;
    AlongValue(r, x, values, pw, h);
    InverseValue(r, Shift(values, x, h), pw);
    ReciprocalValue(Along(r, x, values, pw), h);
  }

  lemma InverseDerivative(r: Expr, x: Name, values: Values, pw: PowerFn, dr: real, w0: real, slope: real)
    requires slope == -(dr * (w0 * w0))
    requires x in values && HasDerivative(r, x, values, pw, dr)
    requires Evaluate(Inverse(r), values, pw) == Ok(w0)
    ensures HasDerivative(Inverse(r), x, values, pw, slope)
  {
    hide Evaluate, HasSlope, Reciprocal, Along, Inverse, Quotient;
    var g := Along(r, x, values, pw);
    var r1 :| DefinedNear(r, x, values, pw, r1);
    NoShift(values, x);
    InverseValue(r, values, pw);
    AlongValue(r, x, values, pw, 0.0);
    ReciprocalValue(g, 0.0);
    ReciprocalSlope(g, dr, w0);
    SameSlope(Reciprocal(g), -(dr * (w0 * w0)), slope);
    var r2 :| NonZeroOn(g, r2);
    var radius := Min(r1, r2);
    forall h: real | Within(h, radius)
      ensures Evaluate(Inverse(r), Shift(values, x, h), pw).Ok?
      ensures Evaluate(Inverse(r), Shift(values, x, h), pw).value == Reciprocal(g)(h)
    {
      assert Within(h, r1) && Within(h, r2);
      InverseAlong(r, x, values, pw, h);
    }
    FromCurve(Inverse(r), x, values, pw, Reciprocal(g), slope, radius);
  }

  lemma QuotientRule(dl: real, dr: real, l0: real, r0: real, w0: real)
    requires r0 != 0.0 && w0 == 1.0 / r0
    ensures dl * w0 + l0 * (-(dr * (w0 * w0))) == (dl * r0 - l0 * dr) / (r0 * r0)
  {
    assert r0 * w0 == 1.0;
    var n := dl * r0 - l0 * dr;
    var s := dl * w0 + l0 * (-(dr * (w0 * w0)));
    assert s * (r0 * r0) == n by {
      calc {
        s * (r0 * r0);
        dl * r0 * (r0 * w0) - l0 * dr * ((r0 * w0) * (r0 * w0));
        n;
      }
    }
  }

  // ---- correctness of the symbolic derivative ------------------------------------

  ghost predicate DerivativeHolds(e: Expr, x: Name, values: Values, pw: PowerFn)
    requires x in values
  {
    var d := Evaluate(Derivative(e, x), values, pw);
    d.Ok? && HasDerivative(e, x, values, pw, d.value)
  }

  // Wherever a smooth tree is defined, its symbolic derivative is defined too and is the
  // derivative of the tree's value.
  lemma {:induction false} DerivativeCorrect(e: Expr, x: Name, values: Values, pw: PowerFn)
    requires LawfulPower(pw) && x in values && Smooth(e, x) && Evaluate(e, values, pw).Ok?
    ensures DerivativeHolds(e, x, values, pw)
    decreases e, 1
  {
    hide HasDerivative, LawfulPower;
    match e
    case Constant(c) => ConstantCase(e, x, values, pw, c);
    case Symbol(n) => SymbolCase(n, x, values, pw);
    case Add(es) => AddCorrect(es, x, values, pw);
    case Multiply(es) => MultiplyCorrect(es, x, values, pw);
    case Subtract(l, r) =>
      DerivativeCorrect(l, x, values, pw);
      DerivativeCorrect(r, x, values, pw);
      SubtractCase(l, r, x, values, pw);
    case Divide(l, r) =>
      DerivativeCorrect(l, x, values, pw);
      DerivativeCorrect(r, x, values, pw);
      DivideCase(l, r, x, values, pw);
    case Power(b, g) =>
      if x !in Refs(e) {
        ConstantCase(e, x, values, pw, Evaluate(e, values, pw).value);
      } else {
        DerivativeCorrect(b, x, values, pw);
        SquareCase(b, x, values, pw);
      }
    case Negate(a) =>
      DerivativeCorrect(a, x, values, pw);
      NegateCase(a, x, values, pw);
  }

  lemma {:induction false} AddCorrect(es: seq<Expr>, x: Name, values: Values, pw: PowerFn)
    requires LawfulPower(pw) && x in values && SmoothAll(es, x) && Evaluate(Add(es), values, pw).Ok?
    ensures DerivativeHolds(Add(es), x, values, pw)
    decreases es, 0
  {
    if es == [] {
      ConstantCase(Add(es), x, values, pw, 0.0);
    } else {
      SumStep(es, values, pw);
      DerivativeCorrect(es[0], x, values, pw);
      AddCorrect(es[1..], x, values, pw);
      AddCase(es, x, values, pw);
    }
  }

  lemma {:induction false} MultiplyCorrect(es: seq<Expr>, x: Name, values: Values, pw: PowerFn)
    requires LawfulPower(pw) && x in values && SmoothAll(es, x) && Evaluate(Multiply(es), values, pw).Ok?
    ensures DerivativeHolds(Multiply(es), x, values, pw)
    decreases es, 0
  {
    if es == [] {
      ConstantCase(Multiply(es), x, values, pw, 1.0);
    } else {
      ProductStep(es, values, pw);
      DerivativeCorrect(es[0], x, values, pw);
      MultiplyCorrect(es[1..], x, values, pw);
      MultiplyCase(es, x, values, pw);
    }
  }

  // A tree that does not mention x has derivative zero.
  lemma ConstantCase(e: Expr, x: Name, values: Values, pw: PowerFn, c: real)
    requires x in values && x !in Refs(e) && Evaluate(e, values, pw) == Ok(c)
    requires Evaluate(Derivative(e, x), values, pw) == Ok(0.0)
    ensures DerivativeHolds(e, x, values, pw)
  {
    forall h: real
      ensures Evaluate(e, Shift(values, x, h), pw) == Ok(c)
    {
      OnlyRefsMatter(e, values, Shift(values, x, h), pw);
    }
    LevelSlope(c);
    FromCurve(e, x, values, pw, Level(c), 0.0, 1.0);
  }

  lemma SymbolCase(n: Name, x: Name, values: Values, pw: PowerFn)
    requires x in values && Evaluate(Symbol(n), values, pw).Ok?
    ensures DerivativeHolds(Symbol(n), x, values, pw)
  {
    if n != x {
      ConstantCase(Symbol(n), x, values, pw, values[n]);
    } else {
      RampSlope(values[x]);
      FromCurve(Symbol(x), x, values, pw, Ramp(values[x]), 1.0, 1.0);
    }
  }

  lemma NegateCase(a: Expr, x: Name, values: Values, pw: PowerFn)
    requires x in values && DerivativeHolds(a, x, values, pw)
    ensures DerivativeHolds(Negate(a), x, values, pw)
  {
    var da := Evaluate(Derivative(a, x), values, pw).value;
    var r :| DefinedNear(a, x, values, pw, r);
    MinusSlope(Along(a, x, values, pw), da);
    FromCurve(Negate(a), x, values, pw, Minus(Along(a, x, values, pw)), -da, r);
  }

  lemma SubtractCase(l: Expr, r: Expr, x: Name, values: Values, pw: PowerFn)
    requires x in values && DerivativeHolds(l, x, values, pw) && DerivativeHolds(r, x, values, pw)
    ensures DerivativeHolds(Subtract(l, r), x, values, pw)
  {
    NegateCase(r, x, values, pw);
    var dl, dr := Evaluate(Derivative(l, x), values, pw).value, Evaluate(Derivative(r, x), values, pw).value;
    hide HasDerivative;
    SumDerivative(Subtract(l, r), l, Negate(r), x, values, pw, dl, -dr);
    assert dl + -dr == dl - dr;
  }

  lemma AddCase(es: seq<Expr>, x: Name, values: Values, pw: PowerFn)
    requires x in values && es != []
    requires DerivativeHolds(es[0], x, values, pw) && DerivativeHolds(Add(es[1..]), x, values, pw)
    ensures DerivativeHolds(Add(es), x, values, pw)
  {
    hide HasDerivative;
    var ds := DerivativeEach(es, x);
    assert ds[0] == Derivative(es[0], x) && ds[1..] == DerivativeEach(es[1..], x);
    SumStep(ds, values, pw);
    forall v: Values { SumStep(es, v, pw); }
    hide Evaluate;
    SumDerivative(Add(es), es[0], Add(es[1..]), x, values, pw,
                  Evaluate(ds[0], values, pw).value, Evaluate(Add(ds[1..]), values, pw).value);
  }

  lemma MultiplyCase(es: seq<Expr>, x: Name, values: Values, pw: PowerFn)
    requires x in values && es != [] && Evaluate(Multiply(es), values, pw).Ok?
    requires DerivativeHolds(es[0], x, values, pw) && DerivativeHolds(Multiply(es[1..]), x, values, pw)
    ensures DerivativeHolds(Multiply(es), x, values, pw)
  {
    hide HasDerivative;
    var head, tail := es[0], Multiply(es[1..]);
    ProductStep(es, values, pw);
    forall v: Values { ProductStep(es, v, pw); }
    var (d, dHead, dTail) := (Derivative(Multiply(es), x), Derivative(head, x), Derivative(tail, x));
    assert d == DerivativeOfProduct(es, x) && dTail == DerivativeOfProduct(es[1..], x);
    assert d == Add([Multiply([dHead, tail]), Multiply([head, dTail])]);
    assert IsProduct(Multiply(es), head, tail, pw);
    ProductCase(Multiply(es), head, tail, x, values, pw, dHead, dTail);
  }

  lemma ProductCase(e: Expr, a: Expr, b: Expr, x: Name, values: Values, pw: PowerFn, da: Expr, db: Expr)
    requires x in values && IsProduct(e, a, b, pw)
    requires Evaluate(a, values, pw).Ok? && Evaluate(b, values, pw).Ok?
    requires Evaluate(da, values, pw).Ok? && Evaluate(db, values, pw).Ok?
    requires HasDerivative(a, x, values, pw, Evaluate(da, values, pw).value)
    requires HasDerivative(b, x, values, pw, Evaluate(db, values, pw).value)
    ensures var d := Evaluate(Add([Multiply([da, b]), Multiply([a, db])]), values, pw);
            d.Ok? && HasDerivative(e, x, values, pw, d.value)
  {
    hide HasDerivative, Evaluate;
    MultiplyPair(da, b, values, pw);
    MultiplyPair(a, db, values, pw);
    AddPair(Multiply([da, b]), Multiply([a, db]), values, pw);
    ProductDerivative(e, a, b, x, values, pw, Evaluate(da, values, pw).value, Evaluate(db, values, pw).value,
                      Evaluate(a, values, pw).value, Evaluate(b, values, pw).value,
                      Evaluate(Add([Multiply([da, b]), Multiply([a, db])]), values, pw).value);
  }

  lemma SquareValue(b: Expr, v: Values, pw: PowerFn)
    requires LawfulPower(pw) && Evaluate(b, v, pw).Ok?
    ensures ProductAt(Power(b, Constant(2.0)), b, b, v, pw)
  {
    hide LawfulPower, ProductAt;
    assert Evaluate(Constant(2.0), v, pw) == Ok(2.0);
    hide Evaluate;
    var x := Evaluate(b, v, pw).value;
    SquareLaw(pw, x);
    PowerValue(b, Constant(2.0), v, pw, x, 2.0);
    IsProductAt(Power(b, Constant(2.0)), b, b, v, pw, x, x, pw(x, 2.0).value);
  }

  lemma IsProductAt(e: Expr, a: Expr, b: Expr, v: Values, pw: PowerFn, x: real, y: real, z: real)
    requires Evaluate(a, v, pw) == Ok(x) && Evaluate(b, v, pw) == Ok(y) && Evaluate(e, v, pw) == Ok(z) && z == x * y
    ensures ProductAt(e, a, b, v, pw)
  {
    hide Evaluate;
  }

  lemma SquareIsProduct(b: Expr, pw: PowerFn)
    requires LawfulPower(pw)
    ensures IsProduct(Power(b, Constant(2.0)), b, b, pw)
  {
    hide Evaluate, LawfulPower, ProductAt;
    forall v: Values | Evaluate(b, v, pw).Ok?
      ensures ProductAt(Power(b, Constant(2.0)), b, b, v, pw)
    {
      SquareValue(b, v, pw);
    }
  }

  lemma SquareTreeValue(b: Expr, db: Expr, v: Values, pw: PowerFn)
    requires Evaluate(b, v, pw).Ok? && Evaluate(db, v, pw).Ok?
    ensures var d := Evaluate(Multiply([Constant(2.0), Multiply([b, db])]), v, pw);
            d.Ok? && d.value == Evaluate(db, v, pw).value * Evaluate(b, v, pw).value
                                + Evaluate(b, v, pw).value * Evaluate(db, v, pw).value
  {
    assert Evaluate(Constant(2.0), v, pw) == Ok(2.0);
    hide Evaluate;
    MultiplyPair(b, db, v, pw);
    MultiplyPair(Constant(2.0), Multiply([b, db]), v, pw);
  }

  lemma SquareCase(b: Expr, x: Name, values: Values, pw: PowerFn)
    requires LawfulPower(pw) && x in values && x in Refs(Power(b, Constant(2.0))) && Evaluate(b, values, pw).Ok?
    requires DerivativeHolds(b, x, values, pw)
    ensures DerivativeHolds(Power(b, Constant(2.0)), x, values, pw)
  {
    hide HasDerivative, LawfulPower, Evaluate, IsProduct;
    var (e, db) := (Power(b, Constant(2.0)), Derivative(b, x));
    var d := Multiply([Constant(2.0), Multiply([b, db])]);
    assert Derivative(e, x) == d;
    hide Derivative;
    SquareIsProduct(b, pw);
    var b0, d0 := Evaluate(b, values, pw).value, Evaluate(db, values, pw).value;
    SquareTreeValue(b, db, values, pw);
    ProductDerivative(e, b, b, x, values, pw, d0, d0, b0, b0, Evaluate(d, values, pw).value);
  }

  lemma QuotientAsProduct(x: real, y: real)
    requires y != 0.0
    ensures Quotient(x, y) == x * Quotient(1.0, y)
  {
  }

  lemma DivideAsProduct(l: Expr, r: Expr, v: Values, pw: PowerFn)
    requires Evaluate(l, v, pw).Ok? && Evaluate(Inverse(r), v, pw).Ok?
    ensures ProductAt(Divide(l, r), l, Inverse(r), v, pw)
  {
    hide Quotient, Inverse, Evaluate;
    DivideValue(l, r, v, pw);
    InverseValue(r, v, pw);
    QuotientAsProduct(Evaluate(l, v, pw).value, Evaluate(r, v, pw).value);
  }

  // The value of the symbolic quotient rule.
  lemma QuotientTreeValue(l: Expr, r: Expr, dl: Expr, dr: Expr, v: Values, pw: PowerFn, w0: real)
    requires Evaluate(l, v, pw).Ok? && Evaluate(r, v, pw).Ok? && Evaluate(r, v, pw).value != 0.0
    requires Evaluate(dl, v, pw).Ok? && Evaluate(dr, v, pw).Ok? && w0 == Quotient(1.0, Evaluate(r, v, pw).value)
    ensures var d := Evaluate(Divide(Subtract(Multiply([dl, r]), Multiply([l, dr])), Multiply([r, r])), v, pw);
            d.Ok? && d.value == Evaluate(dl, v, pw).value * w0
                                + Evaluate(l, v, pw).value * (-(Evaluate(dr, v, pw).value * (w0 * w0)))
  {
    hide Evaluate;
    MultiplyPair(dl, r, v, pw);
    MultiplyPair(l, dr, v, pw);
    MultiplyPair(r, r, v, pw);
    SubtractValue(Multiply([dl, r]), Multiply([l, dr]), v, pw);
    DivideValue(Subtract(Multiply([dl, r]), Multiply([l, dr])), Multiply([r, r]), v, pw);
    QuotientRule(Evaluate(dl, v, pw).value, Evaluate(dr, v, pw).value, Evaluate(l, v, pw).value, Evaluate(r, v, pw).value, w0);
  }

  lemma DivideIsProduct(l: Expr, r: Expr, pw: PowerFn)
    ensures IsProduct(Divide(l, r), l, Inverse(r), pw)
  {
    hide Evaluate, ProductAt, Inverse;
    forall v: Values | Evaluate(l, v, pw).Ok? && Evaluate(Inverse(r), v, pw).Ok?
      ensures ProductAt(Divide(l, r), l, Inverse(r), v, pw)
    {
      DivideAsProduct(l, r, v, pw);
    }
  }

  lemma DivideCase(l: Expr, r: Expr, x: Name, values: Values, pw: PowerFn)
    requires x in values && Evaluate(Divide(l, r), values, pw).Ok?
    requires DerivativeHolds(l, x, values, pw) && DerivativeHolds(r, x, values, pw)
    ensures DerivativeHolds(Divide(l, r), x, values, pw)
  {
    hide HasDerivative, Quotient, Inverse, Evaluate, IsProduct;
    var e, dl, dr := Divide(l, r), Derivative(l, x), Derivative(r, x);
    var d := Divide(Subtract(Multiply([dl, r]), Multiply([l, dr])), Multiply([r, r]));
    assert Derivative(e, x) == d;
    hide Derivative;
    DivideValue(l, r, values, pw);
    InverseValue(r, values, pw);
    DivideIsProduct(l, r, pw);
    var w0 := Evaluate(Inverse(r), values, pw).value;
    var (l0, vl, vr) := (Evaluate(l, values, pw).value, Evaluate(dl, values, pw).value, Evaluate(dr, values, pw).value);
    var si := -(vr * (w0 * w0));
    InverseDerivative(r, x, values, pw, vr, w0, si);
    QuotientTreeValue(l, r, dl, dr, values, pw, w0);
    ProductDerivative(e, l, Inverse(r), x, values, pw, vl, si, l0, w0, Evaluate(d, values, pw).value);
  }
}
