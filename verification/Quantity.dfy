/** Counted amounts in a unit, on trimmed decimals. */
module Quantity {
  import opened Decimals
  import opened DecimalText
  import opened Outcome
  import opened Rounding

  datatype Quantity = Quantity(parts: Decimal, unit: Option<string>)

  /** The form every quantity is kept in. */
  predicate Valid(q: Quantity) {
    IsTrimmed(q.parts) && q.parts.scale <= MAX_DECIMAL_SCALE
  }

  function Of(amount: string, unit: Option<string>): Result<Quantity> {
    var parts :- ParseDecimal(amount);
    Ok(Quantity(Trimmed(parts), unit))
  }

  function Add(a: Quantity, b: Quantity): Result<Quantity> {
    if a.unit != b.unit then Err("unit")
    else
      var (left, right) := AlignDecimals(a.parts, b.parts);
      Ok(Quantity(Trimmed(Decimal(left.unscaled + right.unscaled, left.scale)), a.unit))
  }

  function Subtract(a: Quantity, b: Quantity): Result<Quantity> {
    if a.unit != b.unit then Err("unit")
    else
      var (left, right) := AlignDecimals(a.parts, b.parts);
      Ok(Quantity(Trimmed(Decimal(left.unscaled - right.unscaled, left.scale)), a.unit))
  }

  function Multiply(q: Quantity, factor: string, rounding: RoundingMode): Result<Quantity> {
    var parsed :- ParseDecimal(factor);
    var totalScale := q.parts.scale + parsed.scale;
    var product := q.parts.unscaled * parsed.unscaled;
    if totalScale <= MAX_DECIMAL_SCALE then Ok(Quantity(Trimmed(Decimal(product, totalScale)), q.unit))
    else
      var unscaled :- DivideWithRounding(product, Pow10(totalScale - MAX_DECIMAL_SCALE), rounding);
      Ok(Quantity(Trimmed(Decimal(unscaled, MAX_DECIMAL_SCALE)), q.unit))
  }

  function Divide(q: Quantity, divisor: string, rounding: RoundingMode): Result<Quantity> {
    var parsed :- ParseDecimal(divisor);
    if parsed.unscaled == 0 then Err("division by zero")
    else
      var numerator := q.parts.unscaled * Pow10(parsed.scale) * Pow10(MAX_DECIMAL_SCALE);
      var denominator := parsed.unscaled * Pow10(q.parts.scale);
      var unscaled :- DivideWithRounding(numerator, denominator, rounding);
      Ok(Quantity(Trimmed(Decimal(unscaled, MAX_DECIMAL_SCALE)), q.unit))
  }

  function Amount(q: Quantity): real {
    Value(q.parts)
  }

  // ----- addition -----

  lemma SameScaleSum(x: int, y: int, scale: nat)
    ensures Value(Decimal(x + y, scale)) == Value(Decimal(x, scale)) + Value(Decimal(y, scale))
    ensures Value(Decimal(x - y, scale)) == Value(Decimal(x, scale)) - Value(Decimal(y, scale))
  {
  }

  /** Addition and subtraction are exact, keep the unit and leave a trimmed result. */
  lemma SumIsExact(a: Quantity, b: Quantity)
    requires Valid(a) && Valid(b)
    ensures Add(a, b).Ok? <==> a.unit == b.unit
    ensures Subtract(a, b).Ok? <==> a.unit == b.unit
    ensures Add(a, b).Ok? ==>
              var s := Add(a, b).value; Valid(s) && s.unit == a.unit && Amount(s) == Amount(a) + Amount(b)
    ensures Subtract(a, b).Ok? ==>
              var s := Subtract(a, b).value; Valid(s) && s.unit == a.unit && Amount(s) == Amount(a) - Amount(b)
  {
    hide Value, Trimmed, IsTrimmed;
    var scale := Max(a.parts.scale, b.parts.scale);
    var l, r := Raised(a.parts, scale), Raised(b.parts, scale);
    RaisedKeepsValue(a.parts, scale);
    RaisedKeepsValue(b.parts, scale);
    SameScaleSum(l.unscaled, r.unscaled, scale);
    TrimKeepsValue(Decimal(l.unscaled + r.unscaled, scale));
    TrimKeepsValue(Decimal(l.unscaled - r.unscaled, scale));
  }

  /** Valid quantities of one unit and one amount are the same quantity. */
  lemma AmountIsIdentity(a: Quantity, b: Quantity)
    requires Valid(a) && Valid(b) && a.unit == b.unit && Amount(a) == Amount(b)
    ensures a == b
  {
    TrimmedIsUnique(a.parts, b.parts);
  }

  /** Addition is associative and commutative on the very representation. */
  lemma AddAssociates(a: Quantity, b: Quantity, c: Quantity)
    requires Valid(a) && Valid(b) && Valid(c) && a.unit == b.unit == c.unit
    ensures Add(a, b).Ok? && Add(b, c).Ok?
    ensures Add(Add(a, b).value, c) == Add(a, Add(b, c).value)
    ensures Add(a, b) == Add(b, a)
  {
    hide Add, Value, IsTrimmed;
    SumIsExact(a, b);
    SumIsExact(b, a);
    SumIsExact(b, c);
    SumIsExact(Add(a, b).value, c);
    SumIsExact(a, Add(b, c).value);
    AmountIsIdentity(Add(a, b).value, Add(b, a).value);
    AmountIsIdentity(Add(Add(a, b).value, c).value, Add(a, Add(b, c).value).value);
  }

  /** Subtraction undoes addition to the identical quantity. */
  lemma SubtractUndoesAdd(a: Quantity, b: Quantity)
    requires Valid(a) && Valid(b) && a.unit == b.unit
    ensures Add(a, b).Ok?
    ensures Subtract(Add(a, b).value, b) == Ok(a)
  {
    hide Add, Subtract, Value, IsTrimmed;
    SumIsExact(a, b);
    SumIsExact(Add(a, b).value, b);
    AmountIsIdentity(Subtract(Add(a, b).value, b).value, a);
  }

  // ----- multiplication and division -----

  /** Reading a quantity keeps the number its text denotes, whatever zeros are trimmed. */
  lemma OfKeepsAmount(text: string, unit: Option<string>)
    ensures Of(text, unit).Ok? <==> ParseDecimal(text).Ok?
    ensures Of(text, unit).Ok? ==>
              var q := Of(text, unit).value;
              Valid(q) && q.unit == unit && Amount(q) == Value(ParseDecimal(text).value)
  {
    hide ParseDecimal, Trimmed, IsTrimmed, Value;
    if ParseDecimal(text).Ok? {
      TrimKeepsValue(ParseDecimal(text).value);
      ParsedScale(text);
    }
  }

  lemma ParsedScale(text: string)
    requires ParseDecimal(text).Ok?
    ensures ParseDecimal(text).value.scale <= MAX_DECIMAL_SCALE
  {
  }

  /** Every operation that succeeds leaves a trimmed quantity within the scale limit and in its unit. */
  lemma ResultsStayValid(q: Quantity, text: string, rounding: RoundingMode, unit: Option<string>)
    requires Valid(q)
    ensures Of(text, unit).Ok? ==> Valid(Of(text, unit).value) && Of(text, unit).value.unit == unit
    ensures Multiply(q, text, rounding).Ok? ==>
              Valid(Multiply(q, text, rounding).value) && Multiply(q, text, rounding).value.unit == q.unit
    ensures Divide(q, text, rounding).Ok? ==>
              Valid(Divide(q, text, rounding).value) && Divide(q, text, rounding).value.unit == q.unit
  {
    hide Trimmed, IsTrimmed, Rounded, MatchesPattern, NatOf;
    forall d: Decimal ensures IsTrimmed(Trimmed(d)) && Trimmed(d).scale <= d.scale {
      TrimKeepsValue(d);
    }
  }

  /** Equal values by cross multiplication. */
  lemma CrossValue(a: Decimal, b: Decimal)
    ensures Value(a) == Value(b) <==> a.unscaled * Pow10(b.scale) == b.unscaled * Pow10(a.scale)
  {
    var p, q := Pow10(a.scale), Pow10(b.scale);
    CrossRatio(a.unscaled, p, b.unscaled, q);
  }

  lemma CrossRatio(x: int, p: int, y: int, q: int)
    requires p > 0 && q > 0
    ensures x as real / p as real == y as real / q as real <==> x * q == y * p
  {
    var v, w := x as real / p as real, y as real / q as real;
    assert v * p as real == x as real && w * q as real == y as real;
    assert (x * q) as real == v * p as real * q as real;
    assert (y * p) as real == w * p as real * q as real;
    assert p as real * q as real > 0.0;
    if v != w {
      assert v * (p as real * q as real) != w * (p as real * q as real);
    }
  }

  /** The division of an exact product comes out whole. */
  lemma QuotientIsWhole(q: Decimal, f: Decimal, m: Decimal)
    requires q.scale <= MAX_DECIMAL_SCALE
    requires m.unscaled * Pow10(q.scale + f.scale) == q.unscaled * f.unscaled * Pow10(m.scale)
    ensures m.unscaled * Pow10(f.scale) * Pow10(MAX_DECIMAL_SCALE)
         == q.unscaled * Pow10(MAX_DECIMAL_SCALE - q.scale) * (f.unscaled * Pow10(m.scale))
  {
    hide Pow10;
    var k := Pow10(MAX_DECIMAL_SCALE - q.scale);
    Pow10Adds(f.scale, MAX_DECIMAL_SCALE);
    Pow10Adds(q.scale + f.scale, MAX_DECIMAL_SCALE - q.scale);
    assert q.scale + f.scale + (MAX_DECIMAL_SCALE - q.scale) == f.scale + MAX_DECIMAL_SCALE;
    Regroup(m.unscaled, Pow10(f.scale), Pow10(MAX_DECIMAL_SCALE), Pow10(q.scale + f.scale), k,
            q.unscaled, f.unscaled, Pow10(m.scale));
  }

  lemma Regroup(m: int, a: int, b: int, c: int, k: int, q: int, f: int, p: int)
    requires m * c == q * f * p && a * b == c * k
    ensures m * a * b == q * k * (f * p)
  {
    assert m * a * b == m * (a * b) == m * c * k;
    assert q * k * (f * p) == q * f * p * k;
  }

  /**
   * Multiplying by a nonzero factor and dividing by it returns the identical quantity, under any two
   * rounding rules, whenever the scales add up to at most eighteen.
   */
  lemma DivideUndoesMultiply(q: Quantity, factor: string, m1: RoundingMode, m2: RoundingMode)
    requires Valid(q) && ParseDecimal(factor).Ok? && ParseDecimal(factor).value.unscaled != 0
    requires q.parts.scale + ParseDecimal(factor).value.scale <= MAX_DECIMAL_SCALE
    ensures Multiply(q, factor, m1).Ok?
    ensures Divide(Multiply(q, factor, m1).value, factor, m2) == Ok(q)
  {
    hide ParseDecimal, Trimmed, IsTrimmed, Value, Rounded, Pow10;
    var f := ParseDecimal(factor).value;
    var product := Decimal(q.parts.unscaled * f.unscaled, q.parts.scale + f.scale);
    var m := Trimmed(product);
    TrimKeepsValue(product);
    CrossValue(m, product);
    QuotientIsWhole(q.parts, f, m);
    var x := q.parts.unscaled * Pow10(MAX_DECIMAL_SCALE - q.parts.scale);
    NonzeroProduct(f.unscaled, Pow10(m.scale));
    ExactIsKept(x, f.unscaled * Pow10(m.scale), m2);
    var result := Decimal(x, MAX_DECIMAL_SCALE);
    RaisedKeepsValue(q.parts, MAX_DECIMAL_SCALE);
    TrimKeepsValue(result);
    TrimmedIsUnique(Trimmed(result), q.parts);
  }

  lemma NonzeroProduct(a: int, b: int)
    requires a != 0 && b > 0
    ensures a * b != 0
  {
  }

  // ----- results that need rounding -----

  /** Raising a trimmed decimal back gives the decimal it was trimmed from. */
  lemma RaisedUndoesTrim(d: Decimal)
    ensures Trimmed(d).scale <= d.scale && Raised(Trimmed(d), d.scale) == d
  {
    TrimKeepsValue(d);
    RaisedKeepsValue(Trimmed(d), d.scale);
    SameScaleOrder(Raised(Trimmed(d), d.scale), d);
  }

  /**
   * A product is exact while the scales add up to at most eighteen; beyond that it is the one decimal of
   * eighteen digits its rounding rule names for the exact product.
   */
  lemma ProductIsNamed(q: Quantity, factor: string, rounding: RoundingMode)
    requires Valid(q) && ParseDecimal(factor).Ok?
    ensures Multiply(q, factor, rounding).Ok?
    ensures var f, r := ParseDecimal(factor).value, Multiply(q, factor, rounding).value;
      var scale, product := q.parts.scale + f.scale, q.parts.unscaled * f.unscaled;
      Valid(r) && r.unit == q.unit
      && (scale <= MAX_DECIMAL_SCALE ==> Amount(r) == Value(Decimal(product, scale)))
      && (scale > MAX_DECIMAL_SCALE ==>
            Names(product, Pow10(scale - MAX_DECIMAL_SCALE), rounding, Raised(r.parts, MAX_DECIMAL_SCALE).unscaled))
  {
    hide ParseDecimal, Trimmed, IsTrimmed, Value, Rounded, Pow10, Names, Raised;
    var f := ParseDecimal(factor).value;
    var scale, product := q.parts.scale + f.scale, q.parts.unscaled * f.unscaled;
    ResultsStayValid(q, factor, rounding, q.unit);
    if scale <= MAX_DECIMAL_SCALE {
      TrimKeepsValue(Decimal(product, scale));
    } else {
      var d := Pow10(scale - MAX_DECIMAL_SCALE);
      RaisedUndoesTrim(Decimal(Rounded(product, d, rounding), MAX_DECIMAL_SCALE));
      RoundedIsNamed(product, d, rounding);
    }
  }

  /** A quotient is the one decimal of eighteen digits its rounding rule names for the exact quotient. */
  lemma QuotientIsNamed(q: Quantity, divisor: string, rounding: RoundingMode)
    requires Valid(q) && ParseDecimal(divisor).Ok?
    ensures Divide(q, divisor, rounding).Ok? <==> ParseDecimal(divisor).value.unscaled != 0
    ensures Divide(q, divisor, rounding).Ok? ==>
              var f, r := ParseDecimal(divisor).value, Divide(q, divisor, rounding).value;
              var n := q.parts.unscaled * Pow10(f.scale) * Pow10(MAX_DECIMAL_SCALE);
              var d := f.unscaled * Pow10(q.parts.scale);
              Valid(r) && r.unit == q.unit && d != 0
              && Names(if d > 0 then n else -n, Abs(d), rounding, Raised(r.parts, MAX_DECIMAL_SCALE).unscaled)
  {
    hide ParseDecimal, Trimmed, IsTrimmed, Rounded, Pow10, Names, Raised;
    var f := ParseDecimal(divisor).value;
    if f.unscaled != 0 {
      ResultsStayValid(q, divisor, rounding, q.unit);
      var n, d := q.parts.unscaled * Pow10(f.scale) * Pow10(MAX_DECIMAL_SCALE), f.unscaled * Pow10(q.parts.scale);
      NonzeroProduct(f.unscaled, Pow10(q.parts.scale));
      RaisedUndoesTrim(Decimal(Rounded(n, d, rounding), MAX_DECIMAL_SCALE));
      RoundedIsNamed(n, d, rounding);
    }
  }
}
