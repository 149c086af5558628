/** Amounts of a currency, as whole minor units at the currency's scale. */
module Money {
  import opened Decimals
  import opened DecimalText
  import opened Outcome
  import opened Rounding

  datatype Currency = Currency(code: string, minorUnit: nat)

  const MAX_MINOR_UNIT := 4

  datatype Money = Money(parts: Decimal, currency: Currency)

  predicate Valid(m: Money) {
    m.parts.scale == m.currency.minorUnit <= MAX_MINOR_UNIT
  }

  function Of(amount: string, currency: Currency, rounding: Option<RoundingMode>): Result<Money> {
    var parts :- ParseDecimal(amount);
    if parts.scale > currency.minorUnit then
      if rounding.None? then Err("too many fractional digits")
      else
        var rescaled :- Rescale(parts, currency.minorUnit, rounding.value);
        Ok(Money(rescaled, currency))
    else if parts.scale < currency.minorUnit then
      var raised :- RescaleUp(parts, currency.minorUnit);
      Ok(Money(raised, currency))
    else Ok(Money(parts, currency))
  }

  function ToDecimalString(m: Money): string {
    FormatDecimal(m.parts)
  }

  function Multiply(m: Money, factor: string, rounding: RoundingMode): Result<Money> {
    var parsed :- ParseDecimal(factor);
    var unscaled :- DivideWithRounding(m.parts.unscaled * parsed.unscaled, Pow10(parsed.scale), rounding);
    Ok(Money(Decimal(unscaled, m.parts.scale), m.currency))
  }

  function Divide(m: Money, divisor: string, rounding: RoundingMode): Result<Money> {
    var parsed :- ParseDecimal(divisor);
    if parsed.unscaled == 0 then Err("division by zero")
    else
      var unscaled :- DivideWithRounding(m.parts.unscaled * Pow10(parsed.scale), parsed.unscaled, rounding);
      Ok(Money(Decimal(unscaled, m.parts.scale), m.currency))
  }

  /** Reading back the text of an amount gives the same amount, whatever rounding is offered. */
  lemma TextRoundTrip(m: Money, rounding: Option<RoundingMode>)
    requires Valid(m)
    ensures Of(ToDecimalString(m), m.currency, rounding) == Ok(m)
  {
    hide ParseDecimal, FormatDecimal;
    ParseOfFormat(m.parts);
  }

  /**
   * An amount with no more digits than the currency keeps its value; one with more is refused unless
   * a rounding rule is stated, and then it is the amount of minor units that rule names, less than one
   * away.
   */
  lemma OfKeepsOrRounds(amount: string, currency: Currency, rounding: Option<RoundingMode>)
    requires currency.minorUnit <= MAX_MINOR_UNIT && ParseDecimal(amount).Ok?
    ensures var d, r := ParseDecimal(amount).value, Of(amount, currency, rounding);
      (r.Ok? <==> d.scale <= currency.minorUnit || rounding.Some?)
      && (r.Ok? ==> Valid(r.value) && r.value.currency == currency)
      && (d.scale <= currency.minorUnit ==> Value(r.value.parts) == Value(d))
      && (r.Ok? && d.scale > currency.minorUnit ==>
        Names(d.unscaled, Pow10(d.scale - currency.minorUnit), rounding.value, r.value.parts.unscaled)
        && Abs(d.unscaled - r.value.parts.unscaled * Pow10(d.scale - currency.minorUnit))
           < Pow10(d.scale - currency.minorUnit))
  {
    hide ParseDecimal, Value, Pow10, Rounded, Names;
    var d := ParseDecimal(amount).value;
    if d.scale > currency.minorUnit {
      if rounding.Some? {
        RescaleIsNear(d, currency.minorUnit, rounding.value);
        RescaleIsNamed(d, currency.minorUnit, rounding.value);
      }
    } else {
      RaisedKeepsValue(d, currency.minorUnit);
    }
  }

  /** A product is the one integer of minor units its rounding rule names for the exact product. */
  lemma ProductIsNamed(m: Money, factor: string, rounding: RoundingMode)
    requires Valid(m) && ParseDecimal(factor).Ok?
    ensures Multiply(m, factor, rounding).Ok?
    ensures var f, r := ParseDecimal(factor).value, Multiply(m, factor, rounding).value;
      Valid(r) && r.currency == m.currency
      && Names(m.parts.unscaled * f.unscaled, Pow10(f.scale), rounding, r.parts.unscaled)
  {
    hide ParseDecimal, Rounded, Names, Pow10;
    var f := ParseDecimal(factor).value;
    RoundedIsNamed(m.parts.unscaled * f.unscaled, Pow10(f.scale), rounding);
  }

  /** A quotient is the one integer of minor units its rounding rule names for the exact quotient. */
  lemma QuotientIsNamed(m: Money, divisor: string, rounding: RoundingMode)
    requires Valid(m) && ParseDecimal(divisor).Ok?
    ensures Divide(m, divisor, rounding).Ok? <==> ParseDecimal(divisor).value.unscaled != 0
    ensures Divide(m, divisor, rounding).Ok? ==>
              var f, r := ParseDecimal(divisor).value, Divide(m, divisor, rounding).value;
              var n := m.parts.unscaled * Pow10(f.scale);
              Valid(r) && r.currency == m.currency
              && Names(if f.unscaled > 0 then n else -n, Abs(f.unscaled), rounding, r.parts.unscaled)
  {
    hide ParseDecimal, Rounded, Names, Pow10;
    var f := ParseDecimal(divisor).value;
    if f.unscaled != 0 {
      RoundedIsNamed(m.parts.unscaled * Pow10(f.scale), f.unscaled, rounding);
    }
  }

  /** Multiplying by a nonzero whole number and dividing by it returns the identical amount. */
  lemma DivideUndoesMultiply(m: Money, factor: string, m1: RoundingMode, m2: RoundingMode)
    requires Valid(m) && ParseDecimal(factor).Ok?
    requires ParseDecimal(factor).value.unscaled != 0 && ParseDecimal(factor).value.scale == 0
    ensures Multiply(m, factor, m1).Ok?
    ensures Divide(Multiply(m, factor, m1).value, factor, m2) == Ok(m)
  {
    PowerOfZero();
    hide ParseDecimal, Rounded, Names, Pow10;
    var f := ParseDecimal(factor).value;
    ExactIsKept(m.parts.unscaled * f.unscaled, 1, m1);
    ExactIsKept(m.parts.unscaled, f.unscaled, m2);
  }
}
