/** Exact decimals: an integer mantissa over a power of ten. */
module Decimals {
  import opened Outcome
  import opened Rounding

  datatype Decimal = Decimal(unscaled: int, scale: nat)

  const MAX_DECIMAL_SCALE := 18

  function Pow10(exponent: nat): (p: int)
    ensures p >= 1
  {
    if exponent == 0 then 1 else 10 * Pow10(exponent - 1)
  }

  /** The real number a decimal stands for. */
  function Value(d: Decimal): real {
    d.unscaled as real / Pow10(d.scale) as real
  }

  function RescaleUp(value: Decimal, scale: nat): Result<Decimal> {
    if scale == value.scale then Ok(value)
    else if scale < value.scale then Err("cannot raise to a smaller scale")
    else Ok(Decimal(value.unscaled * Pow10(scale - value.scale), scale))
  }

  function Rescale(value: Decimal, scale: int, mode: RoundingMode): Result<Decimal> {
    if !(0 <= scale <= MAX_DECIMAL_SCALE) then Err("scale")
    else if scale >= value.scale then RescaleUp(value, scale)
    else Ok(Decimal(Rounded(value.unscaled, Pow10(value.scale - scale), mode), scale))
  }

  function Max(a: nat, b: nat): nat {
    if a >= b then a else b
  }

  /** `value` at the larger scale `scale`. */
  function Raised(value: Decimal, scale: nat): (r: Decimal)
    requires scale >= value.scale
    ensures RescaleUp(value, scale) == Ok(r)
  {
    if scale == value.scale then value else Decimal(value.unscaled * Pow10(scale - value.scale), scale)
  }

  function AlignDecimals(a: Decimal, b: Decimal): (Decimal, Decimal) {
    var scale := Max(a.scale, b.scale);
    (Raised(a, scale), Raised(b, scale))
  }

  function CompareDecimals(a: Decimal, b: Decimal): int {
    var (left, right) := AlignDecimals(a, b);
    if left.unscaled < right.unscaled then -1
    else if left.unscaled > right.unscaled then 1
    else 0
  }

  predicate IsTrimmed(d: Decimal) {
    d.scale == 0 || d.unscaled % 10 != 0
  }

  function Trimmed(d: Decimal): Decimal
    decreases d.scale
  {
    if IsTrimmed(d) then d else Trimmed(Decimal(d.unscaled / 10, d.scale - 1))
  }

  /** Trimming as the program runs it. */
  method TrimDecimal(value: Decimal) returns (r: Decimal)
    ensures r == Trimmed(value)
  {
    var unscaled := value.unscaled;
    var scale := value.scale;
    while scale > 0 && unscaled % 10 == 0
      invariant Trimmed(Decimal(unscaled, scale)) == Trimmed(value)
    {
      unscaled := unscaled / 10;
      scale := scale - 1;
    }
    r := Decimal(unscaled, scale);
  }

  // ----- powers -----

  lemma {:induction false} Pow10Adds(a: nat, b: nat)
    ensures Pow10(a + b) == Pow10(a) * Pow10(b)
    decreases a
  {
    if a > 0 {
      Pow10Adds(a - 1, b);
      assert Pow10(a + b) == 10 * Pow10(a - 1 + b);
      assert 10 * (Pow10(a - 1) * Pow10(b)) == (10 * Pow10(a - 1)) * Pow10(b);
    }
  }

  // ----- values -----

  lemma Cancel(x: int, k: int, p: int)
    requires k > 0 && p > 0
    ensures (x * k) as real / (p * k) as real == x as real / p as real
  {
    var v := x as real / p as real;
    assert v * p as real == x as real;
    assert (x * k) as real == x as real * k as real && (p * k) as real == p as real * k as real;
    assert v * (p as real * k as real) == x as real * k as real;
  }

  lemma OrderOverCommon(x: int, y: int, p: int)
    requires p > 0
    ensures x < y <==> x as real / p as real < y as real / p as real
    ensures x == y <==> x as real / p as real == y as real / p as real
  {
    var v, w := x as real / p as real, y as real / p as real;
    assert v * p as real == x as real && w * p as real == y as real;
  }

  lemma RaisedKeepsValue(d: Decimal, scale: nat)
    requires scale >= d.scale
    ensures Raised(d, scale).scale == scale
    ensures Raised(d, scale).unscaled == d.unscaled * Pow10(scale - d.scale)
    ensures Value(Raised(d, scale)) == Value(d)
  {
    Pow10Adds(d.scale, scale - d.scale);
    Cancel(d.unscaled, Pow10(scale - d.scale), Pow10(d.scale));
  }

  /** The comparison is the order of the numbers compared, so it is total and antisymmetric. */
  lemma CompareIsValueOrder(a: Decimal, b: Decimal)
    ensures CompareDecimals(a, b) == -1 <==> Value(a) < Value(b)
    ensures CompareDecimals(a, b) == 0 <==> Value(a) == Value(b)
    ensures CompareDecimals(a, b) == 1 <==> Value(a) > Value(b)
    ensures CompareDecimals(b, a) == -CompareDecimals(a, b)
  {
    hide Value;
    var scale := Max(a.scale, b.scale);
    RaisedKeepsValue(a, scale);
    RaisedKeepsValue(b, scale);
    SameScaleOrder(Raised(a, scale), Raised(b, scale));
  }

  lemma SameScaleOrder(a: Decimal, b: Decimal)
    requires a.scale == b.scale
    ensures a.unscaled < b.unscaled <==> Value(a) < Value(b)
    ensures a.unscaled == b.unscaled <==> Value(a) == Value(b)
  {
    OrderOverCommon(a.unscaled, b.unscaled, Pow10(a.scale));
  }

  lemma CompareIsTransitive(a: Decimal, b: Decimal, c: Decimal)
    requires CompareDecimals(a, b) <= 0 && CompareDecimals(b, c) <= 0
    ensures CompareDecimals(a, c) <= 0
    ensures CompareDecimals(a, c) == 0 ==> CompareDecimals(a, b) == 0 && CompareDecimals(b, c) == 0
  {
    hide Value, AlignDecimals;
    CompareIsValueOrder(a, b);
    CompareIsValueOrder(b, c);
    CompareIsValueOrder(a, c);
  }

  // ----- trimming -----

  lemma {:induction false} TrimKeepsValue(d: Decimal)
    ensures Value(Trimmed(d)) == Value(d)
    ensures IsTrimmed(Trimmed(d)) && Trimmed(d).scale <= d.scale
    decreases d.scale
  {
    if !IsTrimmed(d) {
      var e := Decimal(d.unscaled / 10, d.scale - 1);
      TrimKeepsValue(e);
      Cancel(e.unscaled, 10, Pow10(e.scale));
      assert e.unscaled * 10 == d.unscaled && Pow10(e.scale) * 10 == Pow10(d.scale);
    }
  }

  /** Two trimmed decimals of equal value are the same pair. */
  lemma TrimmedIsUnique(a: Decimal, b: Decimal)
    requires IsTrimmed(a) && IsTrimmed(b) && Value(a) == Value(b)
    ensures a == b
  {
    hide Value;
    if a.scale < b.scale {
      TrimmedScaleClash(a, b);
    } else if b.scale < a.scale {
      TrimmedScaleClash(b, a);
    } else {
      SameScaleOrder(a, b);
    }
  }

  lemma TrimmedScaleClash(a: Decimal, b: Decimal)
    requires IsTrimmed(b) && a.scale < b.scale
    ensures Value(a) != Value(b)
  {
    hide Value;
    var r := Raised(a, b.scale);
    RaisedKeepsValue(a, b.scale);
    SameScaleOrder(r, b);
    var p := Pow10(b.scale - a.scale - 1);
    assert Pow10(b.scale - a.scale) == 10 * p;
    assert r.unscaled == 10 * (a.unscaled * p);
  }

  /** Comparing equal means trimming to the identical pair: trimming is a canonical form. */
  lemma CompareZeroIffTrimmedAlike(a: Decimal, b: Decimal)
    ensures CompareDecimals(a, b) == 0 <==> Trimmed(a) == Trimmed(b)
  {
    hide Value, AlignDecimals, Trimmed, IsTrimmed;
    CompareIsValueOrder(a, b);
    TrimKeepsValue(a);
    TrimKeepsValue(b);
    if Value(a) == Value(b) {
      TrimmedIsUnique(Trimmed(a), Trimmed(b));
    }
  }

  // ----- rescaling -----

  predicate Directed(mode: RoundingMode) {
    mode.DOWN? || mode.UP? || mode.FLOOR? || mode.CEILING?
  }

  lemma FloorTwice(n: int, d: int, e: int, r: int, s: int)
    requires d > 0 && e > 0 && d * e > 0
    requires Names(n, d, FLOOR, r) && Names(r, e, FLOOR, s)
    ensures Names(n, d * e, FLOOR, s)
  {
    assert s * (d * e) == s * e * d && (s + 1) * e * d == s * e * d + d * e;
    assert (s + 1) * e == s * e + e && (r + 1) * d == r * d + d;
    Monotone(s * e, r, d);
    Monotone(r + 1, (s + 1) * e, d);
  }

  lemma CeilingTwice(n: int, d: int, e: int, r: int, s: int)
    requires d > 0 && e > 0 && d * e > 0
    requires Names(n, d, CEILING, r) && Names(r, e, CEILING, s)
    ensures Names(n, d * e, CEILING, s)
  {
    assert s * (d * e) == s * e * d && (s - 1) * e * d == s * e * d - d * e;
    assert (s - 1) * e == s * e - e && (r - 1) * d == r * d - d;
    Monotone(r, s * e, d);
    Monotone((s - 1) * e, r - 1, d);
  }

  lemma ZeroNamesZero(e: int, mode: RoundingMode, s: int)
    requires e > 0 && Names(0, e, mode, s)
    ensures s == 0
  {
    assert Names(0, e, mode, 0);
    NamedIsUnique(0, e, mode, s, 0);
  }

  /** Rounding in two stages under a directed rule is rounding once. */
  lemma NamedTwice(n: int, d: int, e: int, mode: RoundingMode, r: int, s: int)
    requires d > 0 && e > 0 && d * e > 0 && Directed(mode)
    requires Names(n, d, mode, r) && Names(r, e, mode, s)
    ensures Names(n, d * e, mode, s)
  {
    RoundedSign(n, d, mode, r);
    if r == 0 {
      ZeroNamesZero(e, mode, s);
    }
    if mode.FLOOR? || (n >= 0 && mode.DOWN?) || (n < 0 && mode.UP?) {
      assert Names(n, d, FLOOR, r) && Names(r, e, FLOOR, s);
      FloorTwice(n, d, e, r, s);
    } else {
      assert Names(n, d, CEILING, r) && Names(r, e, CEILING, s);
      CeilingTwice(n, d, e, r, s);
    }
  }

  lemma RoundedSign(n: int, d: int, mode: RoundingMode, r: int)
    requires d > 0 && Directed(mode) && Names(n, d, mode, r)
    ensures n >= 0 ==> r >= 0
    ensures n < 0 ==> r <= 0 && (mode.UP? ==> r < 0)
  {
    if r <= -1 {
      Monotone(r, -1, d);
      Monotone(r + 1, 0, d);
    }
    if r >= 1 {
      Monotone(1, r, d);
      Monotone(0, r - 1, d);
    }
  }

  /** Scaling both operands by a common factor changes nothing. */
  lemma RoundedScales(n: int, d: int, k: int, mode: RoundingMode)
    requires d > 0 && k > 0 && d * k > 0
    ensures Rounded(n * k, d * k, mode) == Rounded(n, d, mode)
  {
    hide Rounded;
    RoundedIsNamed(n, d, mode);
    var r := Rounded(n, d, mode);
    NamesScales(n, d, k, mode, r);
    RoundedIffNamed(n * k, d * k, mode, r);
  }

  lemma NamesScales(n: int, d: int, k: int, mode: RoundingMode, r: int)
    requires d > 0 && k > 0 && d * k > 0 && Names(n, d, mode, r)
    ensures Names(n * k, d * k, mode, r)
  {
    hide Leaves;
    assert n * k - r * (d * k) == (n - r * d) * k;
    LeavesScales(n - r * d, d, k, mode, n, r % 2 == 0);
  }

  lemma LeavesScales(rest: int, d: int, k: int, mode: RoundingMode, n: int, even: bool)
    requires d > 0 && k > 0 && Leaves(rest, d, mode, n, even)
    ensures Leaves(rest * k, d * k, mode, n * k, even)
  {
    SignScales(rest, k);
    SignScales(rest - d, k);
    SignScales(rest + d, k);
    SignScales(2 * rest - d, k);
    SignScales(2 * rest + d, k);
    SignScales(n, k);
    assert (rest - d) * k == rest * k - d * k && (rest + d) * k == rest * k + d * k;
    assert (2 * rest - d) * k == 2 * (rest * k) - d * k && (2 * rest + d) * k == 2 * (rest * k) + d * k;
  }

  lemma SignScales(x: int, k: int)
    requires k > 0
    ensures x * k < 0 <==> x < 0
    ensures x * k == 0 <==> x == 0
  {
  }

  /**
   * Changing the scale in two stages equals changing it once under DOWN, UP, FLOOR and CEILING, for
   * either sign; under every rule it does when the first stage loses nothing.
   */
  lemma RescaleTwice(v: Decimal, s1: nat, s2: nat, mode: RoundingMode)
    requires s2 <= s1 <= MAX_DECIMAL_SCALE
    requires Directed(mode) || s1 >= v.scale
    ensures Rescale(v, s1, mode).Ok?
    ensures Rescale(Rescale(v, s1, mode).value, s2, mode) == Rescale(v, s2, mode)
  {
    hide Rounded, Names, Pow10;
    if s1 == s2 {
    } else if s1 < v.scale {
      var d, e := Pow10(v.scale - s1), Pow10(s1 - s2);
      Pow10Adds(v.scale - s1, s1 - s2);
      var r := Rounded(v.unscaled, d, mode);
      var s := Rounded(r, e, mode);
      RoundedIsNamed(v.unscaled, d, mode);
      RoundedIsNamed(r, e, mode);
      NamedTwice(v.unscaled, d, e, mode, r, s);
      RoundedIffNamed(v.unscaled, d * e, mode, s);
    } else if s2 < v.scale {
      if s1 > v.scale {
        Pow10Adds(v.scale - s2, s1 - v.scale);
        RoundedScales(v.unscaled, Pow10(v.scale - s2), Pow10(s1 - v.scale), mode);
      }
    } else {
      Pow10Adds(s2 - v.scale, s1 - s2);
      var x := v.unscaled * Pow10(s2 - v.scale);
      ExactIsKept(x, Pow10(s1 - s2), mode);
      if s2 == v.scale {
        PowerOfZero();
      }
      assert v.unscaled * Pow10(s1 - v.scale) == x * Pow10(s1 - s2);
    }
  }

  lemma PowerOfZero()
    ensures Pow10(0) == 1
  {
  }

  /** The HALF rules do round differently in two stages: 1.451 goes to 2 by way of 1.5, and to 1 directly. */
  lemma HalfRulesRoundTwice(mode: RoundingMode)
    requires !Directed(mode)
    ensures var v := Decimal(1451, 3);
      Rescale(v, 0, mode) == Ok(Decimal(1, 0))
      && Rescale(v, 1, mode) == Ok(Decimal(15, 1))
      && Rescale(Decimal(15, 1), 0, mode) == Ok(Decimal(2, 0))
  {
    assert Pow10(1) == 10 && Pow10(2) == 100 && Pow10(3) == 1000;
    assert 1451 / 1000 == 1 && 1451 % 1000 == 451;
    assert 1451 / 100 == 14 && 1451 % 100 == 51;
  }

  /** Rescaling moves a decimal by less than one unit of the new scale, and by half a unit under the HALF rules. */
  lemma RescaleIsNear(v: Decimal, scale: nat, mode: RoundingMode)
    requires scale <= MAX_DECIMAL_SCALE && scale < v.scale
    ensures Rescale(v, scale, mode).Ok?
    ensures var r := Rescale(v, scale, mode).value; var unit := Pow10(v.scale - scale);
      r.scale == scale && Abs(v.unscaled - r.unscaled * unit) < unit
      && (!Directed(mode) ==> 2 * Abs(v.unscaled - r.unscaled * unit) <= unit)
  {
    hide Rounded, Pow10;
    RoundedIsNear(v.unscaled, Pow10(v.scale - scale), mode);
  }
  /** A scale outside 0 to 18 is refused; a larger one keeps the value; a smaller one gives what the mode names. */
  lemma RescaleIsNamed(v: Decimal, scale: int, mode: RoundingMode)
    ensures Rescale(v, scale, mode).Ok? <==> 0 <= scale <= 18
    ensures Rescale(v, scale, mode).Ok? ==> Rescale(v, scale, mode).value.scale == scale
    ensures v.scale <= scale <= 18 ==> Value(Rescale(v, scale, mode).value) == Value(v)
    ensures 0 <= scale <= 18 && scale < v.scale ==>
              Names(v.unscaled, Pow10(v.scale - scale), mode, Rescale(v, scale, mode).value.unscaled)
  {
    hide Rounded, Names, Pow10, Value;
    if v.scale <= scale {
      RaisedKeepsValue(v, scale);
    } else if 0 <= scale <= 18 {
      RoundedIsNamed(v.unscaled, Pow10(v.scale - scale), mode);
    }
  }

  /** Raising the scale is exact, and refused towards a smaller scale. */
  lemma RescaleUpIsExact(v: Decimal, scale: nat)
    ensures RescaleUp(v, scale).Ok? <==> scale >= v.scale
    ensures RescaleUp(v, scale).Ok? ==>
              RescaleUp(v, scale).value.scale == scale && Value(RescaleUp(v, scale).value) == Value(v)
  {
    hide Value;
    if scale >= v.scale {
      RaisedKeepsValue(v, scale);
    }
  }
}
