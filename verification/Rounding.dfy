/** Integer division under the six rounding rules of `decimal.ts`. */
module Rounding {
  import opened Outcome

  datatype RoundingMode = HALF_UP | HALF_EVEN | DOWN | UP | FLOOR | CEILING

  function Abs(x: int): nat {
    if x < 0 then -x else x
  }

  /** How much is added to the truncated magnitude when the division is not exact. */
  function RoundedMagnitude(quotient: int, remainder: int, divisor: int, negative: bool, mode: RoundingMode): int {
    match mode
    case DOWN => quotient
    case UP => quotient + 1
    case FLOOR => if negative then quotient + 1 else quotient
    case CEILING => if negative then quotient else quotient + 1
    case HALF_UP => if remainder * 2 >= divisor then quotient + 1 else quotient
    case HALF_EVEN =>
      if remainder * 2 > divisor || (remainder * 2 == divisor && quotient % 2 == 1) then quotient + 1 else quotient
  }

  function Rounded(numerator: int, denominator: int, mode: RoundingMode): int
    requires denominator != 0
  {
    var negative := (numerator < 0) != (denominator < 0);
    var magnitude := Abs(numerator);
    var divisor := Abs(denominator);
    var quotient := magnitude / divisor;
    var remainder := magnitude % divisor;
    var rounded := if remainder == 0 then quotient else RoundedMagnitude(quotient, remainder, divisor, negative, mode);
    if negative then -rounded else rounded
  }

  function DivideWithRounding(numerator: int, denominator: int, mode: RoundingMode): Result<int> {
    if denominator == 0 then Err("division by zero") else Ok(Rounded(numerator, denominator, mode))
  }

  // ----- what each rule means -----

  /** Whether a rule may leave `rest` over of a numerator of the sign of `n`, for an even or odd result. */
  predicate Leaves(rest: int, d: int, mode: RoundingMode, n: int, even: bool) {
    match mode
    case FLOOR => 0 <= rest < d
    case CEILING => -d < rest <= 0
    case DOWN => if n >= 0 then 0 <= rest < d else -d < rest <= 0
    case UP => if n >= 0 then -d < rest <= 0 else 0 <= rest < d
    case HALF_UP =>
      // nearest, and at a tie the neighbour farther from zero
      -d <= 2 * rest <= d && (2 * rest == d ==> n < 0) && (2 * rest == -d ==> n > 0)
    case HALF_EVEN =>
      -d <= 2 * rest <= d && (Abs(2 * rest) == d ==> even)
  }

  /** `r` is the integer the rule names for the rational n / d, with d positive. */
  predicate Names(n: int, d: int, mode: RoundingMode, r: int)
    requires d > 0
  {
    Leaves(n - r * d, d, mode, n, r % 2 == 0)
  }

  /** Products around a quotient, spelled out once. */
  lemma Products(q: int, d: int)
    ensures (q + 1) * d == q * d + d && (q - 1) * d == q * d - d
    ensures -q * d == -(q * d) && (-q + 1) * d == -(q * d) + d && (-q - 1) * d == -(q * d) - d
    ensures -(q + 1) * d == -(q * d) - d && (-(q + 1) + 1) * d == -(q * d) && (-(q + 1) - 1) * d == -(q * d) - 2 * d
    ensures (q + 2) * d == q * d + 2 * d
  {
  }

  /** What a magnitude one above or at the quotient leaves, for either sign. */
  lemma SignedRest(q: int, r: int, d: int, m: int)
    requires m == q || m == q + 1
    ensures var rest := if m == q then r else r - d;
      q * d + r - m * d == rest && -(q * d + r) - (-m) * d == -rest
  {
    Products(q, d);
    if m == q + 1 {
      assert m * d == q * d + d;
    }
    assert (-m) * d == -(m * d);
  }

  lemma ProductIsNonnegative(q: nat, d: nat)
    ensures q * d >= 0
  {
  }

  lemma SameParityNegated(m: int)
    ensures (-m) % 2 == m % 2
  {
  }

  /** Over a positive divisor the computed integer is the named one, for either sign of the numerator. */
  lemma MagnitudeNamed(q: int, r: int, d: int, negative: bool, mode: RoundingMode)
    requires d > 0 && q >= 0 && 0 <= r < d
    requires negative ==> q * d + r > 0
    ensures var m := if r == 0 then q else RoundedMagnitude(q, r, d, negative, mode);
      Names(if negative then -(q * d + r) else q * d + r, d, mode, if negative then -m else m)
  {
    hide Leaves;
    var m := if r == 0 then q else RoundedMagnitude(q, r, d, negative, mode);
    hide RoundedMagnitude;
    MagnitudeIsNext(q, r, d, negative, mode);
    SignedRest(q, r, d, m);
    SameParityNegated(m);
    ProductIsNonnegative(q, d);
    MagnitudeLeaves(q, r, d, negative, mode, if negative then -(q * d + r) else q * d + r, m);
  }

  lemma MagnitudeIsNext(q: int, r: int, d: int, negative: bool, mode: RoundingMode)
    ensures RoundedMagnitude(q, r, d, negative, mode) == q || RoundedMagnitude(q, r, d, negative, mode) == q + 1
  {
  }

  lemma MagnitudeLeaves(q: int, r: int, d: int, negative: bool, mode: RoundingMode, n: int, m: int)
    requires d > 0 && 0 <= r < d && (if negative then n < 0 else n >= 0) && (r > 0 && !negative ==> n > 0)
    requires m == if r == 0 then q else RoundedMagnitude(q, r, d, negative, mode)
    ensures var rest := if m == q then r else r - d;
      Leaves(if negative then -rest else rest, d, mode, n, m % 2 == 0)
  {
  }

  lemma QuotientOf(n: int, d: int)
    requires d > 0 && n >= 0
    ensures n / d >= 0 && n == n / d * d + n % d && 0 <= n % d < d
  {
    if n / d < 0 {
      assert n / d * d <= -d by { Monotone(n / d, -1, d); }
    }
  }

  lemma Monotone(a: int, b: int, d: int)
    requires a <= b && d >= 0
    ensures a * d <= b * d
  {
  }

  /** The numerator and denominator with the denominator's sign moved up. */
  lemma RoundedIsNamed(n: int, d: int, mode: RoundingMode)
    requires d != 0
    ensures Names(if d > 0 then n else -n, Abs(d), mode, Rounded(n, d, mode))
  {
    hide Names, Leaves, RoundedMagnitude;
    var m := Abs(n);
    QuotientOf(m, Abs(d));
    var negative := (n < 0) != (d < 0);
    if negative && m == 0 {
      assert n == 0 && m / Abs(d) == 0 && m % Abs(d) == 0;
      MagnitudeNamed(0, 0, Abs(d), false, mode);
    } else {
      MagnitudeNamed(m / Abs(d), m % Abs(d), Abs(d), negative, mode);
    }
  }

  /** A rule names one integer only. */
  lemma NamedIsUnique(n: int, d: int, mode: RoundingMode, a: int, b: int)
    requires d > 0 && Names(n, d, mode, a) && Names(n, d, mode, b)
    ensures a == b
  {
    if a < b {
      NamedOrder(n, d, mode, a, b);
    } else if b < a {
      NamedOrder(n, d, mode, b, a);
    }
  }

  lemma NamedOrder(n: int, d: int, mode: RoundingMode, a: int, b: int)
    requires d > 0 && a < b && Names(n, d, mode, a)
    ensures !Names(n, d, mode, b)
  {
    Monotone(a + 1, b, d);
    Products(a, d);
    Products(b, d);
    if b == a + 1 {
      assert b * d == a * d + d;
    } else {
      Monotone(a + 2, b, d);
    }
  }

  /** The division returns exactly the integer its rule names, for every sign of both operands. */
  lemma RoundedIffNamed(n: int, d: int, mode: RoundingMode, r: int)
    requires d != 0
    ensures Rounded(n, d, mode) == r <==> Names(if d > 0 then n else -n, Abs(d), mode, r)
  {
    hide Names, Rounded;
    RoundedIsNamed(n, d, mode);
    if Names(if d > 0 then n else -n, Abs(d), mode, r) {
      NamedIsUnique(if d > 0 then n else -n, Abs(d), mode, r, Rounded(n, d, mode));
    }
  }

  // ----- consequences -----

  /** The result is less than one unit away, and at most half a unit under the HALF rules. */
  lemma RoundedIsNear(n: int, d: int, mode: RoundingMode)
    requires d != 0
    ensures Abs(n - Rounded(n, d, mode) * d) < Abs(d)
    ensures mode.HALF_UP? || mode.HALF_EVEN? ==> 2 * Abs(n - Rounded(n, d, mode) * d) <= Abs(d)
  {
    hide Rounded;
    RoundedIsNamed(n, d, mode);
    var r := Rounded(n, d, mode);
    Products(r, Abs(d));
    assert r * d == if d > 0 then r * Abs(d) else -(r * Abs(d));
  }

  /** A larger numerator never rounds to a smaller integer; a negative denominator reverses the order. */
  lemma RoundedIsMonotone(n: int, m: int, d: int, mode: RoundingMode)
    requires d != 0 && n <= m
    ensures d > 0 ==> Rounded(n, d, mode) <= Rounded(m, d, mode)
    ensures d < 0 ==> Rounded(n, d, mode) >= Rounded(m, d, mode)
  {
    hide Names, Rounded;
    RoundedIsNamed(n, d, mode);
    RoundedIsNamed(m, d, mode);
    if d > 0 {
      NamedMonotone(n, m, d, mode, Rounded(n, d, mode), Rounded(m, d, mode));
    } else {
      NamedMonotone(-m, -n, -d, mode, Rounded(m, d, mode), Rounded(n, d, mode));
    }
  }

  lemma NamedMonotone(n: int, m: int, d: int, mode: RoundingMode, a: int, b: int)
    requires d > 0 && n <= m && Names(n, d, mode, a) && Names(m, d, mode, b)
    ensures a <= b
  {
    if b < a {
      Monotone(b + 1, a, d);
      Products(b, d);
      Products(a, d);
      if b + 1 < a {
        Monotone(b + 2, a, d);
      }
    }
  }

  function Mirror(mode: RoundingMode): RoundingMode {
    match mode
    case FLOOR => CEILING
    case CEILING => FLOOR
    case _ => mode
  }

  lemma LeavesMirror(rest: int, d: int, mode: RoundingMode, n: int, even: bool)
    requires d > 0 && Leaves(rest, d, Mirror(mode), n, even)
    requires n == 0 ==> rest == 0
    ensures Leaves(-rest, d, mode, -n, even)
  {
  }

  lemma ZeroRest(d: int, mode: RoundingMode, r: int)
    requires d > 0 && Names(0, d, mode, r)
    ensures r * d == 0
  {
    if r >= 1 {
      Monotone(1, r, d);
    } else if r <= -1 {
      Monotone(r, -1, d);
    }
  }

  lemma NamesMirror(n: int, d: int, mode: RoundingMode, r: int)
    requires d > 0 && Names(n, d, Mirror(mode), r)
    ensures Names(-n, d, mode, -r)
  {
    hide Leaves;
    if n == 0 {
      ZeroRest(d, Mirror(mode), r);
    }
    LeavesMirror(n - r * d, d, mode, n, r % 2 == 0);
    assert -n - (-r) * d == -(n - r * d) && (-r) % 2 == r % 2;
  }

  /** Negation commutes with rounding, exchanging FLOOR with CEILING and keeping every other rule. */
  lemma RoundedNegates(n: int, d: int, mode: RoundingMode)
    requires d != 0
    ensures Rounded(-n, d, mode) == -Rounded(n, d, Mirror(mode))
  {
    hide Rounded, Names;
    RoundedIsNamed(n, d, Mirror(mode));
    NamesMirror(if d > 0 then n else -n, Abs(d), mode, Rounded(n, d, Mirror(mode)));
    RoundedIffNamed(-n, d, mode, -Rounded(n, d, Mirror(mode)));
  }

  /** An exact quotient is returned unchanged by every rule. */
  lemma ExactIsKept(q: int, d: int, mode: RoundingMode)
    requires d != 0
    ensures Rounded(q * d, d, mode) == q
  {
    hide Rounded;
    Products(q, Abs(d));
    assert q * Abs(d) == if d > 0 then q * d else -(q * d);
    assert Names(if d > 0 then q * d else -(q * d), Abs(d), mode, q);
    RoundedIffNamed(q * d, d, mode, q);
  }

  // ----- the rules on the real quotient -----

  /** A result and what it leaves of the quotient `x`, in units. */
  predicate RealRule(x: real, mode: RoundingMode, r: int) {
    match mode
    case FLOOR => r as real <= x < r as real + 1.0
    case CEILING => r as real - 1.0 < x <= r as real
    case DOWN => if x >= 0.0 then r as real <= x < r as real + 1.0 else r as real - 1.0 < x <= r as real
    case UP => if x >= 0.0 then r as real - 1.0 < x <= r as real else r as real <= x < r as real + 1.0
    case HALF_UP => if x >= 0.0 then r as real - 0.5 <= x < r as real + 0.5 else r as real - 0.5 < x <= r as real + 0.5
    case HALF_EVEN =>
      r as real - 0.5 <= x <= r as real + 0.5 && (x == r as real - 0.5 || x == r as real + 0.5 ==> r % 2 == 0)
  }

  lemma RestOfQuotient(n: int, d: int, r: int)
    requires d > 0
    ensures var x, rest := n as real / d as real, n - r * d;
      (x - r as real) * d as real == rest as real
  {
    var x := n as real / d as real;
    assert x * d as real == n as real;
    assert (r * d) as real == r as real * d as real;
  }

  lemma Scaled(y: real, c: real, e: real, p: real, q: real)
    requires e > 0.0 && p == y * e && q == c * e
    ensures y <= c <==> p <= q
    ensures y < c <==> p < q
  {
    assert (c - y) * e == q - p;
    if y <= c {
      assert (c - y) * e >= 0.0;
    } else {
      assert (y - c) * e > 0.0;
    }
    if y == c {
      assert p == q;
    }
  }

  lemma ComparedTo(y: real, c: real, e: real, p: real, q: real)
    requires e > 0.0 && p == y * e && q == c * e
    ensures (y <= c <==> p <= q) && (y < c <==> p < q) && (c <= y <==> q <= p) && (c < y <==> q < p)
  {
    Scaled(y, c, e, p, q);
    Scaled(c, y, e, q, p);
  }

  lemma RealOfHalf(d: int, rest: int)
    ensures rest as real <= 0.5 * d as real <==> 2 * rest <= d
    ensures -0.5 * d as real <= rest as real <==> -d <= 2 * rest
    ensures (rest as real < d as real <==> rest < d) && (-(d as real) < rest as real <==> -d < rest)
  {
  }

  /** Where a real number of units lies, told by the integer it is of. */
  lemma Compared(y: real, d: int, rest: int)
    requires d > 0 && y * d as real == rest as real
    ensures (0.0 <= y <==> 0 <= rest) && (y <= 0.0 <==> rest <= 0)
    ensures (y < 1.0 <==> rest < d) && (-1.0 < y <==> -d < rest)
    ensures (y <= 0.5 <==> 2 * rest <= d) && (-0.5 <= y <==> -d <= 2 * rest)
  {
    var e, p := d as real, rest as real;
    ComparedTo(y, 0.0, e, p, 0.0);
    ComparedTo(y, 1.0, e, p, e);
    ComparedTo(y, -1.0, e, p, -e);
    ComparedTo(y, 0.5, e, p, 0.5 * e);
    ComparedTo(y, -0.5, e, p, -0.5 * e);
    RealOfHalf(d, rest);
  }

  /** What is left of the quotient, in units, obeys the rule as the rest of the division does. */
  lemma RuleOfRest(m: int, e: int, mode: RoundingMode, r: int)
    requires e > 0 && Names(m, e, mode, r)
    ensures RealRule(m as real / e as real, mode, r)
  {
    var x := m as real / e as real;
    RestOfQuotient(m, e, r);
    RestOfQuotient(m, e, 0);
    Compared(x - r as real, e, m - r * e);
    Compared(x, e, m);
    assert x * e as real == m as real;
    hide Abs;
    assert 0 * e == 0;
    HalfTie(m - r * e, e);
  }

  lemma HalfTie(rest: int, d: int)
    requires d > 0
    ensures Abs(2 * rest) == d <==> 2 * rest == d || 2 * rest == -d
  {
  }

  lemma SameQuotient(n: int, d: int)
    requires d != 0
    ensures n as real / d as real == (if d > 0 then n else -n) as real / Abs(d) as real
  {
  }

  /** Each rule by the real quotient itself: the division returns the one integer that meets it. */
  lemma RoundedMeetsRealRule(n: int, d: int, mode: RoundingMode)
    requires d != 0
    ensures RealRule(n as real / d as real, mode, Rounded(n, d, mode))
  {
    RoundedIsNamed(n, d, mode);
    SameQuotient(n, d);
    hide Rounded, Names, RealRule;
    RuleOfRest(if d > 0 then n else -n, Abs(d), mode, Rounded(n, d, mode));
  }
}
