/** Exactly when changing a scale in two stages equals changing it once, for every rounding rule. */
module HalfStages {
  import opened Decimals
  import opened Rounding

  /** Quotient and remainder are fixed by the division they come from. */
  lemma DivisionIs(n: int, d: int, q: int, r: int)
    requires d > 0 && n == q * d + r && 0 <= r < d
    ensures n / d == q && n % d == r
  {
    var k, s := n / d, n % d;
    assert n == k * d + s;
    Products(q, d);
    if k >= q + 1 {
      Monotone(q + 1, k, d);
    }
    if k <= q - 1 {
      Monotone(k, q - 1, d);
    }
  }

  /** Whether a HALF rule moves a magnitude with this quotient and remainder up. */
  predicate MovesUp(q: int, r: int, d: int, mode: RoundingMode) {
    2 * r > d || (2 * r == d && (mode.HALF_UP? || q % 2 == 1))
  }

  lemma HalfRounds(n: nat, d: int, q: nat, r: int, mode: RoundingMode)
    requires d > 0 && n == q * d + r && 0 <= r < d && !Directed(mode)
    ensures Rounded(n, d, mode) == if MovesUp(q, r, d, mode) then q + 1 else q
  {
    DivisionIs(n, d, q, r);
  }

  /**
   * When rounding a magnitude to units of `d` and then of `u` is rounding it to units of `u` at once. Under
   * HALF_UP the first stage must not lift it from below one half to one half; under HALF_EVEN it must not
   * turn it into a tie that then goes to the other side.
   */
  predicate HalfStagesAgree(x: nat, d: int, u: int, mode: RoundingMode)
    requires d > 0 && u > 0
  {
    if mode.HALF_UP? then !(u - d <= 2 * (x % u) < u)
    else
      var quotient, offset := x / u, x % u - u / 2;
      !((2 * Abs(offset) < d || (2 * Abs(offset) == d && u / d % 4 == 0))
        && ((offset < 0 && quotient % 2 == 1) || (offset > 0 && quotient % 2 == 0)))
  }

  /**
   * The comparison of both ways for x = k * u + a * d + b, with u = 2 * h * d: `gap` is (h - a) * d, how
   * far the multiple of `d` below x stands under one half.
   */
  lemma HalfCases(k: nat, a: int, b: int, d: int, h: int, gap: int, mode: RoundingMode)
    requires 0 <= b < d && h >= 1 && !Directed(mode)
    requires (a == h ==> gap == 0) && (a == h - 1 ==> gap == d) && (a <= h - 2 ==> gap >= 2 * d)
             && (a > h ==> gap <= -d)
    ensures var rr := if MovesUp(a, b, d, mode) then a + 1 else a;
      var offset := b - gap;
      (MovesUp(k, rr, 2 * h, mode) <==> offset > 0 || (offset == 0 && (mode.HALF_UP? || k % 2 == 1)))
      <==> if mode.HALF_UP? then !(-d <= 2 * offset < 0)
           else !((2 * Abs(offset) < d || (2 * Abs(offset) == d && h % 2 == 0))
                  && ((offset < 0 && k % 2 == 1) || (offset > 0 && k % 2 == 0)))
  {
  }

  lemma GapSizes(a: int, h: int, d: int)
    requires d > 0
    ensures var gap := (h - a) * d;
      (a == h ==> gap == 0) && (a == h - 1 ==> gap == d) && (a <= h - 2 ==> gap >= 2 * d) && (a > h ==> gap <= -d)
  {
    if a <= h - 2 {
      Monotone(2, h - a, d);
    }
    if a > h {
      Monotone(h - a, -1, d);
    }
  }

  /** The first stage: adding an even number of units keeps the parity a tie is decided by. */
  lemma FirstStage(x: nat, d: int, w: nat, a: nat, b: int, mode: RoundingMode)
    requires d > 0 && 0 <= b < d && !Directed(mode) && x == (2 * w + a) * d + b
    ensures Rounded(x, d, mode) == 2 * w + if MovesUp(a, b, d, mode) then a + 1 else a
  {
    HalfRounds(x, d, 2 * w + a, b, mode);
    assert (2 * w + a) % 2 == a % 2;
  }

  /** The second stage: a full remainder moves the quotient up as well. */
  lemma SecondStage(k: nat, e: int, rest: int, mode: RoundingMode)
    requires 0 <= rest <= e && e > 0 && !Directed(mode) && k * e >= 0
    ensures Rounded(k * e + rest, e, mode) == if MovesUp(k, rest, e, mode) then k + 1 else k
  {
    hide Rounded, Directed;
    if rest < e {
      HalfRounds(k * e + rest, e, k, rest, mode);
    } else {
      Products(k, e);
      HalfRounds(k * e + e, e, k + 1, 0, mode);
    }
  }

  /** The parts of x in units of u = d * 2 * h and of d, and how far its rest in u is from one half. */
  lemma PlaceOf(x: nat, d: int, h: int, k: nat, r: int, a: int, b: int)
    requires d > 0 && h >= 1 && 0 <= b < d && r == a * d + b && 0 <= r < d * (2 * h)
    requires x == k * (d * (2 * h)) + r
    ensures 0 <= a < 2 * h && x == (k * (2 * h) + a) * d + b
    ensures d * (2 * h) == 2 * (d * h) && r - d * h == b - (h - a) * d
  {
    if a < 0 {
      Monotone(a, -1, d);
    }
    if a >= 2 * h {
      Monotone(2 * h, a, d);
    }
    assert k * (d * (2 * h)) == k * (2 * h) * d;
    assert (k * (2 * h) + a) * d == k * (2 * h) * d + a * d;
    assert (h - a) * d == d * h - a * d;
  }

  lemma EvenMultiple(d: int, h: int)
    requires d > 0 && h >= 1
    ensures d * (2 * h) == 2 * (d * h) && d * h >= d
  {
    Monotone(1, h, d);
  }

  lemma HalfOf(p: int)
    ensures 2 * p / 2 == p
  {
  }

  lemma DoubleModFour(h: int)
    ensures 2 * h % 4 == 0 <==> h % 2 == 0
  {
  }

  lemma UnitsOf(d: int, h: int)
    requires d > 0 && h >= 1
    ensures d * (2 * h) > 0 && d * (2 * h) / 2 == d * h && d * (2 * h) / d == 2 * h
    ensures 2 * h % 4 == 0 <==> h % 2 == 0
  {
    EvenMultiple(d, h);
    HalfOf(d * h);
    DivisionIs(d * (2 * h), d, 2 * h, 0);
    DoubleModFour(h);
  }

  lemma EvenUnits(k: nat, h: nat)
    ensures k * (2 * h) == 2 * (k * h) >= 0
  {
  }

  /** Two stages for a magnitude, when the second unit is an even multiple of the first. */
  lemma MagnitudeTwice(x: nat, d: int, h: int, mode: RoundingMode)
    requires d > 0 && h >= 1 && !Directed(mode)
    ensures d * (2 * h) > 0
    ensures Rounded(Rounded(x, d, mode), 2 * h, mode) == Rounded(x, d * (2 * h), mode)
            <==> HalfStagesAgree(x, d, d * (2 * h), mode)
  {
    hide Rounded, Directed;
    UnitsOf(d, h);
    var u := d * (2 * h);
    QuotientOf(x, u);
    var k, r := x / u, x % u;
    QuotientOf(r, d);
    var a, b := r / d, r % d;
    PlaceOf(x, d, h, k, r, a, b);
    GapSizes(a, h, d);
    EvenUnits(k, h);
    FirstStage(x, d, k * h, a, b, mode);
    SecondStage(k, 2 * h, if MovesUp(a, b, d, mode) then a + 1 else a, mode);
    HalfRounds(x, u, k, r, mode);
    HalfCases(k, a, b, d, h, (h - a) * d, mode);
  }

  /** Two stages for either sign. */
  lemma SignedTwice(n: int, d: int, h: int, mode: RoundingMode)
    requires d > 0 && h >= 1 && !Directed(mode)
    ensures d * (2 * h) > 0
    ensures Rounded(Rounded(n, d, mode), 2 * h, mode) == Rounded(n, d * (2 * h), mode)
            <==> HalfStagesAgree(Abs(n), d, d * (2 * h), mode)
  {
    hide Rounded, HalfStagesAgree;
    MagnitudeTwice(Abs(n), d, h, mode);
    if n < 0 {
      RoundedNegates(-n, d, mode);
      RoundedNegates(-n, d * (2 * h), mode);
      RoundedNegates(Rounded(-n, d, mode), 2 * h, mode);
    }
  }

  /** When changing the scale to `s1` and then to `s2` is changing it to `s2`. */
  predicate StagesAgree(v: Decimal, s1: nat, s2: nat, mode: RoundingMode)
    requires s2 <= s1
  {
    Directed(mode) || s1 >= v.scale || s1 == s2
    || HalfStagesAgree(Abs(v.unscaled), Pow10(v.scale - s1), Pow10(v.scale - s2), mode)
  }

  /**
   * For every decimal, every pair of scales and every rule: two stages give what one stage gives if and
   * only if the rule is directed, the first stage loses no digit or is the last one, or the lost digits
   * pass the test of the HALF rule.
   */
  lemma TwoStagesAgreeIff(v: Decimal, s1: nat, s2: nat, mode: RoundingMode)
    requires s2 <= s1 <= MAX_DECIMAL_SCALE
    ensures Rescale(v, s1, mode).Ok?
    ensures Rescale(Rescale(v, s1, mode).value, s2, mode) == Rescale(v, s2, mode) <==> StagesAgree(v, s1, s2, mode)
  {
    hide Rounded, HalfStagesAgree, Pow10;
    if Directed(mode) || s1 >= v.scale {
      RescaleTwice(v, s1, s2, mode);
    } else if s2 < s1 {
      var d, p := Pow10(v.scale - s1), Pow10(s1 - s2 - 1);
      Pow10Adds(v.scale - s1, s1 - s2);
      TenTimes(s1 - s2);
      SignedTwice(v.unscaled, d, 5 * p, mode);
    }
  }

  lemma TenTimes(n: nat)
    requires n > 0
    ensures Pow10(n) == 2 * (5 * Pow10(n - 1))
  {
  }
}
