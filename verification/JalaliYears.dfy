/**
 * The breakpoint walk that decides Jalali leap years and the day number of 1 Farvardin, over any
 * breakpoint table, and the year-length law every well-shaped table obeys.
 */
module JalaliYears {
  import opened CivilCalendar
  import opened JulianDay
  import opened Outcome
  import opened Truncation

  const BREAKS := [
    -61, 9, 38, 199, 426, 686, 756, 818, 1111, 1181, 1210, 1635, 2060, 2097, 2192, 2262, 2324, 2394,
    2456, 3178]

  const MIN_JALALI_YEAR := 1
  const MAX_JALALI_YEAR := 3177

  /** Where the walk stops: the leap days before the segment, its first year and its length. */
  datatype Segment = Segment(leapJ: int, jp: int, jump: int)

  datatype YearInfo = YearInfo(leap: int, marchJdn: int)

  /** Leap days a whole segment of `jump` years contributes. */
  function SegmentLeaps(jump: int): int {
    Div(jump, 33) * 8 + Div(Mod(jump, 33), 4)
  }

  function Walk(breaks: seq<int>, leapJ: int, year: int): Segment
    requires |breaks| >= 2
  {
    var jump := breaks[1] - breaks[0];
    if year < breaks[1] || |breaks| == 2 then Segment(leapJ, breaks[0], jump)
    else Walk(breaks[1..], leapJ + SegmentLeaps(jump), year)
  }

  /** Leap days counted up to year `n` of a segment. */
  function LeapsWithin(n: int, jump: int): int {
    Div(n, 33) * 8 + Div(Mod(n, 33) + 3, 4) + if Mod(jump, 33) == 4 && jump - n == 4 then 1 else 0
  }

  /** The position of year `n` of a segment in its leap cycle; 0 is a leap year. */
  function LeapPosition(n: int, jump: int): int {
    var m := if jump - n < 6 then n - jump + Div(jump + 4, 33) * 33 else n;
    var leap := Mod(Mod(m + 1, 33) - 1, 4);
    if leap == -1 then 4 else leap
  }

  function MarchDayOf(leapJ: int, gregorianYear: int): int {
    20 + leapJ - (Div(gregorianYear, 4) - Div((Div(gregorianYear, 100) + 1) * 3, 4) - 150)
  }

  function LeapCount(breaks: seq<int>, year: int): int
    requires |breaks| >= 2
  {
    var s := Walk(breaks, -14, year);
    s.leapJ + LeapsWithin(year - s.jp, s.jump)
  }

  function Leap(breaks: seq<int>, year: int): int
    requires |breaks| >= 2
  {
    var s := Walk(breaks, -14, year);
    LeapPosition(year - s.jp, s.jump)
  }

  function MarchJdn(breaks: seq<int>, year: int): int
    requires |breaks| >= 2
  {
    GregorianDayJdn(CivilDate(year + 621, 3, MarchDayOf(LeapCount(breaks, year), year + 621)))
  }

  function InfoOn(breaks: seq<int>, year: int): YearInfo
    requires |breaks| >= 2
  {
    YearInfo(Leap(breaks, year), MarchJdn(breaks, year))
  }

  /** The walk as the program runs it: a loop over the breakpoints that stops at the year's segment. */
  method WalkBreaks(breaks: seq<int>, year: int) returns (info: YearInfo)
    requires |breaks| >= 2 && breaks[0] <= year < breaks[|breaks| - 1]
    ensures info == InfoOn(breaks, year)
  {
    hide Div, Mod, MarchDayOf, GregorianDayJdn;
    var gregorianYear := year + 621;
    var leapJ := -14;
    var jp := breaks[0];
    var jump := breaks[1] - breaks[0];
    var i := 1;
    while i < |breaks|
      invariant 1 <= i <= |breaks|
      invariant jp == breaks[i - 1] && jp <= year
      invariant i < |breaks| ==> Walk(breaks, -14, year) == Walk(breaks[i - 1..], leapJ, year)
    {
      var jm := breaks[i];
      jump := jm - jp;
      if year < jm {
        break;
      }
      leapJ := leapJ + Div(jump, 33) * 8 + Div(Mod(jump, 33), 4);
      jp := jm;
      assert breaks[i - 1..][1..] == breaks[i..];
      i := i + 1;
    }
    assert Walk(breaks, -14, year) == Segment(leapJ, jp, jump);
    var n := year - jp;
    leapJ := leapJ + Div(n, 33) * 8 + Div(Mod(n, 33) + 3, 4);
    if Mod(jump, 33) == 4 && jump - n == 4 {
      leapJ := leapJ + 1;
    }
    var march := MarchDayOf(leapJ, gregorianYear);
    if jump - n < 6 {
      n := n - jump + Div(jump + 4, 33) * 33;
    }
    var leap := Mod(Mod(n + 1, 33) - 1, 4);
    if leap == -1 {
      leap := 4;
    }
    info := YearInfo(leap, GregorianDayJdn(CivilDate(gregorianYear, 3, march)));
  }

  predicate InRange(jYear: int) {
    MIN_JALALI_YEAR <= jYear <= MAX_JALALI_YEAR
  }

  method JalaliYearInfo(year: int) returns (r: Result<YearInfo>)
    ensures r == if 1 <= year <= 3177 then Ok(InfoOn(BREAKS, year)) else Err("jYear")
  {
    if !InRange(year) {
      return Err("jYear");
    }
    var info := WalkBreaks(BREAKS, year);
    r := Ok(info);
  }

  // ----- the year-length law -----

  /** A segment length that keeps the leap cycle unbroken. */
  predicate GoodJump(jump: int) {
    jump >= 29 && (jump % 33 == 4 || jump % 33 == 29)
  }

  predicate WellShaped(breaks: seq<int>) {
    |breaks| >= 2 && forall i :: 0 <= i < |breaks| - 1 ==> GoodJump(breaks[i + 1] - breaks[i])
  }

  predicate Spans(breaks: seq<int>, year: int) {
    |breaks| >= 2 && breaks[0] <= year < breaks[|breaks| - 1]
  }

  lemma BreaksAreWellShaped()
    ensures WellShaped(BREAKS) && BREAKS[0] == -61 && BREAKS[|BREAKS| - 1] == MAX_JALALI_YEAR + 1
  {
    forall i | 0 <= i < |BREAKS| - 1 ensures GoodJump(BREAKS[i + 1] - BREAKS[i]) {
      if i < 10 {
        assert BREAKS[i + 1] - BREAKS[i] in {70, 29, 161, 227, 260, 62, 293};
      } else {
        assert BREAKS[i + 1] - BREAKS[i] in {425, 37, 95, 70, 62, 722};
      }
    }
  }

  /** Both functions by the quotient and remainder of the cycle, away from the end of the segment. */
  lemma InCycle(q: nat, r: nat, jump: int)
    requires r < 33 && jump - (33 * q + r) >= 6
    ensures LeapsWithin(33 * q + r, jump) == 8 * q + (r + 3) / 4
    ensures LeapPosition(33 * q + r, jump) == if r == 32 then 4 else r % 4
  {
    var n := 33 * q + r;
    assert Div(n, 33) == q && Mod(n, 33) == r;
    CyclePosition(q, r);
    hide Div, Mod;
    assert Div(r + 3, 4) == (r + 3) / 4 by { DivNonneg(r + 3, 4); }
  }

  lemma DivNonneg(a: nat, b: int)
    requires b > 0
    ensures Div(a, b) == a / b
  {
  }

  lemma CyclePosition(q: nat, r: nat)
    requires r < 33
    ensures Mod(Mod(33 * q + r + 1, 33) - 1, 4) == if r == 32 then -1 else r % 4
  {
    if r == 32 {
      assert Mod(33 * q + r + 1, 33) == 0;
    } else {
      assert Mod(33 * q + r + 1, 33) == r + 1;
    }
  }

  /** The last five years of a segment, counted from its end. */
  lemma AtEndOfFour(p: nat, m: int)
    requires p >= 1 && 1 <= m <= 5
    ensures LeapsWithin(33 * p + 4 - m, 33 * p + 4) == if m == 5 then 8 * p else 8 * p + 1
    ensures LeapPosition(33 * p + 4 - m, 33 * p + 4) == if m == 1 then 4 else 5 - m
  {
    var n, jump := 33 * p + 4 - m, 33 * p + 4;
    assert jump % 33 == 4 && (jump + 4) / 33 == p;
    if m == 5 {
      assert n == 33 * (p - 1) + 32;
    } else {
      assert n / 33 == p && n % 33 == 4 - m;
    }
    TailPosition(33 * p - m, p, m);
  }

  lemma AtEndOfTwentyNine(p: nat, m: int)
    requires 1 <= m <= 5
    ensures LeapsWithin(33 * p + 29 - m, 33 * p + 29) == if m == 5 then 8 * p + 6 else 8 * p + 7
    ensures LeapPosition(33 * p + 29 - m, 33 * p + 29) == if m == 1 then 4 else 5 - m
  {
    var n, jump := 33 * p + 29 - m, 33 * p + 29;
    assert jump % 33 == 29 && (jump + 4) / 33 == p + 1;
    assert n / 33 == p && n % 33 == 29 - m;
    TailPosition(33 * (p + 1) - m, p + 1, m);
  }

  lemma TailPosition(n: int, p: nat, m: int)
    requires p >= 1 && 1 <= m <= 5 && n == 33 * p - m
    ensures Mod(Mod(n + 1, 33) - 1, 4) == if m == 1 then -1 else 5 - m
  {
    if m == 1 {
      assert n + 1 == 33 * p;
    } else {
      assert n + 1 == 33 * (p - 1) + (34 - m);
    }
  }

  /** Inside a segment a year is leap exactly when the leap count rises after it. */
  lemma LawWithin(n: int, jump: int)
    requires GoodJump(jump) && 0 <= n && n + 1 < jump
    ensures LeapsWithin(n + 1, jump) - LeapsWithin(n, jump) == if LeapPosition(n, jump) == 0 then 1 else 0
    ensures LeapPosition(n + 1, jump) == 1 <==> LeapPosition(n, jump) == 0
  {
    hide LeapsWithin, LeapPosition;
    InCycleOrEnd(n, jump);
    InCycleOrEnd(n + 1, jump);
    NextInCycle(n);
    if jump - n == 6 {
      LastBeforeEnd(n, jump);
    }
  }

  lemma NextInCycle(n: nat)
    ensures (n + 1) / 33 == n / 33 + if n % 33 == 32 then 1 else 0
    ensures (n + 1) % 33 == if n % 33 == 32 then 0 else n % 33 + 1
  {
  }

  /** The year six before the end of a segment, where the cycle gives way to the tail. */
  lemma LastBeforeEnd(n: nat, jump: int)
    requires GoodJump(jump) && jump - n == 6
    ensures jump % 33 == 4 ==> n / 33 == jump / 33 - 1 && n % 33 == 31
    ensures jump % 33 == 29 ==> n / 33 == jump / 33 && n % 33 == 23
  {
  }

  /** What both functions are at year `n` of a well-shaped segment. */
  lemma InCycleOrEnd(n: int, jump: int)
    requires GoodJump(jump) && 0 <= n < jump
    ensures jump - n >= 6 ==> LeapsWithin(n, jump) == 8 * (n / 33) + (n % 33 + 3) / 4
                              && LeapPosition(n, jump) == if n % 33 == 32 then 4 else n % 33 % 4
    ensures jump - n < 6 ==> LeapPosition(n, jump) == if jump - n == 1 then 4 else 5 - (jump - n)
    ensures jump - n < 6 && jump % 33 == 4 ==>
              LeapsWithin(n, jump) == if jump - n == 5 then 8 * (jump / 33) else 8 * (jump / 33) + 1
    ensures jump - n < 6 && jump % 33 == 29 ==>
              LeapsWithin(n, jump) == if jump - n == 5 then 8 * (jump / 33) + 6 else 8 * (jump / 33) + 7
  {
    hide LeapsWithin, LeapPosition;
    var p := jump / 33;
    if jump - n >= 6 {
      InCycle(n / 33, n % 33, jump);
      assert n == 33 * (n / 33) + n % 33;
    } else if jump % 33 == 4 {
      assert jump == 33 * p + 4;
      AtEndOfFour(p, jump - n);
    } else {
      assert jump == 33 * p + 29;
      AtEndOfTwentyNine(p, jump - n);
    }
  }

  /** Across a boundary the last year of a segment is not leap and the first of the next one is. */
  lemma LawAcross(jump: int, next: int)
    requires GoodJump(jump) && GoodJump(next)
    ensures SegmentLeaps(jump) + LeapsWithin(0, next) == LeapsWithin(jump - 1, jump)
    ensures LeapPosition(jump - 1, jump) != 0 && LeapPosition(0, next) == 0
  {
    hide LeapsWithin, LeapPosition, SegmentLeaps;
    InCycleOrEnd(jump - 1, jump);
    InCycleOrEnd(0, next);
    SegmentLeapsIs(jump);
  }

  lemma SegmentLeapsIs(jump: int)
    requires GoodJump(jump)
    ensures SegmentLeaps(jump) == 8 * (jump / 33) + if jump % 33 == 4 then 1 else 7
  {
  }

  lemma WalkStops(breaks: seq<int>, leapJ: int, year: int)
    requires |breaks| >= 2 && year < breaks[1]
    ensures Walk(breaks, leapJ, year) == Segment(leapJ, breaks[0], breaks[1] - breaks[0])
  {
  }

  lemma WalkMoves(breaks: seq<int>, leapJ: int, year: int)
    requires |breaks| > 2 && year >= breaks[1]
    ensures Walk(breaks, leapJ, year) == Walk(breaks[1..], leapJ + SegmentLeaps(breaks[1] - breaks[0]), year)
  {
  }

  lemma TailIsWellShaped(breaks: seq<int>)
    requires WellShaped(breaks)
    ensures GoodJump(breaks[1] - breaks[0])
    ensures |breaks| > 2 ==> WellShaped(breaks[1..])
  {
    assert GoodJump(breaks[0 + 1] - breaks[0]);
    forall i | 0 <= i < |breaks| - 2 ensures GoodJump(breaks[1..][i + 1] - breaks[1..][i]) {
      assert GoodJump(breaks[(i + 1) + 1] - breaks[i + 1]);
    }
  }

  /** The law for the walk from any segment on, by induction on the table. */
  lemma {:induction false} LawOnWalk(breaks: seq<int>, leapJ: int, year: int)
    requires WellShaped(breaks) && Spans(breaks, year) && Spans(breaks, year + 1)
    ensures var s, t := Walk(breaks, leapJ, year), Walk(breaks, leapJ, year + 1);
      var leap := LeapPosition(year - s.jp, s.jump);
      t.leapJ + LeapsWithin(year + 1 - t.jp, t.jump) - (s.leapJ + LeapsWithin(year - s.jp, s.jump))
        == (if leap == 0 then 1 else 0)
      && (LeapPosition(year + 1 - t.jp, t.jump) == 1 <==> leap == 0)
    decreases |breaks|
  {
    hide LeapsWithin, LeapPosition, SegmentLeaps, GoodJump, WellShaped, Walk;
    TailIsWellShaped(breaks);
    var jump := breaks[1] - breaks[0];
    if year + 1 < breaks[1] {
      WalkStops(breaks, leapJ, year);
      WalkStops(breaks, leapJ, year + 1);
      LawWithin(year - breaks[0], jump);
    } else if year + 1 == breaks[1] {
      TailIsWellShaped(breaks[1..]);
      JumpIsPositive(breaks[1..][1] - breaks[1]);
      WalkStops(breaks, leapJ, year);
      WalkMoves(breaks, leapJ, year + 1);
      WalkStops(breaks[1..], leapJ + SegmentLeaps(jump), year + 1);
      LawAcross(jump, breaks[1..][1] - breaks[1]);
    } else {
      WalkMoves(breaks, leapJ, year);
      WalkMoves(breaks, leapJ, year + 1);
      LawOnWalk(breaks[1..], leapJ + SegmentLeaps(jump), year);
    }
  }

  lemma JumpIsPositive(jump: int)
    requires GoodJump(jump)
    ensures jump >= 29
  {
  }

  // ----- the day number of 1 Farvardin -----

  /** The Gregorian leap days cancel: the day number is linear in the year plus the Jalali leap count. */
  lemma FarvardinIsLinear(breaks: seq<int>, year: int)
    requires |breaks| >= 2 && year >= -621
    ensures MarchJdn(breaks, year) == 365 * year + LeapCount(breaks, year) + 1_947_954
  {
    hide LeapCount, Walk;
    var leapJ := LeapCount(breaks, year);
    MarchIsLinear(leapJ, year + 621);
  }

  lemma MarchIsLinear(leapJ: int, gy: nat)
    ensures GregorianDayJdn(CivilDate(gy, 3, MarchDayOf(leapJ, gy))) == 365 * (gy - 621) + leapJ + 1_947_954
  {
    var q := gy / 100;
    assert Div(-5, 6) == 0 && Mod(12, 12) == 0;
    assert Div((gy + 100_100) * 1461, 4) == 365 * (gy + 100_100) + gy / 4 + 25_025;
    assert Div(gy + 100_100, 100) == q + 1001;
    assert Div((q + 1001) * 3, 4) == 750 + (q + 1) * 3 / 4;
  }

  /**
   * Consecutive years' 1 Farvardin are 366 days apart exactly after a leap year and 365 otherwise,
   * and the year after a leap year, and no other, has position 1, for every well-shaped table.
   */
  lemma YearLengthLaw(breaks: seq<int>, year: int)
    requires WellShaped(breaks) && Spans(breaks, year) && Spans(breaks, year + 1) && year >= -621
    ensures MarchJdn(breaks, year + 1) - MarchJdn(breaks, year) == if Leap(breaks, year) == 0 then 366 else 365
    ensures Leap(breaks, year + 1) == 1 <==> Leap(breaks, year) == 0
  {
    hide MarchJdn, Walk, LeapsWithin, LeapPosition;
    FarvardinIsLinear(breaks, year);
    FarvardinIsLinear(breaks, year + 1);
    LawOnWalk(breaks, -14, year);
  }

  // ----- how far the Jalali leap count drifts from the Gregorian one -----

  /** The leap count of `n` years of a segment grows between 7 in 29 and 9 in 37. */
  lemma GrowthWithin(n: int, jump: int)
    requires GoodJump(jump) && 0 <= n < jump
    ensures 7 * n <= 29 * LeapsWithin(n, jump) && 37 * LeapsWithin(n, jump) <= 9 * n + 37
  {
    hide LeapsWithin, LeapPosition;
    InCycleOrEnd(n, jump);
    var q, r := n / 33, n % 33;
    assert n == 33 * q + r;
    if jump - n < 6 {
      var p := jump / 33;
      assert jump == 33 * p + jump % 33;
    }
  }

  lemma GrowthAcross(jump: int)
    requires GoodJump(jump)
    ensures 7 * jump <= 29 * SegmentLeaps(jump) && 37 * SegmentLeaps(jump) <= 9 * jump
  {
    var p := jump / 33;
    SegmentLeapsIs(jump);
    hide SegmentLeaps;
    assert jump == 33 * p + jump % 33;
  }

  lemma {:induction false} GrowthOnWalk(breaks: seq<int>, leapJ: int, year: int)
    requires WellShaped(breaks) && Spans(breaks, year)
    ensures var s := Walk(breaks, leapJ, year);
      var t := s.leapJ + LeapsWithin(year - s.jp, s.jump) - leapJ;
      7 * (year - breaks[0]) <= 29 * t && 37 * t <= 9 * (year - breaks[0]) + 37
    decreases |breaks|
  {
    hide LeapsWithin, SegmentLeaps, GoodJump, WellShaped, Walk;
    TailIsWellShaped(breaks);
    var jump := breaks[1] - breaks[0];
    if year < breaks[1] {
      WalkStops(breaks, leapJ, year);
      GrowthWithin(year - breaks[0], jump);
    } else {
      WalkMoves(breaks, leapJ, year);
      GrowthAcross(jump);
      GrowthOnWalk(breaks[1..], leapJ + SegmentLeaps(jump), year);
    }
  }

  /** The computed day of March stays a day of March for the whole range of years. */
  lemma FarvardinInMarch(breaks: seq<int>, year: int)
    requires WellShaped(breaks) && Spans(breaks, year) && breaks[0] == -61
    requires MIN_JALALI_YEAR <= year <= MAX_JALALI_YEAR
    ensures 16 <= MarchDayOf(LeapCount(breaks, year), year + 621) <= 24
  {
    hide LeapsWithin, Walk;
    GrowthOnWalk(breaks, -14, year);
    DriftBound(LeapCount(breaks, year), year);
  }

  lemma DriftBound(leapJ: int, year: int)
    requires 1 <= year <= MAX_JALALI_YEAR
    requires 7 * (year + 61) <= 29 * (leapJ + 14) && 37 * (leapJ + 14) <= 9 * (year + 61) + 37
    ensures 16 <= MarchDayOf(leapJ, year + 621) <= 24
  {
    var gy := year + 621;
    assert Div(gy, 4) == gy / 4 && Div(gy, 100) == gy / 100 && Div((gy / 100 + 1) * 3, 4) == (gy / 100 + 1) * 3 / 4;
  }

  // ----- the last year of the table -----

  /** The leap days counted before the segment that starts at breakpoint `n`. */
  function LeapsBefore(breaks: seq<int>, n: nat): int
    requires n < |breaks|
  {
    if n == 0 then -14 else LeapsBefore(breaks, n - 1) + SegmentLeaps(breaks[n] - breaks[n - 1])
  }

  lemma {:induction false} WalkReaches(breaks: seq<int>, n: nat, year: int)
    requires n + 2 <= |breaks| && forall i :: 1 <= i <= n ==> breaks[i] <= year
    ensures Walk(breaks, -14, year) == Walk(breaks[n..], LeapsBefore(breaks, n), year)
  {
    hide SegmentLeaps, Walk;
    if n == 0 {
      assert breaks[0..] == breaks;
    } else {
      WalkReaches(breaks, n - 1, year);
      WalkMoves(breaks[n - 1..], LeapsBefore(breaks, n - 1), year);
      assert breaks[n - 1..][1..] == breaks[n..];
    }
  }

  /** The leap days before each segment of the source's table but the last. */
  const LEAPS := [-14, 3, 10, 49, 104, 167, 184, 199, 270, 287, 294, 397, 500, 509, 532, 549, 564, 581, 596]

  lemma LeapsOfJumps()
    ensures SegmentLeaps(70) == 17 && SegmentLeaps(29) == 7 && SegmentLeaps(161) == 39 && SegmentLeaps(227) == 55
    ensures SegmentLeaps(260) == 63 && SegmentLeaps(62) == 15 && SegmentLeaps(293) == 71 && SegmentLeaps(425) == 103
    ensures SegmentLeaps(37) == 9 && SegmentLeaps(95) == 23
  {
  }

  lemma NextLeaps(n: nat)
    requires n < 18
    ensures LEAPS[n] + SegmentLeaps(BREAKS[n + 1] - BREAKS[n]) == LEAPS[n + 1]
  {
    LeapsOfJumps();
    hide SegmentLeaps;
    if n < 9 {
      assert n in {0, 1, 2, 3, 4, 5, 6, 7, 8};
    } else {
      assert n in {9, 10, 11, 12, 13, 14, 15, 16, 17};
    }
  }

  lemma {:induction false} LeapsBeforeAreListed(n: nat)
    requires n <= 18
    ensures LeapsBefore(BREAKS, n) == LEAPS[n]
  {
    hide SegmentLeaps;
    if n > 0 {
      LeapsBeforeAreListed(n - 1);
      NextLeaps(n - 1);
    }
  }

  /** From 1210 on, for four centuries, leap years recur in cycles of 33, every fourth year and once after five. */
  lemma LeapYearsOfThisEra(year: int)
    requires 1210 <= year < 1630
    ensures Leap(BREAKS, year) == 0 <==> (year - 1210) % 33 % 4 == 0 && (year - 1210) % 33 != 32
  {
    hide Walk, LeapsBefore, LeapsWithin, LeapPosition;
    forall i | 1 <= i <= 10 ensures BREAKS[i] <= year {
      assert i in {1, 2, 3, 4, 5, 6, 7, 8, 9, 10};
    }
    WalkReaches(BREAKS, 10, year);
    WalkStops(BREAKS[10..], LeapsBefore(BREAKS, 10), year);
    var n := year - 1210;
    InCycle(n / 33, n % 33, 425);
  }

  lemma LeapCountOfLastYear()
    ensures LeapCount(BREAKS, MAX_JALALI_YEAR) == 771
  {
    hide Walk, LeapsBefore;
    WalkReaches(BREAKS, 18, MAX_JALALI_YEAR);
    LeapsBeforeAreListed(18);
    WalkStops(BREAKS[18..], 596, MAX_JALALI_YEAR);
  }
}
