/** Conversions between Jalali dates and civil days, and the bounds of Jalali months and years. */
module Jalali {
  import opened BusinessDate
  import opened CivilCalendar
  import opened JalaliYears
  import opened JulianDay
  import opened Outcome
  import opened Truncation

  datatype JalaliDate = JalaliDate(jYear: int, jMonth: int, jDay: int)

  datatype Bounds = Bounds(start: CivilDate, end: CivilDate)

  function YearLeap(jYear: int): int {
    Leap(BREAKS, jYear)
  }

  /** Julian Day Number of 1 Farvardin. */
  function NowruzJdn(jYear: int): int {
    MarchJdn(BREAKS, jYear)
  }

  function JalaliDaysInMonth(jYear: int, jMonth: int): Result<int> {
    if !InRange(jYear) then Err("jYear")
    else if !(1 <= jMonth <= 12) then Err("jMonth")
    else Ok(MonthLength(jYear, jMonth))
  }

  function MonthLength(jYear: int, jMonth: int): int {
    if jMonth <= 6 then 31
    else if jMonth <= 11 then 30
    else if YearLeap(jYear) == 0 then 30
    else 29
  }

  function DaysBeforeJalaliMonth(jMonth: int): int {
    (jMonth - 1) * 31 - Div(jMonth, 7) * (jMonth - 7)
  }

  /** A Jalali date the calendar has. */
  predicate IsJalali(d: JalaliDate) {
    InRange(d.jYear) && 1 <= d.jMonth <= 12 && 1 <= d.jDay <= MonthLength(d.jYear, d.jMonth)
  }

  function AssertJalaliMonthDay(d: JalaliDate): (r: Result<JalaliDate>)
    ensures r.Ok? <==> IsJalali(d)
    ensures r.Ok? ==> r.value == d
  {
    if !InRange(d.jYear) then Err("jYear")
    else if !(1 <= d.jMonth <= 12) then Err("jMonth")
    else if !(1 <= d.jDay <= 31) then Err("jDay")
    else if d.jDay > JalaliDaysInMonth(d.jYear, d.jMonth).value then Err("no such day")
    else Ok(d)
  }

  function JalaliJdn(d: JalaliDate): int {
    NowruzJdn(d.jYear) - 1 + DaysBeforeJalaliMonth(d.jMonth) + d.jDay
  }

  function BusinessDateFromJalali(d: JalaliDate): Result<CivilDate> {
    var _ :- AssertJalaliMonthDay(d);
    var parts := JdnToGregorianDay(JalaliJdn(d));
    Of(parts.year, parts.month, parts.day)
  }

  /** The Jalali date of day number `jdn`, given the Jalali year that starts in its civil year. */
  function DateInYear(jdn: int, jYear: int): JalaliDate {
    var k := jdn - NowruzJdn(jYear);
    if 0 <= k <= 185 then JalaliDate(jYear, Div(k, 31) + 1, Mod(k, 31) + 1)
    else if k >= 0 then JalaliDate(jYear, Div(k - 186, 30) + 7, Mod(k - 186, 30) + 1)
    else
      var m := k + 179 + if YearLeap(jYear) == 1 then 1 else 0;
      JalaliDate(jYear - 1, Div(m, 30) + 7, Mod(m, 30) + 1)
  }

  function NumberToJalali(jdn: int): Result<JalaliDate> {
    var jYear := JdnToGregorianDay(jdn).year - 621;
    if !InRange(jYear) then Err("jYear") else Ok(DateInYear(jdn, jYear))
  }

  /** The conversion as the program runs it, moving `k` and `jYear` step by step. */
  method DayNumberToJalali(jdn: int) returns (r: Result<JalaliDate>)
    ensures r == NumberToJalali(jdn)
  {
    hide JdnToGregorianDay, Leap, MarchJdn, Div, Mod;
    var gregorianYear := JdnToGregorianDay(jdn).year;
    var jYear := gregorianYear - 621;
    var info :- JalaliYearInfo(jYear);
    var k := jdn - info.marchJdn;
    if k >= 0 && k <= 185 {
      return Ok(JalaliDate(jYear, Div(k, 31) + 1, Mod(k, 31) + 1));
    }
    if k >= 0 {
      k := k - 186;
    } else {
      jYear := jYear - 1;
      k := k + 179;
      if info.leap == 1 {
        k := k + 1;
      }
    }
    r := Ok(JalaliDate(jYear, Div(k, 30) + 7, Mod(k, 30) + 1));
  }

  function BusinessDateToJalali(date: CivilDate): Result<JalaliDate> {
    NumberToJalali(EpochDays(date) + JDN_OF_UNIX_EPOCH)
  }

  function DateBounds(first: JalaliDate, last: JalaliDate): Result<Bounds> {
    var start :- BusinessDateFromJalali(first);
    var end :- BusinessDateFromJalali(last);
    Ok(Bounds(start, end))
  }

  function JalaliMonthBounds(jYear: int, jMonth: int): Result<Bounds> {
    if !(1 <= jMonth <= 12) then Err("jMonth")
    else
      var length :- JalaliDaysInMonth(jYear, jMonth);
      DateBounds(JalaliDate(jYear, jMonth, 1), JalaliDate(jYear, jMonth, length))
  }

  function JalaliYearBounds(jYear: int): Result<Bounds> {
    if !InRange(jYear) then Err("jYear")
    else DateBounds(JalaliDate(jYear, 1, 1), JalaliDate(jYear, 12, JalaliDaysInMonth(jYear, 12).value))
  }

  // ----- years -----

  lemma YearsAbutInTable(jYear: int)
    requires 0 <= jYear < MAX_JALALI_YEAR
    ensures NowruzJdn(jYear + 1) - NowruzJdn(jYear) == if YearLeap(jYear) == 0 then 366 else 365
    ensures YearLeap(jYear + 1) == 1 <==> YearLeap(jYear) == 0
  {
    hide MarchJdn, Leap, WellShaped;
    BreaksAreWellShaped();
    YearLengthLaw(BREAKS, jYear);
  }

  function January(year: int): int {
    GregorianDayJdn(CivilDate(year, 1, 1))
  }

  lemma JanuarysAbut(year: int)
    requires year >= 0
    ensures January(year + 1) == January(year) + DaysInYear(year)
  {
    hide GregorianDayJdn, EpochDays, DayFromYear;
    JdnIsEpochDays(CivilDate(year, 1, 1));
    JdnIsEpochDays(CivilDate(year + 1, 1, 1));
    EpochDaysIsDayNumber(CivilDate(year, 1, 1));
    EpochDaysIsDayNumber(CivilDate(year + 1, 1, 1));
    YearsAbut(year);
  }

  lemma MarchAfterJanuary(year: int, day: int)
    requires year >= 0 && 1 <= day <= 31
    ensures GregorianDayJdn(CivilDate(year, 3, day)) == January(year) + 58 + day + if IsLeapYear(year) then 1 else 0
  {
    hide GregorianDayJdn, EpochDays, DayFromYear;
    JdnIsEpochDays(CivilDate(year, 1, 1));
    JdnIsEpochDays(CivilDate(year, 3, day));
    EpochDaysIsDayNumber(CivilDate(year, 1, 1));
    EpochDaysIsDayNumber(CivilDate(year, 3, day));
  }

  /** 1 Farvardin falls between 16 and 24 March of the civil year 621 later. */
  lemma NowruzInMarch(jYear: int)
    requires InRange(jYear)
    ensures January(jYear + 621) + 74 <= NowruzJdn(jYear) <= January(jYear + 621) + 83
  {
    hide LeapCount, WellShaped, GregorianDayJdn, MarchDayOf;
    BreaksAreWellShaped();
    FarvardinInMarch(BREAKS, jYear);
    MarchAfterJanuary(jYear + 621, MarchDayOf(LeapCount(BREAKS, jYear), jYear + 621));
  }

  lemma {:induction false} YearsAscendInTable(a: int, b: int)
    requires 0 <= a <= b <= MAX_JALALI_YEAR
    ensures NowruzJdn(a) + 365 * (b - a) <= NowruzJdn(b)
    decreases b - a
  {
    hide NowruzJdn, YearLeap;
    if a < b {
      YearsAbutInTable(b - 1);
      YearsAscendInTable(a, b - 1);
    }
  }

  /** The civil year of a day number is fixed by the January firsts around it. */
  lemma CivilYearOf(jdn: int, year: int)
    requires year >= 0 && January(year) <= jdn < January(year + 1)
    ensures jdn >= FIRST_JDN && JdnToGregorianDay(jdn).year == year
  {
    var first, next := CivilDate(year, 1, 1), CivilDate(year + 1, 1, 1);
    hide GregorianDayJdn, JdnToGregorianDay, EpochDays;
    CivilRoundTrip(first);
    JdnRoundTrip(jdn);
    var d := JdnToGregorianDay(jdn);
    JdnIsEpochDays(first);
    JdnIsEpochDays(next);
    JdnIsEpochDays(d);
    CountPreservesOrder(d, first);
    CountPreservesOrder(d, next);
  }

  lemma YearOfCivil(d: CivilDate)
    requires IsCivil(d) && d.year >= 0
    ensures January(d.year) <= GregorianDayJdn(d) < January(d.year + 1)
  {
    var first, next := CivilDate(d.year, 1, 1), CivilDate(d.year + 1, 1, 1);
    hide GregorianDayJdn, EpochDays;
    JdnIsEpochDays(first);
    JdnIsEpochDays(next);
    JdnIsEpochDays(d);
    CountPreservesOrder(d, first);
    CountPreservesOrder(d, next);
  }

  // ----- days of a Jalali year -----

  /** Month and day within range; the year may be one before the first. */
  predicate FitsMonth(d: JalaliDate) {
    1 <= d.jMonth <= 12 && 1 <= d.jDay <= MonthLength(d.jYear, d.jMonth)
  }

  lemma DaysBeforeMonths(jMonth: int)
    requires 1 <= jMonth <= 12
    ensures DaysBeforeJalaliMonth(jMonth) == if jMonth <= 7 then (jMonth - 1) * 31 else 186 + (jMonth - 7) * 30
  {
  }

  lemma DayInItsYear(d: JalaliDate)
    requires FitsMonth(d) && 0 <= d.jYear < MAX_JALALI_YEAR
    ensures NowruzJdn(d.jYear) <= JalaliJdn(d) < NowruzJdn(d.jYear + 1)
  {
    hide NowruzJdn, YearLeap, DaysBeforeJalaliMonth;
    DaysBeforeMonths(d.jMonth);
    YearsAbutInTable(d.jYear);
  }

  predicate Earlier(a: JalaliDate, b: JalaliDate) {
    a.jYear < b.jYear || (a.jYear == b.jYear && (a.jMonth < b.jMonth || (a.jMonth == b.jMonth && a.jDay < b.jDay)))
  }

  lemma JdnFollowsOrder(a: JalaliDate, b: JalaliDate)
    requires FitsMonth(a) && FitsMonth(b) && 0 <= a.jYear <= MAX_JALALI_YEAR && 0 <= b.jYear <= MAX_JALALI_YEAR
    requires Earlier(a, b)
    ensures JalaliJdn(a) < JalaliJdn(b)
  {
    hide NowruzJdn, YearLeap, DaysBeforeJalaliMonth;
    DaysBeforeMonths(a.jMonth);
    DaysBeforeMonths(b.jMonth);
    if a.jYear < b.jYear {
      DayInItsYear(a);
      YearsAscendInTable(a.jYear + 1, b.jYear);
    }
  }

  /** Splitting a day number into year, month and day names a date with that very day number. */
  lemma SplitIsExact(jdn: int, jYear: int)
    requires InRange(jYear) && January(jYear + 621) <= jdn < January(jYear + 622)
    ensures var d := DateInYear(jdn, jYear);
      FitsMonth(d) && jYear - 1 <= d.jYear <= jYear && JalaliJdn(d) == jdn
      && (d.jYear == jYear <==> NowruzJdn(jYear) <= jdn)
  {
    hide NowruzJdn, YearLeap, DaysBeforeJalaliMonth, January;
    NowruzInMarch(jYear);
    JanuarysAbut(jYear + 621);
    YearsAbutInTable(jYear - 1);
    var d := DateInYear(jdn, jYear);
    var k := jdn - NowruzJdn(jYear);
    if 0 <= k <= 185 {
      Quotient(k, 31);
    } else if k >= 0 {
      Quotient(k - 186, 30);
    } else {
      Quotient(k + 179 + if YearLeap(jYear) == 1 then 1 else 0, 30);
    }
    DaysBeforeMonths(d.jMonth);
  }

  lemma Quotient(k: nat, size: int)
    requires size == 30 || size == 31
    ensures Div(k, size) == k / size && Mod(k, size) == k % size
  {
  }

  // ----- main results -----

  /** A Jalali date's civil day exists and has the date's day number. */
  lemma FromJalaliCounts(d: JalaliDate)
    requires IsJalali(d)
    ensures var c := BusinessDateFromJalali(d);
      c.Ok? && IsBusinessDate(c.value) && c.value.year >= 622 && EpochDays(c.value) + JDN_OF_UNIX_EPOCH == JalaliJdn(d)
  {
    hide NowruzJdn, YearLeap, DaysBeforeJalaliMonth, January, JdnToGregorianDay, GregorianDayJdn, EpochDays;
    DaysBeforeMonths(d.jMonth);
    NowruzInMarch(d.jYear);
    var g := d.jYear + 621;
    JanuarysAbut(g);
    JanuarysAbut(g + 1);
    var jdn := JalaliJdn(d);
    CivilYearOf(jdn, if jdn < January(g + 1) then g else g + 1);
    JdnRoundTrip(jdn);
    JdnIsEpochDays(JdnToGregorianDay(jdn));
  }

  /** Converting a civil day succeeds exactly for the civil years 622 to 3798. */
  lemma ToJalaliCounts(c: CivilDate)
    requires IsBusinessDate(c)
    ensures BusinessDateToJalali(c).Ok? <==> 622 <= c.year <= 3798
    ensures BusinessDateToJalali(c).Ok? ==>
              var d := BusinessDateToJalali(c).value;
              FitsMonth(d) && 0 <= d.jYear <= MAX_JALALI_YEAR
              && JalaliJdn(d) == EpochDays(c) + JDN_OF_UNIX_EPOCH
  {
    hide NowruzJdn, YearLeap, DaysBeforeJalaliMonth, January, JdnToGregorianDay, GregorianDayJdn, EpochDays, DateInYear,
         JalaliJdn;
    JdnIsEpochDays(c);
    YearOfCivil(c);
    CivilYearOf(GregorianDayJdn(c), c.year);
    if InRange(c.year - 621) {
      SplitIsExact(GregorianDayJdn(c), c.year - 621);
    }
  }

  lemma SameJdnSameDate(a: JalaliDate, b: JalaliDate)
    requires FitsMonth(a) && FitsMonth(b) && 0 <= a.jYear <= MAX_JALALI_YEAR && 0 <= b.jYear <= MAX_JALALI_YEAR
    requires JalaliJdn(a) == JalaliJdn(b)
    ensures a == b
  {
    hide JalaliJdn, MonthLength;
    if Earlier(a, b) {
      JdnFollowsOrder(a, b);
    } else if Earlier(b, a) {
      JdnFollowsOrder(b, a);
    }
  }

  /** The last Jalali date whose civil day the converter back accepts, 31 December 3798. */
  const LAST_CONVERTIBLE := JalaliDate(3177, 10, 11)

  lemma LastConvertible()
    ensures IsJalali(LAST_CONVERTIBLE)
    ensures BusinessDateFromJalali(LAST_CONVERTIBLE) == Ok(CivilDate(3798, 12, 31))
  {
    hide BusinessDateFromJalali, JalaliJdn, EpochDays;
    FromJalaliCounts(LAST_CONVERTIBLE);
    LastConvertibleCounts();
    CountPreservesOrder(BusinessDateFromJalali(LAST_CONVERTIBLE).value, CivilDate(3798, 12, 31));
  }

  lemma LastConvertibleCounts()
    ensures JalaliJdn(LAST_CONVERTIBLE) == EpochDays(CivilDate(3798, 12, 31)) + JDN_OF_UNIX_EPOCH
  {
    hide EpochDays, NowruzJdn, DaysBeforeJalaliMonth, JalaliJdn;
    LastNowruz();
    DaysBeforeMonths(10);
    JdnIn(LAST_CONVERTIBLE);
    LastDayOf(3798);
  }

  lemma JdnIn(d: JalaliDate)
    ensures JalaliJdn(d) == NowruzJdn(d.jYear) - 1 + DaysBeforeJalaliMonth(d.jMonth) + d.jDay
  {
    hide NowruzJdn;
  }

  lemma LastDayOf(year: int)
    ensures EpochDays(CivilDate(year, 12, 31)) == DayFromYear(year + 1) - 1
  {
    hide EpochDays;
    EpochDaysIsDayNumber(CivilDate(year, 12, 31));
    YearsAbut(year);
  }

  lemma LastNowruz()
    ensures NowruzJdn(MAX_JALALI_YEAR) == 3_108_330
  {
    LeapCountOfLastYear();
    hide LeapCount, NowruzJdn, MarchJdn;
    FarvardinIsLinear(BREAKS, MAX_JALALI_YEAR);
    NowruzIsMarch(MAX_JALALI_YEAR);
  }

  lemma NowruzIsMarch(jYear: int)
    ensures NowruzJdn(jYear) == MarchJdn(BREAKS, jYear)
  {
    hide MarchJdn;
  }

  /**
   * Jalali to civil and back is the identity exactly on the dates up to 11 Dey 3177; the civil days of the
   * later ones fall in year 3799, which the converter back refuses.
   */
  lemma JalaliRoundTrip(d: JalaliDate)
    requires IsJalali(d)
    ensures BusinessDateFromJalali(d).Ok?
    ensures var back := BusinessDateToJalali(BusinessDateFromJalali(d).value);
      (back == Ok(d) <==> !Earlier(LAST_CONVERTIBLE, d)) && (back != Ok(d) ==> back.Err?)
  {
    hide BusinessDateFromJalali, BusinessDateToJalali, JalaliJdn, EpochDays, MonthLength;
    FromJalaliCounts(d);
    LastConvertible();
    OrderPreserved(LAST_CONVERTIBLE, d);
    var c := BusinessDateFromJalali(d).value;
    ToJalaliCounts(c);
    if c.year <= 3798 {
      SameJdnSameDate(d, BusinessDateToJalali(c).value);
    }
  }

  /**
   * Civil to Jalali and back is the identity exactly on the days the converter accepts from
   * 1 Farvardin of year 1 on; the earlier days of 622 convert to a year 0 that does not convert back.
   */
  lemma CivilDayRoundTrip(c: CivilDate)
    requires IsBusinessDate(c) && BusinessDateToJalali(c).Ok?
    ensures var d := BusinessDateToJalali(c).value;
      (BusinessDateFromJalali(d) == Ok(c) <==> !Before(c, CivilDate(622, 3, 22)))
      && (Before(c, CivilDate(622, 3, 22)) ==> d.jYear == 0 && BusinessDateFromJalali(d).Err?)
  {
    hide BusinessDateToJalali, JalaliJdn, EpochDays, JdnToGregorianDay, GregorianDayJdn, NowruzJdn, MonthLength;
    ToJalaliCounts(c);
    FirstNowruz();
    var d := BusinessDateToJalali(c).value;
    var first := JalaliDate(1, 1, 1);
    var firstCivil := CivilDate(622, 3, 22);
    JalaliOne();
    CountPreservesOrder(c, firstCivil);
    if d.jYear == 0 {
      JdnFollowsOrder(d, first);
      assert !IsJalali(d);
    } else {
      if Earlier(d, first) {
        assert false;
      }
      if d != first {
        JdnFollowsOrder(first, d);
      }
      FromJalaliCounts(d);
      CountPreservesOrder(c, BusinessDateFromJalali(d).value);
    }
  }

  lemma JalaliOne()
    ensures FitsMonth(JalaliDate(1, 1, 1)) && JalaliJdn(JalaliDate(1, 1, 1)) == NowruzJdn(1)
  {
    hide NowruzJdn;
  }

  lemma FirstNowruz()
    ensures NowruzJdn(1) == EpochDays(CivilDate(622, 3, 22)) + JDN_OF_UNIX_EPOCH
  {
    FirstLeapCount();
    hide LeapCount, EpochDays;
    FarvardinIsLinear(BREAKS, 1);
    EpochDaysIsDayNumber(CivilDate(622, 3, 22));
  }

  lemma FirstLeapCount()
    ensures LeapCount(BREAKS, 1) == 2
  {
    assert Walk(BREAKS, -14, 1) == Segment(-14, -61, 70);
  }

  /** Jalali order and civil order agree. */
  lemma OrderPreserved(a: JalaliDate, b: JalaliDate)
    requires IsJalali(a) && IsJalali(b)
    ensures BusinessDateFromJalali(a).Ok? && BusinessDateFromJalali(b).Ok?
    ensures Earlier(a, b) <==> Before(BusinessDateFromJalali(a).value, BusinessDateFromJalali(b).value)
  {
    hide BusinessDateFromJalali, JalaliJdn, EpochDays, MonthLength;
    FromJalaliCounts(a);
    FromJalaliCounts(b);
    CountPreservesOrder(BusinessDateFromJalali(a).value, BusinessDateFromJalali(b).value);
    OrderIffJdn(a, b);
  }

  // ----- bounds -----

  lemma BoundsCount(first: JalaliDate, last: JalaliDate)
    requires IsJalali(first) && IsJalali(last)
    ensures DateBounds(first, last).Ok?
    ensures var b := DateBounds(first, last).value;
      Ok(b.start) == BusinessDateFromJalali(first) && Ok(b.end) == BusinessDateFromJalali(last)
      && IsBusinessDate(b.start) && IsBusinessDate(b.end)
      && EpochDays(b.start) + JDN_OF_UNIX_EPOCH == JalaliJdn(first)
      && EpochDays(b.end) + JDN_OF_UNIX_EPOCH == JalaliJdn(last)
  {
    hide BusinessDateFromJalali, JalaliJdn, EpochDays, MonthLength;
    FromJalaliCounts(first);
    FromJalaliCounts(last);
  }

  lemma MonthBoundsCount(jYear: int, jMonth: int)
    requires InRange(jYear) && 1 <= jMonth <= 12
    ensures JalaliMonthBounds(jYear, jMonth).Ok? && JalaliYearBounds(jYear).Ok?
    ensures var b := JalaliMonthBounds(jYear, jMonth).value;
      IsBusinessDate(b.start) && IsBusinessDate(b.end)
      && EpochDays(b.start) + JDN_OF_UNIX_EPOCH == NowruzJdn(jYear) + DaysBeforeJalaliMonth(jMonth)
      && EpochDays(b.end) - EpochDays(b.start) + 1 == MonthLength(jYear, jMonth)
  {
    hide BusinessDateFromJalali, NowruzJdn, EpochDays, YearLeap, DaysBeforeJalaliMonth;
    BoundsCount(JalaliDate(jYear, jMonth, 1), JalaliDate(jYear, jMonth, MonthLength(jYear, jMonth)));
    BoundsCount(JalaliDate(jYear, 1, 1), JalaliDate(jYear, 12, MonthLength(jYear, 12)));
  }

  lemma DayAfter(a: CivilDate, b: CivilDate)
    requires IsCivil(a) && IsCivil(b) && EpochDays(b) == EpochDays(a) + 1
    ensures b == NextDay(a)
  {
    hide EpochDays;
    NextDayIsOneLater(a);
    CountPreservesOrder(b, NextDay(a));
  }

  /** Six months span 31 days, five 30, and the last 30 in a leap year and 29 otherwise. */
  lemma MonthsHaveTheirLength(jYear: int, jMonth: int)
    requires 1 <= jYear <= 3177 && 1 <= jMonth <= 12
    ensures JalaliMonthBounds(jYear, jMonth).Ok?
    ensures var b := JalaliMonthBounds(jYear, jMonth).value;
      DiffDays(b.end, b.start) + 1
      == if jMonth <= 6 then 31 else if jMonth <= 11 || Leap(BREAKS, jYear) == 0 then 30 else 29
  {
    MonthBoundsCount(jYear, jMonth);
    hide JalaliMonthBounds, EpochDays, Leap;
  }

  /** The twelve months tile the year: each starts the day after the one before, with the year's ends at the ends. */
  lemma MonthsTileYear(jYear: int, jMonth: int)
    requires InRange(jYear) && 1 <= jMonth <= 12
    ensures JalaliMonthBounds(jYear, jMonth).Ok? && JalaliYearBounds(jYear).Ok?
    ensures jMonth == 1 ==> JalaliMonthBounds(jYear, 1).value.start == JalaliYearBounds(jYear).value.start
    ensures jMonth == 12 ==> JalaliMonthBounds(jYear, 12).value.end == JalaliYearBounds(jYear).value.end
    ensures jMonth < 12 ==>
              JalaliMonthBounds(jYear, jMonth + 1).Ok?
              && JalaliMonthBounds(jYear, jMonth + 1).value.start == NextDay(JalaliMonthBounds(jYear, jMonth).value.end)
  {
    hide BusinessDateFromJalali, NowruzJdn, EpochDays, YearLeap, DaysBeforeJalaliMonth;
    MonthBoundsCount(jYear, jMonth);
    if jMonth < 12 {
      MonthBoundsCount(jYear, jMonth + 1);
      DaysBeforeMonths(jMonth);
      DaysBeforeMonths(jMonth + 1);
      DayAfter(JalaliMonthBounds(jYear, jMonth).value.end, JalaliMonthBounds(jYear, jMonth + 1).value.start);
    }
  }

  /** Years tile the calendar the same way, and a year has 366 days exactly when it is leap. */
  lemma YearsTileCalendar(jYear: int)
    requires InRange(jYear)
    ensures JalaliYearBounds(jYear).Ok?
    ensures var b := JalaliYearBounds(jYear).value;
      DiffDays(b.end, b.start) + 1 == (if YearLeap(jYear) == 0 then 366 else 365)
      && (jYear < MAX_JALALI_YEAR ==>
        JalaliYearBounds(jYear + 1).Ok? && JalaliYearBounds(jYear + 1).value.start == NextDay(b.end))
  {
    hide BusinessDateFromJalali, NowruzJdn, EpochDays, YearLeap, DaysBeforeJalaliMonth;
    MonthBoundsCount(jYear, 1);
    MonthBoundsCount(jYear, 12);
    MonthsTileYear(jYear, 1);
    MonthsTileYear(jYear, 12);
    DaysBeforeMonths(1);
    DaysBeforeMonths(12);
    if jYear < MAX_JALALI_YEAR {
      MonthBoundsCount(jYear + 1, 1);
      MonthsTileYear(jYear + 1, 1);
      YearsAbutInTable(jYear);
      DayAfter(JalaliYearBounds(jYear).value.end, JalaliYearBounds(jYear + 1).value.start);
    }
  }

  /** A day lies within the bounds of a month exactly when it converts to a date of that month. */
  lemma MonthBoundsContain(jYear: int, jMonth: int, c: CivilDate)
    requires InRange(jYear) && 1 <= jMonth <= 12 && IsBusinessDate(c) && BusinessDateToJalali(c).Ok?
    ensures JalaliMonthBounds(jYear, jMonth).Ok?
    ensures var b, d := JalaliMonthBounds(jYear, jMonth).value, BusinessDateToJalali(c).value;
      !Before(c, b.start) && !Before(b.end, c) <==> d.jYear == jYear && d.jMonth == jMonth
  {
    hide BusinessDateFromJalali, BusinessDateToJalali, NowruzJdn, EpochDays, YearLeap, DaysBeforeJalaliMonth, JalaliJdn;
    var first, last := JalaliDate(jYear, jMonth, 1), JalaliDate(jYear, jMonth, MonthLength(jYear, jMonth));
    BoundsCount(first, last);
    ToJalaliCounts(c);
    var d := BusinessDateToJalali(c).value;
    CountPreservesOrder(c, DateBounds(first, last).value.start);
    CountPreservesOrder(DateBounds(first, last).value.end, c);
    OrderIffJdn(d, first);
    OrderIffJdn(last, d);
  }

  lemma OrderIffJdn(a: JalaliDate, b: JalaliDate)
    requires FitsMonth(a) && FitsMonth(b) && 0 <= a.jYear <= MAX_JALALI_YEAR && 0 <= b.jYear <= MAX_JALALI_YEAR
    ensures Earlier(a, b) <==> JalaliJdn(a) < JalaliJdn(b)
  {
    hide JalaliJdn, MonthLength;
    if Earlier(a, b) {
      JdnFollowsOrder(a, b);
    } else if Earlier(b, a) {
      JdnFollowsOrder(b, a);
    }
  }
}
