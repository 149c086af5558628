/**
 * Proleptic Gregorian days and the JavaScript Date arithmetic they are counted with.
 * The day-number functions follow section 21.4.1 of ECMA-262.
 */
module CivilCalendar {
  import opened Outcome

  datatype CivilDate = CivilDate(year: int, month: int, day: int)

  datatype Instant = Instant(date: CivilDate, hour: int, minute: int, second: int, millisecond: int)

  const MILLIS_PER_DAY := 86_400_000

  predicate IsLeapYear(year: int) {
    year % 4 == 0 && (year % 100 != 0 || year % 400 == 0)
  }

  function DaysInMonth(year: int, month: int): int
    requires 1 <= month <= 12
  {
    if month == 2 && IsLeapYear(year) then 29
    else if month == 2 then 28
    else if month == 4 || month == 6 || month == 9 || month == 11 then 30
    else 31
  }

  predicate IsCivil(d: CivilDate) {
    1 <= d.month <= 12 && 1 <= d.day <= DaysInMonth(d.year, d.month)
  }

  predicate IsTimeOfDay(t: Instant) {
    0 <= t.hour <= 23 && 0 <= t.minute <= 59 && 0 <= t.second <= 59 && 0 <= t.millisecond <= 999
  }

  /** Rejects an impossible calendar date; four-digit years only. */
  function AssertCivilDate(year: int, month: int, day: int): (r: Result<CivilDate>)
    ensures r.Ok? <==> 1 <= year <= 9999 && IsCivil(CivilDate(year, month, day))
    ensures r.Ok? ==> r.value == CivilDate(year, month, day)
  {
    if !(1 <= year <= 9999) then Err("year")
    else if !(1 <= month <= 12) then Err("month")
    else if !(1 <= day <= 31) then Err("day")
    else if day > DaysInMonth(year, month) then Err("no such day")
    else Ok(CivilDate(year, month, day))
  }

  /** The civil day after `d`. */
  function NextDay(d: CivilDate): CivilDate
    requires IsCivil(d)
  {
    if d.day < DaysInMonth(d.year, d.month) then CivilDate(d.year, d.month, d.day + 1)
    else if d.month < 12 then CivilDate(d.year, d.month + 1, 1)
    else CivilDate(d.year + 1, 1, 1)
  }

  /** Calendar order, which `BusinessDate.compareTo` decides field by field. */
  predicate Before(a: CivilDate, b: CivilDate) {
    a.year < b.year || (a.year == b.year && (a.month < b.month || (a.month == b.month && a.day < b.day)))
  }

  // ----- section 21.4.1 of ECMA-262 -----

  function DayFromYear(year: int): int {
    365 * (year - 1970) + (year - 1969) / 4 - (year - 1901) / 100 + (year - 1601) / 400
  }

  function DaysInYear(year: int): int {
    if IsLeapYear(year) then 366 else 365
  }

  lemma LeapDays(year: int)
    ensures (year - 1968) / 4 - (year - 1969) / 4 == if year % 4 == 0 then 1 else 0
  {
  }

  lemma CenturyDays(year: int)
    ensures (year - 1900) / 100 - (year - 1901) / 100 == if year % 100 == 0 then 1 else 0
  {
  }

  lemma FourCenturyDays(year: int)
    ensures (year - 1600) / 400 - (year - 1601) / 400 == if year % 400 == 0 then 1 else 0
  {
  }

  lemma DivisibilityNests(year: int)
    ensures year % 400 == 0 ==> year % 100 == 0
    ensures year % 100 == 0 ==> year % 4 == 0
  {
  }

  lemma YearsAbut(year: int)
    ensures DayFromYear(year + 1) == DayFromYear(year) + DaysInYear(year)
  {
    LeapDays(year);
    CenturyDays(year);
    FourCenturyDays(year);
    DivisibilityNests(year);
  }

  /** The year a day number falls in: the last year that does not start after it. */
  function YearFromDay(day: int): (year: int)
    ensures DayFromYear(year) <= day < DayFromYear(year + 1)
  {
    YearSearch(day, 1970)
  }

  function YearSearch(day: int, guess: int): (year: int)
    ensures DayFromYear(year) <= day < DayFromYear(year + 1)
    decreases if day < DayFromYear(guess) then DayFromYear(guess) - day else 0,
              if day >= DayFromYear(guess + 1) then day - DayFromYear(guess) else 0
  {
    YearsAbut(guess);
    YearsAbut(guess - 1);
    if day < DayFromYear(guess) then YearSearch(day, guess - 1)
    else if day >= DayFromYear(guess + 1) then YearSearch(day, guess + 1)
    else guess
  }

  lemma {:induction false} YearsAscend(a: int, b: int)
    requires a <= b
    ensures DayFromYear(a) + 365 * (b - a) <= DayFromYear(b)
    decreases b - a
  {
    if a < b {
      YearsAbut(b - 1);
      YearsAscend(a, b - 1);
    }
  }

  /** Only one year contains a day. */
  lemma YearOfDay(day: int, year: int)
    requires DayFromYear(year) <= day < DayFromYear(year + 1)
    ensures YearFromDay(day) == year
  {
    var found := YearFromDay(day);
    if found < year {
      YearsAscend(found + 1, year);
    } else if year < found {
      YearsAscend(year + 1, found);
    }
  }

  /** Days of the year before month `month` (0 is January). */
  function DaysBeforeMonth(month: int, leap: bool): int
    requires 0 <= month <= 12
  {
    (match month
     case 0 => 0
     case 1 => 31
     case 2 => 59
     case 3 => 90
     case 4 => 120
     case 5 => 151
     case 6 => 181
     case 7 => 212
     case 8 => 243
     case 9 => 273
     case 10 => 304
     case 11 => 334
     case _ => 365) + (if leap && month >= 2 then 1 else 0)
  }

  function DayWithinYear(day: int): int {
    day - DayFromYear(YearFromDay(day))
  }

  /** The month (0 is January) holding the day `within` days into a year. */
  function MonthWithin(within: int, leap: bool): (month: int)
    requires 0 <= within < DaysBeforeMonth(12, leap)
    ensures 0 <= month <= 11
    ensures DaysBeforeMonth(month, leap) <= within < DaysBeforeMonth(month + 1, leap)
  {
    var l := if leap then 1 else 0;
    if within < 31 then 0
    else if within < 59 + l then 1
    else if within < 90 + l then 2
    else if within < 120 + l then 3
    else if within < 151 + l then 4
    else if within < 181 + l then 5
    else if within < 212 + l then 6
    else if within < 243 + l then 7
    else if within < 273 + l then 8
    else if within < 304 + l then 9
    else if within < 334 + l then 10
    else 11
  }

  function MonthFromDay(day: int): int {
    YearsAbut(YearFromDay(day));
    MonthWithin(DayWithinYear(day), IsLeapYear(YearFromDay(day)))
  }

  function DateFromDay(day: int): int {
    DayWithinYear(day) - DaysBeforeMonth(MonthFromDay(day), IsLeapYear(YearFromDay(day))) + 1
  }

  function MakeDay(year: int, month: int, date: int): int {
    DayFromYear(year + month / 12) + DaysBeforeMonth(month % 12, IsLeapYear(year + month / 12)) + date - 1
  }

  /** How far into its year a civil day lies. */
  function DayOfYear(d: CivilDate): int
    requires IsCivil(d)
  {
    DaysBeforeMonth(d.month - 1, IsLeapYear(d.year)) + d.day - 1
  }

  lemma MonthsAbut(year: int, month: int)
    requires 1 <= month <= 12
    ensures DaysBeforeMonth(month, IsLeapYear(year))
            == DaysBeforeMonth(month - 1, IsLeapYear(year)) + DaysInMonth(year, month)
    ensures 0 <= DaysBeforeMonth(month - 1, IsLeapYear(year))
    ensures DaysBeforeMonth(month, IsLeapYear(year)) <= DaysInYear(year) == DaysBeforeMonth(12, IsLeapYear(year))
  {
  }

  lemma MonthOfDay(d: CivilDate)
    requires IsCivil(d)
    ensures 0 <= DayOfYear(d) < DaysInYear(d.year) == DaysBeforeMonth(12, IsLeapYear(d.year))
    ensures MonthWithin(DayOfYear(d), IsLeapYear(d.year)) == d.month - 1
  {
    MonthsAbut(d.year, d.month);
  }

  /** MakeDay finds the day whose year, month and date the standard names. */
  lemma MakeDayFinds(d: CivilDate)
    requires IsCivil(d)
    ensures var n := MakeDay(d.year, d.month - 1, d.day);
      n == DayFromYear(d.year) + DayOfYear(d)
      && YearFromDay(n) == d.year && MonthFromDay(n) == d.month - 1 && DateFromDay(n) == d.day
  {
    var n := MakeDay(d.year, d.month - 1, d.day);
    MonthOfDay(d);
    YearsAbut(d.year);
    assert n == DayFromYear(d.year) + DayOfYear(d);
    YearOfDay(n, d.year);
  }

  function MakeTime(t: Instant): int {
    t.hour * 3_600_000 + t.minute * 60_000 + t.second * 1000 + t.millisecond
  }

  function MakeDate(day: int, time: int): int {
    day * MILLIS_PER_DAY + time
  }

  /**
   * Milliseconds since the epoch: the parts are laid out in the leap year 2000 and the year is then
   * replaced, as `Date.UTC(2000, ...)` followed by `setUTCFullYear` does.
   */
  function ToUtcMillis(t: Instant): int {
    var in2000 := MakeDate(MakeDay(2000, t.date.month - 1, t.date.day), MakeTime(t));
    var day := in2000 / MILLIS_PER_DAY;
    MakeDate(MakeDay(t.date.year, MonthFromDay(day), DateFromDay(day)), in2000 % MILLIS_PER_DAY)
  }

  function FromUtcMillis(millis: int): Instant {
    var day := millis / MILLIS_PER_DAY;
    var time := millis % MILLIS_PER_DAY;
    Instant(CivilDate(YearFromDay(day), MonthFromDay(day) + 1, DateFromDay(day)),
            time / 3_600_000, time / 60_000 % 60, time / 1000 % 60, time % 1000)
  }

  function Midnight(d: CivilDate): Instant {
    Instant(d, 0, 0, 0, 0)
  }

  function EpochDays(d: CivilDate): int {
    ToUtcMillis(Midnight(d)) / MILLIS_PER_DAY
  }

  /** Replacing the year of the year-2000 date moves no day of the month and keeps the time of day. */
  lemma ToUtcMillisCounts(t: Instant)
    requires IsCivil(t.date) && IsTimeOfDay(t)
    ensures 0 <= MakeTime(t) < MILLIS_PER_DAY
    ensures ToUtcMillis(t) == MakeDate(MakeDay(t.date.year, t.date.month - 1, t.date.day), MakeTime(t))
  {
    var d := CivilDate(2000, t.date.month, t.date.day);
    assert IsLeapYear(2000);
    var n := MakeDay(2000, t.date.month - 1, t.date.day);
    MakeDayFinds(d);
    var in2000 := MakeDate(n, MakeTime(t));
    assert in2000 / MILLIS_PER_DAY == n && in2000 % MILLIS_PER_DAY == MakeTime(t);
  }

  lemma TimePartsRoundTrip(t: Instant)
    requires IsTimeOfDay(t)
    ensures MakeTime(t) / 3_600_000 == t.hour
    ensures MakeTime(t) / 60_000 % 60 == t.minute
    ensures MakeTime(t) / 1000 % 60 == t.second
    ensures MakeTime(t) % 1000 == t.millisecond
  {
    assert MakeTime(t) / 1000 == t.hour * 3600 + t.minute * 60 + t.second;
    assert MakeTime(t) / 60_000 == t.hour * 60 + t.minute;
  }

  lemma SplitDate(day: int, time: int)
    requires 0 <= time < MILLIS_PER_DAY
    ensures MakeDate(day, time) / MILLIS_PER_DAY == day && MakeDate(day, time) % MILLIS_PER_DAY == time
  {
  }

  lemma Decompose(millis: int, t: Instant)
    requires IsCivil(t.date) && IsTimeOfDay(t) && 0 <= MakeTime(t) < MILLIS_PER_DAY
    requires millis == MakeDate(MakeDay(t.date.year, t.date.month - 1, t.date.day), MakeTime(t))
    ensures FromUtcMillis(millis) == t
  {
    hide MakeDay, YearFromDay, MonthFromDay, DateFromDay, MakeTime;
    SplitDate(MakeDay(t.date.year, t.date.month - 1, t.date.day), MakeTime(t));
    MakeDayFinds(t.date);
    TimePartsRoundTrip(t);
  }

  /** Decomposing the timestamp of a real instant gives that instant back, for every year. */
  lemma InstantRoundTrip(t: Instant)
    requires IsCivil(t.date) && IsTimeOfDay(t)
    ensures FromUtcMillis(ToUtcMillis(t)) == t
  {
    ToUtcMillisCounts(t);
    Decompose(ToUtcMillis(t), t);
  }

  /** Days from the epoch to a civil date, read off the year and the place in it. */
  function DayNumber(d: CivilDate): int
    requires IsCivil(d)
  {
    DayFromYear(d.year) + DayOfYear(d)
  }

  lemma EpochDaysIsDayNumber(d: CivilDate)
    requires IsCivil(d)
    ensures EpochDays(d) == DayNumber(d)
  {
    hide MakeDay, ToUtcMillis, DayOfYear, DayFromYear;
    ToUtcMillisCounts(Midnight(d));
    MakeDayFinds(d);
    SplitDate(DayNumber(d), MakeTime(Midnight(d)));
  }

  /** A timestamp counts milliseconds from the start of 1970, in days of 86,400,000. */
  lemma TimestampInParts(t: Instant)
    requires IsCivil(t.date) && IsTimeOfDay(t)
    ensures ToUtcMillis(t) == EpochDays(t.date) * 86_400_000
                              + t.hour * 3_600_000 + t.minute * 60_000 + t.second * 1000 + t.millisecond
    ensures EpochDays(CivilDate(1970, 1, 1)) == 0
  {
    hide MakeDay, ToUtcMillis, YearFromDay, MonthFromDay, DateFromDay;
    ToUtcMillisCounts(t);
    MakeDayFinds(t.date);
    EpochDaysIsDayNumber(t.date);
    EpochDaysIsDayNumber(CivilDate(1970, 1, 1));
    hide EpochDays;
  }

  lemma DayOfYearSteps(d: CivilDate)
    requires IsCivil(d)
    ensures IsCivil(NextDay(d))
    ensures NextDay(d).year == d.year ==> DayOfYear(NextDay(d)) == DayOfYear(d) + 1
    ensures NextDay(d).year != d.year ==>
              NextDay(d).year == d.year + 1 && DayOfYear(NextDay(d)) == 0 && DayOfYear(d) + 1 == DaysInYear(d.year)
  {
    MonthsAbut(d.year, d.month);
  }

  lemma DayNumberSteps(d: CivilDate)
    requires IsCivil(d)
    ensures IsCivil(NextDay(d)) && DayNumber(NextDay(d)) == DayNumber(d) + 1
  {
    DayOfYearSteps(d);
    YearsAbut(d.year);
  }

  /** Each next civil day is one day later. */
  lemma NextDayIsOneLater(d: CivilDate)
    requires IsCivil(d)
    ensures IsCivil(NextDay(d)) && EpochDays(NextDay(d)) == EpochDays(d) + 1
  {
    DayNumberSteps(d);
    EpochDaysIsDayNumber(d);
    EpochDaysIsDayNumber(NextDay(d));
  }

  lemma DateParts(day: int)
    ensures var d := CivilDate(YearFromDay(day), MonthFromDay(day) + 1, DateFromDay(day));
      IsCivil(d) && DayNumber(d) == day
  {
    YearsAbut(YearFromDay(day));
    MonthsAbut(YearFromDay(day), MonthFromDay(day) + 1);
  }

  /** Every day number is the number of exactly the civil day it decomposes into. */
  lemma DayRoundTrip(day: int)
    ensures var d := FromUtcMillis(day * MILLIS_PER_DAY).date; IsCivil(d) && EpochDays(d) == day
  {
    SplitDate(day, 0);
    DateParts(day);
    EpochDaysIsDayNumber(FromUtcMillis(day * MILLIS_PER_DAY).date);
  }

  lemma DayOfYearOrders(a: CivilDate, b: CivilDate)
    requires IsCivil(a) && IsCivil(b) && Before(a, b) && a.year == b.year
    ensures DayOfYear(a) < DayOfYear(b)
  {
    MonthsAbut(a.year, a.month);
  }

  lemma YearsOrder(a: CivilDate, b: CivilDate)
    requires IsCivil(a) && IsCivil(b) && a.year < b.year
    ensures DayNumber(a) < DayNumber(b)
  {
    MonthOfDay(a);
    MonthOfDay(b);
    YearsAbut(a.year);
    YearsAscend(a.year + 1, b.year);
  }

  lemma EarlierCountsLess(a: CivilDate, b: CivilDate)
    requires IsCivil(a) && IsCivil(b) && Before(a, b)
    ensures DayNumber(a) < DayNumber(b)
  {
    if a.year < b.year {
      YearsOrder(a, b);
    } else {
      DayOfYearOrders(a, b);
    }
  }

  /** The day count preserves and reflects calendar order. */
  lemma CountPreservesOrder(a: CivilDate, b: CivilDate)
    requires IsCivil(a) && IsCivil(b)
    ensures Before(a, b) <==> EpochDays(a) < EpochDays(b)
    ensures a == b <==> EpochDays(a) == EpochDays(b)
  {
    EpochDaysIsDayNumber(a);
    EpochDaysIsDayNumber(b);
    if Before(a, b) {
      EarlierCountsLess(a, b);
    } else if Before(b, a) {
      EarlierCountsLess(b, a);
    }
  }
}
