/** Julian Day Numbers of proleptic Gregorian days, by the closed forms of `jalali-calendar.ts`. */
module JulianDay {
  import opened CivilCalendar
  import opened Truncation

  const JDN_OF_UNIX_EPOCH := 2_440_588

  function GregorianDayJdn(d: CivilDate): int {
    var jdn := Div((d.year + Div(d.month - 8, 6) + 100_100) * 1461, 4)
               + Div(153 * Mod(d.month + 9, 12) + 2, 5) + d.day - 34_840_408;
    jdn - Div(Div(d.year + 100_100 + Div(d.month - 8, 6), 100) * 3, 4) + 752
  }

  /** Four times the day with its century correction, which the inverse splits into year and day. */
  function Dividend(jdn: int): int {
    4 * jdn + 139_361_631 + Div(Div(4 * jdn + 183_187_720, 146_097) * 3, 4) * 4 - 3908
  }

  function DividendDate(j: int): CivilDate {
    var i := Div(Mod(j, 1461), 4) * 5 + 308;
    var day := Div(Mod(i, 153), 5) + 1;
    var month := Mod(Div(i, 153), 12) + 1;
    var year := Div(j, 1461) - 100_100 + Div(8 - month, 6);
    CivilDate(year, month, day)
  }

  function JdnToGregorianDay(jdn: int): CivilDate {
    DividendDate(Dividend(jdn))
  }

  /** 1 March of year -100100, the first day the closed forms cover. */
  const FIRST_JDN := -34_839_655

  // ----- years counted from 1 March of year -100100 -----

  /** Days before the `y`-th March year. */
  function YearStart(y: nat): nat {
    1461 * y / 4 - y / 100 * 3 / 4
  }

  /** Days of a March year before its `m`-th month (0 is March). */
  function MonthStart(m: nat): int {
    (153 * m + 2) / 5
  }

  /** The civil year whose February closes the `y`-th March year. */
  function ClosingYear(y: nat): int {
    y - 100_099
  }

  lemma CenturyStep(y: nat)
    ensures (y + 1) / 100 == y / 100 + if (y + 1) % 100 == 0 then 1 else 0
  {
  }

  lemma CenturyLeap(q: nat)
    ensures (q + 1) * 3 / 4 - q * 3 / 4 == if (q + 1) % 4 == 1 then 0 else 1
  {
  }

  lemma CenturyRest(y: nat)
    ensures ClosingYear(y) % 4 == (y + 1) % 4
    ensures ClosingYear(y) % 100 == (y + 1) % 100
  {
    assert ClosingYear(y) == y + 1 - 4 * 25_025;
    assert ClosingYear(y) == y + 1 - 100 * 1001;
  }

  lemma FourCenturyRest(q: nat)
    ensures (100 * q - 100_100) % 400 == 0 <==> q % 4 == 1
  {
    var a, b := q / 4, q % 4;
    assert 100 * q - 100_100 == 400 * (a - 251) + 100 * (b + 3);
  }

  lemma LeapShift(y: nat)
    ensures IsLeapYear(ClosingYear(y)) <==>
              (y + 1) % 4 == 0 && ((y + 1) % 100 != 0 || (y + 1) / 100 % 4 == 1)
  {
    CenturyRest(y);
    if (y + 1) % 100 == 0 {
      var q := (y + 1) / 100;
      assert ClosingYear(y) == 100 * q - 100_100;
      FourCenturyRest(q);
    }
  }

  lemma QuarterDays(y: nat)
    ensures 1461 * (y + 1) / 4 - 1461 * y / 4 == if (y + 1) % 4 == 0 then 366 else 365
  {
    var q, r := y / 4, y % 4;
    assert 1461 * y == 4 * (1461 * q) + 1461 * r;
  }

  lemma CenturyDrop(y: nat)
    ensures (y + 1) / 100 * 3 / 4 - y / 100 * 3 / 4
         == if (y + 1) % 100 == 0 && (y + 1) / 100 % 4 != 1 then 1 else 0
  {
    CenturyStep(y);
    CenturyLeap(y / 100);
  }

  lemma HundredsAreFours(y: nat)
    ensures (y + 1) % 100 == 0 ==> (y + 1) % 4 == 0
  {
  }

  lemma YearLength(y: nat)
    ensures YearStart(y + 1) == YearStart(y) + DaysInYear(ClosingYear(y))
  {
    hide IsLeapYear, ClosingYear;
    QuarterDays(y);
    CenturyDrop(y);
    HundredsAreFours(y);
    LeapShift(y);
  }

  /** The March year, month and day of a civil date. */
  function MarchYear(d: CivilDate): int {
    d.year + 100_100 - if d.month <= 2 then 1 else 0
  }

  function MarchMonth(d: CivilDate): nat {
    (d.month + 9) % 12
  }

  function MarchDay(d: CivilDate): int {
    MonthStart(MarchMonth(d)) + d.day - 1
  }

  /** The civil dates from 1 March of year -100100 on. */
  predicate Covered(d: CivilDate) {
    IsCivil(d) && MarchYear(d) >= 0
  }

  lemma MarchDayFits(d: CivilDate)
    requires Covered(d)
    ensures 0 <= MarchDay(d) < DaysInYear(ClosingYear(MarchYear(d)))
  {
  }

  lemma JdnCounts(d: CivilDate)
    requires Covered(d)
    ensures GregorianDayJdn(d) == FIRST_JDN + YearStart(MarchYear(d)) + MarchDay(d)
  {
    assert Div(d.month - 8, 6) == if d.month <= 2 then -1 else 0;
    assert Mod(d.month + 9, 12) == MarchMonth(d);
  }

  lemma {:induction false} YearStartsAscend(a: nat, b: nat)
    requires a <= b
    ensures YearStart(a) <= YearStart(b)
    decreases b - a
  {
    if a < b {
      YearLength(b - 1);
      YearStartsAscend(a, b - 1);
    }
  }

  lemma CenturyStart(q: nat)
    ensures 4 * YearStart(100 * q) == 146_100 * q - 4 * (3 * q / 4)
  {
    assert 1461 * (100 * q) / 4 == 36_525 * q;
    assert 100 * q / 100 == q;
  }

  /** The first quotient of the inverse finds the century. */
  lemma CenturyFound(y: nat, k: nat)
    requires k < DaysInYear(ClosingYear(y))
    ensures 4 * (YearStart(y) + k) / 146_097 == y / 100
  {
    hide YearStart, DaysInYear, ClosingYear;
    var q := y / 100;
    YearLength(y);
    CenturyStart(q);
    CenturyStart(q + 1);
    YearStartsAscend(100 * q, y);
    YearStartsAscend(y + 1, 100 * (q + 1));
    CenturyQuotient(q, 4 * (YearStart(y) + k));
  }

  lemma CenturyQuotient(q: nat, n: int)
    requires n % 4 == 0
    requires 146_100 * q - 4 * (3 * q / 4) <= n < 146_100 * (q + 1) - 4 * (3 * (q + 1) / 4)
    ensures n / 146_097 == q
  {
  }

  /** The civil date of day `k` of the `y`-th March year. */
  function FromMarch(y: nat, k: nat): CivilDate {
    var i := k * 5 + 308;
    var month := i / 153 % 12 + 1;
    CivilDate(y - 100_100 + Div(8 - month, 6), month, i % 153 / 5 + 1)
  }

  lemma DividendCounts(n: nat, c: nat)
    requires 4 * n / 146_097 == c
    ensures Dividend(FIRST_JDN + n) == 4 * (n + c * 3 / 4) + 3
  {
    assert 4 * (FIRST_JDN + n) + 183_187_720 == 4 * n + 300 * 146_097;
    assert (4 * n + 300 * 146_097) / 146_097 == c + 300;
    assert (c + 300) * 3 / 4 == 225 + c * 3 / 4;
  }

  lemma DividendSplits(y: nat, k: nat, j: int)
    requires j >= 0 && j / 1461 == y && j % 1461 / 4 == k
    ensures DividendDate(j) == FromMarch(y, k)
  {
    assert Mod(j, 1461) == j % 1461;
  }

  lemma InverseCounts(y: nat, k: nat)
    requires k < DaysInYear(ClosingYear(y))
    ensures JdnToGregorianDay(FIRST_JDN + YearStart(y) + k) == FromMarch(y, k)
  {
    hide IsLeapYear, FromMarch, DividendDate, Dividend, ClosingYear;
    CenturyFound(y, k);
    YearLengthBound(y);
    DividendCounts(YearStart(y) + k, y / 100);
    YearQuotient(y, k, 4 * (1461 * y / 4 + k) + 3);
    DividendSplits(y, k, 4 * (1461 * y / 4 + k) + 3);
  }

  lemma YearLengthBound(y: nat)
    ensures DaysInYear(ClosingYear(y)) == 366 ==> y % 4 == 3
  {
    LeapShift(y);
  }

  lemma YearQuotient(y: nat, k: nat, j: int)
    requires k <= 364 || (k == 365 && y % 4 == 3)
    requires j == 4 * (1461 * y / 4 + k) + 3
    ensures j >= 0 && j / 1461 == y && j % 1461 / 4 == k
  {
    assert j == 1461 * y + (4 * k + 3 - y % 4);
  }

  lemma FromMarchInverse(d: CivilDate)
    requires Covered(d)
    ensures MarchDay(d) >= 0 && FromMarch(MarchYear(d), MarchDay(d)) == d
  {
    MarchDayFits(d);
    var i := MarchDay(d) * 5 + 308;
    MonthQuotient(MarchMonth(d), d.day);
    assert i / 153 == MarchMonth(d) + 2 && i % 153 / 5 + 1 == d.day;
  }

  lemma MonthQuotient(m: nat, day: int)
    requires m <= 11 && 1 <= day <= 31
    requires day == 31 ==> m == 0 || m == 2 || m == 4 || m == 5 || m == 7 || m == 9 || m == 10
    ensures var i := (MonthStart(m) + day - 1) * 5 + 308; i / 153 == m + 2 && i % 153 / 5 + 1 == day
  {
  }

  lemma MonthRemainder(k: nat)
    requires k <= 365
    ensures var i := k * 5 + 308; var m := i / 153 - 2;
      0 <= m <= 11 && MonthStart(m) + i % 153 / 5 == k && i % 153 / 5 <= 30
      && (i % 153 / 5 == 30 ==> m == 0 || m == 2 || m == 4 || m == 5 || m == 7 || m == 9 || m == 10)
      && (m == 11 ==> k == 337 + i % 153 / 5)
  {
  }

  lemma MonthOfMarchMonth(m: int)
    requires 0 <= m <= 11
    ensures (m + 2) % 12 + 1 == if m <= 9 then m + 3 else m - 9
  {
  }

  lemma FromMarchCovered(y: nat, k: nat)
    requires k < DaysInYear(ClosingYear(y))
    ensures var d := FromMarch(y, k); Covered(d) && MarchYear(d) == y && MarchDay(d) == k
  {
    MonthRemainder(k);
    MonthOfMarchMonth((k * 5 + 308) / 153 - 2);
  }

  /** Every day number from the first lies in one March year. */
  lemma Locate(n: nat) returns (y: nat, k: nat)
    ensures k < DaysInYear(ClosingYear(y)) && YearStart(y) + k == n
  {
    y, k := LocateFrom(n, 0);
  }

  lemma {:induction false} LocateFrom(n: nat, start: nat) returns (y: nat, k: nat)
    requires YearStart(start) <= n
    ensures k < DaysInYear(ClosingYear(y)) && YearStart(y) + k == n
    decreases n - YearStart(start)
  {
    YearLength(start);
    if n < YearStart(start + 1) {
      y, k := start, n - YearStart(start);
    } else {
      y, k := LocateFrom(n, start + 1);
    }
  }

  lemma DayFound(d: CivilDate)
    requires Covered(d)
    ensures 0 <= MarchDay(d)
    ensures JdnToGregorianDay(FIRST_JDN + YearStart(MarchYear(d)) + MarchDay(d)) == d
  {
    hide JdnToGregorianDay, FromMarch, YearStart;
    MarchDayFits(d);
    InverseCounts(MarchYear(d), MarchDay(d));
    FromMarchInverse(d);
  }

  // ----- main results -----

  /** Civil day to day number and back is the identity from 1 March -100100 on. */
  lemma CivilRoundTrip(d: CivilDate)
    requires Covered(d)
    ensures GregorianDayJdn(d) >= FIRST_JDN
    ensures JdnToGregorianDay(GregorianDayJdn(d)) == d
  {
    hide GregorianDayJdn, JdnToGregorianDay, YearStart;
    JdnCounts(d);
    DayFound(d);
  }

  /** Day number to civil day and back is the identity, and the day is a real one. */
  lemma JdnRoundTrip(jdn: int)
    requires jdn >= FIRST_JDN
    ensures Covered(JdnToGregorianDay(jdn))
    ensures GregorianDayJdn(JdnToGregorianDay(jdn)) == jdn
  {
    var y, k := Locate(jdn - FIRST_JDN);
    InverseCounts(y, k);
    FromMarchCovered(y, k);
    JdnCounts(JdnToGregorianDay(jdn));
  }

  lemma MarchFirst(year: int)
    requires year >= -100_100
    ensures FIRST_JDN + YearStart(year + 100_100) + 306 == DayFromYear(year + 1) + JDN_OF_UNIX_EPOCH
  {
    var q := year / 100;
    assert 1461 * (year + 100_100) / 4 == 365 * (year + 100_100) + year / 4 + 25_025;
    assert (year + 100_100) / 100 == q + 1001;
    assert (q + 1001) * 3 / 4 == 750 + q - q / 4;
    assert year / 400 == q / 4;
    assert (year - 1968) / 4 == year / 4 - 492 && (year - 1900) / 100 == q - 19
           && (year - 1600) / 400 == year / 400 - 4;
  }

  lemma MarchDayIsDayOfYear(d: CivilDate)
    requires IsCivil(d)
    ensures d.month <= 2 ==> DayOfYear(d) == MarchDay(d) - 306
    ensures d.month > 2 ==> DayOfYear(d) == MarchDay(d) - 306 + DaysInYear(d.year)
  {
  }

  /** The two day counts differ by the day number of the Unix epoch. */
  lemma JdnIsEpochDays(d: CivilDate)
    requires Covered(d)
    ensures GregorianDayJdn(d) == EpochDays(d) + 2_440_588
  {
    hide GregorianDayJdn, EpochDays, YearStart, DayFromYear, DaysInYear, DayOfYear, MarchDay, IsLeapYear, DaysInMonth;
    JdnCounts(d);
    MarchDayIsDayOfYear(d);
    MarchFirst(MarchYear(d) - 100_100);
    YearsAbut(d.year);
    EpochDaysIsDayNumber(d);
  }

  /** Each next civil day has the next day number. */
  lemma JdnSteps(d: CivilDate)
    requires Covered(d)
    ensures Covered(NextDay(d)) && GregorianDayJdn(NextDay(d)) == GregorianDayJdn(d) + 1
  {
    NextDayIsOneLater(d);
    JdnIsEpochDays(d);
    JdnIsEpochDays(NextDay(d));
  }

  lemma QuotientsBeforeFirst()
    ensures Div(-5, 1461) == 0 && Mod(-5, 1461) == -5 && Div(-5, 4) == -1
    ensures Div(303, 153) == 1 && Mod(303, 153) == 150 && Div(150, 5) == 30
    ensures Mod(1, 12) == 1 && Div(6, 6) == 1
  {
  }

  lemma DateBeforeFirst()
    ensures DividendDate(-5) == CivilDate(-100_099, 2, 31)
  {
    hide Div, Mod;
    QuotientsBeforeFirst();
  }

  lemma DividendBeforeFirst()
    ensures Dividend(FIRST_JDN - 1) == -5
  {
    assert Div(43_829_096, 146_097) == 299 && Div(299 * 3, 4) == 224;
  }

  /** The range is sharp: the day before it decomposes into a date that does not exist. */
  lemma FirstDayIsSharp()
    ensures GregorianDayJdn(CivilDate(-100_100, 3, 1)) == FIRST_JDN
    ensures !IsCivil(JdnToGregorianDay(FIRST_JDN - 1))
  {
    hide Dividend, DividendDate;
    DateBeforeFirst();
    DividendBeforeFirst();
  }
}
