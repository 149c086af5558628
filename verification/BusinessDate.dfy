/** Date arithmetic on civil days, through the day count. */
module BusinessDate {
  import opened CivilCalendar
  import opened Outcome

  /** A date `BusinessDate.of` accepts. */
  predicate IsBusinessDate(d: CivilDate) {
    1 <= d.year <= 9999 && IsCivil(d)
  }

  function Of(year: int, month: int, day: int): Result<CivilDate> {
    AssertCivilDate(year, month, day)
  }

  function OfUtcMillis(millis: int): Result<CivilDate> {
    var d := FromUtcMillis(millis).date;
    Of(d.year, d.month, d.day)
  }

  const MAX_OFFSET_DAYS := 3_650_000

  function AddDays(d: CivilDate, days: int): Result<CivilDate> {
    if !(-MAX_OFFSET_DAYS <= days <= MAX_OFFSET_DAYS) then Err("days")
    else OfUtcMillis(ToUtcMillis(Midnight(d)) + days * MILLIS_PER_DAY)
  }

  function DiffDays(d: CivilDate, other: CivilDate): int {
    EpochDays(d) - EpochDays(other)
  }

  function CompareTo(a: CivilDate, b: CivilDate): int {
    if a.year != b.year then (if a.year < b.year then -1 else 1)
    else if a.month != b.month then (if a.month < b.month then -1 else 1)
    else if a.day != b.day then (if a.day < b.day then -1 else 1)
    else 0
  }

  /** The sign of a comparison is the sign of the day difference. */
  lemma CompareIsDayOrder(a: CivilDate, b: CivilDate)
    requires IsBusinessDate(a) && IsBusinessDate(b)
    ensures CompareTo(a, b) < 0 <==> DiffDays(a, b) < 0
    ensures CompareTo(a, b) == 0 <==> DiffDays(a, b) == 0
    ensures CompareTo(a, b) > 0 <==> DiffDays(a, b) > 0
    ensures CompareTo(a, b) == 0 <==> a == b
  {
    hide EpochDays;
    CountPreservesOrder(a, b);
    CountPreservesOrder(b, a);
  }

  lemma MidnightMillis(d: CivilDate)
    requires IsCivil(d)
    ensures ToUtcMillis(Midnight(d)) == EpochDays(d) * MILLIS_PER_DAY
  {
    hide ToUtcMillis, MakeDay;
    ToUtcMillisCounts(Midnight(d));
    var n := MakeDay(d.year, d.month - 1, d.day);
    assert MakeTime(Midnight(d)) == 0;
    SplitDate(n, 0);
  }

  /**
   * Moving by days succeeds exactly when the offset is within the limit and the day that many days away
   * is a business date, and then that date is the result.
   */
  lemma AddDaysLands(d: CivilDate, days: int, e: CivilDate)
    requires IsBusinessDate(d) && IsCivil(e) && DiffDays(e, d) == days
    ensures AddDays(d, days).Ok? <==> 1 <= e.year <= 9999 && -3_650_000 <= days <= 3_650_000
    ensures AddDays(d, days).Ok? ==> AddDays(d, days).value == e
  {
    hide ToUtcMillis, FromUtcMillis, EpochDays, IsCivil;
    MidnightMillis(d);
    MidnightMillis(e);
    InstantRoundTrip(Midnight(e));
  }

  /** A successful move is undone by the opposite move and measured by the difference. */
  lemma AddDaysUndone(d: CivilDate, days: int)
    requires IsBusinessDate(d) && AddDays(d, days).Ok?
    ensures IsBusinessDate(AddDays(d, days).value)
    ensures DiffDays(AddDays(d, days).value, d) == days
    ensures AddDays(AddDays(d, days).value, -days) == Ok(d)
  {
    hide ToUtcMillis, FromUtcMillis, EpochDays, IsCivil;
    MidnightMillis(d);
    DayRoundTrip(EpochDays(d) + days);
    var e := FromUtcMillis((EpochDays(d) + days) * MILLIS_PER_DAY).date;
    AddDaysLands(d, days, e);
    AddDaysLands(e, -days, d);
  }
}
