/** The proleptic Gregorian calendar of `datetime.date`, and `period_bounds` (`indexing/periods.py`). */
module Calendar {

  datatype Date = Date(year: int, month: int, day: int)

  datatype PeriodType = WEEKLY | MONTHLY

  predicate IsLeap(year: int) {
    year % 4 == 0 && (year % 100 != 0 || year % 400 == 0)
  }

  /** `calendar.monthrange(year, month)[1]`. */
  function DaysInMonth(year: int, month: int): (days: int)
    requires 1 <= month <= 12
    ensures 28 <= days <= 31
  {
    if month == 2 then (if IsLeap(year) then 29 else 28)
    else if month in {4, 6, 9, 11} then 30
    else 31
  }

  predicate Valid(d: Date) {
    d.year >= 1 && 1 <= d.month <= 12 && 1 <= d.day <= DaysInMonth(d.year, d.month)
  }

  /** The dates that exist. */
  type CalendarDate = d: Date | Valid(d) witness Date(1, 1, 1)

  function DaysBeforeYear(year: int): int {
    var y := year - 1;
    y * 365 + y / 4 - y / 100 + y / 400
  }

  function DaysBeforeMonth(year: int, month: int): int
    requires 1 <= month <= 13
  {
    if month == 1 then 0 else DaysBeforeMonth(year, month - 1) + DaysInMonth(year, month - 1)
  }

  /** `date.toordinal()`: day 1 is 1 January of year 1. */
  function Ordinal(d: Date): int
    requires 1 <= d.month <= 12
  {
    DaysBeforeYear(d.year) + DaysBeforeMonth(d.year, d.month) + d.day
  }

  /** `date.weekday()`: Monday is 0. */
  function Weekday(ordinal: int): (w: int)
    ensures 0 <= w < 7
  {
    (ordinal + 6) % 7
  }

  /** First and last day of the period containing `d`, as ordinals. */
  function PeriodStart(d: Date, period: PeriodType): int
    requires Valid(d)
  {
    match period
    case WEEKLY => Ordinal(d) - Weekday(Ordinal(d))
    case MONTHLY => Ordinal(d.(day := 1))
  }

  function PeriodEnd(d: Date, period: PeriodType): int
    requires Valid(d)
  {
    match period
    case WEEKLY => PeriodStart(d, WEEKLY) + 6
    case MONTHLY => Ordinal(d.(day := DaysInMonth(d.year, d.month)))
  }

  /** `(end - start).days + 1`. */
  function ExpectedDays(d: Date, period: PeriodType): int
    requires Valid(d)
  {
    PeriodEnd(d, period) - PeriodStart(d, period) + 1
  }

  // ---------------------------------------------------------------------------------------------

  lemma DivisionSteps(y: int, k: int)
    requires k in {4, 100, 400}
    ensures y / k - (y - 1) / k == (if y % k == 0 then 1 else 0)
  {
  }

  function Bit(b: bool): int {
    if b then 1 else 0
  }

  lemma LeapByDivisors(y: int)
    ensures Bit(y % 4 == 0) - Bit(y % 100 == 0) + Bit(y % 400 == 0) == Bit(IsLeap(y))
  {
    var c, q := y / 100, y / 400;
    assert y % 100 == 0 ==> y == 4 * (25 * c);
    assert y % 400 == 0 ==> y == 100 * (4 * q);
  }

  lemma YearLength(year: int)
    ensures DaysBeforeYear(year + 1) - DaysBeforeYear(year) == (if IsLeap(year) then 366 else 365)
  {
    var leaps := year / 4 - year / 100 + year / 400;
    var before := (year - 1) / 4 - (year - 1) / 100 + (year - 1) / 400;
    assert leaps - before == Bit(IsLeap(year)) by {
      hide IsLeap;
      DivisionSteps(year, 4);
      DivisionSteps(year, 100);
      DivisionSteps(year, 400);
      LeapByDivisors(year);
    }
    hide IsLeap;
    assert DaysBeforeYear(year + 1) == year * 365 + leaps;
    assert DaysBeforeYear(year) == (year - 1) * 365 + before;
  }

  lemma YearsMonotone(y: int, z: int)
    requires y <= z
    ensures DaysBeforeYear(y) + 365 * (z - y) <= DaysBeforeYear(z)
    decreases z - y
  {
    if y < z {
      YearsMonotone(y, z - 1);
      YearLength(z - 1);
    }
  }

  lemma MonthsFillYear(year: int)
    ensures DaysBeforeMonth(year, 13) == (if IsLeap(year) then 366 else 365)
  {
    assert DaysBeforeMonth(year, 2) == 31 && DaysBeforeMonth(year, 3) == 31 + DaysInMonth(year, 2);
    var march := DaysBeforeMonth(year, 3);
    assert DaysBeforeMonth(year, 4) == march + 31 && DaysBeforeMonth(year, 5) == march + 61;
    assert DaysBeforeMonth(year, 6) == march + 92 && DaysBeforeMonth(year, 7) == march + 122;
    assert DaysBeforeMonth(year, 8) == march + 153 && DaysBeforeMonth(year, 9) == march + 184;
    assert DaysBeforeMonth(year, 10) == march + 214 && DaysBeforeMonth(year, 11) == march + 245;
    assert DaysBeforeMonth(year, 12) == march + 275 && DaysBeforeMonth(year, 13) == march + 306;
  }

  lemma {:induction false} MonthsMonotone(year: int, m: int, n: int)
    requires 1 <= m < n <= 13
    ensures DaysBeforeMonth(year, m) + DaysInMonth(year, m) <= DaysBeforeMonth(year, n)
    decreases n - m
  {
    if m < n - 1 {
      MonthsMonotone(year, m, n - 1);
    }
  }

  predicate MonthBefore(d: Date, e: Date) {
    d.year < e.year || (d.year == e.year && d.month < e.month)
  }

  /** The whole of an earlier month precedes the whole of a later one. */
  lemma MonthsDoNotOverlap(d: Date, e: Date)
    requires Valid(d) && Valid(e) && MonthBefore(d, e)
    ensures PeriodEnd(d, MONTHLY) < PeriodStart(e, MONTHLY)
  {
    hide IsLeap;
    if d.year < e.year {
      MonthsMonotone(d.year, d.month, 13);
      MonthsFillYear(d.year);
      YearLength(d.year);
      YearsMonotone(d.year + 1, e.year);
      if e.month > 1 {
        MonthsMonotone(e.year, 1, e.month);
      }
    } else {
      MonthsMonotone(d.year, d.month, e.month);
    }
  }

  /** Different dates have different ordinals. */
  lemma OrdinalInjective(d: Date, e: Date)
    requires Valid(d) && Valid(e) && Ordinal(d) == Ordinal(e)
    ensures d == e
  {
    hide DaysInMonth, DaysBeforeMonth, DaysBeforeYear;
    if MonthBefore(d, e) {
      MonthsDoNotOverlap(d, e);
    } else if MonthBefore(e, d) {
      MonthsDoNotOverlap(e, d);
    }
  }

  /** Every date lies in its own period, which has seven days or the month's days. */
  lemma OwnPeriod(d: Date, period: PeriodType)
    requires Valid(d)
    ensures PeriodStart(d, period) <= Ordinal(d) <= PeriodEnd(d, period)
    ensures ExpectedDays(d, period) == (if period == WEEKLY then 7 else DaysInMonth(d.year, d.month))
    ensures ExpectedDays(d, period) > 0
  {
  }

  lemma SameWeek(n: int, m: int)
    ensures n - Weekday(n) <= m <= n - Weekday(n) + 6 <==> n - Weekday(n) == m - Weekday(m)
  {
  }

  /** Each kind of period partitions the calendar: a date lies within the bounds of another exactly
      when the two have the same bounds. */
  lemma PeriodsPartition(d: Date, e: Date, period: PeriodType)
    requires Valid(d) && Valid(e)
    ensures PeriodStart(d, period) <= Ordinal(e) <= PeriodEnd(d, period)
       <==> PeriodStart(e, period) == PeriodStart(d, period)
    ensures PeriodStart(e, period) == PeriodStart(d, period) ==> PeriodEnd(e, period) == PeriodEnd(d, period)
  {
    match period
    case WEEKLY =>
      SameWeek(Ordinal(d), Ordinal(e));
    case MONTHLY =>
      OwnPeriod(d, MONTHLY);
      OwnPeriod(e, MONTHLY);
      hide DaysInMonth, Ordinal;
      if MonthBefore(d, e) {
        MonthsDoNotOverlap(d, e);
      } else if MonthBefore(e, d) {
        MonthsDoNotOverlap(e, d);
      } else {
        assert d.(day := 1) == e.(day := 1);
      }
  }

  /** The day after `d`. */
  function NextDate(d: Date): Date
    requires Valid(d)
  {
    if d.day < DaysInMonth(d.year, d.month) then d.(day := d.day + 1)
    else if d.month < 12 then Date(d.year, d.month + 1, 1)
    else Date(d.year + 1, 1, 1)
  }

  lemma FirstDay()
    ensures Ordinal(Date(1, 1, 1)) == 1
  {
  }

  lemma NextMonthFirst(year: int, month: int)
    requires 1 <= month < 12
    ensures Ordinal(Date(year, month + 1, 1)) == Ordinal(Date(year, month, DaysInMonth(year, month))) + 1
  {
    hide DaysInMonth, DaysBeforeYear;
  }

  lemma NextYearFirst(year: int)
    ensures Ordinal(Date(year + 1, 1, 1)) == Ordinal(Date(year, 12, 31)) + 1
  {
    MonthsFillYear(year);
    YearLength(year);
    December(year);
    hide IsLeap, DaysBeforeYear, DaysInMonth;
  }

  lemma December(year: int)
    ensures DaysBeforeMonth(year, 13) == DaysBeforeMonth(year, 12) + 31
  {
  }

  /** Ordinals count the days from 1 January of year 1. */
  lemma OrdinalCounts(d: Date)
    requires Valid(d)
    ensures Ordinal(Date(1, 1, 1)) == 1
    ensures Valid(NextDate(d)) && Ordinal(NextDate(d)) == Ordinal(d) + 1
  {
    hide *;
    FirstDay();
    ValidParts(d);
    if d.day < DaysInMonth(d.year, d.month) {
      SameMonthNext(d);
    } else if d.month < 12 {
      NextMonthFirst(d.year, d.month);
      NextMonthDate(d);
    } else {
      NextYearFirst(d.year);
      NextYearDate(d);
    }
  }

  lemma ValidParts(d: Date)
    requires Valid(d)
    ensures 1 <= d.month <= 12
  {
  }

  lemma NextMonthDate(d: Date)
    requires Valid(d) && d.day >= DaysInMonth(d.year, d.month) && d.month < 12
    ensures NextDate(d) == Date(d.year, d.month + 1, 1) && Valid(NextDate(d))
    ensures d == Date(d.year, d.month, DaysInMonth(d.year, d.month))
  {
    hide DaysInMonth;
  }

  lemma NextYearDate(d: Date)
    requires Valid(d) && d.day >= DaysInMonth(d.year, d.month) && d.month >= 12
    ensures NextDate(d) == Date(d.year + 1, 1, 1) && Valid(NextDate(d)) && d == Date(d.year, 12, 31)
  {
    hide IsLeap;
  }

  lemma SameMonthNext(d: Date)
    requires Valid(d) && d.day < DaysInMonth(d.year, d.month)
    ensures NextDate(d) == d.(day := d.day + 1) && Valid(NextDate(d)) && Ordinal(NextDate(d)) == Ordinal(d) + 1
  {
    hide DaysInMonth, DaysBeforeMonth, DaysBeforeYear;
  }

  /** A week runs from Monday to Sunday, Mondays being the days a whole number of weeks from Monday 1 January of
      year 1; a month holds exactly the dates of its year and month. */
  lemma BoundsAre(d: Date, e: Date)
    requires Valid(d) && Valid(e)
    ensures PeriodStart(d, WEEKLY) % 7 == 1 && PeriodEnd(d, WEEKLY) == PeriodStart(d, WEEKLY) + 6
    ensures PeriodStart(d, WEEKLY) <= Ordinal(d) <= PeriodEnd(d, WEEKLY)
    ensures PeriodStart(d, MONTHLY) <= Ordinal(e) <= PeriodEnd(d, MONTHLY) <==> e.year == d.year && e.month == d.month
    ensures PeriodStart(d, MONTHLY) == Ordinal(Date(d.year, d.month, 1))
    ensures PeriodEnd(d, MONTHLY) + 1 == Ordinal(NextDate(d.(day := DaysInMonth(d.year, d.month))))
    ensures 1 <= d.month <= 12
    ensures PeriodEnd(d, MONTHLY) - PeriodStart(d, MONTHLY) + 1
            == [31, 28, 31, 30, 31, 30, 31, 31, 30, 31, 30, 31][d.month - 1]
               + (if d.month == 2 && d.year % 4 == 0 && (d.year % 100 != 0 || d.year % 400 == 0) then 1 else 0)
  {
    MonthIsOwn(d, e);
    WeekIs(d);
    MonthEnds(d);
    OwnPeriod(d, MONTHLY);
    ValidParts(d);
    MonthLengths(d.year, d.month);
    ExpectedIs(d);
    hide *;
  }

  lemma MonthLengths(year: int, month: int)
    requires 1 <= month <= 12
    ensures DaysInMonth(year, month)
            == [31, 28, 31, 30, 31, 30, 31, 31, 30, 31, 30, 31][month - 1]
               + (if month == 2 && year % 4 == 0 && (year % 100 != 0 || year % 400 == 0) then 1 else 0)
  {
  }

  lemma ExpectedIs(d: Date)
    requires Valid(d)
    ensures ExpectedDays(d, MONTHLY) == PeriodEnd(d, MONTHLY) - PeriodStart(d, MONTHLY) + 1
  {
    hide PeriodStart, PeriodEnd;
  }

  lemma WeekIs(d: Date)
    requires Valid(d)
    ensures PeriodStart(d, WEEKLY) % 7 == 1 && PeriodEnd(d, WEEKLY) == PeriodStart(d, WEEKLY) + 6
    ensures PeriodStart(d, WEEKLY) <= Ordinal(d) <= PeriodEnd(d, WEEKLY)
  {
    MondayFirst(Ordinal(d));
    hide Ordinal;
  }

  lemma MonthEnds(d: Date)
    requires Valid(d)
    ensures PeriodStart(d, MONTHLY) == Ordinal(Date(d.year, d.month, 1))
    ensures PeriodEnd(d, MONTHLY) + 1 == Ordinal(NextDate(d.(day := DaysInMonth(d.year, d.month))))
  {
    hide *;
    MonthlyBounds(d);
    OrdinalCounts(d.(day := DaysInMonth(d.year, d.month)));
  }

  lemma MonthlyBounds(d: Date)
    requires Valid(d)
    ensures PeriodStart(d, MONTHLY) == Ordinal(Date(d.year, d.month, 1))
    ensures PeriodEnd(d, MONTHLY) == Ordinal(d.(day := DaysInMonth(d.year, d.month)))
    ensures Valid(d.(day := DaysInMonth(d.year, d.month))) && 1 <= d.month <= 12
  {
    hide Ordinal, DaysInMonth;
    assert d.(day := 1) == Date(d.year, d.month, 1);
  }

  lemma MondayFirst(n: int)
    ensures (n - Weekday(n)) % 7 == 1
  {
  }

  lemma MonthIsOwn(d: Date, e: Date)
    requires Valid(d) && Valid(e)
    ensures PeriodStart(d, MONTHLY) <= Ordinal(e) <= PeriodEnd(d, MONTHLY) <==> e.year == d.year && e.month == d.month
  {
    OwnPeriod(d, MONTHLY);
    OwnPeriod(e, MONTHLY);
    hide DaysInMonth, Ordinal;
    if MonthBefore(d, e) {
      MonthsDoNotOverlap(d, e);
    } else if MonthBefore(e, d) {
      MonthsDoNotOverlap(e, d);
    } else {
      assert d.(day := 1) == e.(day := 1);
    }
  }
}
