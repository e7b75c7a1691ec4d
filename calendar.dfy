/** Points in time and the proleptic Gregorian calendar of .NET's `DateTime`. The
    source reads the clock with `DateTime.UtcNow`; here the time is always a parameter.
    An `Instant` counts whole seconds since 0001-01-01T00:00:00 UTC, the origin of
    `DateTime`. */
module Calendar {
  import opened Wrappers

  type Instant = nat

  const SecondsPerDay: nat := 86400

  /** The day number of an instant, counted from 0001-01-01 (`t.Date`). */
  function DayOf(t: Instant): nat {
    t / SecondsPerDay
  }

  /** `t.AddDays(n)`; `None` when the result would fall before 0001-01-01, where .NET
      throws. */
  function AddDays(t: Instant, n: int): (r: Option<Instant>)
    ensures r.Some? <==> t + n * SecondsPerDay >= 0
    ensures r.Some? ==> r.value - t == n * SecondsPerDay
  {
    if t + n * SecondsPerDay >= 0 then Some(t + n * SecondsPerDay) else None
  }

  /** `t.AddDays(days)` for a forward step, which cannot fall before the origin. */
  function Later(t: Instant, days: nat): (r: Instant)
    ensures r - t == days * SecondsPerDay
    ensures DayOf(r) == DayOf(t) + days
  {
    t + days * SecondsPerDay
  }

  /** `(later - earlier).Days`: the whole days in a non-negative time span. */
  function WholeDays(earlier: Instant, later: Instant): (n: nat)
    requires earlier <= later
    ensures n * SecondsPerDay <= later - earlier < (n + 1) * SecondsPerDay
  {
    (later - earlier) / SecondsPerDay
  }

  /** A calendar date. */
  datatype Civil = Civil(year: nat, month: nat, day: nat)

  predicate IsLeap(y: nat) {
    y % 4 == 0 && (y % 100 != 0 || y % 400 == 0)
  }

  function DaysInYear(y: nat): nat {
    if IsLeap(y) then 366 else 365
  }

  function DaysInMonth(y: nat, m: nat): (n: nat)
    ensures 1 <= m <= 12 ==> 28 <= n <= 31
  {
    if m == 2 then (if IsLeap(y) then 29 else 28)
    else if m == 4 || m == 6 || m == 9 || m == 11 then 30
    else if 1 <= m <= 12 then 31
    else 0
  }

  /** The days of year `y` from the start of month `m` to the end of the year. */
  function DaysFromMonth(y: nat, m: nat): nat
    decreases 13 - m
  {
    if m > 12 then 0 else DaysInMonth(y, m) + DaysFromMonth(y, m + 1)
  }

  lemma MonthsFillYear(y: nat)
    ensures DaysFromMonth(y, 1) == DaysInYear(y)
  {
    assert DaysFromMonth(y, 12) == 31;
    assert DaysFromMonth(y, 9) == 30 + 31 + 30 + 31;
    assert DaysFromMonth(y, 5) == 31 + 30 + 31 + 31 + 30 + 31 + 30 + 31;
  }

  /** Days in the 400-year cycle of the Gregorian calendar. */
  const DaysPer400Years: nat := 146097

  predicate ValidCivil(c: Civil) {
    1 <= c.year && 1 <= c.month <= 12 && 1 <= c.day <= DaysInMonth(c.year, c.month)
  }

  /** The year and day-of-year (from 0) of the `rest`-th day counted from 1 January
      of year `y`. */
  function YearOfDay(y: nat, rest: nat): (r: (nat, nat))
    requires 1 <= y
    ensures y <= r.0 && r.1 < DaysInYear(r.0)
    decreases rest
  {
    if rest < DaysInYear(y) then (y, rest) else YearOfDay(y + 1, rest - DaysInYear(y))
  }

  /** The month and day of the month of day-of-year `doy` (from 0), counted from the
      start of month `m`. */
  function MonthOfDay(y: nat, m: nat, doy: nat): (r: (nat, nat))
    requires 1 <= m <= 12 && doy < DaysFromMonth(y, m)
    ensures m <= r.0 <= 12 && 1 <= r.1 <= DaysInMonth(y, r.0)
    decreases 13 - m
  {
    if doy < DaysInMonth(y, m) then (m, doy + 1)
    else MonthOfDay(y, m + 1, doy - DaysInMonth(y, m))
  }

  /** The date of day number `d` (days since 0001-01-01). */
  function CivilFromDays(d: nat): (c: Civil)
    ensures ValidCivil(c)
  {
    var (y, doy) := YearOfDay(1 + 400 * (d / DaysPer400Years), d % DaysPer400Years);
    MonthsFillYear(y);
    var (m, day) := MonthOfDay(y, 1, doy);
    Civil(y, m, day)
  }

  /** The date of an instant (its `Year`, `Month` and `Day`). */
  function DateOf(t: Instant): (c: Civil)
    ensures ValidCivil(c)
  {
    CivilFromDays(DayOf(t))
  }

  /** The day number of 1 January of year `y`. */
  function DaysBeforeYear(y: nat): nat
    requires 1 <= y
  {
    var p := y - 1;
    365 * p + p / 4 - p / 100 + p / 400
  }

  /** The days of year `y` before the first of month `m`. */
  function DaysBeforeMonth(y: nat, m: nat): nat
    decreases m
  {
    if m <= 1 then 0 else DaysBeforeMonth(y, m - 1) + DaysInMonth(y, m - 1)
  }

  /** The day number of a date. */
  function DaysFromCivil(c: Civil): nat
    requires ValidCivil(c)
  {
    DaysBeforeYear(c.year) + DaysBeforeMonth(c.year, c.month) + c.day - 1
  }

  /** Going from `y - 1` to `y` adds a leap-year multiple exactly when it divides `y`. */
  lemma QuarterStep(y: nat)
    requires 1 <= y
    ensures y / 4 == (y - 1) / 4 + (if y % 4 == 0 then 1 else 0)
  {
  }

  lemma CenturyStep(y: nat)
    requires 1 <= y
    ensures y / 100 == (y - 1) / 100 + (if y % 100 == 0 then 1 else 0)
  {
  }

  lemma EraStep(y: nat)
    requires 1 <= y
    ensures y / 400 == (y - 1) / 400 + (if y % 400 == 0 then 1 else 0)
  {
  }

  /** Year `y` adds one to the count of leap years before it exactly when it is leap. */
  lemma LeapYearsStep(y: nat)
    requires 1 <= y
    ensures (y / 4 - y / 100 + y / 400) - ((y - 1) / 4 - (y - 1) / 100 + (y - 1) / 400)
            == DaysInYear(y) - 365
  {
    QuarterStep(y);
    CenturyStep(y);
    EraStep(y);
    if y % 400 == 0 {
      assert y % 100 == 0 && y % 4 == 0;
    } else if y % 100 == 0 {
      assert y % 4 == 0;
    }
  }

  lemma DaysBeforeNextYear(y: nat)
    requires 1 <= y
    ensures DaysBeforeYear(y + 1) == DaysBeforeYear(y) + DaysInYear(y)
  {
    LeapYearsStep(y);
  }

  lemma EraStart(era: nat)
    ensures DaysBeforeYear(1 + 400 * era) == DaysPer400Years * era
  {
  }

  lemma {:induction false} YearOfDayCounts(y: nat, rest: nat)
    requires 1 <= y
    ensures DaysBeforeYear(YearOfDay(y, rest).0) + YearOfDay(y, rest).1 == DaysBeforeYear(y) + rest
    decreases rest
  {
    if rest >= DaysInYear(y) {
      YearOfDayCounts(y + 1, rest - DaysInYear(y));
      DaysBeforeNextYear(y);
    }
  }

  lemma {:induction false} MonthOfDayCounts(y: nat, m: nat, doy: nat)
    requires 1 <= m <= 12 && doy < DaysFromMonth(y, m)
    ensures DaysBeforeMonth(y, MonthOfDay(y, m, doy).0) + MonthOfDay(y, m, doy).1 - 1
            == DaysBeforeMonth(y, m) + doy
    decreases 13 - m
  {
    if doy >= DaysInMonth(y, m) {
      MonthOfDayCounts(y, m + 1, doy - DaysInMonth(y, m));
    }
  }

  /** The year found for day number `d` starts `doy` days before `d`. */
  lemma YearOfDayNumber(d: nat)
    ensures var yd := YearOfDay(1 + 400 * (d / DaysPer400Years), d % DaysPer400Years);
            DaysBeforeYear(yd.0) + yd.1 == d
  {
    var era, rest := d / DaysPer400Years, d % DaysPer400Years;
    EraStart(era);
    YearOfDayCounts(1 + 400 * era, rest);
  }

  /** Reading the date of a day number and counting the days back to it gives the same
      day number: the two conversions agree. */
  lemma CivilRoundTrip(d: nat)
    ensures DaysFromCivil(CivilFromDays(d)) == d
  {
    YearOfDayNumber(d);
    var yd := YearOfDay(1 + 400 * (d / DaysPer400Years), d % DaysPer400Years);
    var y, doy := yd.0, yd.1;
    MonthsFillYear(y);
    MonthOfDayCounts(y, 1, doy);
    var md := MonthOfDay(y, 1, doy);
    assert CivilFromDays(d) == Civil(y, md.0, md.1);
  }

  /** The first instant of the month of `t`: `new DateTime(t.Year, t.Month, 1)`. */
  function StartOfMonth(t: Instant): Instant {
    var c := DateOf(t);
    DaysFromCivil(Civil(c.year, c.month, 1)) * SecondsPerDay
  }

  /** The first of the month is at most `t` and falls `day - 1` whole days before the
      day of `t`, so less than 31 days before it. */
  lemma StartOfMonthBefore(t: Instant)
    ensures DayOf(StartOfMonth(t)) + DateOf(t).day - 1 == DayOf(t)
    ensures StartOfMonth(t) <= t
    ensures t - StartOfMonth(t) < 31 * SecondsPerDay
  {
    var c := DateOf(t);
    CivilRoundTrip(DayOf(t));
    assert DaysFromCivil(Civil(c.year, c.month, 1)) + c.day - 1 == DayOf(t);
  }

  /** `t.AddMonths(-k)` for 0 <= k <= 12: the same day and time `k` months earlier, the
      day clipped to the length of the earlier month; `None` when that falls before
      year 1, where .NET throws. */
  function MonthsBefore(t: Instant, k: nat): (r: Option<Instant>)
    requires k <= 12
  {
    var c := DateOf(t);
    var (y, m) := if c.month > k then (c.year, c.month - k) else (c.year - 1, c.month + 12 - k);
    if y < 1 then None
    else
      var day := if c.day <= DaysInMonth(y, m) then c.day else DaysInMonth(y, m);
      Some(DaysFromCivil(Civil(y, m, day)) * SecondsPerDay + t % SecondsPerDay)
  }
}
