/**
 Billing periods: the start the backend computes (backend/app/routers/settings.py) and the end the
 frontend projects for it (frontend/lib/format.ts), on the proleptic Gregorian calendar both use.
 */
module Calendar {
  import opened Options

  datatype Date = Date(year: int, month: int, day: int)

  predicate LeapYear(y: int) {
    y % 4 == 0 && (y % 100 != 0 || y % 400 == 0)
  }

  function DaysInMonth(y: int, m: int): (n: int)
    ensures 28 <= n <= 31
  {
    if m == 2 then (if LeapYear(y) then 29 else 28)
    else if m in {4, 6, 9, 11} then 30 else 31
  }

  // The dates of the backend start with year 1.
  predicate Valid(d: Date) {
    1 <= d.year && 1 <= d.month <= 12 && 1 <= d.day <= DaysInMonth(d.year, d.month)
  }

  predicate Le(a: Date, b: Date) {
    a.year < b.year || (a.year == b.year && (a.month < b.month || (a.month == b.month && a.day <= b.day)))
  }

  function NextDay(d: Date): Date {
    if d.day < DaysInMonth(d.year, d.month) then d.(day := d.day + 1)
    else if d.month < 12 then Date(d.year, d.month + 1, 1)
    else Date(d.year + 1, 1, 1)
  }

  function PreviousDay(d: Date): Date {
    if 1 < d.day then d.(day := d.day - 1)
    else if 1 < d.month then Date(d.year, d.month - 1, DaysInMonth(d.year, d.month - 1))
    else Date(d.year - 1, 12, 31)
  }

  // The number of days before a year, and before a month of a common one, from 1 January of year 1.
  function DaysBeforeYear(y: int): int {
    365 * (y - 1) + (y - 1) / 4 - (y - 1) / 100 + (y - 1) / 400
  }

  function DaysBeforeMonth(m: int): int {
    (367 * m - 362) / 12 - (if m <= 2 then 0 else 2)
  }

  // The years and months are those of the Gregorian calendar, reckoned by counting days.
  lemma YearsAndMonthsAreGregorian(y: int, m: int)
    requires 1 <= y && 1 <= m <= 12
    ensures DaysBeforeYear(y + 1) - DaysBeforeYear(y) == if LeapYear(y) then 366 else 365
    ensures var leapDay := if m == 2 && LeapYear(y) then 1 else 0;
            DaysInMonth(y, m) == (if m == 12 then 365 else DaysBeforeMonth(m + 1)) - DaysBeforeMonth(m) + leapDay
  {
    CountedByFours(y);
  }

  // A division steps up exactly at the multiples of its divisor.
  lemma CountedByFours(y: int)
    requires 1 <= y
    ensures y / 4 - (y - 1) / 4 == if y % 4 == 0 then 1 else 0
    ensures y / 100 - (y - 1) / 100 == if y % 100 == 0 then 1 else 0
    ensures y / 400 - (y - 1) / 400 == if y % 400 == 0 then 1 else 0
    ensures y % 400 == 0 ==> y % 100 == 0
    ensures y % 100 == 0 ==> y % 4 == 0
  {
  }

  lemma NextDayIsTheSuccessor(d: Date, x: Date)
    requires Valid(d) && Valid(x)
    ensures Valid(NextDay(d)) && PreviousDay(NextDay(d)) == d
    ensures Le(x, d) <==> !Le(NextDay(d), x)
  {
  }

  // Today's month when the cycle day has been reached, else the month before.  Stepping back from the
  // first month of year 1 overflows.
  function CurrentPeriodStart(today: Date, cycleDay: int): Option<Date> {
    if cycleDay <= today.day then Some(today.(day := cycleDay))
    else
      var lastOfPrevious := PreviousDay(Date(today.year, today.month, 1));
      if lastOfPrevious.year < 1 then None
      else Some(Date(lastOfPrevious.year, lastOfPrevious.month, cycleDay))
  }

  // The Date constructor reads the years 0..99 as 1900..1999, then carries months past December.
  function JsDate(year: int, month0: int, day: int): Date
    requires 0 <= month0 <= 12 && 1 <= day <= 28
  {
    var full := if 0 <= year <= 99 then 1900 + year else year;
    if month0 == 12 then Date(full + 1, 1, day) else Date(full, month0 + 1, day)
  }

  // The day before the next occurrence of the cycle day.
  function ProjectedPeriodEnd(start: Date, cycleDay: int): Option<Date>
    requires Valid(start)
  {
    if cycleDay < 1 || 28 < cycleDay then None
    else Some(PreviousDay(JsDate(start.year, start.month, cycleDay)))
  }

  // The computed start is the latest date on or before today with the cycle day, and there is one unless
  // today comes before the cycle day of the first month of all.
  lemma StartIsTheLatestCycleDay(today: Date, cycleDay: int, x: Date)
    requires Valid(today) && 1 <= cycleDay <= 28
    ensures CurrentPeriodStart(today, cycleDay).None? <==> today.year == 1 && today.month == 1 && today.day < cycleDay
    ensures CurrentPeriodStart(today, cycleDay).Some? ==>
              var start := CurrentPeriodStart(today, cycleDay).value;
              && Valid(start) && start.day == cycleDay && Le(start, today)
              && (Valid(x) && x.day == cycleDay && Le(x, today) ==> Le(x, start))
    ensures CurrentPeriodStart(today, cycleDay).None? && Valid(x) && x.day == cycleDay ==> !Le(x, today)
  {
  }

  // Every date from year 100 on lies in the interval from its computed start to the end projected for
  // that start; the day after that end starts the next period; and the dates of the interval are exactly
  // those with this start.  So the intervals are disjoint and leave no date out.
  lemma PeriodsTileTheCalendar(today: Date, cycleDay: int, x: Date)
    requires Valid(today) && Valid(x) && 1 <= cycleDay <= 28
    requires CurrentPeriodStart(today, cycleDay).Some? && 100 <= CurrentPeriodStart(today, cycleDay).value.year
    ensures var start := CurrentPeriodStart(today, cycleDay).value;
            var projected := ProjectedPeriodEnd(start, cycleDay);
            && projected.Some? && Valid(projected.value)
            && Le(start, today) && Le(today, projected.value)
            && CurrentPeriodStart(NextDay(projected.value), cycleDay) == Some(NextDay(projected.value))
            && (Le(start, x) && Le(x, projected.value) <==> CurrentPeriodStart(x, cycleDay) == Some(start))
  {
    var start := CurrentPeriodStart(today, cycleDay).value;
    var next := JsDate(start.year, start.month, cycleDay);
    assert Valid(next) && NextDay(PreviousDay(next)) == next;
    NextDayIsTheSuccessor(PreviousDay(next), x);
    NextDayIsTheSuccessor(PreviousDay(next), today);
  }

  predicate Before(a: Date, b: Date) {
    Le(a, b) && a != b
  }

  // The first date after another one with a given day of the month.
  ghost predicate NextOccurrence(start: Date, day: int, next: Date) {
    && Valid(next) && next.day == day && Before(start, next)
    && forall x :: Valid(x) && x.day == day && Before(start, x) ==> Le(next, x)
  }

  // From any start, on the cycle day or not, the projected end is the day before the next occurrence of the
  // cycle day exactly when that day is not still to come in the start's own month, and the start's year is
  // not read as another one.
  lemma EndPrecedesNextOccurrenceIff(start: Date, cycleDay: int)
    requires Valid(start)
    ensures ProjectedPeriodEnd(start, cycleDay).Some? <==> 1 <= cycleDay <= 28
    ensures 1 <= cycleDay <= 28 ==>
              (NextOccurrence(start, cycleDay, NextDay(ProjectedPeriodEnd(start, cycleDay).value))
               <==> cycleDay <= start.day && 100 <= start.year)
  {
    if 1 <= cycleDay <= 28 {
      var next := JsDate(start.year, start.month, cycleDay);
      assert NextDay(PreviousDay(next)) == next;
      var soon := Date(start.year, start.month, cycleDay);
      var following := if start.month == 12 then Date(start.year + 1, 1, cycleDay)
                   else Date(start.year, start.month + 1, cycleDay);
      assert Valid(soon) && Valid(following) && Before(start, following);
    }
  }

  // A start in the years 1 to 99 is taken for the same date 1900 years later.
  lemma EarlyYearsAreReadAsLaterOnes(start: Date, cycleDay: int)
    requires Valid(start) && start.year < 100
    ensures Valid(start.(year := start.year + 1900))
    ensures ProjectedPeriodEnd(start, cycleDay) == ProjectedPeriodEnd(start.(year := start.year + 1900), cycleDay)
  {
  }

  // After an early close the period starts in mid-month: from 15 May with cycle day 20 the code projects
  // 19 June, though the cycle day comes round on 20 May.
  lemma MidMonthStartsOvershoot()
    ensures ProjectedPeriodEnd(Date(2026, 5, 15), 20) == Some(Date(2026, 6, 19))
    ensures NextOccurrence(Date(2026, 5, 15), 20, Date(2026, 5, 20))
  {
  }

  // The century reading is the only obstacle: the projected end belongs to its start's period exactly
  // when that start is in year 100 or later.
  lemma EndBelongsToItsPeriodIff(today: Date, cycleDay: int)
    requires Valid(today) && 1 <= cycleDay <= 28
    requires CurrentPeriodStart(today, cycleDay).Some?
    ensures var start := CurrentPeriodStart(today, cycleDay).value;
            CurrentPeriodStart(ProjectedPeriodEnd(start, cycleDay).value, cycleDay) == Some(start) <==>
                100 <= start.year
  {
    var start := CurrentPeriodStart(today, cycleDay).value;
    var end := ProjectedPeriodEnd(start, cycleDay).value;
    StartIsTheLatestCycleDay(today, cycleDay, start);
    StartIsTheLatestCycleDay(end, cycleDay, end);
    if 100 <= start.year {
      PeriodsTileTheCalendar(today, cycleDay, end);
      var next := JsDate(start.year, start.month, cycleDay);
      assert NextDay(end) == next;
    }
  }
}
