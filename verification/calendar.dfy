/** The proleptic Gregorian calendar of Python's naive `datetime`: civil
    fields, a day count used as the reference for date arithmetic, and
    `date + timedelta(days = n)`. */
module Calendar {

  /** A naive date-time to the second. */
  datatype DateTime = DateTime(year: int, month: int, day: int, hour: int, minute: int, second: int)

  predicate IsLeap(y: int) {
    y % 4 == 0 && (y % 100 != 0 || y % 400 == 0)
  }

  function DaysInMonth(y: int, m: int): int {
    if m == 2 then (if IsLeap(y) then 29 else 28)
    else if m == 4 || m == 6 || m == 9 || m == 11 then 30
    else 31
  }

  predicate ValidDate(y: int, m: int, d: int) {
    1 <= m <= 12 && 1 <= d <= DaysInMonth(y, m)
  }

  predicate Valid(t: DateTime) {
    && ValidDate(t.year, t.month, t.day)
    && 0 <= t.hour < 24 && 0 <= t.minute < 60 && 0 <= t.second < 60
  }

  /** The values a Python `datetime` can hold (years 1 to 9999). */
  predicate InRange(t: DateTime) {
    Valid(t) && 1 <= t.year <= 9999
  }

  /** Midnight of the same day. */
  function Midnight(t: DateTime): DateTime {
    t.(hour := 0, minute := 0, second := 0)
  }

  /** Days in the years before `y` of a calendar whose years start on
      1 March (so that the leap day ends its year). */
  function Cum(y: int): int {
    365 * y + y / 4 - y / 100 + y / 400
  }

  /** Days from 1 March of the month-shifted year to the first of the month. */
  function MonthOffset(m: int): int {
    var mp := if m > 2 then m - 3 else m + 9;
    (153 * mp + 2) / 5
  }

  /** The year a date belongs to when years start on 1 March. */
  function ShiftedYear(y: int, m: int): int {
    if m <= 2 then y - 1 else y
  }

  /** Days from 1970-01-01 to the date of `t` (Gregorian days-from-civil). */
  function DayNumber(t: DateTime): int {
    Cum(ShiftedYear(t.year, t.month)) + MonthOffset(t.month) + t.day - 1 - 719468
  }

  function SecondOfDay(t: DateTime): int {
    3600 * t.hour + 60 * t.minute + t.second
  }

  /** Chronological order. */
  predicate Before(a: DateTime, b: DateTime) {
    DayNumber(a) < DayNumber(b) || (DayNumber(a) == DayNumber(b) && SecondOfDay(a) < SecondOfDay(b))
  }

  lemma DivStep4(y: int)
    ensures y / 4 - (y - 1) / 4 == (if y % 4 == 0 then 1 else 0)
  {
  }

  lemma DivStep100(y: int)
    ensures y / 100 - (y - 1) / 100 == (if y % 100 == 0 then 1 else 0)
  {
  }

  lemma DivStep400(y: int)
    ensures y / 400 - (y - 1) / 400 == (if y % 400 == 0 then 1 else 0)
  {
  }

  /** A shifted year ending in February of year `y` has 365 days, plus the
      leap day when `y` is a leap year. */
  lemma CumStep(y: int)
    ensures Cum(y) - Cum(y - 1) == 365 + (if IsLeap(y) then 1 else 0)
  {
    DivStep4(y);
    DivStep100(y);
    DivStep400(y);
  }

  /** The calendar day after the date of `t`, same time of day. */
  function NextDay(t: DateTime): (r: DateTime)
    requires Valid(t)
    ensures Valid(r) && r.hour == t.hour && r.minute == t.minute && r.second == t.second
    ensures DayNumber(r) == DayNumber(t) + 1
  {
    if t.day < DaysInMonth(t.year, t.month) then t.(day := t.day + 1)
    else if t.month < 12 then
      (if t.month == 2 then CumStep(t.year); t.(month := 3, day := 1)
       else t.(month := t.month + 1, day := 1))
    else t.(year := t.year + 1, month := 1, day := 1)
  }

  /** The calendar day before the date of `t`, same time of day. */
  function PrevDay(t: DateTime): (r: DateTime)
    requires Valid(t)
    ensures Valid(r) && r.hour == t.hour && r.minute == t.minute && r.second == t.second
    ensures DayNumber(r) == DayNumber(t) - 1
  {
    if t.day > 1 then t.(day := t.day - 1)
    else if t.month > 1 then
      (if t.month == 3 then CumStep(t.year); t.(month := 2, day := DaysInMonth(t.year, 2))
       else t.(month := t.month - 1, day := DaysInMonth(t.year, t.month - 1)))
    else t.(year := t.year - 1, month := 12, day := 31)
  }

  /** `t + timedelta(days = n)`: moves the date `n` calendar days (backwards
      when `n` is negative) and keeps the time of day. */
  function AddDays(t: DateTime, n: int): (r: DateTime)
    requires Valid(t)
    ensures Valid(r)
    ensures r.hour == t.hour && r.minute == t.minute && r.second == t.second
    ensures DayNumber(r) == DayNumber(t) + n
    decreases if n < 0 then -n else n
  {
    if n > 0 then AddDays(NextDay(t), n - 1)
    else if n < 0 then AddDays(PrevDay(t), n + 1)
    else t
  }
  /** `Cum` grows by at least a year's worth of days per year. */
  lemma {:induction false} CumMonotone(a: int, b: int)
    requires a < b
    ensures Cum(a) + 365 <= Cum(b)
    decreases b - a
  {
    CumStep(b);
    if a < b - 1 {
      CumMonotone(a, b - 1);
    }
  }

  /** Day of the shifted year: 0 on 1 March. */
  function DayOfShiftedYear(t: DateTime): int {
    MonthOffset(t.month) + t.day - 1
  }

  /** A valid date falls inside its shifted year. */
  lemma DayOfShiftedYearBounds(t: DateTime)
    requires Valid(t)
    ensures 0 <= DayOfShiftedYear(t)
    ensures DayOfShiftedYear(t) < Cum(ShiftedYear(t.year, t.month) + 1) - Cum(ShiftedYear(t.year, t.month))
  {
    CumStep(ShiftedYear(t.year, t.month) + 1);
  }

  /** The day of the shifted year determines the month. */
  lemma MonthFromDayOfShiftedYear(t: DateTime)
    requires Valid(t)
    ensures (5 * DayOfShiftedYear(t) + 2) / 153 == (if t.month > 2 then t.month - 3 else t.month + 9)
  {
  }

  /** Two valid dates with the same day number are the same date, so the
      day number is a faithful reference for the calendar. */
  lemma DayNumberInjective(a: DateTime, b: DateTime)
    requires Valid(a) && Valid(b)
    requires DayNumber(a) == DayNumber(b)
    ensures a.year == b.year && a.month == b.month && a.day == b.day
  {
    var ya := ShiftedYear(a.year, a.month);
    var yb := ShiftedYear(b.year, b.month);
    DayOfShiftedYearBounds(a);
    DayOfShiftedYearBounds(b);
    if ya < yb {
      CumMonotone(ya, yb);
      if ya + 1 < yb {
        CumMonotone(ya + 1, yb);
      }
      assert false;
    } else if yb < ya {
      CumMonotone(yb, ya);
      if yb + 1 < ya {
        CumMonotone(yb + 1, ya);
      }
      assert false;
    }
    MonthFromDayOfShiftedYear(a);
    MonthFromDayOfShiftedYear(b);
  }

  /** `AddDays` returns the one valid date-time that is `n` days away and
      keeps the time of day. */
  lemma AddDaysUnique(t: DateTime, n: int, u: DateTime)
    requires Valid(t) && Valid(u)
    requires u.hour == t.hour && u.minute == t.minute && u.second == t.second
    requires DayNumber(u) == DayNumber(t) + n
    ensures AddDays(t, n) == u
  {
    DayNumberInjective(AddDays(t, n), u);
  }
}
