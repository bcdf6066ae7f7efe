/** `calStatRangeStart` on calendar time: the hour, day or month a time belongs to, where a
    time on a boundary belongs to the range it ends. */
module Calendar {
  import opened TimeCounts
  import Windows

  predicate IsLeap(year: int) {
    year % 4 == 0 && (year % 100 != 0 || year % 400 == 0)
  }

  function DaysIn(year: int, month: int): int {
    if month == 2 then (if IsLeap(year) then 29 else 28)
    else if month == 4 || month == 6 || month == 9 || month == 11 then 30
    else 31
  }

  datatype Date = Date(year: int, month: int, day: int)

  /** A whole second of a day. */
  datatype Time = Time(date: Date, second: int)

  predicate IsDate(d: Date) {
    1 <= d.month <= 12 && 1 <= d.day <= DaysIn(d.year, d.month)
  }

  predicate IsTime(t: Time) {
    IsDate(t.date) && 0 <= t.second < SECONDS_IN_DAY
  }

  predicate DateBefore(a: Date, b: Date) {
    || a.year < b.year
    || (a.year == b.year && (a.month < b.month || (a.month == b.month && a.day < b.day)))
  }

  predicate Before(a: Time, b: Time) {
    DateBefore(a.date, b.date) || (a.date == b.date && a.second < b.second)
  }

  function PreviousDay(d: Date): Date {
    if d.day > 1 then Date(d.year, d.month, d.day - 1)
    else if d.month > 1 then Date(d.year, d.month - 1, DaysIn(d.year, d.month - 1))
    else Date(d.year - 1, 12, 31)
  }

  function NextDay(d: Date): Date {
    if d.day < DaysIn(d.year, d.month) then Date(d.year, d.month, d.day + 1)
    else NextMonth(d)
  }

  function PreviousMonth(d: Date): Date {
    if d.month > 1 then Date(d.year, d.month - 1, 1) else Date(d.year - 1, 12, 1)
  }

  function NextMonth(d: Date): Date {
    if d.month < 12 then Date(d.year, d.month + 1, 1) else Date(d.year + 1, 1, 1)
  }

  datatype RangeType = Month | Day | Hour

  function RangeStart(t: Time, r: RangeType): Time {
    match r
    case Month =>
      if t.date.day == 1 && t.second == 0 then Time(PreviousMonth(t.date), 0)
      else Time(Date(t.date.year, t.date.month, 1), 0)
    case Day =>
      if t.second == 0 then Time(PreviousDay(t.date), 0) else Time(t.date, 0)
    case Hour =>
      if t.second % SECONDS_IN_HOUR != 0 then Time(t.date, t.second - t.second % SECONDS_IN_HOUR)
      else if t.second >= SECONDS_IN_HOUR then Time(t.date, t.second - SECONDS_IN_HOUR)
      else Time(PreviousDay(t.date), t.second + SECONDS_IN_DAY - SECONDS_IN_HOUR)
  }

  predicate IsBoundary(t: Time, r: RangeType) {
    match r
    case Month => t.date.day == 1 && t.second == 0
    case Day => t.second == 0
    case Hour => t.second % SECONDS_IN_HOUR == 0
  }

  function NextBoundary(t: Time, r: RangeType): Time {
    match r
    case Month => Time(NextMonth(t.date), 0)
    case Day => Time(NextDay(t.date), 0)
    case Hour =>
      if t.second + SECONDS_IN_HOUR < SECONDS_IN_DAY then Time(t.date, t.second + SECONDS_IN_HOUR)
      else Time(NextDay(t.date), 0)
  }

  lemma DaysAdjoin(d: Date)
    requires IsDate(d)
    ensures IsDate(PreviousDay(d)) && NextDay(PreviousDay(d)) == d
    ensures IsDate(NextDay(d)) && PreviousDay(NextDay(d)) == d
  {
  }

  /** The range start is a boundary below the time, the next boundary is not. */
  lemma RangeHoldsTime(t: Time, r: RangeType)
    requires IsTime(t)
    ensures IsTime(RangeStart(t, r)) && IsBoundary(RangeStart(t, r), r)
    ensures Before(RangeStart(t, r), t) && !Before(NextBoundary(RangeStart(t, r), r), t)
  {
  }

  /** No other boundary is: across days, months and years, leap years included. */
  lemma RangeIsUnique(t: Time, r: RangeType, s: Time)
    requires IsTime(t) && IsTime(s)
    requires IsBoundary(s, r) && Before(s, t) && !Before(NextBoundary(s, r), t)
    ensures s == RangeStart(t, r)
  {
  }

  // ------------------------------------------------- calendar time as seconds

  function DaysBeforeMonth(year: int, month: int): int
    requires month >= 1
    decreases month
  {
    if month == 1 then 0 else DaysBeforeMonth(year, month - 1) + DaysIn(year, month - 1)
  }

  function DaysBeforeYear(year: int): int {
    365 * (year - 1) + (year - 1) / 4 - (year - 1) / 100 + (year - 1) / 400
  }

  /** Days since the first day of year 1. */
  function DayNumber(d: Date): int
    requires d.month >= 1
  {
    DaysBeforeYear(d.year) + DaysBeforeMonth(d.year, d.month) + d.day - 1
  }

  lemma MultiplesUpTo4(year: int)
    ensures year / 4 - (year - 1) / 4 == if year % 4 == 0 then 1 else 0
    ensures year % 100 == 0 ==> year % 4 == 0
  {
  }

  lemma MultiplesUpTo100(year: int)
    ensures year / 100 - (year - 1) / 100 == if year % 100 == 0 then 1 else 0
    ensures year % 400 == 0 ==> year % 100 == 0
  {
  }

  lemma MultiplesUpTo400(year: int)
    ensures year / 400 - (year - 1) / 400 == if year % 400 == 0 then 1 else 0
  {
  }

  lemma MonthsOfYear(year: int)
    ensures DaysBeforeMonth(year, 12) + 31 == if IsLeap(year) then 366 else 365
  {
  }

  lemma YearLength(year: int)
    ensures DaysBeforeYear(year + 1) == DaysBeforeYear(year) + if IsLeap(year) then 366 else 365
    ensures DaysBeforeMonth(year, 12) + 31 == if IsLeap(year) then 366 else 365
  {
    hide DaysBeforeMonth;
    MonthsOfYear(year);
    MultiplesUpTo4(year);
    MultiplesUpTo100(year);
    MultiplesUpTo400(year);
  }

  /** The day before has the number before. */
  lemma PreviousDayNumber(d: Date)
    requires IsDate(d)
    ensures DayNumber(PreviousDay(d)) == DayNumber(d) - 1
  {
    if d.day == 1 && d.month == 1 {
      YearLength(d.year - 1);
    }
  }

  lemma {:induction false} MonthsInOrder(year: int, m: int, n: int)
    requires 1 <= m < n
    ensures DaysBeforeMonth(year, m) + DaysIn(year, m) <= DaysBeforeMonth(year, n)
  {
    if m < n - 1 {
      MonthsInOrder(year, m, n - 1);
    }
  }

  lemma {:induction false} YearsInOrder(a: int, b: int)
    requires a < b
    ensures DaysBeforeYear(a) + DaysBeforeMonth(a, 12) + 31 <= DaysBeforeYear(b)
    decreases b - a
  {
    hide DaysBeforeYear, DaysBeforeMonth;
    YearLength(a);
    if a + 1 < b {
      YearsInOrder(a + 1, b);
      YearLength(a + 1);
    }
  }

  lemma {:induction false} MonthsAreCounted(year: int, m: int)
    requires m >= 1
    ensures DaysBeforeMonth(year, m) >= 0
  {
    if m > 1 {
      MonthsAreCounted(year, m - 1);
    }
  }

  lemma DatesInOrder(a: Date, b: Date)
    requires IsDate(a) && IsDate(b) && DateBefore(a, b)
    ensures DayNumber(a) < DayNumber(b)
  {
    hide DaysBeforeYear, DaysBeforeMonth;
    if a.year < b.year {
      YearsInOrder(a.year, b.year);
      MonthsAreCounted(b.year, b.month);
      if a.month < 12 {
        MonthsInOrder(a.year, a.month, 12);
      }
    } else if a.month < b.month {
      MonthsInOrder(a.year, a.month, b.month);
    }
  }

  const EPOCH := Date(1970, 1, 1)

  /** Unix time in seconds. */
  function Unix(t: Time): int
    requires t.date.month >= 1
  {
    (DayNumber(t.date) - DayNumber(EPOCH)) * SECONDS_IN_DAY + t.second
  }

  /** Calendar order is the order of Unix time. */
  lemma UnixKeepsOrder(a: Time, b: Time)
    requires IsTime(a) && IsTime(b)
    ensures Before(a, b) <==> Unix(a) < Unix(b)
  {
    hide DayNumber;
    if DateBefore(a.date, b.date) {
      DatesInOrder(a.date, b.date);
    } else if DateBefore(b.date, a.date) {
      DatesInOrder(b.date, a.date);
    } else {
      assert a.date == b.date;
    }
  }

  /** For hours and days the calendar computation is the arithmetic on Unix seconds. */
  lemma RangeStartIsArithmetic(t: Time)
    requires IsTime(t)
    ensures IsTime(RangeStart(t, Day)) && IsTime(RangeStart(t, Hour))
    ensures Unix(RangeStart(t, Day)) == Windows.RangeStart(Unix(t), SECONDS_IN_DAY)
    ensures Unix(RangeStart(t, Hour)) == Windows.RangeStart(Unix(t), SECONDS_IN_HOUR)
  {
    hide DayNumber;
    DaysAdjoin(t.date);
    PreviousDayNumber(t.date);
    var days := DayNumber(t.date) - DayNumber(EPOCH);
    assert Unix(t) == days * SECONDS_IN_DAY + t.second;
    RestOfDay(days, t.second);
  }

  lemma RestOfDay(days: int, second: int)
    requires 0 <= second < SECONDS_IN_DAY
    ensures (days * SECONDS_IN_DAY + second) % SECONDS_IN_DAY == second
    ensures (days * SECONDS_IN_DAY + second) % SECONDS_IN_HOUR == second % SECONDS_IN_HOUR
  {
    var q, r := second / SECONDS_IN_HOUR, second % SECONDS_IN_HOUR;
    assert days * SECONDS_IN_DAY + second == (days * 24 + q) * SECONDS_IN_HOUR + r;
  }

  /** The month a time belongs to starts at midnight of its first day: the time's own month, or the
      one before when the time is the first instant of a month. */
  lemma MonthStart(t: Time)
    requires IsTime(t)
    ensures var s := RangeStart(t, Month);
            && s.date.day == 1 && s.second == 0
            && if t.date.day == 1 && t.second == 0
               then Unix(t) == Unix(s) + DaysIn(s.date.year, s.date.month) * SECONDS_IN_DAY
               else s.date.year == t.date.year && s.date.month == t.date.month
  {
    hide DaysBeforeYear, DaysBeforeMonth;
    if t.date.day == 1 && t.second == 0 {
      MonthDays(t.date);
    }
  }

  lemma MonthDays(d: Date)
    requires IsDate(d) && d.day == 1
    ensures DayNumber(d) == DayNumber(PreviousMonth(d)) + DaysIn(PreviousMonth(d).year, PreviousMonth(d).month)
  {
    hide DaysBeforeYear;
    if d.month == 1 {
      YearLength(d.year - 1);
      assert DaysBeforeMonth(d.year, 1) == 0;
    }
  }

  /** Long and short months alternate, with a new start in August. */
  lemma MonthLengths(year: int, month: int)
    requires 1 <= month <= 12 && month != 2
    ensures DaysIn(year, month) == 30 + (month + month / 8) % 2
    ensures DaysIn(year, 2) == 28 + if IsLeap(year) then 1 else 0
    ensures IsLeap(2000) && IsLeap(2024) && !IsLeap(1900) && !IsLeap(2023)
  {
  }

  /** Days whose Unix time is known. */
  lemma KnownDays()
    ensures Unix(Time(EPOCH, 0)) == 0
    ensures Unix(Time(Date(1969, 12, 31), 0)) == -86400
    ensures Unix(Time(Date(2000, 3, 1), 0)) == 951868800
    ensures Unix(Time(Date(2023, 8, 31), 0)) == 1693440000
    ensures Unix(Time(Date(2024, 2, 29), 0)) == 1709164800
    ensures Unix(Time(Date(2100, 3, 1), 0)) == 4107542400
  {
    assert DaysBeforeMonth(1970, 1) == 0 && DaysBeforeMonth(1969, 12) == 334;
    assert DaysBeforeMonth(2000, 3) == 60 && DaysBeforeMonth(2100, 3) == 59;
    assert DaysBeforeMonth(2023, 8) == 212 && DaysBeforeMonth(2024, 2) == 31;
  }
}
