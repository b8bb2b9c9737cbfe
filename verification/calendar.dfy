/** Calendar dates of the proleptic Gregorian calendar, the whole-day difference
    between two local date-times (time of day ignored), and the `YYYY-MM-DD`
    rendering of a local date. */
module Calendar {
  import opened Decimal

  /** A calendar date; `month` is 1-based (January is 1). */
  datatype Date = Date(year: int, month: int, day: int)

  /** A local date-time: the calendar date and the milliseconds elapsed since its midnight. */
  datatype LocalDateTime = LocalDateTime(date: Date, millisOfDay: int)

  const MillisPerDay: int := 1000 * 60 * 60 * 24

  predicate IsLeapYear(y: int) {
    y % 4 == 0 && (y % 100 != 0 || y % 400 == 0)
  }

  function DaysInMonth(y: int, m: int): (n: int)
    requires 1 <= m <= 12
    ensures 28 <= n <= 31
    ensures m == 2 ==> (n == 29 <==> IsLeapYear(y))
  {
    if m == 2 then (if IsLeapYear(y) then 29 else 28)
    else if m == 4 || m == 6 || m == 9 || m == 11 then 30
    else 31
  }

  function YearLength(y: int): int {
    if IsLeapYear(y) then 366 else 365
  }

  predicate IsValidDate(d: Date) {
    1 <= d.month <= 12 && 1 <= d.day <= DaysInMonth(d.year, d.month)
  }

  /** A date-time a JavaScript `Date` can denote: a real calendar date and a time inside it. */
  predicate IsValidDateTime(t: LocalDateTime) {
    IsValidDate(t.date) && 0 <= t.millisOfDay < MillisPerDay
  }

  /** Days from 0001-01-01 to January 1st of `y` (negative before year 1). */
  function DaysBeforeYear(y: int): int {
    365 * (y - 1) + (y - 1) / 4 - (y - 1) / 100 + (y - 1) / 400
  }

  /** Days from January 1st of `y` to the first of month `m`. */
  function DaysBeforeMonth(y: int, m: int): int
    requires 1 <= m <= 12
  {
    if m == 1 then 0 else DaysBeforeMonth(y, m - 1) + DaysInMonth(y, m - 1)
  }

  /** The ordinal of a date: consecutive dates get consecutive numbers (see NextDayNumber). */
  function DayNumber(d: Date): int
    requires IsValidDate(d)
  {
    DaysBeforeYear(d.year) + DaysBeforeMonth(d.year, d.month) + d.day - 1
  }

  /** The calendar date after `d`. */
  function NextDay(d: Date): (e: Date)
    requires IsValidDate(d)
    ensures IsValidDate(e)
  {
    if d.day < DaysInMonth(d.year, d.month) then Date(d.year, d.month, d.day + 1)
    else if d.month < 12 then Date(d.year, d.month + 1, 1)
    else Date(d.year + 1, 1, 1)
  }

  /** Strict chronological order of dates: by year, then month, then day. */
  predicate Before(a: Date, b: Date) {
    a.year < b.year
    || (a.year == b.year && a.month < b.month)
    || (a.year == b.year && a.month == b.month && a.day < b.day)
  }

  lemma YearLengthIsDayCount(y: int)
    ensures DaysBeforeYear(y + 1) - DaysBeforeYear(y) == YearLength(y)
  {
    var q4, r4 := (y - 1) / 4, (y - 1) % 4;
    var q100, r100 := (y - 1) / 100, (y - 1) % 100;
    var q400, r400 := (y - 1) / 400, (y - 1) % 400;
    assert y / 4 == (if r4 == 3 then q4 + 1 else q4);
    assert y / 100 == (if r100 == 99 then q100 + 1 else q100);
    assert y / 400 == (if r400 == 399 then q400 + 1 else q400);
    assert (y % 4 == 0) == (r4 == 3);
    assert (y % 100 == 0) == (r100 == 99);
    assert (y % 400 == 0) == (r400 == 399);
  }

  lemma MonthsFillYear(y: int)
    ensures DaysBeforeMonth(y, 12) + DaysInMonth(y, 12) == YearLength(y)
  {
    assert DaysBeforeMonth(y, 2) == 31;
    assert DaysBeforeMonth(y, 3) == 31 + DaysInMonth(y, 2);
    assert DaysBeforeMonth(y, 4) == DaysBeforeMonth(y, 3) + 31;
    assert DaysBeforeMonth(y, 5) == DaysBeforeMonth(y, 4) + 30;
    assert DaysBeforeMonth(y, 6) == DaysBeforeMonth(y, 5) + 31;
    assert DaysBeforeMonth(y, 7) == DaysBeforeMonth(y, 6) + 30;
    assert DaysBeforeMonth(y, 8) == DaysBeforeMonth(y, 7) + 31;
    assert DaysBeforeMonth(y, 9) == DaysBeforeMonth(y, 8) + 31;
    assert DaysBeforeMonth(y, 10) == DaysBeforeMonth(y, 9) + 30;
    assert DaysBeforeMonth(y, 11) == DaysBeforeMonth(y, 10) + 31;
    assert DaysBeforeMonth(y, 12) == DaysBeforeMonth(y, 11) + 30;
  }

  /** Consecutive calendar dates have consecutive day numbers, across month and year ends. */
  lemma NextDayNumber(d: Date)
    requires IsValidDate(d)
    ensures DayNumber(NextDay(d)) == DayNumber(d) + 1
  {
    if d.day == DaysInMonth(d.year, d.month) && d.month == 12 {
      MonthsFillYear(d.year);
      YearLengthIsDayCount(d.year);
    }
  }

  lemma {:induction false} DaysBeforeYearMonotone(y: int, z: int)
    requires y <= z
    ensures DaysBeforeYear(y) + 365 * (z - y) <= DaysBeforeYear(z)
    decreases z - y
  {
    if y < z {
      DaysBeforeYearMonotone(y + 1, z);
      YearLengthIsDayCount(y);
    }
  }

  lemma {:induction false} DaysBeforeMonthMonotone(y: int, m: int, n: int)
    requires 1 <= m <= n <= 12
    ensures DaysBeforeMonth(y, m) + DaysInMonth(y, m) <= DaysBeforeMonth(y, n) || m == n
    ensures DaysBeforeMonth(y, m) <= DaysBeforeMonth(y, n)
    decreases n - m
  {
    if m < n {
      DaysBeforeMonthMonotone(y, m, n - 1);
    }
  }

  /** Every day number of year `d.year` lies inside that year's block of days. */
  lemma DayNumberInYear(d: Date)
    requires IsValidDate(d)
    ensures DaysBeforeYear(d.year) <= DayNumber(d) < DaysBeforeYear(d.year + 1)
  {
    DaysBeforeMonthMonotone(d.year, 1, d.month);
    DaysBeforeMonthMonotone(d.year, d.month, 12);
    MonthsFillYear(d.year);
    YearLengthIsDayCount(d.year);
    assert DaysBeforeMonth(d.year, d.month) + DaysInMonth(d.year, d.month)
        <= DaysBeforeMonth(d.year, 12) + DaysInMonth(d.year, 12);
  }

  /** Day numbers follow chronological order, so distinct dates have distinct numbers. */
  lemma DayNumberOrder(a: Date, b: Date)
    requires IsValidDate(a) && IsValidDate(b)
    ensures Before(a, b) ==> DayNumber(a) < DayNumber(b)
    ensures DayNumber(a) == DayNumber(b) <==> a == b
  {
    if a.year < b.year {
      DayNumberInYear(a);
      DayNumberInYear(b);
      DaysBeforeYearMonotone(a.year + 1, b.year);
    } else if b.year < a.year {
      DayNumberInYear(a);
      DayNumberInYear(b);
      DaysBeforeYearMonotone(b.year + 1, a.year);
    } else if a.month < b.month {
      DaysBeforeMonthMonotone(a.year, a.month, b.month);
    } else if b.month < a.month {
      DaysBeforeMonthMonotone(a.year, b.month, a.month);
    }
  }

  /** `calculateDaysUntilExpiration`: both date-times are cut to their midnights,
      and the whole days between the two midnights are counted. */
  function DaysUntilExpiration(expiration: LocalDateTime, now: LocalDateTime): (days: int)
    requires IsValidDateTime(expiration) && IsValidDateTime(now)
    ensures expiration.date == now.date ==> days == 0
    ensures Before(now.date, expiration.date) ==> days > 0
    ensures Before(expiration.date, now.date) ==> days < 0
  {
    DayNumberOrder(now.date, expiration.date);
    DayNumberOrder(expiration.date, now.date);
    DayNumber(expiration.date) - DayNumber(now.date)
  }

  /** The count is zero exactly on the calendar date of "now", whatever the times of day. */
  lemma SameDayIffZero(expiration: LocalDateTime, now: LocalDateTime)
    requires IsValidDateTime(expiration) && IsValidDateTime(now)
    ensures DaysUntilExpiration(expiration, now) == 0 <==> expiration.date == now.date
  {
    DayNumberOrder(expiration.date, now.date);
  }

  /** Swapping the two date-times negates the count. */
  lemma DaysUntilAntisymmetric(a: LocalDateTime, b: LocalDateTime)
    requires IsValidDateTime(a) && IsValidDateTime(b)
    ensures DaysUntilExpiration(a, b) == -DaysUntilExpiration(b, a)
  {
  }

  /** Counts add up along a chain of three date-times. */
  lemma DaysUntilAdditive(a: LocalDateTime, b: LocalDateTime, c: LocalDateTime)
    requires IsValidDateTime(a) && IsValidDateTime(b) && IsValidDateTime(c)
    ensures DaysUntilExpiration(a, c) == DaysUntilExpiration(a, b) + DaysUntilExpiration(b, c)
  {
  }

  /** An expiration one calendar day later is one day further away, at any time of day. */
  lemma DaysUntilNextDay(expiration: LocalDateTime, now: LocalDateTime, millis: int)
    requires IsValidDateTime(expiration) && IsValidDateTime(now) && 0 <= millis < MillisPerDay
    ensures DaysUntilExpiration(LocalDateTime(NextDay(expiration.date), millis), now)
         == DaysUntilExpiration(expiration, now) + 1
  {
    NextDayNumber(expiration.date);
  }

  /** `Date.prototype.getMonth`: the zero-based month. */
  function MonthIndex(d: Date): int {
    d.month - 1
  }

  /** `new Date(year, monthIndex, day)` for in-range fields: the zero-based month
      index names the calendar month `monthIndex + 1`. */
  function FromMonthIndex(year: int, monthIndex: int, day: int): (d: Date)
    ensures MonthIndex(d) == monthIndex && d.year == year && d.day == day
    ensures IsValidDate(d) <==> 0 <= monthIndex < 12 && 1 <= day <= DaysInMonth(year, monthIndex + 1)
  {
    Date(year, monthIndex + 1, day)
  }

  /** `getToday` applied to the local date `today`: year, then month and day
      zero-padded to two digits, with the zero-based month shifted back to 1-based. */
  function GetToday(today: Date): string {
    IntString(today.year) + "-" + PadStart2(IntString(MonthIndex(today) + 1)) + "-" + PadStart2(IntString(today.day))
  }

  /** Where the three fields sit in a `YYYY-MM-DD` layout. */
  lemma IsoLayout(y: string, m: string, d: string)
    requires |y| == 4 && |m| == 2 && |d| == 2
    ensures var s := y + "-" + m + "-" + d;
      |s| == 10 && s[4] == '-' && s[7] == '-' && s[..4] == y && s[5..7] == m && s[8..] == d
  {
  }

  /** For a four-digit year the rendering is exactly `YYYY-MM-DD` and reads back as the date. */
  lemma GetTodayFormat(today: Date)
    requires IsValidDate(today) && 1000 <= today.year <= 9999
    ensures var s := GetToday(today);
      && |s| == 10 && s[4] == '-' && s[7] == '-'
      && AllDigits(s[..4]) && AllDigits(s[5..7]) && AllDigits(s[8..])
      && DigitsValue(s[..4]) == today.year
      && DigitsValue(s[5..7]) == today.month
      && DigitsValue(s[8..]) == today.day
  {
    var y, m, d := NatString(today.year), NatString(today.month), NatString(today.day);
    NatStringLength(today.year, 4);
    NatStringValue(today.year);
    PaddedField(today.month);
    PaddedField(today.day);
    assert GetToday(today) == y + "-" + PadStart2(m) + "-" + PadStart2(d);
    IsoLayout(y, PadStart2(m), PadStart2(d));
  }
}
