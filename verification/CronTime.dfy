/** Calendar time in UTC, to the second, with the steps that the cron search takes. */
module CronTime {
  import opened Modulus

  datatype Time = Time(year: int, month: int, day: int, hour: int, min: int, sec: int)

  predicate IsLeap(y: int) {
    y % 4 == 0 && (y % 100 != 0 || y % 400 == 0)
  }

  function DaysIn(y: int, m: int): (d: int)
    ensures 28 <= d <= 31
  {
    if m == 2 then (if IsLeap(y) then 29 else 28)
    else if m in {4, 6, 9, 11} then 30 else 31
  }

  predicate Valid(t: Time) {
    && 1 <= t.month <= 12 && 1 <= t.day <= DaysIn(t.year, t.month)
    && 0 <= t.hour < 24 && 0 <= t.min < 60 && 0 <= t.sec < 60
  }

  /** Days in the months before month m. */
  function DaysBefore(y: int, m: int): int
    requires 1 <= m <= 12
    decreases m
  {
    if m == 1 then 0 else DaysBefore(y, m - 1) + DaysIn(y, m - 1)
  }

  /** Days since the end of year 0 of the proleptic Gregorian calendar. */
  function DayNumber(t: Time): int
    requires 1 <= t.month <= 12
  {
    YearDays(t.year - 1) + DaysBefore(t.year, t.month) + t.day
  }

  /** Days in the years up to and including y. */
  function YearDays(y: int): int {
    365 * y + y / 4 - y / 100 + y / 400
  }

  /** 0 is Sunday; 1 January of year 1 was a Monday. */
  function Weekday(t: Time): (w: int)
    requires 1 <= t.month <= 12
    ensures 0 <= w <= 6
  {
    DayNumber(t) % 7
  }

  /** a is earlier than b. */
  predicate Lt(a: Time, b: Time) {
    a.year < b.year || (a.year == b.year &&
    (a.month < b.month || (a.month == b.month &&
    (a.day < b.day || (a.day == b.day &&
    (a.hour < b.hour || (a.hour == b.hour &&
    (a.min < b.min || (a.min == b.min && a.sec < b.sec)))))))))
  }

  // ---- steps ----

  function MonthStart(t: Time): Time {
    Time(t.year, t.month, 1, 0, 0, 0)
  }

  function DayStart(t: Time): Time {
    t.(hour := 0, min := 0, sec := 0)
  }

  /** AddDate(0, 1, 0); on the first of a month nothing has to be normalised. */
  function AddMonth(t: Time): Time
    requires t.day == 1
  {
    if t.month == 12 then t.(year := t.year + 1, month := 1) else t.(month := t.month + 1)
  }

  /** AddDate(0, 0, 1). */
  function AddDay(t: Time): Time {
    if t.day < DaysIn(t.year, t.month) then t.(day := t.day + 1)
    else AddMonth(t.(day := 1))
  }

  function AddHour(t: Time): Time {
    if t.hour < 23 then t.(hour := t.hour + 1) else AddDay(t).(hour := 0)
  }

  function AddMinute(t: Time): Time {
    if t.min < 59 then t.(min := t.min + 1) else AddHour(t).(min := 0)
  }

  function AddSecond(t: Time): Time {
    if t.sec < 59 then t.(sec := t.sec + 1) else AddMinute(t).(sec := 0)
  }

  // ---- the calendar ----

  lemma Leaps(y: int)
    ensures y / 4 - (y - 1) / 4 == (if y % 4 == 0 then 1 else 0)
    ensures y / 100 - (y - 1) / 100 == (if y % 100 == 0 then 1 else 0)
    ensures y / 400 - (y - 1) / 400 == (if y % 400 == 0 then 1 else 0)
  {
  }

  lemma LeapCentury(y: int)
    ensures y % 400 == 0 ==> y % 100 == 0
    ensures y % 100 == 0 ==> y % 4 == 0
  {
    if y % 400 == 0 { ModUnique(y, 100, 4 * (y / 400), 0); }
    if y % 100 == 0 { ModUnique(y, 4, 25 * (y / 100), 0); }
  }

  lemma YearLength(y: int)
    ensures YearDays(y) == YearDays(y - 1) + if IsLeap(y) then 366 else 365
  {
    Leaps(y);
    LeapCentury(y);
  }

  lemma DaysBeforeDecember(y: int)
    ensures DaysBefore(y, 12) + 31 == if IsLeap(y) then 366 else 365
  {
    assert DaysBefore(y, 3) == 31 + DaysIn(y, 2);
    assert DaysBefore(y, 6) == DaysBefore(y, 3) + 31 + 30 + 31;
    assert DaysBefore(y, 9) == DaysBefore(y, 6) + 30 + 31 + 31;
    assert DaysBefore(y, 12) == DaysBefore(y, 9) + 30 + 31 + 30;
  }

  lemma NextDay(t: Time)
    requires Valid(t)
    ensures Valid(AddDay(t)) && DayNumber(AddDay(t)) == DayNumber(t) + 1
  {
    if t.day == DaysIn(t.year, t.month) && t.month == 12 {
      YearLength(t.year);
      DaysBeforeDecember(t.year);
      assert DaysIn(t.year, 12) == 31;
    }
  }

  lemma NextInWeek(n: int)
    ensures (n + 1) % 7 == (n % 7 + 1) % 7
  {
  }

  /** Day numbers count the days: the next calendar day has the next number, across month
      ends, leap days and centuries, so week days follow each other. */
  lemma NextDayNumber(t: Time)
    requires Valid(t)
    ensures DayNumber(AddDay(t)) == DayNumber(t) + 1
    ensures Weekday(AddDay(t)) == (Weekday(t) + 1) % 7
  {
    NextDay(t);
    NextInWeek(DayNumber(t));
  }

  /** The Unix epoch was a Thursday. */
  lemma EpochWeekday()
    ensures Weekday(Time(1970, 1, 1, 0, 0, 0)) == 4
  {
  }

  /** Every step forward is strictly later, and AddSecond skips no second. */
  lemma NextSecond(t: Time, u: Time)
    requires Valid(t) && Valid(u)
    ensures Valid(AddSecond(t)) && Lt(t, AddSecond(t)) && !(Lt(t, u) && Lt(u, AddSecond(t)))
  {
  }

  // ---- the calendar from outside ----

  /** The days of each month of a common year. */
  const MONTHS: seq<int> := [31, 28, 31, 30, 31, 30, 31, 31, 30, 31, 30, 31]

  /** The dates of the Gregorian calendar: February has a day more exactly in the years that are
      divisible by 4 and not by 100, or by 400. */
  lemma ValidDates(y: int, m: int, d: int)
    ensures Valid(Time(y, m, d, 0, 0, 0)) <==>
            && 1 <= m <= 12
            && 1 <= d <= MONTHS[m - 1] + if m == 2 && ((y % 4 == 0 && y % 100 != 0) || y % 400 == 0) then 1 else 0
  {
    LeapCentury(y);
  }

  /** The number of a day, with the year counted from March and (153 m + 2) / 5 days before its m-th month. */
  function MarchNumber(t: Time): int {
    var y := if t.month <= 2 then t.year - 1 else t.year;
    var m := if t.month <= 2 then t.month + 9 else t.month - 3;
    365 * y + y / 4 - y / 100 + y / 400 + (153 * m + 2) / 5 + t.day - 306
  }

  lemma MonthsBefore(y: int)
    ensures DaysBefore(y, 1) == 0 && DaysBefore(y, 2) == 31
    ensures var leap := if IsLeap(y) then 1 else 0;
            && DaysBefore(y, 3) == 59 + leap && DaysBefore(y, 4) == 90 + leap && DaysBefore(y, 5) == 120 + leap
            && DaysBefore(y, 6) == 151 + leap && DaysBefore(y, 7) == 181 + leap && DaysBefore(y, 8) == 212 + leap
            && DaysBefore(y, 9) == 243 + leap && DaysBefore(y, 10) == 273 + leap && DaysBefore(y, 11) == 304 + leap
            && DaysBefore(y, 12) == 334 + leap
  {
    assert DaysBefore(y, 3) == 31 + DaysIn(y, 2);
    assert DaysBefore(y, 6) == DaysBefore(y, 3) + 31 + 30 + 31;
    assert DaysBefore(y, 9) == DaysBefore(y, 6) + 30 + 31 + 31;
    assert DaysBefore(y, 12) == DaysBefore(y, 9) + 30 + 31 + 30;
  }

  /** The day number is the one of the closed form. */
  lemma DayNumberClosed(t: Time)
    requires Valid(t)
    ensures DayNumber(t) == MarchNumber(t)
  {
    MonthsBefore(t.year);
    YearLength(t.year);
    assert t.month in {1, 2, 3, 4, 5, 6, 7, 8, 9, 10, 11, 12};
  }

  /** Seconds since the last second of year 0. */
  function SecondNumber(t: Time): int {
    MinuteNumber(t) * 60 + t.sec
  }

  function MinuteNumber(t: Time): int {
    HourNumber(t) * 60 + t.min
  }

  function HourNumber(t: Time): int {
    MarchNumber(t) * 24 + t.hour
  }

  lemma YearsMonotone(y: int, z: int)
    requires y <= z
    ensures YearDays(y) <= YearDays(z)
    decreases z - y
  {
    if y < z {
      YearLength(z);
      YearsMonotone(y, z - 1);
    }
  }

  lemma DayInYear(t: Time)
    requires Valid(t)
    ensures YearDays(t.year - 1) < DayNumber(t) <= YearDays(t.year)
  {
    MonthsBefore(t.year);
    YearLength(t.year);
    assert t.month in {1, 2, 3, 4, 5, 6, 7, 8, 9, 10, 11, 12};
  }

  lemma MonthsMonotone(y: int, m: int, n: int)
    requires 1 <= m < n <= 12
    ensures DaysBefore(y, m) + DaysIn(y, m) <= DaysBefore(y, n)
    decreases n
  {
    if m < n - 1 {
      MonthsMonotone(y, m, n - 1);
    }
  }

  predicate EarlierDay(a: Time, b: Time) {
    a.year < b.year || (a.year == b.year && (a.month < b.month || (a.month == b.month && a.day < b.day)))
  }

  lemma DaysOrdered(a: Time, b: Time)
    requires Valid(a) && Valid(b) && EarlierDay(a, b)
    ensures DayNumber(a) < DayNumber(b)
  {
    if a.year < b.year {
      DayInYear(a);
      DayInYear(b);
      YearsMonotone(a.year, b.year - 1);
    } else if a.month < b.month {
      MonthsMonotone(a.year, a.month, b.month);
    }
  }

  /** Earlier means a smaller number of seconds. */
  lemma EarlierSeconds(a: Time, b: Time)
    requires Valid(a) && Valid(b)
    ensures Lt(a, b) <==> SecondNumber(a) < SecondNumber(b)
  {
    DayNumberClosed(a);
    DayNumberClosed(b);
    if EarlierDay(a, b) {
      DaysOrdered(a, b);
    } else if EarlierDay(b, a) {
      DaysOrdered(b, a);
    }
  }

  lemma NextHourNumber(t: Time)
    requires Valid(t)
    ensures Valid(AddHour(t)) && HourNumber(AddHour(t)) == HourNumber(t) + 1
  {
    if t.hour == 23 {
      NextDay(t);
      DayNumberClosed(t);
      DayNumberClosed(AddDay(t));
      SameDate(AddDay(t), AddHour(t));
    } else {
      SameDate(t, AddHour(t));
    }
  }

  lemma SameDate(t: Time, u: Time)
    requires t.year == u.year && t.month == u.month && t.day == u.day
    ensures MarchNumber(t) == MarchNumber(u)
  {
  }

  lemma NextMinuteNumber(t: Time)
    requires Valid(t)
    ensures Valid(AddMinute(t)) && MinuteNumber(AddMinute(t)) == MinuteNumber(t) + 1
  {
    var u := AddMinute(t);
    if t.min == 59 {
      NextHourNumber(t);
      SameDate(AddHour(t), u);
      assert HourNumber(u) == HourNumber(AddHour(t));
    } else {
      SameDate(t, u);
      assert HourNumber(u) == HourNumber(t);
    }
  }

  /** The upcoming second is the next number. */
  lemma NextSecondNumber(t: Time)
    requires Valid(t)
    ensures Valid(AddSecond(t)) && SecondNumber(AddSecond(t)) == SecondNumber(t) + 1
  {
    var u := AddSecond(t);
    if t.sec == 59 {
      NextMinuteNumber(t);
      SameDate(AddMinute(t), u);
      assert MinuteNumber(u) == MinuteNumber(AddMinute(t));
    } else {
      SameDate(t, u);
      assert MinuteNumber(u) == MinuteNumber(t);
    }
  }
}
