/** The proleptic Gregorian calendar from 1970 on, in days and seconds. */
module Calendar {

  function IsLeapYear(year: nat): bool {
    (year % 4 == 0 && year % 100 != 0) || year % 400 == 0
  }

  function DaysPerYear(year: nat): nat {
    if IsLeapYear(year) then 366 else 365
  }

  function DaysPerMonth(leap: bool, month: nat): nat
    requires 1 <= month <= 12
  {
    if leap
    then [31, 29, 31, 30, 31, 30, 31, 31, 30, 31, 30, 31][month - 1]
    else [31, 28, 31, 30, 31, 30, 31, 31, 30, 31, 30, 31][month - 1]
  }

  /** Days from the start of 1970 to the start of a year. */
  function DaysBeforeYear(year: nat): nat {
    if year <= 1970 then 0 else DaysBeforeYear(year - 1) + DaysPerYear(year - 1)
  }

  /** Days from the start of the year to the start of a month; month 13 is the end of the year. */
  function DaysBeforeMonth(leap: bool, month: nat): nat
    requires month <= 13
  {
    if month <= 1 then 0 else DaysBeforeMonth(leap, month - 1) + DaysPerMonth(leap, month - 1)
  }

  datatype Date = Date(year: nat, month: nat, day: nat, hour: nat, minute: nat, second: nat)
  {
    /** A day that exists and a time of day. */
    predicate Real() {
      && 1970 <= year && 1 <= month <= 12 && 1 <= day <= DaysPerMonth(IsLeapYear(year), month)
      && hour < 24 && minute < 60 && second < 60
    }

    function DayNumber(): int
      requires month <= 13
    {
      DaysBeforeYear(year) + DaysBeforeMonth(IsLeapYear(year), month) + day - 1
    }

    /** Seconds since the start of 1970. */
    function Timestamp(): int
      requires month <= 13
    {
      86400 * DayNumber() + 3600 * hour + 60 * minute + second
    }
  }

  // ---------- from days to a date ----------

  /** The year in which the day `days` after the start of `from` falls. */
  function YearOf(from: nat, days: nat): (year: nat)
    decreases days
  {
    if days < DaysPerYear(from) then from else YearOf(from + 1, days - DaysPerYear(from))
  }

  function MonthOf(leap: bool, from: nat, days: nat): (month: nat)
    requires 1 <= from <= 12
    decreases 12 - from
  {
    if from == 12 || days < DaysPerMonth(leap, from) then from
    else MonthOf(leap, from + 1, days - DaysPerMonth(leap, from))
  }

  function DateOf(timestamp: nat): Date {
    var days, seconds := timestamp / 86400, timestamp % 86400;
    var year := YearOf(1970, days);
    var rest := days - DaysBeforeYear(year);
    var leap := IsLeapYear(year);
    var month := if rest < 0 then 1 else MonthOf(leap, 1, rest);
    var day := if rest < DaysBeforeMonth(leap, month) then 0 else rest - DaysBeforeMonth(leap, month) + 1;
    Date(year, month, day, seconds / 3600, seconds % 3600 / 60, seconds % 60)
  }

  lemma {:induction false} YearOfPlace(from: nat, days: nat)
    requires 1970 <= from
    ensures from <= YearOf(from, days)
    ensures var y := YearOf(from, days);
      DaysBeforeYear(y) <= DaysBeforeYear(from) + days < DaysBeforeYear(y) + DaysPerYear(y)
    decreases days
  {
    if days >= DaysPerYear(from) { YearOfPlace(from + 1, days - DaysPerYear(from)); }
  }

  lemma YearLength(leap: bool)
    ensures DaysBeforeMonth(leap, 13) == if leap then 366 else 365
  {
    MonthStarts(leap);
  }

  lemma MonthStarts(leap: bool)
    ensures forall month :: 1 <= month <= 13 ==>
      DaysBeforeMonth(leap, month) ==
      [0, 31, 59, 90, 120, 151, 181, 212, 243, 273, 304, 334, 365][month - 1] + if leap && month > 2 then 1 else 0
  {
    var l := if leap then 1 else 0;
    assert DaysBeforeMonth(leap, 1) == 0 && DaysBeforeMonth(leap, 2) == 31 && DaysBeforeMonth(leap, 3) == 59 + l;
    assert DaysBeforeMonth(leap, 4) == 90 + l && DaysBeforeMonth(leap, 5) == 120 + l &&
        DaysBeforeMonth(leap, 6) == 151 + l;
    assert DaysBeforeMonth(leap, 7) == 181 + l && DaysBeforeMonth(leap, 8) == 212 + l &&
        DaysBeforeMonth(leap, 9) == 243 + l;
    assert DaysBeforeMonth(leap, 10) == 273 + l && DaysBeforeMonth(leap, 11) == 304 + l &&
        DaysBeforeMonth(leap, 12) == 334 + l;
  }

  lemma {:induction false} DaysAtLeast(year: nat)
    requires 1970 <= year
    ensures DaysBeforeYear(year) >= 365 * (year - 1970)
    decreases year
  {
    if year > 1970 { DaysAtLeast(year - 1); }
  }

  lemma {:induction false} MonthOfPlace(leap: bool, from: nat, days: nat)
    requires 1 <= from <= 12 && DaysBeforeMonth(leap, from) + days < DaysBeforeMonth(leap, 13)
    ensures from <= MonthOf(leap, from, days) <= 12
    ensures var m := MonthOf(leap, from, days);
            DaysBeforeMonth(leap, m) <= DaysBeforeMonth(leap, from) + days < DaysBeforeMonth(leap, m) +
              DaysPerMonth(leap, m)
    decreases 12 - from
  {
    if from < 12 && days >= DaysPerMonth(leap, from) { MonthOfPlace(leap, from + 1, days - DaysPerMonth(leap, from)); }
  }

  /** Every number of seconds names a real date, and that date's timestamp is the number. */
  lemma DateOfIsReal(timestamp: nat)
    ensures DateOf(timestamp).Real()
    ensures DateOf(timestamp).Timestamp() == timestamp
  {
    var days := timestamp / 86400;
    YearOfPlace(1970, days);
    var year := YearOf(1970, days);
    var leap, rest := IsLeapYear(year), days - DaysBeforeYear(year);
    YearLength(leap);
    MonthOfPlace(leap, 1, rest);
    SplitDay(timestamp % 86400);
  }

  lemma SplitDay(seconds: nat)
    requires seconds < 86400
    ensures seconds == 3600 * (seconds / 3600) + 60 * (seconds % 3600 / 60) + seconds % 60
    ensures seconds / 3600 < 24 && seconds % 3600 / 60 < 60
  {
    var h, r := seconds / 3600, seconds % 3600;
    assert seconds == 3600 * h + r;
    assert (60 * (60 * h) + r) % 60 == r % 60;
  }

  // ---------- dates are determined by their timestamps ----------

  lemma {:induction false} YearsApart(a: nat, b: nat)
    requires 1970 <= a < b
    ensures DaysBeforeYear(a) + DaysPerYear(a) <= DaysBeforeYear(b)
    decreases b
  {
    if a + 1 < b { YearsApart(a, b - 1); }
  }

  lemma {:induction false} MonthsApart(leap: bool, a: nat, b: nat)
    requires 1 <= a < b <= 13
    ensures DaysBeforeMonth(leap, a) + DaysPerMonth(leap, a) <= DaysBeforeMonth(leap, b)
    decreases b
  {
    if a + 1 < b { MonthsApart(leap, a, b - 1); }
  }

  lemma DayInYear(d: Date)
    requires d.Real()
    ensures DaysBeforeYear(d.year) <= d.DayNumber() < DaysBeforeYear(d.year) + DaysPerYear(d.year)
  {
    var leap := IsLeapYear(d.year);
    YearLength(leap);
    if d.month < 13 { MonthsApart(leap, d.month, 13); }
  }

  /** A later date has a larger day number. */
  lemma SameDay(d: Date, e: Date)
    requires d.Real() && e.Real() && d.DayNumber() == e.DayNumber()
    ensures d.year == e.year && d.month == e.month && d.day == e.day
  {
    DayInYear(d);
    DayInYear(e);
    if d.year < e.year { YearsApart(d.year, e.year); }
    if e.year < d.year { YearsApart(e.year, d.year); }
    var leap := IsLeapYear(d.year);
    if d.month < e.month { MonthsApart(leap, d.month, e.month); }
    if e.month < d.month { MonthsApart(leap, e.month, d.month); }
  }

  lemma SameTime(d: Date, e: Date)
    requires d.Real() && e.Real() && d.Timestamp() == e.Timestamp()
    ensures d.DayNumber() == e.DayNumber() && d.hour == e.hour && d.minute == e.minute && d.second == e.second
  {}

  /** Every real date is the date of its own timestamp. */
  lemma DateOfTimestamp(d: Date)
    requires d.Real()
    ensures d.Timestamp() >= 0
    ensures DateOf(d.Timestamp()) == d
  {
    DayInYear(d);
    var e := DateOf(d.Timestamp());
    DateOfIsReal(d.Timestamp());
    SameTime(d, e);
    SameDay(d, e);
  }

  // ---------- the calendar in closed form ----------

  /** Leap days of the years 1 to `year`. */
  function LeapDays(year: int): int {
    year / 4 - year / 100 + year / 400
  }

  /** Days from the start of 1970 to a date, without any table of months: the year is taken to begin in March, so that
      the leap day is its last one and every five months have 153 days. */
  function CivilDays(year: int, month: nat, day: nat): int {
    var y, m := if month <= 2 then year - 1 else year, if month <= 2 then month + 9 else month - 3;
    365 * y + LeapDays(y) + (153 * m + 2) / 5 + day - 1 - 719468
  }

  /** The number of days in a month: from its first day to the first day of the next. */
  function LastDay(year: int, month: nat): int {
    if month == 12 then CivilDays(year + 1, 1, 1) - CivilDays(year, 12, 1)
    else CivilDays(year, month + 1, 1) - CivilDays(year, month, 1)
  }

  lemma MultipleOf(year: nat, n: nat)
    requires 0 < n && 0 < year && (n == 4 || n == 100 || n == 400)
    ensures year / n == (year - 1) / n + if year % n == 0 then 1 else 0
  {}

  lemma LeapDayCounted(year: nat)
    requires 0 < year
    ensures LeapDays(year) == LeapDays(year - 1) + if IsLeapYear(year) then 1 else 0
  {
    MultipleOf(year, 4);
    MultipleOf(year, 100);
    MultipleOf(year, 400);
  }

  /** The years up to any one: every fourth year is a leap year, but of the full centuries only every fourth. */
  lemma {:induction false} YearsInClosedForm(year: nat)
    requires 1970 <= year
    ensures DaysBeforeYear(year) == 365 * (year - 1970) + LeapDays(year - 1) - 477
    decreases year
  {
    if year > 1970 {
      YearsInClosedForm(year - 1);
      LeapDayCounted(year - 1);
    }
  }

  /** The months of a year: 31 days, the 28 or 29 of February, and then 153 days in every five months. */
  lemma MonthsInClosedForm(leap: bool, month: nat)
    requires 1 <= month <= 13
    ensures month == 1 ==> DaysBeforeMonth(leap, month) == 0
    ensures month == 2 ==> DaysBeforeMonth(leap, month) == 31
    ensures month >= 3 ==> DaysBeforeMonth(leap, month) == 59 + (if leap then 1 else 0) + (153 * (month - 3) + 2) / 5
  {
    MonthStarts(leap);
    if month <= 7 {
      if month <= 3 {} else if month <= 5 {} else {}
    } else {
      if month <= 9 {} else if month <= 11 {} else {}
    }
  }

  /** The day number of any date is given by the closed form. */
  lemma DayNumberIsCivil(d: Date)
    requires 1970 <= d.year && 1 <= d.month <= 12
    ensures d.DayNumber() == CivilDays(d.year, d.month, d.day)
  {
    YearsInClosedForm(d.year);
    LeapDayCounted(d.year);
    MonthsInClosedForm(IsLeapYear(d.year), d.month);
  }

  /** Seconds from the start of 1970, in closed form. */
  function CivilSeconds(d: Date): int {
    86400 * CivilDays(d.year, d.month, d.day) + 3600 * d.hour + 60 * d.minute + d.second
  }

  /** A day that exists and a time of day, in closed form. */
  predicate Civil(d: Date) {
    1970 <= d.year && 1 <= d.month <= 12 && 1 <= d.day <= LastDay(d.year, d.month)
      && d.hour < 24 && d.minute < 60 && d.second < 60
  }

  lemma RealIsCivil(d: Date)
    ensures d.Real() <==> Civil(d)
    ensures 1970 <= d.year && 1 <= d.month <= 12 ==> d.Timestamp() == CivilSeconds(d)
  {
    if 1970 <= d.year && 1 <= d.month <= 12 {
      LastDayIs(d.year, d.month);
      DayNumberIsCivil(d);
    }
  }

  lemma LastDayIs(year: nat, month: nat)
    requires 1970 <= year && 1 <= month <= 12
    ensures LastDay(year, month) == DaysPerMonth(IsLeapYear(year), month)
  {
    var first := Date(year, month, 1, 0, 0, 0);
    DayNumberIsCivil(first);
    if month == 12 {
      YearLength(IsLeapYear(year));
      DayNumberIsCivil(Date(year + 1, 1, 1, 0, 0, 0));
    } else {
      DayNumberIsCivil(Date(year, month + 1, 1, 0, 0, 0));
    }
  }

  // ---------- one second after another ----------

  /** The date one day later, at the start of that day. */
  function NextDay(d: Date): Date {
    if d.day != LastDay(d.year, d.month) then Date(d.year, d.month, d.day + 1, 0, 0, 0)
    else if d.month != 12 then Date(d.year, d.month + 1, 1, 0, 0, 0)
    else Date(d.year + 1, 1, 1, 0, 0, 0)
  }

  /** What a calendar clock shows one second later. */
  function Tick(d: Date): Date {
    if d.second != 59 then d.(second := d.second + 1)
    else if d.minute != 59 then d.(minute := d.minute + 1, second := 0)
    else if d.hour != 23 then d.(hour := d.hour + 1, minute := 0, second := 0)
    else NextDay(d)
  }

  lemma NextDayFollows(d: Date)
    requires d.Real()
    ensures NextDay(d).Real() && NextDay(d).DayNumber() == d.DayNumber() + 1
  {
    LastDayIs(d.year, d.month);
    if d.month == 12 {
      NewYear(d.year);
    } else {
      NewMonth(d.year, d.month);
    }
  }

  lemma NewMonth(year: nat, month: nat)
    requires 1970 <= year && 1 <= month < 12
    ensures var leap := IsLeapYear(year);
      DaysBeforeMonth(leap, month + 1) == DaysBeforeMonth(leap, month) + DaysPerMonth(leap, month)
    ensures Date(year, month + 1, 1, 0, 0, 0).Real()
  {}

  lemma NewYear(year: nat)
    requires 1970 <= year
    ensures var leap := IsLeapYear(year);
      DaysBeforeYear(year + 1) == DaysBeforeYear(year) + DaysBeforeMonth(leap, 12) + DaysPerMonth(leap, 12)
    ensures Date(year + 1, 1, 1, 0, 0, 0).Real()
  {
    YearLength(IsLeapYear(year));
  }

  lemma TickFollows(d: Date)
    requires d.Real()
    ensures Tick(d).Real() && Tick(d).Timestamp() == d.Timestamp() + 1
  {
    if d.second == 59 && d.minute == 59 && d.hour == 23 { NextDayFollows(d); }
  }

  /** The dates of successive timestamps are what a clock shows that starts with 1970 and ticks every second. */
  lemma DatesTick(timestamp: nat)
    ensures DateOf(0) == Date(1970, 1, 1, 0, 0, 0)
    ensures DateOf(timestamp + 1) == Tick(DateOf(timestamp))
  {
    DateOfIsReal(timestamp);
    TickFollows(DateOf(timestamp));
    DateOfTimestamp(Tick(DateOf(timestamp)));
  }
}
