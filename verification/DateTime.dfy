/** Conversion between calendar fields and timestamps (lib/datetime/datetime.c). */
module DateTimes {
  import opened Calendar

  newtype uint8 = x: int | 0 <= x < 0x100
  newtype uint16 = x: int | 0 <= x < 0x1_0000
  newtype uint32 = x: int | 0 <= x < 0x1_0000_0000
  newtype int32 = x: int | -0x8000_0000 <= x < 0x8000_0000

  class DateTime {
    var hour: uint8
    var minute: uint8
    var second: uint8
    var day: uint8
    var month: uint8
    var year: uint16
    var weekday: uint8

    function Fields(): Date
      reads this
    {
      Date(year as nat, month as nat, day as nat, hour as nat, minute as nat, second as nat)
    }

    constructor ()
    {
      hour, minute, second, day, month, year, weekday := 0, 0, 0, 0, 0, 0, 0;
    }
  }

  /** Unsigned 32-bit addition of a value that may be negative. */
  function Add32(t: uint32, x: int): (r: uint32) {
    ((t as int + x) % 0x1_0000_0000) as uint32
  }

  lemma AddWraps(t: uint32, total: int, x: int)
    requires t as int == total % 0x1_0000_0000
    ensures Add32(t, x) as int == (total + x) % 0x1_0000_0000
  {}

  lemma YearsBounded(year: nat)
    requires year <= 2038
    ensures DaysBeforeYear(year) <= 24837
  {
    if year > 1970 { YearsInClosedForm(year); }
  }

  /** Below 2^31 seconds the year is at most 2038. */
  lemma YearInRange(d: Date)
    requires d.Real() && d.Timestamp() < 0x8000_0000
    ensures d.year <= 2038
  {
    DayInYear(d);
    if d.year >= 2039 {
      YearsInClosedForm(2039);
      if d.year > 2039 { YearsApart(2039, d.year); }
    }
  }

  /** The days of all years before `year`, counted as ordinary and leap years, in seconds. */
  method SecondsOfYears(year: uint16) returns (seconds: int32)
    requires year <= 2038
    ensures seconds as int == 86400 * DaysBeforeYear(year as nat)
  {
    var years: uint8, leapYears: uint8 := 0, 0;
    var y: uint16 := 1970;
    while y < year
      invariant 1970 <= y <= 2038 && (y <= year || y == 1970)
      invariant years as nat + leapYears as nat == y as nat - 1970
      invariant 365 * years as nat + 366 * leapYears as nat == DaysBeforeYear(y as nat)
    {
      if IsLeapYear(y as nat) {
        leapYears := leapYears + 1;
      } else {
        years := years + 1;
      }
      y := y + 1;
    }
    YearsBounded(y as nat);
    seconds := (years as int32 * 365 + leapYears as int32 * 366) * 86400;
  }

  method DatetimeToTimestamp(datetime: DateTime) returns (timestamp: uint32)
    requires datetime.year <= 2038 && datetime.month <= 13
    ensures timestamp as int == datetime.Fields().Timestamp() % 0x1_0000_0000
    ensures datetime.Fields().Real() && datetime.Fields().Timestamp() < 0x8000_0000 ==>
        timestamp as int == datetime.Fields().Timestamp()
    ensures 1970 <= datetime.year && 1 <= datetime.month <= 12 ==>
        timestamp as int == CivilSeconds(datetime.Fields()) % 0x1_0000_0000
  {
    timestamp := SumFields(datetime);
    ghost var d := datetime.Fields();
    RealIsCivil(d);
    if d.Real() && d.Timestamp() < 0x8000_0000 {
      DateOfTimestamp(d);
      FitsWord(d.Timestamp());
    }
  }

  method SumFields(datetime: DateTime) returns (timestamp: uint32)
    requires datetime.year <= 2038 && datetime.month <= 13
    ensures timestamp as int == datetime.Fields().Timestamp() % 0x1_0000_0000
  {
    ghost var d := datetime.Fields();
    var ofYears := SecondsOfYears(datetime.year);
    timestamp := Add32(0, ofYears as int);
    timestamp := AddMonths(timestamp, datetime);
    ghost var start := 86400 * (DaysBeforeYear(d.year) + DaysBeforeMonth(IsLeapYear(d.year), d.month));
    timestamp := AddFields(timestamp, datetime, start);
  }

  /** The days of all months before the date's, in seconds. */
  method AddMonths(ofYears: uint32, datetime: DateTime) returns (timestamp: uint32)
    requires datetime.month <= 13
    requires var d := datetime.Fields(); ofYears as int == (86400 * DaysBeforeYear(d.year)) % 0x1_0000_0000
    ensures var d := datetime.Fields();
      timestamp as int ==
        (86400 * (DaysBeforeYear(d.year) + DaysBeforeMonth(IsLeapYear(d.year), d.month))) % 0x1_0000_0000
  {
    ghost var d := datetime.Fields();
    timestamp := ofYears;
    var leap := IsLeapYear(datetime.year as nat);
    var m: uint8 := 1;
    while m < datetime.month
      invariant 1 <= m <= 13 && (m <= datetime.month || m == 1)
      invariant timestamp as int == (86400 * (DaysBeforeYear(d.year) + DaysBeforeMonth(leap, m as nat))) % 0x1_0000_0000
    {
      AddWraps(timestamp, 86400 * (DaysBeforeYear(d.year) + DaysBeforeMonth(leap, m as nat)),
        DaysPerMonth(leap, m as nat) * 86400);
      timestamp := Add32(timestamp, DaysPerMonth(leap, m as nat) * 86400);
      m := m + 1;
    }
  }

  method AddFields(sofar: uint32, datetime: DateTime, ghost start: int) returns (timestamp: uint32)
    requires sofar as int == start % 0x1_0000_0000
    ensures var d := datetime.Fields();
            timestamp as int == (start + 86400 * (d.day - 1) + 3600 * d.hour + 60 * d.minute + d.second) % 0x1_0000_0000
  {
    var days, hours, minutes := (datetime.day as int - 1) * 86400, datetime.hour as int * 3600,
        datetime.minute as int * 60;
    AddWraps(sofar, start, days);
    timestamp := Add32(sofar, days);
    AddWraps(timestamp, start + days, hours);
    timestamp := Add32(timestamp, hours);
    AddWraps(timestamp, start + days + hours, minutes);
    timestamp := Add32(timestamp, minutes);
    AddWraps(timestamp, start + days + hours + minutes, datetime.second as int);
    timestamp := Add32(timestamp, datetime.second as int);
  }

  /** The day of the week, Monday being 1. */
  function Weekday(days: nat): (r: nat)
    ensures 1 <= r <= 7
  {
    (days + 3) % 7 + 1
  }

  /** The first day of 1970 was a Thursday, and each day is followed by the next day of the week. */
  lemma WeekdayAdvances(days: nat)
    ensures Weekday(0) == 4
    ensures Weekday(days + 1) == if Weekday(days) == 7 then 1 else Weekday(days) + 1
  {
    var w := (days + 3) % 7;
    assert (days + 3) + 1 == days + 1 + 3;
  }

  method TimestampToDatetime(timestamp: uint32, datetime: DateTime)
    modifies datetime
    ensures datetime.Fields() == DateOf(timestamp as nat)
    ensures Civil(datetime.Fields()) && CivilSeconds(datetime.Fields()) == timestamp as int
    ensures datetime.weekday as nat == Weekday(timestamp as nat / 86400)
  {
    WriteFields(timestamp, datetime);
    DateOfIsCivil(datetime.Fields(), timestamp as nat);
  }

  lemma DateOfIsCivil(d: Date, timestamp: nat)
    requires d == DateOf(timestamp)
    ensures Civil(d) && CivilSeconds(d) == timestamp
  {
    DateOfIsReal(timestamp);
    RealIsCivil(d);
  }

  method WriteFields(timestamp: uint32, datetime: DateTime)
    modifies datetime
    ensures datetime.Fields() == DateOf(timestamp as nat)
    ensures datetime.weekday as nat == Weekday(timestamp as nat / 86400)
  {
    var days := timestamp / 86400;
    var secondsInDay := timestamp % 86400;
    datetime.weekday := ((days + 3) % 7 + 1) as uint8;
    days := FindYear(days, datetime);
    days := FindMonth(days, datetime);
    datetime.day := (days + 1) as uint8;
    datetime.hour := (secondsInDay / 3600) as uint8;
    datetime.minute := (secondsInDay % 3600 / 60) as uint8;
    datetime.second := (secondsInDay % 60) as uint8;
  }

  method FindYear(total: uint32, datetime: DateTime) returns (days: uint32)
    requires total <= 49710
    modifies datetime`year
    ensures datetime.year as nat == YearOf(1970, total as nat)
    ensures days as nat == total as nat - DaysBeforeYear(datetime.year as nat)
    ensures (days as nat) < DaysPerYear(datetime.year as nat)
  {
    days := total;
    datetime.year := 1970;
    while days as nat >= DaysPerYear(datetime.year as nat)
      invariant 1970 <= datetime.year <= 2200
      invariant DaysBeforeYear(datetime.year as nat) + days as nat == total as nat
      invariant YearOf(datetime.year as nat, days as nat) == YearOf(1970, total as nat)
      decreases days
    {
      DaysAtLeast(datetime.year as nat);
      days := days - DaysPerYear(datetime.year as nat) as uint32;
      datetime.year := datetime.year + 1;
    }
  }

  lemma MonthLength(leap: bool, month: nat)
    requires 1 <= month <= 12
    ensures 28 <= DaysPerMonth(leap, month) <= 31
  {}

  /** One more month passed. */
  lemma MonthPassed(leap: bool, month: nat, days: nat, total: nat)
    requires 1 <= month <= 12 && DaysPerMonth(leap, month) <= days && total < DaysBeforeMonth(leap, 13)
    requires DaysBeforeMonth(leap, month) + days == total
    ensures month + 1 <= 12
    ensures DaysBeforeMonth(leap, month + 1) + (days - DaysPerMonth(leap, month)) == total
    ensures MonthOf(leap, month + 1, days - DaysPerMonth(leap, month)) == MonthOf(leap, month, days)
  {}

  /** The month search stays within 1 to 12. */
  method FindMonth(total: uint32, datetime: DateTime) returns (days: uint32)
    requires (total as nat) < DaysPerYear(datetime.year as nat)
    modifies datetime`month
    ensures 1 <= datetime.month <= 12
    ensures datetime.month as nat == MonthOf(IsLeapYear(datetime.year as nat), 1, total as nat)
    ensures days as nat == total as nat - DaysBeforeMonth(IsLeapYear(datetime.year as nat), datetime.month as nat)
    ensures days < 31
  {
    ghost var leap := IsLeapYear(datetime.year as nat);
    YearLength(leap);
    days := total;
    datetime.month := 1;
    while days as nat >= DaysPerMonth(IsLeapYear(datetime.year as nat), datetime.month as nat)
      invariant 1 <= datetime.month <= 12
      invariant DaysBeforeMonth(leap, datetime.month as nat) + days as nat == total as nat
      invariant MonthOf(leap, datetime.month as nat, days as nat) == MonthOf(leap, 1, total as nat)
      decreases days
    {
      MonthLength(leap, datetime.month as nat);
      MonthPassed(leap, datetime.month as nat, days as nat, total as nat);
      days := days - DaysPerMonth(IsLeapYear(datetime.year as nat), datetime.month as nat) as uint32;
      datetime.month := datetime.month + 1;
    }
    MonthLength(leap, datetime.month as nat);
  }

  // ---------- round trips ----------

  /** Every timestamp below 2^31 names a date whose timestamp, computed as above, is that number again. */
  lemma TimestampsSurvive(timestamp: nat)
    requires timestamp < 0x8000_0000
    ensures var d := DateOf(timestamp); d.Real() && d.year <= 2038 && d.Timestamp() % 0x1_0000_0000 == timestamp
  {
    DateOfIsReal(timestamp);
    YearInRange(DateOf(timestamp));
  }

  lemma FitsWord(t: int)
    requires 0 <= t < 0x8000_0000
    ensures t % 0x1_0000_0000 == t
  {}

  lemma SameDate(d: Date, t: int, u: nat)
    requires u == t && t >= 0 && DateOf(t) == d
    ensures DateOf(u) == d
  {}

  /** Every real date in that range is the date of its computed timestamp. */
  lemma DatesSurvive(d: Date)
    requires d.Real() && d.Timestamp() < 0x8000_0000
    ensures d.year <= 2038 && DateOf(d.Timestamp() % 0x1_0000_0000) == d
  {
    YearInRange(d);
    DateOfTimestamp(d);
    FitsWord(d.Timestamp());
    SameDate(d, d.Timestamp(), d.Timestamp() % 0x1_0000_0000);
  }
}
