/**
 The conversion of a Unix time to a local calendar date in sdk_src/utils/utils_timer.c. It takes
 every fourth year for a leap year, which is the Gregorian rule until the end of February 2100.
 */
module Calendar {
  import opened Arithmetic

  type uint64 = x: int | 0 <= x < 0x1_0000_0000_0000_0000
  type int8 = x: int | -128 <= x < 128

  datatype Date = Date(year: int, month: int, day: int)
  datatype Clock = Clock(hour: int, minute: int, sec: int)

  // ---------------------------------------------------------------- counting days

  predicate FourthYear(year: int) { year % 4 == 0 }

  predicate Gregorian(year: int) { year % 4 == 0 && (year % 100 != 0 || year % 400 == 0) }

  function MonthDays(leap: bool, month: int): nat {
    if month == 2 then (if leap then 29 else 28)
    else if month in {4, 6, 9, 11} then 30 else 31
  }

  /** Days of the year before a month. */
  function MonthStart(leap: bool, month: int): nat {
    if month <= 1 then 0 else MonthStart(leap, month - 1) + MonthDays(leap, month - 1)
  }

  /** Days from the start of 1970 to the start of a year, under a rule for leap years. */
  function YearStart(leap: int -> bool, year: int): nat {
    if year <= 1970 then 0 else YearStart(leap, year - 1) + if leap(year - 1) then 366 else 365
  }

  /** Days from the start of 1970 to a date. */
  function DayNumber(leap: int -> bool, d: Date): int {
    YearStart(leap, d.year) + MonthStart(leap(d.year), d.month) + d.day - 1
  }

  predicate Valid(leap: int -> bool, d: Date) {
    d.year >= 1970 && 1 <= d.month <= 12 && 1 <= d.day <= MonthDays(leap(d.year), d.month)
  }

  function SecondOfDay(c: Clock): int { c.hour * 3600 + c.minute * 60 + c.sec }

  predicate ValidClock(c: Clock) { 0 <= c.hour < 24 && 0 <= c.minute < 60 && 0 <= c.sec < 60 }

  // ---------------------------------------------------------------- laws of the day count

  lemma {:induction false} LeapShift(month: int)
    requires 3 <= month <= 13
    ensures MonthStart(true, month) == MonthStart(false, month) + 1
  {
    if month > 3 { LeapShift(month - 1); }
  }

  lemma YearLength(leap: bool)
    ensures MonthStart(leap, 13) == if leap then 366 else 365
  {
    LeapShift(13);
    hide MonthStart;
    MonthStep(1); MonthStep(2); MonthStep(3); MonthStep(4); MonthStep(5); MonthStep(6);
    MonthStep(7); MonthStep(8); MonthStep(9); MonthStep(10); MonthStep(11); MonthStep(12);
  }

  /** The days before each month of a common year, and how much longer a leap year is from March on. */
  lemma MonthStarts()
    ensures MonthStart(false, 1) == 0 && MonthStart(false, 2) == 31 && MonthStart(false, 3) == 59
    ensures MonthStart(false, 4) == 90 && MonthStart(false, 5) == 120 && MonthStart(false, 6) == 151
    ensures MonthStart(false, 7) == 181 && MonthStart(false, 8) == 212 && MonthStart(false, 9) == 243
    ensures MonthStart(false, 10) == 273 && MonthStart(false, 11) == 304 && MonthStart(false, 12) == 334
    ensures MonthStart(false, 13) == 365
    ensures forall m :: 1 <= m <= 13 ==> MonthStart(true, m) == MonthStart(false, m) + if m > 2 then 1 else 0
  {
    forall m | 1 <= m <= 13 ensures MonthStart(true, m) == MonthStart(false, m) + if m > 2 then 1 else 0 {
      if m > 2 { LeapShift(m); }
    }
    hide MonthStart;
    MonthStep(1); MonthStep(2); MonthStep(3); MonthStep(4); MonthStep(5); MonthStep(6);
    MonthStep(7); MonthStep(8); MonthStep(9); MonthStep(10); MonthStep(11); MonthStep(12);
  }

  lemma {:induction false} FourthYearStart(year: int)
    requires year >= 1970
    ensures YearStart(FourthYear, year) == 365 * (year - 1970) + (year - 1969) / 4
  {
    if year > 1970 { FourthYearStart(year - 1); }
  }

  lemma {:induction false} MonthsApart(leap: bool, m: int, n: int)
    requires 1 <= m < n
    ensures MonthStart(leap, m) + MonthDays(leap, m) <= MonthStart(leap, n)
  {
    if m + 1 < n { MonthsApart(leap, m, n - 1); }
  }

  lemma {:induction false} YearsApart(leap: int -> bool, y: int, z: int)
    requires 1970 <= y < z
    ensures YearStart(leap, y) + (if leap(y) then 366 else 365) <= YearStart(leap, z)
  {
    if y + 1 < z { YearsApart(leap, y, z - 1); }
  }

  lemma WithinYear(leap: int -> bool, d: Date)
    requires Valid(leap, d)
    ensures YearStart(leap, d.year) <= DayNumber(leap, d) < YearStart(leap, d.year) + if leap(d.year) then 366 else 365
  {
    YearLength(leap(d.year));
    MonthsApart(leap(d.year), d.month, 13);
  }

  /** A later date has the larger day number, so a day number names one valid date. */
  lemma DayNumberInjective(leap: int -> bool, d: Date, e: Date)
    requires Valid(leap, d) && Valid(leap, e) && DayNumber(leap, d) == DayNumber(leap, e)
    ensures d == e
  {
    WithinYear(leap, d);
    WithinYear(leap, e);
    if d.year < e.year { YearsApart(leap, d.year, e.year); }
    if e.year < d.year { YearsApart(leap, e.year, d.year); }
    if d.month < e.month { MonthsApart(leap(d.year), d.month, e.month); }
    if e.month < d.month { MonthsApart(leap(d.year), e.month, d.month); }
  }

  // ---------------------------------------------------------------- the conversion

  /** The one day in four years that the closed formula for the year does not serve. */
  predicate LastOfLeapYear(day: int) { Remainder(day + 366, 1461) == 0 }

  /** The local day as the code has it: unsigned wrap-around, then truncation to an int. */
  function LocalDay(timestamp: uint64, zone: int8): int32 {
    var minutes := (timestamp / 60 + zone * 60) % 0x1_0000_0000_0000_0000;
    var days := minutes / 60 / 24 % 0x1_0000_0000;
    if days < 0x8000_0000 then days else days - 0x1_0000_0000
  }

  /** The month loop: splits a day of a common year, counted from one. */
  method MonthOf(n: int) returns (month: int, day: int)
    requires n <= 365
    ensures n >= 1 ==> 1 <= month <= 12 && 1 <= day <= MonthDays(false, month) && n == MonthStart(false, month) + day
    ensures n < 1 ==> month == 1 && day == n
  {
    var index := 0;
    day := n;
    YearLength(false);
    hide MonthStart;
    MonthStep(1);
    while Table[index] < day
      invariant 0 <= index < 12 && day + MonthStart(false, index + 1) == n
      invariant Table[index] == MonthDays(false, index + 1)
      invariant MonthStart(false, index + 2) == MonthStart(false, index + 1) + Table[index]
      invariant index > 0 ==> day >= 1
    {
      day := day - Table[index];
      if index == 11 { assert false; }
      index := index + 1;
      MonthStep(index + 1);
    }
    month := index + 1;
  }

  const Table := [31, 28, 31, 30, 31, 30, 31, 31, 30, 31, 30, 31]

  lemma MonthStep(month: int)
    requires 1 <= month <= 12
    ensures Table[month - 1] == MonthDays(false, month)
    ensures MonthStart(false, 1) == 0 && MonthStart(false, month + 1) == MonthStart(false, month) + Table[month - 1]
  {
    assert MonthStart(false, month + 1) == MonthStart(false, month) + MonthDays(false, month);
  }

  /** From the day number on: sdk_src/utils/utils_timer.c:36-63. */
  method DateOf(day: int32) returns (date: Date)
    requires day + 366 < 0x8000_0000
    ensures Valid(FourthYear, date) && DayNumber(FourthYear, date) == day
            <==> day >= 0 && !(LastOfLeapYear(day) && day >= 179337)
    ensures Valid(FourthYear, date) ==> DayNumber(FourthYear, date) <= day
    ensures LastOfLeapYear(day) ==> date == Date(Quotient(day, 366) + 1970, 12, 31)
  {
    assert MonthStart(true, 2) == 31;
    hide MonthStart, YearStart;
    var leaps := Quotient(day + 365, 1461);
    if LastOfLeapYear(day) {
      date := Date(Quotient(day, 366) + 1970, 12, 31);
      LastDay(day);
    } else {
      var n := day - leaps;
      var year := Quotient(n, 365) + 1970;
      n := Remainder(n, 365) + 1;
      if day >= 0 { YearOf(day); } else { BeforeEpoch(day); }
      if Remainder(year, 4) == 0 && n == 60 {
        date := Date(year, 2, 29);
      } else {
        ghost var dayOfYear := n;
        if Remainder(year, 4) == 0 && n > 60 { n := n - 1; }
        var month, dayOfMonth := MonthOf(n);
        date := Date(year, month, dayOfMonth);
        if n >= 1 { Spread(FourthYear(year), dayOfYear, month, dayOfMonth); }
      }
    }
  }

  /** The common year's split serves a leap year once the 29th of February is taken out. */
  lemma Spread(leap: bool, n: int, month: int, day: int)
    requires 1 <= month <= 12 && 1 <= day <= MonthDays(false, month) && !(leap && n == 60)
    requires MonthStart(false, month) + day == if leap && n > 60 then n - 1 else n
    ensures MonthStart(leap, month) + day == n
  {
    MonthStep(1);
    MonthStep(2);
    if leap && month >= 3 {
      LeapShift(month);
      if month > 3 { MonthsApart(false, 3, month); }
    }
  }

  lemma YearOf(day: int)
    requires day >= 0 && !LastOfLeapYear(day)
    ensures var n := day - Quotient(day + 365, 1461);
            var year := Quotient(n, 365) + 1970;
            year >= 1970 && Remainder(n, 365) >= 0 && YearStart(FourthYear, year) + Remainder(n, 365) == day
  {
    hide YearStart;
    var (k, r) := ((day + 365) / 1461, (day + 365) % 1461);
    assert day + 365 == 1461 * k + r;
    FourYears(k, r);
    var y := 4 * k - 1 + r / 365;
    FourthYearStart(y + 1970);
    assert day - k == 365 * y + r % 365;
  }

  /** A day of a cycle of four years that is not its last: which year it falls into. */
  lemma FourYears(k: nat, r: nat)
    requires r < 1460 && 1461 * k + r >= 365
    ensures var (n, y) := (365 * (4 * k - 1) + r, 4 * k - 1 + r / 365);
            n / 365 == y && n % 365 == r % 365 && y >= 0 && (y + 1) / 4 == k
  {
    DivisionUnique(365 * (4 * k - 1) + r, 365, 4 * k - 1 + r / 365, r % 365);
    DivisionUnique(4 * k + r / 365, 4, k, r / 365);
  }

  lemma BeforeEpoch(day: int)
    requires day < 0 && !LastOfLeapYear(day)
    ensures day - Quotient(day + 365, 1461) < 0
  {
  }

  lemma LastDay(day: int)
    requires LastOfLeapYear(day)
    ensures var date := Date(Quotient(day, 366) + 1970, 12, 31);
            && (Valid(FourthYear, date) <==> day >= 0)
            && (day >= 0 ==> DayNumber(FourthYear, date) <= day && (DayNumber(FourthYear, date) == day <==> day < 179337))
  {
    if day >= 0 {
      var (k, q) := ((day + 366) / 1461, day / 366);
      assert day == 1461 * k - 366 && k >= 1;
      FourthYearStart(q + 1970);
      LastMonth(FourthYear(q + 1970));
      hide MonthStart, YearStart;
      if k <= 122 { DivisionUnique(day, 366, 4 * k - 2, 366 - 3 * k); } else { assert q <= 4 * k - 3; }
    }
  }

  lemma LastMonth(leap: bool)
    ensures MonthStart(leap, 12) == if leap then 335 else 334
  {
    YearLength(leap);
    assert MonthStart(leap, 13) == MonthStart(leap, 12) + MonthDays(leap, 12);
  }

  /** What the caller wants: the valid date and clock that lie the local number of seconds after 1970. */
  predicate Right(date: Date, clock: Clock, timestamp: uint64, zone: int8) {
    && Valid(FourthYear, date) && ValidClock(clock)
    && DayNumber(FourthYear, date) * 86400 + SecondOfDay(clock) == timestamp + zone * 3600
  }

  /**
   timestamp_to_date. It is right exactly when the local time is not before 1970, its day fits an int
   and the day is not the last of a leap year from the one numbered 179337 on (the end of 2460).
   */
  method TimestampToDate(timestamp: uint64, zone: int8) returns (date: Date, clock: Clock)
    requires LocalDay(timestamp, zone) + 366 < 0x8000_0000
    ensures var seconds := timestamp + zone * 3600;
            var day := seconds / 86400;
            Right(date, clock, timestamp, zone)
            <==> seconds >= 0 && day < 0x8000_0000 && !(LastOfLeapYear(day) && day >= 179337)
  {
    var t := timestamp;
    var sec := t % 60;
    t := t / 60;
    var minute := t % 60;
    t := (t + zone * 60) % 0x1_0000_0000_0000_0000;
    t := t / 60;
    clock := Clock(t % 24, minute, sec);
    date := DateOf(LocalDay(timestamp, zone));
    LocalTime(timestamp, zone, t);
  }

  lemma LocalTime(timestamp: uint64, zone: int8, hours: int)
    requires hours == (timestamp / 60 + zone * 60) % 0x1_0000_0000_0000_0000 / 60
    ensures var seconds := timestamp + zone * 3600;
            && LocalDay(timestamp, zone) <= hours / 24
            && (seconds >= 0 ==>
                  && seconds / 86400 == hours / 24
                  && (LocalDay(timestamp, zone) == hours / 24 <==> hours / 24 < 0x8000_0000)
                  && seconds == hours / 24 * 86400 + hours % 24 * 3600 + timestamp / 60 % 60 * 60 + timestamp % 60)
  {
    var minutes := timestamp / 60 + zone * 60;
    var days := hours / 24;
    assert minutes < 0x1_0000_0000_0000_0000;
    if timestamp + zone * 3600 >= 0 {
      assert minutes >= 0;
      assert minutes / 60 == timestamp / 3600 + zone;
    }
  }

  // ---------------------------------------------------------------- the Gregorian calendar

  lemma Rules(year: int)
    requires year >= 1970
    ensures Gregorian(year) ==> FourthYear(year)
    ensures year < 2100 ==> FourthYear(year) == Gregorian(year)
    ensures year == 2100 ==> FourthYear(year) && !Gregorian(year)
  {
    if year < 2100 && year % 100 == 0 { assert year == 100 * (year / 100); }
  }

  lemma YearNext(leap: int -> bool, year: int)
    requires year >= 1970
    ensures YearStart(leap, year + 1) == YearStart(leap, year) + if leap(year) then 366 else 365
  {
  }

  /** The every-fourth-year count runs ahead of the Gregorian one from the year 2101 on. */
  lemma {:induction false} YearStarts(year: int)
    requires year >= 1970
    ensures year <= 2100 ==> YearStart(FourthYear, year) == YearStart(Gregorian, year)
    ensures year > 2100 ==> YearStart(FourthYear, year) > YearStart(Gregorian, year)
  {
    if year > 1970 {
      var last := year - 1;
      YearStarts(last);
      YearNext(FourthYear, last);
      YearNext(Gregorian, last);
      Rules(last);
      hide *;
    }
  }

  /** Through the 28th of February 2100, and no further, the two calendars name days alike. */
  lemma GregorianUntil2100(d: Date)
    requires Valid(Gregorian, d)
    ensures Valid(FourthYear, d)
    ensures DayNumber(FourthYear, d) == DayNumber(Gregorian, d) <==> d.year < 2100 || (d.year == 2100 && d.month <= 2)
  {
    YearStarts(d.year);
    Rules(d.year);
    MonthsLonger(d.month);
    hide YearStart, MonthStart, Gregorian, FourthYear;
    if d.month >= 3 { LeapShift(d.month); }
  }

  lemma MonthsLonger(month: int)
    requires 1 <= month <= 12
    ensures MonthStart(true, month) >= MonthStart(false, month)
    ensures month <= 2 ==> MonthStart(true, month) == MonthStart(false, month)
  {
    if month >= 3 { LeapShift(month); }
  }

  /** The first day the conversion gets wrong is the end of 2460: it answers a date 366 days earlier. */
  method FirstWrongDay() returns (date: Date)
    ensures date == Date(2459, 12, 31)
    ensures DayNumber(FourthYear, Date(2460, 12, 31)) == 179337 == DayNumber(FourthYear, date) + 366
  {
    date := DateOf(179337);
    FourthYearStart(2459);
    FourthYearStart(2460);
    LastMonth(true);
    LastMonth(false);
    hide YearStart, MonthStart;
  }
}
