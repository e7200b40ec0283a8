/**
 * Proleptic Gregorian calendar arithmetic on day numbers, as the date
 * abstract operations of section 21.4.1 of ECMA-262 define it (DaysInYear,
 * DayFromYear, YearFromTime, MonthFromTime, DateFromTime, MakeDay, WeekDay).
 * Day 0 is 1970-01-01; months are numbered 0..11 as in JavaScript.
 */
module Calendar {

  const MsPerDay: int := 86_400_000
  const MsPerHour: int := 3_600_000

  /** A calendar date with a JavaScript month index (0 = January). */
  datatype CalDate = CalDate(year: int, month: int, day: int)

  function DaysInYear(y: int): (r: int)
    ensures r == 365 || r == 366
  {
    if y % 4 != 0 then 365
    else if y % 100 != 0 then 366
    else if y % 400 != 0 then 365
    else 366
  }

  function InLeapYear(y: int): (r: int)
    ensures r == DaysInYear(y) - 365
  {
    if DaysInYear(y) == 366 then 1 else 0
  }

  /** Number of the first day of year y. */
  function DayFromYear(y: int): int
  {
    365 * (y - 1970) + (y - 1969) / 4 - (y - 1901) / 100 + (y - 1601) / 400
  }

  /** Number of days in month m of year y, by the usual table. */
  function DaysInMonth(y: int, m: int): (r: int)
    requires 0 <= m < 12
    ensures 28 <= r <= 31
  {
    if m == 1 then 28 + InLeapYear(y)
    else if m == 3 || m == 5 || m == 8 || m == 10 then 30
    else 31
  }

  /** Day within the year on which month m starts (the thresholds of MonthFromTime). */
  function MonthStart(y: int, m: int): int
    requires 0 <= m <= 12
  {
    var leap := InLeapYear(y);
    if m == 0 then 0
    else if m == 1 then 31
    else if m == 2 then 59 + leap
    else if m == 3 then 90 + leap
    else if m == 4 then 120 + leap
    else if m == 5 then 151 + leap
    else if m == 6 then 181 + leap
    else if m == 7 then 212 + leap
    else if m == 8 then 243 + leap
    else if m == 9 then 273 + leap
    else if m == 10 then 304 + leap
    else if m == 11 then 334 + leap
    else 365 + leap
  }

  /** The month table and the month thresholds agree, and the year ends after month 11. */
  lemma MonthStartStep(y: int, m: int)
    requires 0 <= m < 12
    ensures MonthStart(y, m + 1) == MonthStart(y, m) + DaysInMonth(y, m)
    ensures MonthStart(y, 12) == DaysInYear(y)
  {
  }

  predicate ValidDate(d: CalDate)
  {
    0 <= d.month < 12 && 1 <= d.day <= DaysInMonth(d.year, d.month)
  }

  /**
   * MakeDay(year, month, date): the month may lie outside 0..11 (it carries
   * into the year) and the date outside the month (it simply adds days).
   */
  function MakeDay(year: int, month: int, date: int): int
  {
    var ym := year + month / 12;
    var mn := month % 12;
    DayFromYear(ym) + MonthStart(ym, mn) + date - 1
  }

  function DayNumber(d: CalDate): int
  {
    MakeDay(d.year, d.month, d.day)
  }

  /** MakeDay for a month inside the year, and the shift of its date argument. */
  lemma MakeDayInYear(y: int, m: int, date: int, k: int)
    requires 0 <= m < 12
    ensures MakeDay(y, m, date) == DayFromYear(y) + MonthStart(y, m) + date - 1
    ensures MakeDay(y, m, date + k) == MakeDay(y, m, date) + k
  {
    assert m / 12 == 0 && m % 12 == m;
  }

  /** WeekDay: 0 = Sunday .. 6 = Saturday; 1970-01-01 was a Thursday. */
  function WeekDay(n: int): (r: int)
    ensures 0 <= r < 7
  {
    (n + 4) % 7
  }

  // ---------------------------------------------------------------------
  // Year of a day number

  /** 400 * DayFromYear(y) stays within a few hundred of 146097 * (y - 1970). */
  lemma DayFromYearEstimate(y: int)
    ensures -506 <= 400 * DayFromYear(y) - 146097 * (y - 1970) <= 589
  {
    var a := (y - 1969) % 4;
    var b := (y - 1901) % 100;
    var c := (y - 1601) % 400;
    assert 4 * ((y - 1969) / 4) == y - 1969 - a;
    assert 100 * ((y - 1901) / 100) == y - 1901 - b;
    assert 400 * ((y - 1601) / 400) == y - 1601 - c;
    assert 400 * DayFromYear(y) - 146097 * (y - 1970) == 193 - 100 * a + 4 * b - c;
  }

  lemma FloorStep4(y: int)
    ensures (y - 1968) / 4 == (y - 1969) / 4 + (if y % 4 == 0 then 1 else 0)
  {
  }

  lemma FloorStep100(y: int)
    ensures (y - 1900) / 100 == (y - 1901) / 100 + (if y % 100 == 0 then 1 else 0)
  {
  }

  lemma FloorStep400(y: int)
    ensures (y - 1600) / 400 == (y - 1601) / 400 + (if y % 400 == 0 then 1 else 0)
  {
  }

  /** DaysInYear as 365 plus the three leap-year corrections. */
  lemma LeapCorrections(y: int)
    ensures DaysInYear(y) == 365 + (if y % 4 == 0 then 1 else 0) - (if y % 100 == 0 then 1 else 0) + (if y % 400 == 0 then 1 else 0)
  {
    var k100, k400 := y / 100, y / 400;
    if y % 100 == 0 {
      assert y == 4 * (25 * k100);
    }
    if y % 400 == 0 {
      assert y == 100 * (4 * k400);
    }
  }

  lemma {:induction false} DayFromYearStep(y: int)
    ensures DayFromYear(y + 1) == DayFromYear(y) + DaysInYear(y)
  {
    var q4, q100, q400 := (y - 1969) / 4, (y - 1901) / 100, (y - 1601) / 400;
    var p4, p100, p400 := (y - 1968) / 4, (y - 1900) / 100, (y - 1600) / 400;
    assert DayFromYear(y) == 365 * (y - 1970) + q4 - q100 + q400;
    assert DayFromYear(y + 1) == 365 * (y - 1969) + p4 - p100 + p400;
    FloorStep4(y);
    FloorStep100(y);
    FloorStep400(y);
    LeapCorrections(y);
  }

  lemma DayFromYearMonotone(a: int, b: int)
    requires a < b
    ensures DayFromYear(a) + 365 <= DayFromYear(b)
  {
    DayFromYearEstimate(a);
    DayFromYearEstimate(b);
    if b == a + 1 {
      DayFromYearStep(a);
    }
  }

  /** YearFromTime: the largest year whose first day is not after day n. */
  function YearFromDay(n: int): (y: int)
    ensures DayFromYear(y) <= n < DayFromYear(y + 1)
  {
    var y0 := 1970 + (400 * n) / 146097;
    DayFromYearEstimate(y0 - 1);
    DayFromYearEstimate(y0);
    DayFromYearEstimate(y0 + 1);
    DayFromYearEstimate(y0 + 2);
    if DayFromYear(y0) > n then y0 - 1
    else if DayFromYear(y0 + 1) <= n then y0 + 1
    else y0
  }

  lemma YearFromDayUnique(n: int, y: int)
    requires DayFromYear(y) <= n < DayFromYear(y + 1)
    ensures YearFromDay(n) == y
  {
    var z := YearFromDay(n);
    if z < y {
      if z + 1 < y { DayFromYearMonotone(z + 1, y); }
    } else if z > y {
      if y + 1 < z { DayFromYearMonotone(y + 1, z); }
    }
  }

  /** MonthFromTime on a day within year y. */
  function MonthFromDayWithinYear(y: int, dwy: int): (m: int)
    requires 0 <= dwy < DaysInYear(y)
    ensures 0 <= m < 12
    ensures MonthStart(y, m) <= dwy < MonthStart(y, m + 1)
  {
    if dwy < MonthStart(y, 1) then 0
    else if dwy < MonthStart(y, 2) then 1
    else if dwy < MonthStart(y, 3) then 2
    else if dwy < MonthStart(y, 4) then 3
    else if dwy < MonthStart(y, 5) then 4
    else if dwy < MonthStart(y, 6) then 5
    else if dwy < MonthStart(y, 7) then 6
    else if dwy < MonthStart(y, 8) then 7
    else if dwy < MonthStart(y, 9) then 8
    else if dwy < MonthStart(y, 10) then 9
    else if dwy < MonthStart(y, 11) then 10
    else 11
  }

  /** The date on day dwy (0-based) of year y: MonthFromTime and DateFromTime. */
  function DateInYear(y: int, dwy: int): (d: CalDate)
    requires 0 <= dwy < DaysInYear(y)
    ensures ValidDate(d) && d.year == y
    ensures dwy == MonthStart(y, d.month) + d.day - 1
  {
    var m := MonthFromDayWithinYear(y, dwy);
    MonthStartStep(y, m);
    CalDate(y, m, dwy - MonthStart(y, m) + 1)
  }

  /** The calendar date of day n: YearFromTime, MonthFromTime and DateFromTime together. */
  function DateOfDay(n: int): (d: CalDate)
    ensures ValidDate(d)
    ensures DayNumber(d) == n
  {
    var y := YearFromDay(n);
    DayFromYearStep(y);
    var d := DateInYear(y, n - DayFromYear(y));
    MakeDayInYear(y, d.month, d.day, 0);
    d
  }

  lemma DateInYearOf(d: CalDate)
    requires ValidDate(d)
    ensures 0 <= MonthStart(d.year, d.month) + d.day - 1 < DaysInYear(d.year)
    ensures DateInYear(d.year, MonthStart(d.year, d.month) + d.day - 1) == d
  {
    var y, m := d.year, d.month;
    var dwy := MonthStart(y, m) + d.day - 1;
    MonthStartStep(y, m);
    MonthStartMonotone(y, m + 1, 12);
    var e := MonthFromDayWithinYear(y, dwy);
    if e < m {
      MonthStartMonotone(y, e + 1, m);
    } else if e > m {
      MonthStartMonotone(y, m + 1, e);
    }
  }

  /** Every valid date is the date of its own day number. */
  lemma DateOfDayNumber(d: CalDate)
    requires ValidDate(d)
    ensures DateOfDay(DayNumber(d)) == d
  {
    var y := d.year;
    var dwy := MonthStart(y, d.month) + d.day - 1;
    var n := DayNumber(d);
    MakeDayInYear(y, d.month, d.day, 0);
    DateInYearOf(d);
    DayFromYearStep(y);
    YearFromDayUnique(n, y);
  }

  lemma MonthStartMonotone(y: int, i: int, j: int)
    requires 0 <= i <= j <= 12
    ensures MonthStart(y, i) <= MonthStart(y, j)
  {
  }

  /** Day numbers and valid dates are in one-to-one correspondence. */
  lemma DayNumberInjective(d: CalDate, e: CalDate)
    requires ValidDate(d) && ValidDate(e)
    ensures DayNumber(d) == DayNumber(e) <==> d == e
  {
    if DayNumber(d) == DayNumber(e) {
      DateOfDayNumber(d);
      DateOfDayNumber(e);
    }
  }

  /**
   * JavaScript's `new Date(y, m + 1, 0).getDate()` is the number of days of
   * month m: day 0 of the next month is the last day of month m.
   */
  lemma LastDayOfMonth(y: int, m: int)
    requires 0 <= m < 12
    ensures DateOfDay(MakeDay(y, m + 1, 0)) == CalDate(y, m, DaysInMonth(y, m))
  {
    var last := CalDate(y, m, DaysInMonth(y, m));
    DayBeforeNextMonth(y, m);
    DateOfDayNumber(last);
  }

  lemma DayBeforeNextMonth(y: int, m: int)
    requires 0 <= m < 12
    ensures MakeDay(y, m + 1, 0) == DayNumber(CalDate(y, m, DaysInMonth(y, m)))
  {
    MonthStartStep(y, m);
    MakeDayInYear(y, m, DaysInMonth(y, m), 0);
    DayZero(y, m + 1);
  }

  /** Day 0 of month k (1 <= k <= 12) is the day before that month starts, also for k = 12. */
  lemma DayZero(y: int, k: int)
    requires 1 <= k <= 12
    ensures MakeDay(y, k, 0) == DayFromYear(y) + MonthStart(y, k) - 1
  {
    if k == 12 {
      DayFromYearStep(y);
      MonthStartStep(y, 11);
      assert 12 / 12 == 1 && 12 % 12 == 0;
    } else {
      MakeDayInYear(y, k, 0, 0);
    }
  }

  /** Moving the date field of day n by k (Date.prototype.setDate) lands on day n + k. */
  lemma SetDateShifts(n: int, k: int)
    ensures MakeDay(DateOfDay(n).year, DateOfDay(n).month, DateOfDay(n).day + k) == n + k
  {
    var d := DateOfDay(n);
    MakeDayInYear(d.year, d.month, d.day, k);
  }
}
