/** The century term of the formula, against the Gregorian calendar.

    The source's century correction is floor(3 (floor((Y + (M - 9) / 7) / 100) + 1) / 4).
    For whole-number months, Y + floor((M - 9) / 7) is Y - 2 in January, Y - 1 from
    February to August and Y from September to December, whereas the Gregorian
    rule counts centuries of the year that starts in March: Y - 1 in January and
    February, Y from March on. The two disagree in March to August of a year
    100 k (the formula still counts the previous century) and in January of the
    year 100 k + 1; the correction changes value there only when 100 k is not a
    leap year (1700, 1800, 1900, 2100, ...). In those months the source's value
    is one day too large.

    CorrectedMJD takes the century of the March-based year Y + floor((M + 9) / 12) - 1,
    the same quantity the formula's leap-day term already uses, and is proved to
    count the days from 1858-11-17 for every date of the proleptic Gregorian calendar. */
module DayCount {
  import opened Calendar
  import opened JulianDay

  /** A century year that is not a leap year. */
  predicate IsCommonCenturyYear(y: int)
  {
    y % 100 == 0 && !IsLeapYear(y)
  }

  /** The number of days by which the source's formula exceeds the day count:
      one in March to August of a common century year and in the January after
      one, nothing otherwise. */
  function CenturyGlitch(y: int, m: int): (g: int)
    ensures 0 <= g <= 1
  {
    if IsCommonCenturyYear(y) && 3 <= m <= 8 then 1
    else if IsCommonCenturyYear(y - 1) && m == 1 then 1
    else 0
  }

  /** The formula with the century taken of the March-based year, for whole-number dates. */
  function CorrectedMJD(year: int, month: int, day: int): int
  {
    367 * year - 7 * (year + (month + 9) / 12) / 4
    - 3 * ((year + (month + 9) / 12 - 1) / 100 + 1) / 4
    + 275 * month / 9 + day - 678972
  }

  function CorrectedDayNumber(d: Date): int
  {
    CorrectedMJD(d.year, d.month, d.day)
  }

  function DayNumber(d: Date): int
  {
    MJDOfIntegers(d.year, d.month, d.day)
  }

  /** The leap-day term floor(7 x / 4) of the formula. */
  function LeapTerm(x: int): int
  {
    7 * x / 4
  }

  /** The century term floor(3 (floor(x / 100) + 1) / 4) of the formula. */
  function CenturyTerm(x: int): int
  {
    3 * (x / 100 + 1) / 4
  }

  /** The corrected formula, month by month: c = floor((M + 9) / 12) is 0 in
      January and February and 1 from March on, and its century is that of Y + c - 1. */
  lemma CorrectedByMonth(y: int, m: int, d: int)
    requires 1 <= m <= 12
    ensures var c := if m <= 2 then 0 else 1;
            CorrectedMJD(y, m, d)
            == 367 * y - LeapTerm(y + c) - CenturyTerm(y + c - 1) + 275 * m / 9 + d - 678972
  {
    assert (m + 9) / 12 == if m <= 2 then 0 else 1;
  }

  /** The source's formula, month by month: its century is that of Y - 2 in
      January, Y - 1 from February to August and Y from September on. */
  lemma AsWrittenByMonth(y: int, m: int, d: int)
    requires 1 <= m <= 12
    ensures var c := if m <= 2 then 0 else 1;
            var e := if m == 1 then -2 else if m <= 8 then -1 else 0;
            MJDOfIntegers(y, m, d)
            == 367 * y - LeapTerm(y + c) - CenturyTerm(y + e) + 275 * m / 9 + d - 678972
  {
    assert (m + 9) / 12 == if m <= 2 then 0 else 1;
    assert (m - 9) / 7 == if m == 1 then -2 else if m <= 8 then -1 else 0;
  }

  /** Going from the 1st of a month to the 1st of the next, in the same year,
      the corrected formula advances by the length of the month. */
  lemma CorrectedMonthLength(y: int, m: int)
    requires 1 <= m < 12
    ensures CorrectedMJD(y, m + 1, 1) == CorrectedMJD(y, m, 1) + DaysInMonth(y, m)
  {
    if m == 2 {
      CorrectedFebruaryLength(y);
    } else {
      CorrectedByMonth(y, m, 1);
      CorrectedByMonth(y, m + 1, 1);
      MonthTermStep(m);
    }
  }

  /** Outside February, floor(275 (M + 1) / 9) - floor(275 M / 9) is the length of month M. */
  lemma MonthTermStep(m: int)
    requires 1 <= m < 12 && m != 2
    ensures 275 * (m + 1) / 9 - 275 * m / 9 == DaysInMonth(0, m)
  {
    match m
    case 1 => case 3 => case 4 => case 5 => case 6 => case 7 => case 8 => case 9 => case 10 => case 11 =>
  }

  /** From 1 February to 1 March the leap-day term and the century term both
      step, and together they leave 29 days in a leap year and 28 otherwise. */
  lemma CorrectedFebruaryLength(y: int)
    ensures CorrectedMJD(y, 3, 1) == CorrectedMJD(y, 2, 1) + DaysInMonth(y, 2)
  {
    CorrectedByMonth(y, 2, 1);
    CorrectedByMonth(y, 3, 1);
    LeapDayTerm(y);
    CenturyStep(y);
    var leap := LeapTerm(y + 1) - LeapTerm(y);
    var century := CenturyTerm(y) - CenturyTerm(y - 1);
    assert DaysInMonth(y, 2) == 30 - leap - century;
    assert CorrectedMJD(y, 3, 1) - CorrectedMJD(y, 2, 1) == 30 - leap - century;
  }

  /** The leap-day term steps by 1 into a year divisible by 4 and by 2 otherwise. */
  lemma LeapDayTerm(y: int)
    ensures LeapTerm(y + 1) - LeapTerm(y) == if y % 4 == 0 then 1 else 2
  {
    var q, r := y / 4, y % 4;
    assert y == 4 * q + r;
    if r == 0 {
      assert 7 * y / 4 == 7 * q && 7 * (y + 1) / 4 == 7 * q + 1;
    } else if r == 1 {
      assert 7 * y / 4 == 7 * q + 1 && 7 * (y + 1) / 4 == 7 * q + 3;
    } else if r == 2 {
      assert 7 * y / 4 == 7 * q + 3 && 7 * (y + 1) / 4 == 7 * q + 5;
    } else {
      assert 7 * y / 4 == 7 * q + 5 && 7 * (y + 1) / 4 == 7 * q + 7;
    }
  }

  /** floor(3 (k + 1) / 4) - floor(3 k / 4) is 0 when k is divisible by 4 and 1 otherwise. */
  lemma QuarterStep(k: int)
    ensures 3 * (k + 1) / 4 - 3 * k / 4 == if k % 4 == 0 then 0 else 1
  {
    var j, s := k / 4, k % 4;
    assert k == 4 * j + s;
    if s == 0 {
      assert 3 * k / 4 == 3 * j && 3 * (k + 1) / 4 == 3 * j;
    } else if s == 1 {
      assert 3 * k / 4 == 3 * j && 3 * (k + 1) / 4 == 3 * j + 1;
    } else if s == 2 {
      assert 3 * k / 4 == 3 * j + 1 && 3 * (k + 1) / 4 == 3 * j + 2;
    } else {
      assert 3 * k / 4 == 3 * j + 2 && 3 * (k + 1) / 4 == 3 * j + 3;
    }
  }

  /** The century of year y - 1 is that of y, less one when y is a century year. */
  lemma CenturyOfPreviousYear(y: int)
    ensures (y - 1) / 100 == if y % 100 == 0 then y / 100 - 1 else y / 100
  {
    var k, r := y / 100, y % 100;
    assert y == 100 * k + r;
    assert y - 1 == 100 * k + (r - 1);
  }

  /** A century year 100 k is a common year exactly when k is not divisible by 4. */
  lemma CommonCenturyYear(y: int)
    requires y % 100 == 0
    ensures y % 4 == 0
    ensures IsCommonCenturyYear(y) <==> (y / 100) % 4 != 0
  {
    var k := y / 100;
    var j, s := k / 4, k % 4;
    assert y == 100 * k;
    assert k == 4 * j + s;
    assert y % 4 == 0 by {
      assert y == 4 * (25 * k);
    }
    assert y % 400 == 100 * s by {
      assert y == 400 * j + 100 * s;
      assert 0 <= 100 * s < 400;
    }
  }

  /** The century term steps by 1 into year y exactly when y is a common century year. */
  lemma CenturyStep(y: int)
    ensures CenturyTerm(y) - CenturyTerm(y - 1) == if IsCommonCenturyYear(y) then 1 else 0
    ensures IsCommonCenturyYear(y) ==> y % 4 == 0
  {
    CenturyOfPreviousYear(y);
    if y % 100 == 0 {
      CommonCenturyYear(y);
      QuarterStep(y / 100);
    }
  }

  /** The corrected formula gives consecutive days consecutive numbers. */
  lemma CorrectedNextDay(d: Date)
    requires Valid(d)
    ensures CorrectedDayNumber(NextDay(d)) == CorrectedDayNumber(d) + 1
  {
    if d.day == DaysInMonth(d.year, d.month) && d.month < 12 {
      CorrectedMonthLength(d.year, d.month);
    }
  }

  /** The corrected formula counts the days after 1858-11-17. */
  lemma {:induction false} CorrectedCountsDaysAfterEpoch(n: nat)
    ensures CorrectedDayNumber(DaysAfterEpoch(n)) == n
  {
    if n == 0 {
      assert CorrectedMJD(1858, 11, 17) == 0;
    } else {
      var d := DaysAfterEpoch(n - 1);
      assert DaysAfterEpoch(n) == NextDay(d);
      CorrectedCountsDaysAfterEpoch(n - 1);
      CorrectedNextDay(d);
    }
  }

  /** The corrected formula counts the days before 1858-11-17 negatively. */
  lemma {:induction false} CorrectedCountsDaysBeforeEpoch(n: nat)
    ensures CorrectedDayNumber(DaysBeforeEpoch(n)) == -(n as int)
  {
    if n == 0 {
      assert CorrectedMJD(1858, 11, 17) == 0;
    } else {
      var d := DaysBeforeEpoch(n - 1);
      var p := PreviousDay(d);
      assert DaysBeforeEpoch(n) == p;
      CorrectedCountsDaysBeforeEpoch(n - 1);
      NextOfPrevious(d);
      CorrectedNextDay(p);
    }
  }

  /** The source's value, for whole-number months 1 to 12, is the corrected
      value plus the century glitch. */
  lemma AsWrittenIsCorrectedPlusGlitch(y: int, m: int, d: int)
    requires 1 <= m <= 12
    ensures MJDOfIntegers(y, m, d) == CorrectedMJD(y, m, d) + CenturyGlitch(y, m)
  {
    if m == 1 {
      GlitchInJanuary(y, d);
    } else if 3 <= m <= 8 {
      GlitchInSpringAndSummer(y, m, d);
    } else {
      CorrectedByMonth(y, m, d);
      AsWrittenByMonth(y, m, d);
    }
  }

  /** In January the source counts the century of Y - 2 instead of Y - 1. */
  lemma GlitchInJanuary(y: int, d: int)
    ensures MJDOfIntegers(y, 1, d) == CorrectedMJD(y, 1, d) + CenturyGlitch(y, 1)
  {
    CorrectedByMonth(y, 1, d);
    AsWrittenByMonth(y, 1, d);
    CenturyStep(y - 1);
  }

  /** From March to August the source counts the century of Y - 1 instead of Y. */
  lemma GlitchInSpringAndSummer(y: int, m: int, d: int)
    requires 3 <= m <= 8
    ensures MJDOfIntegers(y, m, d) == CorrectedMJD(y, m, d) + CenturyGlitch(y, m)
  {
    CorrectedByMonth(y, m, d);
    AsWrittenByMonth(y, m, d);
    CenturyStep(y);
  }

  /** The source's day numbers of a date and the next: consecutive except where
      the century glitch starts (a day is skipped) or stops (a day repeats). */
  lemma AsWrittenNextDay(d: Date)
    requires Valid(d)
    ensures DayNumber(NextDay(d))
            == DayNumber(d) + 1 + CenturyGlitch(NextDay(d).year, NextDay(d).month)
                                 - CenturyGlitch(d.year, d.month)
  {
    var e := NextDay(d);
    AsWrittenIsCorrectedPlusGlitch(d.year, d.month, d.day);
    AsWrittenIsCorrectedPlusGlitch(e.year, e.month, e.day);
    CorrectedNextDay(d);
  }

  /** The source's value n days after the epoch is n plus the glitch of that month. */
  lemma AsWrittenAfterEpoch(n: nat)
    ensures DayNumber(DaysAfterEpoch(n))
            == n + CenturyGlitch(DaysAfterEpoch(n).year, DaysAfterEpoch(n).month)
  {
    var d := DaysAfterEpoch(n);
    CorrectedCountsDaysAfterEpoch(n);
    AsWrittenIsCorrectedPlusGlitch(d.year, d.month, d.day);
  }

  /** From 1901-02-01 to 2100-02-28 the source's value is the day count. */
  lemma AsWrittenExactFrom1901To2100(d: Date)
    requires Valid(d)
    requires 1901 <= d.year <= 2100
    requires d.year == 1901 ==> d.month >= 2
    requires d.year == 2100 ==> d.month <= 2
    ensures DayNumber(d) == CorrectedDayNumber(d)
  {
    AsWrittenIsCorrectedPlusGlitch(d.year, d.month, d.day);
  }

  /** 1900 is a common century year: the source gives 1900-03-01 the number
      15080, two more than 1900-02-28, as if 1900-02-29 existed. */
  lemma AsWrittenCounts1900February29()
    ensures NextDay(Date(1900, 2, 28)) == Date(1900, 3, 1)
    ensures MJD(1900.0, 2.0, 28.0) == 15078.0
    ensures MJD(1900.0, 3.0, 1.0) == 15080.0
    ensures CorrectedMJD(1900, 3, 1) == 15079
  {
  }

  /** The source gives 1900-08-31 and 1900-09-01 the same number, 15263. */
  lemma AsWrittenRepeats1900September1()
    ensures NextDay(Date(1900, 8, 31)) == Date(1900, 9, 1)
    ensures MJD(1900.0, 8.0, 31.0) == 15263.0
    ensures MJD(1900.0, 9.0, 1.0) == 15263.0
    ensures CorrectedMJD(1900, 8, 31) == 15262
  {
  }

  /** The source gives 1900-12-31 the number 15384 and 1901-01-01 the number 15386. */
  lemma AsWrittenSkips1901January1()
    ensures NextDay(Date(1900, 12, 31)) == Date(1901, 1, 1)
    ensures MJD(1900.0, 12.0, 31.0) == 15384.0
    ensures MJD(1901.0, 1.0, 1.0) == 15386.0
    ensures CorrectedMJD(1901, 1, 1) == 15385
  {
  }

  /** The corrected formula puts the 1st of month m DaysBeforeMonth(y, m) days
      after 1 January. */
  lemma {:induction false} CorrectedFirstOfMonth(y: int, m: int)
    requires 1 <= m <= 12
    ensures CorrectedMJD(y, m, 1) == CorrectedMJD(y, 1, 1) + DaysBeforeMonth(y, m)
  {
    if m > 1 {
      CorrectedFirstOfMonth(y, m - 1);
      CorrectedMonthLength(y, m - 1);
    }
  }

  /** Going from 1 January to 1 January of the next year, the corrected
      formula advances by 366 days in a leap year and 365 otherwise. */
  lemma CorrectedYearLength(y: int)
    ensures CorrectedMJD(y + 1, 1, 1) == CorrectedMJD(y, 1, 1) + (if IsLeapYear(y) then 366 else 365)
  {
    CorrectedFirstOfMonth(y, 12);
    CorrectedNextDay(Date(y, 12, 31));
  }

  /** The source's year lengths from 1 January to 1 January: 365 or 366 days,
      plus the glitch of the January reached, minus that of the January left. */
  lemma AsWrittenYearLength(y: int)
    ensures DayNumber(Date(y + 1, 1, 1))
            == DayNumber(Date(y, 1, 1)) + (if IsLeapYear(y) then 366 else 365)
               + CenturyGlitch(y + 1, 1) - CenturyGlitch(y, 1)
  {
    CorrectedYearLength(y);
    AsWrittenIsCorrectedPlusGlitch(y, 1, 1);
    AsWrittenIsCorrectedPlusGlitch(y + 1, 1, 1);
  }

  /** Within a whole-number year, the source's values for the 1st of each month
      strictly increase from January to December. */
  lemma {:induction false} FirstOfMonthIncreasing(y: int, m1: int, m2: int)
    requires 1 <= m1 < m2 <= 12
    ensures MJD(y as real, m1 as real, 1.0) < MJD(y as real, m2 as real, 1.0)
  {
    if m1 < m2 - 1 {
      FirstOfMonthIncreasing(y, m1, m2 - 1);
    }
    var m := m2 - 1;
    CorrectedMonthLength(y, m);
    AsWrittenIsCorrectedPlusGlitch(y, m, 1);
    AsWrittenIsCorrectedPlusGlitch(y, m2, 1);
    WholeNumberDate(y, m, 1);
    WholeNumberDate(y, m2, 1);
    assert MJDOfIntegers(y, m, 1) < MJDOfIntegers(y, m2, 1);
  }
}
