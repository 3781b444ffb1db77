/** The Modified Julian Day formula of calc_modified_julian_day, over exact reals.

    The source evaluates, element by element,
      367 Y - floor(7 (Y + floor((M + 9) / 12)) / 4)
            - floor(3 (floor((Y + (M - 9) / 7) / 100) + 1) / 4)
            + floor(275 M / 9) + D + 1721028.5 - 2400000.5
    with numpy's floor, which rounds toward minus infinity exactly as Dafny's `.Floor`.
    Divisions are exact real divisions here (no IEEE rounding). */
module JulianDay {

  /** Offset between the Julian Date and the Modified Julian Day. */
  const MjdOffset: real := 2400000.5

  /** The Julian Date formula the source cites (the Wolfram Julian Date page),
      without the Modified Julian Day shift. */
  function JulianDate(year: real, month: real, day: real): real
  {
    367.0 * year
    - (7.0 * (year + ((month + 9.0) / 12.0).Floor as real) / 4.0).Floor as real
    - (3.0 * (((year + (month - 9.0) / 7.0) / 100.0).Floor as real + 1.0) / 4.0).Floor as real
    + (275.0 * month / 9.0).Floor as real
    + day + 1721028.5
  }

  /** calc_modified_julian_day on one (YEAR, MONTH, DAY) triple. The source writes
      one expression, evaluated left to right, so its value is the Julian Date
      expression above followed by the subtraction of 2400000.5. */
  function MJD(year: real, month: real, day: real): real
  {
    JulianDate(year, month, day) - MjdOffset
  }

  /** DAY enters the formula additively: moving DAY by k moves the result by k. */
  lemma DayIsAdditive(year: real, month: real, day: real, k: real)
    ensures MJD(year, month, day + k) == MJD(year, month, day) + k
  {
  }

  // ---------------------------------------------------------------------------
  // Whole-number inputs

  /** The formula for whole-number YEAR, MONTH and DAY, every floor of a
      quotient written as integer division (which floors for a positive divisor). */
  function MJDOfIntegers(year: int, month: int, day: int): int
  {
    367 * year - 7 * (year + (month + 9) / 12) / 4
    - 3 * ((year + (month - 9) / 7) / 100 + 1) / 4
    + 275 * month / 9 + day - 678972
  }

  /** For whole-number YEAR, MONTH and DAY the source's value is the whole
      number MJDOfIntegers gives. */
  lemma WholeNumberDate(year: int, month: int, day: int)
    ensures MJD(year as real, month as real, day as real) == MJDOfIntegers(year, month, day) as real
  {
    FloorsOfWholeNumberDate(year, month);
  }

  /** Each floor of the formula, for whole-number YEAR and MONTH, in integer terms. */
  lemma FloorsOfWholeNumberDate(year: int, month: int)
    ensures ((month as real + 9.0) / 12.0).Floor == (month + 9) / 12
    ensures (7.0 * (year as real + ((month as real + 9.0) / 12.0).Floor as real) / 4.0).Floor
            == 7 * (year + (month + 9) / 12) / 4
    ensures ((month as real - 9.0) / 7.0).Floor == (month - 9) / 7
    ensures ((year as real + (month as real - 9.0) / 7.0) / 100.0).Floor
            == (year + (month - 9) / 7) / 100
    ensures (3.0 * (((year as real + (month as real - 9.0) / 7.0) / 100.0).Floor as real + 1.0) / 4.0).Floor
            == 3 * ((year + (month - 9) / 7) / 100 + 1) / 4
    ensures (275.0 * month as real / 9.0).Floor == 275 * month / 9
  {
  }

  /** For whole-number YEAR and MONTH the result is a whole number plus DAY, so
      the fractional part of DAY carries through unchanged. */
  lemma DayFractionCarriesThrough(year: int, month: int, day: real)
    ensures MJD(year as real, month as real, day) == MJDOfIntegers(year, month, 0) as real + day
    ensures MJD(year as real, month as real, day) - MJD(year as real, month as real, day).Floor as real
            == day - day.Floor as real
  {
    DayIsAdditive(year as real, month as real, 0.0, day);
    WholeNumberDate(year, month, 0);
    var z := MJDOfIntegers(year, month, 0);
    var v := MJD(year as real, month as real, day);
    assert v == z as real + day;
    assert v.Floor == z + day.Floor;
  }

  // ---------------------------------------------------------------------------
  // Known values

  /** The epoch 1858-11-17 is day 0. */
  lemma EpochIsDayZero()
    ensures MJD(1858.0, 11.0, 17.0) == 0.0
  {
  }

  /** New Year's Days around 2000: 1999 has 365 days and 2000 has 366. */
  lemma NewYearsDays()
    ensures MJD(1999.0, 1.0, 1.0) == 51179.0
    ensures MJD(2000.0, 1.0, 1.0) == 51544.0
    ensures MJD(2001.0, 1.0, 1.0) == 51910.0
  {
  }
}
