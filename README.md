# Modified Julian Day of a calendar date (pyTMD `calc_modified_julian_day`)

pyTMD's `calc_modified_julian_day(YEAR, MONTH, DAY)` turns calendar dates into
Modified Julian Days, the days elapsed since 1858-11-17T00:00:00. It evaluates
one closed-form expression of floors and constants:

    367 Y - floor(7 (Y + floor((M + 9) / 12)) / 4)
          - floor(3 (floor((Y + (M - 9) / 7) / 100) + 1) / 4)
          + floor(275 M / 9) + D + 1721028.5 - 2400000.5

This is the Julian Date formula from the Wolfram Julian Date page, minus 2400000.5.
numpy applies the expression element by element to arrays of years, months and days.

The project has four modules:

- `JulianDay` (`julian_day.dfy`) holds the formula over exact reals.
  - `JulianDate` is the cited Julian Date expression.
  - `MJD` is that expression minus 2400000.5, evaluated left to right as the source does. So MJD = JD − 2400000.5 holds by definition.
  - `MJDOfIntegers` is the same formula for whole-number dates, written with integer floor division and proved equal to `MJD`.
  - Lemmas cover DAY entering additively, the fractional part of DAY carrying through, and known values.
- `Broadcast` (`broadcast.dfy`) holds the array form.
  - It follows numpy's one-dimensional broadcasting rule: operands of length 1 stretch, equal lengths match, and any other mix is an error.
  - `MapMJD` applies the formula element-wise.
- `Calendar` (`calendar.dfy`) is an independent day-by-day definition of the proleptic Gregorian calendar. It has leap years, month lengths, the day after and the day before, and the date n days after or before 1858-11-17. It is the reference for what "days since 1858-11-17" means.
- `DayCount` (`day_count.dfy`) compares the formula with that reference.
  - The source's century term is off by one day in some months; see "## Findings".
  - `CorrectedMJD` takes the century of the March-based year. It is proved to number every date reached by counting days forwards or backwards from 1858-11-17 by its distance from that epoch.
  - The source's value is proved to equal the corrected value plus an explicit glitch (`CenturyGlitch`). From this follow:
    - where the source is exact: everywhere except March to August of 1700, 1800, 1900, 2100 and the other common century years, and the January after each; in particular on the whole stretch 1901-02-01 to 2100-02-28;
    - its year lengths;
    - its strictly increasing month starts.

## Model

| member | source | states |
|---|---|---|
| JulianDay.DayIsAdditive | pyTMD/calc_delta_time.py:50-52 | shifting DAY by any real k shifts the Modified Julian Day by exactly k |
| JulianDay.WholeNumberDate | pyTMD/calc_delta_time.py:50-52 | for whole-number YEAR, MONTH, DAY the source's value is the whole number `MJDOfIntegers` gives (the formula with integer floor division), so whole-number dates give whole-number days |
| JulianDay.FloorsOfWholeNumberDate | pyTMD/calc_delta_time.py:50-52 | each of the formula's five floors, for whole-number YEAR and MONTH, equals the flooring integer division |
| JulianDay.DayFractionCarriesThrough | pyTMD/calc_delta_time.py:50-52 | for whole-number YEAR and MONTH the result is a whole number plus DAY, and its fractional part is DAY's |
| JulianDay.EpochIsDayZero | pyTMD/calc_delta_time.py:48-52 | 1858-11-17, the documented epoch, is day 0 |
| JulianDay.NewYearsDays | pyTMD/calc_delta_time.py:48-52 | 1999-01-01, 2000-01-01 and 2001-01-01 are days 51179, 51544 and 51910 (years of 365 and 366 days) |
| Broadcast.CommonLength | pyTMD/calc_delta_time.py:50-52 | two array lengths broadcast exactly when they are equal or one is 1, and the common length is the one that is not stretched |
| Broadcast.CommonLength3 | pyTMD/calc_delta_time.py:50-52 | YEAR, MONTH and DAY broadcast exactly when no two lengths clash; every operand then fits the common length, which is one of the three |
| Broadcast.Stretch | pyTMD/calc_delta_time.py:50-52 | a stretched operand has the common length and repeats its one entry, or is unchanged |
| Broadcast.MapMJD | pyTMD/calc_delta_time.py:50-53 | on equal-length arrays the result has the same length and its i-th entry is the scalar formula on the i-th (YEAR, MONTH, DAY) |
| Broadcast.ModifiedJulianDays | pyTMD/calc_delta_time.py:50-53 | the array form fails with a broadcasting error exactly when two lengths clash; otherwise each entry is the scalar formula on the broadcast operands |
| Broadcast.EqualLengthsAreElementwise | pyTMD/calc_delta_time.py:50-53 | equal-length arrays always succeed, with one scalar value per index |
| Broadcast.SingleDateAgreesWithScalar | pyTMD/calc_delta_time.py:50-53 | a single date given as one-element arrays gives the one-element array holding the scalar value |
| Broadcast.ScalarDayIsShared | pyTMD/calc_delta_time.py:50-53 | a scalar DAY against equal-length YEAR and MONTH arrays is used for every entry |
| DayCount.CenturyGlitch | pyTMD/calc_delta_time.py:51 | the excess of the source's century term is 0 or 1 day |
| DayCount.AsWrittenByMonth | pyTMD/calc_delta_time.py:50-52 | the source's century is that of Y − 2 in January, Y − 1 from February to August and Y from September on |
| DayCount.CorrectedByMonth | pyTMD/calc_delta_time.py:50-52 | the corrected formula takes the century of the March-based year, the year its leap-day term already uses |
| DayCount.LeapDayTerm | pyTMD/calc_delta_time.py:50 | the leap-day term steps by 1 into a year divisible by 4 and by 2 otherwise |
| DayCount.QuarterStep | pyTMD/calc_delta_time.py:51 | floor(3 (k + 1) / 4) exceeds floor(3 k / 4) exactly when k is not divisible by 4 |
| DayCount.CenturyOfPreviousYear | pyTMD/calc_delta_time.py:51 | the century index of year Y − 1 is that of Y, one less when Y is a century year |
| DayCount.CommonCenturyYear | pyTMD/calc_delta_time.py:51 | a century year 100 k is divisible by 4, and is a common year exactly when k is not divisible by 4 |
| DayCount.CenturyStep | pyTMD/calc_delta_time.py:51 | the century term steps by 1 into year Y exactly when Y is a century year that is not a leap year |
| DayCount.MonthTermStep | pyTMD/calc_delta_time.py:52 | outside February, the month term floor(275 M / 9) steps by the length of month M |
| DayCount.CorrectedFebruaryLength | pyTMD/calc_delta_time.py:50-52 | from 1 February to 1 March the corrected formula advances by 29 days in a Gregorian leap year and by 28 otherwise |
| DayCount.CorrectedMonthLength | pyTMD/calc_delta_time.py:50-52 | from the 1st of a month to the 1st of the next, the corrected formula advances by the Gregorian length of the month |
| DayCount.CorrectedNextDay | pyTMD/calc_delta_time.py:48-52 | the corrected formula gives the day after any valid date the next number |
| DayCount.CorrectedCountsDaysAfterEpoch | pyTMD/calc_delta_time.py:48-52 | the corrected formula gives the date n days after 1858-11-17 the number n |
| DayCount.CorrectedCountsDaysBeforeEpoch | pyTMD/calc_delta_time.py:48-52 | the corrected formula gives the date n days before 1858-11-17 the number −n |
| DayCount.CorrectedFirstOfMonth | pyTMD/calc_delta_time.py:50-52 | the corrected formula puts the 1st of each month the Gregorian number of days after 1 January |
| DayCount.CorrectedYearLength | pyTMD/calc_delta_time.py:50-52 | from 1 January to the next 1 January the corrected formula advances by 366 days in a leap year and by 365 otherwise |
| DayCount.AsWrittenIsCorrectedPlusGlitch | pyTMD/calc_delta_time.py:50-52 | for months 1 to 12 the source's value is the corrected value plus the century glitch |
| DayCount.GlitchInJanuary | pyTMD/calc_delta_time.py:51 | in January the source's value exceeds the corrected one by one day exactly when the previous year is a common century year |
| DayCount.GlitchInSpringAndSummer | pyTMD/calc_delta_time.py:51 | from March to August the source's value exceeds the corrected one by one day exactly when the year is a common century year |
| DayCount.AsWrittenNextDay | pyTMD/calc_delta_time.py:48-52 | for the source, the day after a date gets the next number, shifted by the change in the glitch: a day is skipped where the glitch starts and repeated where it stops |
| DayCount.AsWrittenAfterEpoch | pyTMD/calc_delta_time.py:48-52 | the source gives the date n days after 1858-11-17 the number n plus the glitch of its month |
| DayCount.AsWrittenExactFrom1901To2100 | pyTMD/calc_delta_time.py:48-52 | from 1901-02-01 to 2100-02-28 the source's value is the true day count |
| DayCount.AsWrittenYearLength | pyTMD/calc_delta_time.py:50-52 | the source's New Year's Days are 365 or 366 days apart, corrected by the glitch of the two Januaries |
| DayCount.FirstOfMonthIncreasing | pyTMD/calc_delta_time.py:50-52 | in any whole-number year, the source's values for the 1st of each month strictly increase from January to December |
| DayCount.AsWrittenCounts1900February29 | pyTMD/calc_delta_time.py:51 | the source gives 1900-02-28 the number 15078 and 1900-03-01 the number 15080; the true count for 1900-03-01 is 15079 |
| DayCount.AsWrittenRepeats1900September1 | pyTMD/calc_delta_time.py:51 | the source gives 1900-08-31 and 1900-09-01 the same number, 15263 |
| DayCount.AsWrittenSkips1901January1 | pyTMD/calc_delta_time.py:51 | the source gives 1900-12-31 the number 15384 and 1901-01-01 the number 15386; the true count for 1901-01-01 is 15385 |

## Findings

| source | as written | input that shows it | evidently intended | confidence | as-written member | corrected member |
|---|---|---|---|---|---|---|
| pyTMD/calc_delta_time.py:51 | the century correction floors `(YEAR + (MONTH - 9)/7)/100`. For months 3 to 8 of a year 100 k this still gives the previous century, and for January of year 100 k + 1 it gives the one before that. When 100 k is not a leap year the result is then one day too large. | 1900-03-01 gives 15080 instead of 15079. 1900-08-31 and 1900-09-01 both give 15263. 1901-01-01 gives 15386 instead of 15385. | every date is numbered by its day count since 1858-11-17 (the docstring, line 48). The corrected `CorrectedMJD` takes the century of the March-based year `Y + floor((M + 9)/12) - 1`. | not executed | DayCount.AsWrittenCounts1900February29 | DayCount.CorrectedCountsDaysAfterEpoch |

The array form (`Broadcast.ModifiedJulianDays`) applies the formula as written. That is what the function returns to its callers.
`DayCount.AsWrittenIsCorrectedPlusGlitch` states exactly where the array form's values differ from `DayCount.CorrectedMJD`. The corrected formula is stated for whole-number dates.

## Left out

- `calc_delta_time` (pyTMD/calc_delta_time.py:57-77) is not part of this model. It reads a table with `np.loadtxt`, which is file I/O. It then fits and evaluates a `scipy.interpolate.UnivariateSpline`, a library whose behaviour is outside the model.
- The model does not capture the conversion `np.array(MJD, dtype=np.float)` (line 53). With the numpy versions the source was written for it only wraps the value, so results are `real` and `seq<real>`. The alias `np.float` was removed in numpy 1.24, where line 53 raises AttributeError on every call; the model does not capture that error.
- Arithmetic is exact real arithmetic, not IEEE-754 doubles. This covers the divisions and floors, and also the additions `+ DAY + 1721028.5 - 2400000.5` (line 52). Near 2.4e6, doubles are about 4.7e-10 day apart, so `JulianDay.DayIsAdditive` and `JulianDay.DayFractionCarriesThrough` hold exactly only over reals. For whole-number dates some quotients land exactly on an integer, such as `(3 + 9)/12` and `(2001 + (2 - 9)/7)/100`. In IEEE they still floor correctly only because the quotient is exactly representable.
- Only one-dimensional arrays are modelled. A scalar operand is modelled as a one-element array. numpy's zero-dimensional result for an all-scalar call is the scalar function `JulianDay.MJD`.
- The source does not validate dates; neither does the model. The day-count lemmas speak only of dates valid in the proleptic Gregorian calendar (astronomical year numbering).
- JulianDay.DayIsAdditive: holds exactly over reals only; in float64 the additions on line 52 round to about 4.7e-10 day.
- JulianDay.DayFractionCarriesThrough: holds exactly over reals only, for the same rounding of the additions on line 52.
- DayCount.FirstOfMonthIncreasing: stated for whole-number years only. For fractional years the floors can move differently.
