/** The proleptic Gregorian calendar, defined day by day, as an independent
    reference for what "days since 1858-11-17" means. Years are astronomical
    (year 0 exists, negative years are allowed); Dafny's `%` is Euclidean, so
    the leap-year rule reads the same for every year. */
module Calendar {

  datatype Date = Date(year: int, month: int, day: int)

  /** The epoch of the Modified Julian Day, 1858-11-17. */
  const Epoch: Date := Date(1858, 11, 17)

  predicate IsLeapYear(y: int)
  {
    y % 4 == 0 && (y % 100 != 0 || y % 400 == 0)
  }

  function DaysInMonth(y: int, m: int): (n: int)
    requires 1 <= m <= 12
    ensures 28 <= n <= 31
    ensures m == 2 ==> (n == 29 <==> IsLeapYear(y))
  {
    if m == 2 then (if IsLeapYear(y) then 29 else 28)
    else if m == 4 || m == 6 || m == 9 || m == 11 then 30
    else 31
  }

  /** The number of days of year y before the 1st of month m: the familiar
      table of a common year, one more from March on in a leap year. */
  function DaysBeforeMonth(y: int, m: int): (n: int)
    requires 1 <= m <= 12
    ensures n == [0, 31, 59, 90, 120, 151, 181, 212, 243, 273, 304, 334][m - 1]
                 + (if m > 2 && IsLeapYear(y) then 1 else 0)
  {
    if m == 1 then 0 else DaysBeforeMonth(y, m - 1) + DaysInMonth(y, m - 1)
  }

  /** A calendar date that exists. */
  predicate Valid(d: Date)
  {
    1 <= d.month <= 12 && 1 <= d.day <= DaysInMonth(d.year, d.month)
  }

  /** The day after d. */
  function NextDay(d: Date): (n: Date)
    requires Valid(d)
    ensures Valid(n)
    ensures n.day == 1 <==> d.day == DaysInMonth(d.year, d.month)
    ensures n.day != 1 ==> n == Date(d.year, d.month, d.day + 1)
  {
    if d.day < DaysInMonth(d.year, d.month) then Date(d.year, d.month, d.day + 1)
    else if d.month < 12 then Date(d.year, d.month + 1, 1)
    else Date(d.year + 1, 1, 1)
  }

  /** The day before d. */
  function PreviousDay(d: Date): (p: Date)
    requires Valid(d)
    ensures Valid(p)
  {
    if d.day > 1 then Date(d.year, d.month, d.day - 1)
    else if d.month > 1 then Date(d.year, d.month - 1, DaysInMonth(d.year, d.month - 1))
    else Date(d.year - 1, 12, 31)
  }

  /** NextDay and PreviousDay undo each other. */
  lemma NextOfPrevious(d: Date)
    requires Valid(d)
    ensures NextDay(PreviousDay(d)) == d
    ensures PreviousDay(NextDay(d)) == d
  {
  }

  /** The date n days after the epoch. */
  function DaysAfterEpoch(n: nat): (d: Date)
    ensures Valid(d)
  {
    if n == 0 then Epoch else NextDay(DaysAfterEpoch(n - 1))
  }

  /** The date n days before the epoch. */
  function DaysBeforeEpoch(n: nat): (d: Date)
    ensures Valid(d)
  {
    if n == 0 then Epoch else PreviousDay(DaysBeforeEpoch(n - 1))
  }
}
