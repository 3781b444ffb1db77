/** calc_modified_julian_day applied to arrays: numpy evaluates the formula
    element by element after broadcasting YEAR, MONTH and DAY to a common
    shape. For one-dimensional arrays the rule is: the common length is L when
    every operand has length L or 1, operands of length 1 are stretched to L,
    and any other combination of lengths raises a broadcasting error. A scalar
    operand behaves as an array of length 1. */
module Broadcast {
  import opened JulianDay

  datatype Option<T> = None | Some(value: T)

  /** The outcome of the array form: the Modified Julian Days, or numpy's
      "operands could not be broadcast together" error. numpy's message names
      the two shapes of the one binary operation that fails; recording all
      three lengths instead is a choice of this model. */
  datatype Outcome = Ok(values: seq<real>) | BroadcastError(yearLength: nat, monthLength: nat, dayLength: nat)

  /** Lengths a and b cannot be broadcast together. */
  predicate Clash(a: nat, b: nat)
  {
    a != 1 && b != 1 && a != b
  }

  /** An operand of length a can be stretched to length n. */
  predicate Fits(a: nat, n: nat)
  {
    a == n || a == 1
  }

  /** The common length of two operands, if they broadcast together. */
  function CommonLength(a: nat, b: nat): (r: Option<nat>)
    ensures r.None? <==> Clash(a, b)
    ensures r.Some? ==> Fits(a, r.value) && Fits(b, r.value) && (r.value == a || r.value == b)
  {
    if a == b || b == 1 then Some(a)
    else if a == 1 then Some(b)
    else None
  }

  /** The common length of three operands, if they broadcast together. */
  function CommonLength3(a: nat, b: nat, c: nat): (r: Option<nat>)
    ensures r.None? <==> Clash(a, b) || Clash(a, c) || Clash(b, c)
    ensures r.Some? ==> Fits(a, r.value) && Fits(b, r.value) && Fits(c, r.value)
    ensures r.Some? ==> r.value == a || r.value == b || r.value == c
  {
    match CommonLength(a, b)
    case None => None
    case Some(n) => CommonLength(n, c)
  }

  /** The entry an operand contributes at position i of the broadcast result. */
  function At(s: seq<real>, i: nat): real
    requires |s| == 1 || i < |s|
  {
    if |s| == 1 then s[0] else s[i]
  }

  /** An operand stretched to length n. */
  function Stretch(s: seq<real>, n: nat): (r: seq<real>)
    requires Fits(|s|, n)
    ensures |r| == n
    ensures forall i :: 0 <= i < n ==> r[i] == At(s, i)
  {
    if |s| == n then s else seq(n, _ => s[0])
  }

  /** The formula applied to equal-length arrays, element by element. */
  function MapMJD(years: seq<real>, months: seq<real>, days: seq<real>): (r: seq<real>)
    requires |years| == |months| == |days|
    ensures |r| == |years|
    ensures forall i :: 0 <= i < |r| ==> r[i] == MJD(years[i], months[i], days[i])
  {
    if |years| == 0 then []
    else [MJD(years[0], months[0], days[0])] + MapMJD(years[1..], months[1..], days[1..])
  }

  /** calc_modified_julian_day on arrays of YEAR, MONTH and DAY. */
  function ModifiedJulianDays(years: seq<real>, months: seq<real>, days: seq<real>): (r: Outcome)
    ensures r.BroadcastError? <==> Clash(|years|, |months|) || Clash(|years|, |days|) || Clash(|months|, |days|)
    ensures r.BroadcastError? ==> r == BroadcastError(|years|, |months|, |days|)
    ensures r.Ok? ==> Fits(|years|, |r.values|) && Fits(|months|, |r.values|) && Fits(|days|, |r.values|)
    ensures r.Ok? ==> |r.values| == |years| || |r.values| == |months| || |r.values| == |days|
    ensures r.Ok? ==> forall i :: 0 <= i < |r.values| ==>
                        r.values[i] == MJD(At(years, i), At(months, i), At(days, i))
  {
    match CommonLength3(|years|, |months|, |days|)
    case None => BroadcastError(|years|, |months|, |days|)
    case Some(n) => Ok(MapMJD(Stretch(years, n), Stretch(months, n), Stretch(days, n)))
  }

  /** Equal-length arrays always broadcast, and the i-th result is the scalar
      formula on the i-th (YEAR, MONTH, DAY). */
  lemma EqualLengthsAreElementwise(years: seq<real>, months: seq<real>, days: seq<real>)
    requires |years| == |months| == |days|
    ensures ModifiedJulianDays(years, months, days).Ok?
    ensures |ModifiedJulianDays(years, months, days).values| == |years|
    ensures forall i :: 0 <= i < |years| ==>
              ModifiedJulianDays(years, months, days).values[i] == MJD(years[i], months[i], days[i])
  {
  }

  /** A single date, given as one-element arrays, gives the scalar formula's value. */
  lemma SingleDateAgreesWithScalar(year: real, month: real, day: real)
    ensures ModifiedJulianDays([year], [month], [day]) == Ok([MJD(year, month, day)])
  {
  }

  /** A scalar DAY (a one-element array) against arrays of YEAR and MONTH:
      every entry is computed with that DAY. */
  lemma ScalarDayIsShared(years: seq<real>, months: seq<real>, day: real)
    requires |years| == |months|
    ensures ModifiedJulianDays(years, months, [day]).Ok?
    ensures |ModifiedJulianDays(years, months, [day]).values| == |years|
    ensures forall i :: 0 <= i < |ModifiedJulianDays(years, months, [day]).values| ==>
              ModifiedJulianDays(years, months, [day]).values[i] == MJD(years[i], months[i], day)
  {
  }
}
