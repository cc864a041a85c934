/**
 The simulation clock: a year and a month index 0..11, advanced once per
 simulated month by the watcher task, and the absolute-month index that the
 watcher prints in the first column of every output row.
 */
module Calendar {

  const FirstYear: int := 2019
  const LastYear: int := 2024
  const MonthsPerYear: int := 12

  /** Number of months from January of the first year to December of the
      last: one loop cycle each. */
  const HorizonMonths: int := (LastYear - FirstYear + 1) * MonthsPerYear

  datatype Clock = Clock(year: int, month: int)

  /** A well-formed clock has its month in 0..11. */
  predicate Valid(c: Clock) {
    0 <= c.month < MonthsPerYear
  }

  /** Months elapsed since January of the first year, counted from 1. */
  function AbsoluteMonth(c: Clock): (n: int)
    ensures Valid(c) && c.year >= FirstYear ==> n >= 1
    ensures Valid(c) && c.year <= LastYear ==> n <= HorizonMonths
  {
    (c.year - FirstYear) * MonthsPerYear + c.month + 1
  }

  /** The watcher's clock advance: the month is incremented and, once it
      goes past the last month, it restarts at 0 and the year moves on by one. */
  function Advance(c: Clock): (r: Clock)
    ensures r.year == c.year || (r.year == c.year + 1 && r.month == 0)
    ensures Valid(c) ==> Valid(r)
    ensures Valid(c) ==> (r.year == c.year + 1 <==> c.month == MonthsPerYear - 1)
    ensures Valid(c) ==> AbsoluteMonth(r) == AbsoluteMonth(c) + 1
  {
    var month := c.month + 1;
    if month > MonthsPerYear - 1 then Clock(c.year + 1, 0) else Clock(c.year, month)
  }

  /** The clock whose absolute month is n: the inverse of AbsoluteMonth. */
  function FromAbsolute(n: int): (c: Clock)
    ensures Valid(c)
    ensures AbsoluteMonth(c) == n
  {
    Clock(FirstYear + (n - 1) / MonthsPerYear, (n - 1) % MonthsPerYear)
  }

  /** A valid clock is recovered from its absolute month, so distinct
      valid clocks print distinct absolute months. */
  lemma FromAbsoluteRoundTrip(c: Clock)
    requires Valid(c)
    ensures FromAbsolute(AbsoluteMonth(c)) == c
  {
  }

  /** Absolute months order valid clocks lexicographically by (year, month). */
  lemma AbsoluteMonthOrder(c1: Clock, c2: Clock)
    requires Valid(c1) && Valid(c2)
    ensures AbsoluteMonth(c1) < AbsoluteMonth(c2)
            <==> c1.year < c2.year || (c1.year == c2.year && c1.month < c2.month)
  {
  }

  /** The run continues exactly while the absolute month lies within the
      simulated years. */
  lemma InHorizon(n: int)
    ensures FromAbsolute(n).year <= LastYear <==> n <= HorizonMonths
  {
  }
}
