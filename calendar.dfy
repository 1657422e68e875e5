/** Proleptic Gregorian calendar arithmetic as Python's `datetime.date` does
    it: day 0001-01-01 has ordinal 1 and `weekday()` numbers Monday as 0. */
module Calendar {

  predicate IsLeap(y: int)
  {
    y % 4 == 0 && (y % 100 != 0 || y % 400 == 0)
  }

  function DaysInYear(y: int): int
  {
    if IsLeap(y) then 366 else 365
  }

  function DaysInMonth(y: int, m: int): int
    requires 1 <= m <= 12
  {
    if m == 2 then (if IsLeap(y) then 29 else 28)
    else if m == 4 || m == 6 || m == 9 || m == 11 then 30
    else 31
  }

  /** A date `datetime.date` accepts: years 1 to 9999. */
  predicate ValidDate(y: int, m: int, d: int)
  {
    1 <= y <= 9999 && 1 <= m <= 12 && 1 <= d <= DaysInMonth(y, m)
  }

  /** Days before each month in a common year, indexed by month (entry 0
      unused). */
  const DaysBeforeMonthTable: seq<int> := [-1, 0, 31, 59, 90, 120, 151, 181, 212, 243, 273, 304, 334]

  /** Days in the months of year `y` before month `m`: the common-year table
      plus the leap day once February is past. */
  function DaysBeforeMonth(y: int, m: int): int
    requires 1 <= m <= 12
  {
    DaysBeforeMonthTable[m] + (if m > 2 && IsLeap(y) then 1 else 0)
  }

  /** Days in the years before year `y`, by the closed leap-year count. */
  function DaysBeforeYear(y: int): int
    requires y >= 1
  {
    var p := y - 1;
    p * 365 + p / 4 - p / 100 + p / 400
  }

  /** Days in the years before year `y`, counted year by year: an
      independent reference for `DaysBeforeYear`. */
  function YearsTotal(y: int): int
    requires y >= 1
  {
    if y == 1 then 0 else YearsTotal(y - 1) + DaysInYear(y - 1)
  }

  function ToOrdinal(y: int, m: int, d: int): int
    requires ValidDate(y, m, d)
  {
    DaysBeforeYear(y) + DaysBeforeMonth(y, m) + d
  }

  /** `date(y, m, d).weekday()`: Monday is 0, Sunday is 6. */
  function Weekday(y: int, m: int, d: int): (w: int)
    requires ValidDate(y, m, d)
    ensures 0 <= w < 7
  {
    (ToOrdinal(y, m, d) + 6) % 7
  }

  /** The calendar day after (y, m, d). */
  function NextDate(y: int, m: int, d: int): (int, int, int)
    requires ValidDate(y, m, d)
  {
    if d < DaysInMonth(y, m) then (y, m, d + 1)
    else if m < 12 then (y, m + 1, 1)
    else (y + 1, 1, 1)
  }

  /** Stepping from year p to year p + 1 adds one quadrennial day exactly
      when p + 1 is divisible by k. */
  lemma StepDiv(p: int, k: int)
    requires p >= 0 && (k == 4 || k == 100 || k == 400)
    ensures (p + 1) / k - p / k == if (p + 1) % k == 0 then 1 else 0
  {
  }

  /** Divisibility by 400 implies divisibility by 100, and that by 4. */
  lemma DivisorChain(y: int)
    ensures y % 400 == 0 ==> y % 100 == 0
    ensures y % 100 == 0 ==> y % 4 == 0
  {
    var q4, q100, q400 := y / 4, y / 100, y / 400;
    assert y == 400 * q400 + y % 400;
    assert y == 100 * q100 + y % 100;
    if y % 400 == 0 {
      assert y == 100 * (4 * q400);
    }
    if y % 100 == 0 {
      assert y == 4 * (25 * q100);
    }
  }

  /** One more year adds that year's length to the closed count. */
  lemma YearStep(y: int)
    requires y >= 1
    ensures DaysBeforeYear(y + 1) == DaysBeforeYear(y) + DaysInYear(y)
  {
    StepDiv(y - 1, 4);
    StepDiv(y - 1, 100);
    StepDiv(y - 1, 400);
    DivisorChain(y);
  }

  /** The closed leap-year formula counts the same days as adding up the
      years one by one. */
  lemma {:induction false} DaysBeforeYearIsTotal(y: int)
    requires y >= 1
    ensures DaysBeforeYear(y) == YearsTotal(y)
  {
    if y > 1 {
      DaysBeforeYearIsTotal(y - 1);
      YearStep(y - 1);
    }
  }

  /** The table agrees with the month lengths: each month starts where
      the previous one ends, and December ends the year. */
  lemma MonthTableConsistent(y: int)
    ensures forall m :: 1 <= m < 12 ==>
      DaysBeforeMonth(y, m + 1) == DaysBeforeMonth(y, m) + DaysInMonth(y, m)
    ensures DaysBeforeMonth(y, 12) + DaysInMonth(y, 12) == DaysInYear(y)
  {
  }

  /** Ordinals number the days consecutively: the next calendar day is a
      valid date (short of the last day `datetime` supports) whose ordinal
      is one more. */
  lemma {:induction false} NextDateOrdinal(y: int, m: int, d: int)
    requires ValidDate(y, m, d) && (y, m, d) != (9999, 12, 31)
    ensures var (y', m', d') := NextDate(y, m, d);
      ValidDate(y', m', d') && ToOrdinal(y', m', d') == ToOrdinal(y, m, d) + 1
  {
    MonthTableConsistent(y);
    if d == DaysInMonth(y, m) && m == 12 {
      DaysBeforeYearIsTotal(y);
      DaysBeforeYearIsTotal(y + 1);
    }
  }

  /** Adding one moves a remainder modulo 7 one step round the cycle. */
  lemma ModSevenStep(n: int)
    ensures (n + 1) % 7 == (n % 7 + 1) % 7
  {
    var q, r := n / 7, n % 7;
    assert n == 7 * q + r;
    if r < 6 {
      assert n + 1 == 7 * q + (r + 1);
    } else {
      assert n + 1 == 7 * (q + 1);
    }
  }

  /** Weekdays cycle: the day after a Monday is a Tuesday, and so on. */
  lemma {:induction false} NextDateWeekday(y: int, m: int, d: int)
    requires ValidDate(y, m, d) && (y, m, d) != (9999, 12, 31)
    ensures var (y', m', d') := NextDate(y, m, d);
      ValidDate(y', m', d') && Weekday(y', m', d') == (Weekday(y, m, d) + 1) % 7
  {
    NextDateOrdinal(y, m, d);
    ModSevenStep(ToOrdinal(y, m, d) + 6);
  }

  /** 0001-01-01, the first day `datetime` knows, was a Monday. */
  lemma FirstDayMonday()
    ensures Weekday(1, 1, 1) == 0
  {
  }

  /** 2018 began on a Monday (ordinal 736695, 736694 days after 0001-01-01,
      a multiple of 7 plus one), so day `d` of month `m` of 2018 falls on
      the weekday of the number of days since 1 January. */
  lemma Weekday2018(y: int, m: int, d: int)
    requires y == 2018 && ValidDate(y, m, d)
    ensures Weekday(y, m, d) == (DaysBeforeMonth(y, m) + d - 1) % 7
  {
    assert DaysBeforeYear(y) == 7 * 105242;
    assert ToOrdinal(y, m, d) == 7 * 105242 + DaysBeforeMonth(y, m) + d;
  }

  /** Fixed points: 2018-01-01 was a Monday, 2018-01-05 a Friday,
      2018-01-06 and 2018-05-05 Saturdays. */
  lemma KnownWeekdays()
    ensures Weekday(2018, 1, 1) == 0
    ensures Weekday(2018, 1, 5) == 4
    ensures Weekday(2018, 1, 6) == 5
    ensures Weekday(2018, 5, 5) == 5
  {
    Weekday2018(2018, 1, 1);
    Weekday2018(2018, 1, 5);
    Weekday2018(2018, 1, 6);
    Weekday2018(2018, 5, 5);
  }
}
