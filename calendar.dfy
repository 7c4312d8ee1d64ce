/**
 * The proleptic Gregorian calendar as Python's `datetime` module implements it:
 * leap years, month lengths, the day ordinal (day 1 is 0001-01-01) and the
 * addition of a whole number of days to a date, which `datetime + timedelta`
 * performs by converting to an ordinal, adding and converting back.
 */
module Calendar {

  /** `datetime.MINYEAR` and `datetime.MAXYEAR`. */
  const MinYear: int := 1
  const MaxYear: int := 9999

  datatype Date = Date(year: int, month: int, day: int)

  /** Divisible by 4, and not by 100 unless also by 400. */
  predicate IsLeapYear(y: int) {
    y % 4 == 0 && (y % 100 != 0 || y % 400 == 0)
  }

  function DaysInYear(y: int): (r: nat)
    ensures r == 365 || r == 366
    ensures r == 366 <==> IsLeapYear(y)
  {
    if IsLeapYear(y) then 366 else 365
  }

  function DaysInMonth(y: int, m: int): (r: nat)
    requires 1 <= m <= 12
    ensures 28 <= r <= 31
    ensures r == 29 <==> m == 2 && IsLeapYear(y)
  {
    if m == 2 then (if IsLeapYear(y) then 29 else 28)
    else if m == 4 || m == 6 || m == 9 || m == 11 then 30
    else 31
  }

  /** A date with a month in 1..12 and a day inside that month; the year is any positive year. */
  predicate ValidDate(d: Date) {
    d.year >= MinYear && 1 <= d.month <= 12 && 1 <= d.day <= DaysInMonth(d.year, d.month)
  }

  /** A valid date that `datetime` can also represent (it refuses years above 9999). */
  predicate Representable(d: Date) {
    ValidDate(d) && d.year <= MaxYear
  }

  /** Chronological order of two dates: by year, then month, then day. */
  predicate Before(a: Date, b: Date) {
    a.year < b.year
    || (a.year == b.year && a.month < b.month)
    || (a.year == b.year && a.month == b.month && a.day < b.day)
  }

  /** Number of days of year y that lie before the first day of month m (m == 13: the whole year). */
  function DaysBeforeMonth(y: int, m: int): nat
    requires 1 <= m <= 13
  {
    if m == 1 then 0 else DaysBeforeMonth(y, m - 1) + DaysInMonth(y, m - 1)
  }

  /** Number of days before January 1 of year y, in the closed form CPython uses. */
  function DaysBeforeYear(y: int): int
    requires y >= MinYear
  {
    var k := y - 1;
    k * 365 + k / 4 - k / 100 + k / 400
  }

  /** The day number of a date, counting 0001-01-01 as day 1. */
  function Ordinal(d: Date): int
    requires ValidDate(d)
  {
    DaysBeforeYear(d.year) + DaysBeforeMonth(d.year, d.month) + d.day
  }

  /** The first day after the end of d's month. */
  function FirstOfNextMonth(d: Date): Date {
    if d.month == 12 then Date(d.year + 1, 1, 1) else Date(d.year, d.month + 1, 1)
  }

  /**
   * The date n days after d, moving through the calendar a month at a time. It
   * is the date whose ordinal is d's plus n, as `datetime + timedelta` computes.
   */
  function AddDays(d: Date, n: nat): (r: Date)
    requires ValidDate(d)
    ensures ValidDate(r)
    ensures Ordinal(r) == Ordinal(d) + n
    ensures r.year >= d.year
    decreases n
  {
    var left := DaysInMonth(d.year, d.month) - d.day;
    if n <= left then
      Date(d.year, d.month, d.day + n)
    else
      NextMonthOrdinal(d);
      AddDays(FirstOfNextMonth(d), n - left - 1)
  }

  // ----- facts about the ordinal -----

  lemma {:induction false} DivStep(k: int, q: int)
    requires k >= 0 && (q == 4 || q == 100 || q == 400)
    ensures (k + 1) / q == k / q + (if (k + 1) % q == 0 then 1 else 0)
  {
  }

  /** The closed form advances by the length of each year. */
  lemma DaysBeforeYearStep(y: int)
    requires y >= MinYear
    ensures DaysBeforeYear(y + 1) == DaysBeforeYear(y) + DaysInYear(y)
  {
    var k := y - 1;
    DivStep(k, 4);
    DivStep(k, 100);
    DivStep(k, 400);
    assert (k + 1) % 100 == 0 ==> (k + 1) % 4 == 0;
    assert (k + 1) % 400 == 0 ==> (k + 1) % 100 == 0;
  }

  lemma {:induction false} DaysBeforeYearMonotone(y1: int, y2: int)
    requires MinYear <= y1 <= y2
    ensures DaysBeforeYear(y1) + 365 * (y2 - y1) <= DaysBeforeYear(y2)
    decreases y2 - y1
  {
    if y1 < y2 {
      DaysBeforeYearStep(y1);
      DaysBeforeYearMonotone(y1 + 1, y2);
    }
  }

  lemma {:induction false} DaysBeforeMonthMonotone(y: int, m1: int, m2: int)
    requires 1 <= m1 <= m2 <= 13
    ensures DaysBeforeMonth(y, m1) + 28 * (m2 - m1) <= DaysBeforeMonth(y, m2)
    decreases m2 - m1
  {
    if m1 < m2 {
      DaysBeforeMonthMonotone(y, m1, m2 - 1);
    }
  }

  /** The twelve months add up to the year; October and November start on days 274 and 305 (one later in a leap year). */
  lemma WholeYear(y: int)
    ensures DaysBeforeMonth(y, 13) == DaysInYear(y)
    ensures DaysBeforeMonth(y, 10) == 273 + DaysInYear(y) - 365
    ensures DaysBeforeMonth(y, 11) == 304 + DaysInYear(y) - 365
  {
    var feb := if IsLeapYear(y) then 29 else 28;
    assert DaysBeforeMonth(y, 2) == 31;
    assert DaysBeforeMonth(y, 3) == 31 + feb;
    assert DaysBeforeMonth(y, 4) == 62 + feb;
    assert DaysBeforeMonth(y, 5) == 92 + feb;
    assert DaysBeforeMonth(y, 6) == 123 + feb;
    assert DaysBeforeMonth(y, 7) == 153 + feb;
    assert DaysBeforeMonth(y, 8) == 184 + feb;
    assert DaysBeforeMonth(y, 9) == 215 + feb;
    assert DaysBeforeMonth(y, 10) == 245 + feb;
    assert DaysBeforeMonth(y, 11) == 276 + feb;
    assert DaysBeforeMonth(y, 12) == 306 + feb;
  }

  lemma NextMonthOrdinal(d: Date)
    requires ValidDate(d)
    ensures ValidDate(FirstOfNextMonth(d))
    ensures Ordinal(FirstOfNextMonth(d)) == Ordinal(d) + DaysInMonth(d.year, d.month) - d.day + 1
  {
    if d.month == 12 {
      WholeYear(d.year);
      DaysBeforeYearStep(d.year);
    }
  }

  /** A date's ordinal lies strictly after the start of its year and at most at its end. */
  lemma OrdinalInYear(d: Date)
    requires ValidDate(d)
    ensures DaysBeforeYear(d.year) < Ordinal(d) <= DaysBeforeYear(d.year) + DaysInYear(d.year)
    ensures Ordinal(d) <= DaysBeforeYear(d.year + 1)
  {
    DaysBeforeMonthMonotone(d.year, d.month + 1, 13);
    WholeYear(d.year);
    DaysBeforeYearStep(d.year);
  }

  /** The ordinal is strictly increasing in chronological order. */
  lemma OrdinalOrder(a: Date, b: Date)
    requires ValidDate(a) && ValidDate(b)
    requires Before(a, b)
    ensures Ordinal(a) < Ordinal(b)
  {
    if a.year < b.year {
      OrdinalInYear(a);
      OrdinalInYear(b);
      DaysBeforeYearMonotone(a.year + 1, b.year);
    } else if a.month < b.month {
      DaysBeforeMonthMonotone(a.year, a.month + 1, b.month);
    }
  }

  /** Distinct valid dates have distinct ordinals. */
  lemma OrdinalInjective(a: Date, b: Date)
    requires ValidDate(a) && ValidDate(b)
    requires Ordinal(a) == Ordinal(b)
    ensures a == b
  {
    if Before(a, b) {
      OrdinalOrder(a, b);
    } else if Before(b, a) {
      OrdinalOrder(b, a);
    }
  }

  /**
   * AddDays(d, n) is the only valid date whose ordinal is Ordinal(d) + n, so it
   * agrees with `date.fromordinal(d.toordinal() + n)`.
   */
  lemma AddDaysUnique(d: Date, n: nat, e: Date)
    requires ValidDate(d) && ValidDate(e)
    requires Ordinal(e) == Ordinal(d) + n
    ensures e == AddDays(d, n)
  {
    OrdinalInjective(e, AddDays(d, n));
  }

  /** Adding n days then m days is adding n + m days. */
  lemma AddDaysAdditive(d: Date, n: nat, m: nat)
    requires ValidDate(d)
    ensures AddDays(AddDays(d, n), m) == AddDays(d, n + m)
  {
    AddDaysUnique(d, n + m, AddDays(AddDays(d, n), m));
  }

  /** Adding more days never gives an earlier date. */
  lemma AddDaysMonotone(d: Date, n: nat, m: nat)
    requires ValidDate(d) && n <= m
    ensures !Before(AddDays(d, m), AddDays(d, n))
  {
    if Before(AddDays(d, m), AddDays(d, n)) {
      OrdinalOrder(AddDays(d, m), AddDays(d, n));
    }
  }

  /**
   * Adding at most a year's worth of days from the first of a month stays in
   * year y exactly when the target day number inside the year does not pass
   * the year's end, and otherwise lands in year y + 1.
   */
  lemma YearAfterDays(y: int, m: int, n: nat)
    requires y >= MinYear && 1 <= m <= 12 && n <= 365
    ensures AddDays(Date(y, m, 1), n).year == y || AddDays(Date(y, m, 1), n).year == y + 1
    ensures AddDays(Date(y, m, 1), n).year == y <==> DaysBeforeMonth(y, m) + 1 + n <= DaysInYear(y)
  {
    var d := Date(y, m, 1);
    var r := AddDays(d, n);
    OrdinalInYear(r);
    DaysBeforeYearStep(y);
    DaysBeforeYearStep(y + 1);
    if r.year >= y + 2 {
      DaysBeforeYearMonotone(y + 2, r.year);
      DaysBeforeMonthMonotone(y, m, 13);
      WholeYear(y);
      assert false;
    }
    if r.year == y + 1 {
      assert Ordinal(r) > DaysBeforeYear(y) + DaysInYear(y);
    }
  }
}
