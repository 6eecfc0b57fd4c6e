/** The proleptic Gregorian calendar as Python's `datetime.date` uses it:
    day numbers ("ordinals") count from 0001-01-01 = 1, and `date + timedelta`
    is arithmetic on ordinals that fails outside years 1..9999. */
module Calendar {
  import opened Outcomes

  datatype Date = Date(year: int, month: int, day: int)

  const MinYear := 1
  const MaxYear := 9999
  /** The ordinal of 9999-12-31, the last day Python can represent. */
  const MaxOrdinal := 3652059
  /** The ordinal of 1970-01-01, the Unix epoch. */
  const EpochOrdinal := 719163

  predicate IsLeapYear(y: int) {
    y % 4 == 0 && (y % 100 != 0 || y % 400 == 0)
  }

  function DaysInYear(y: int): int {
    if IsLeapYear(y) then 366 else 365
  }

  function DaysInMonth(y: int, m: int): int
    requires 1 <= m <= 12
  {
    if m == 2 then (if IsLeapYear(y) then 29 else 28)
    else [31, 0, 31, 30, 31, 30, 31, 31, 30, 31, 30, 31][m - 1]
  }

  /** A real calendar day (any year, proleptically). */
  predicate ValidDate(d: Date) {
    1 <= d.month <= 12 && 1 <= d.day <= DaysInMonth(d.year, d.month)
  }

  /** A day that `datetime.date` can hold. */
  predicate IsPyDate(d: Date) {
    ValidDate(d) && MinYear <= d.year <= MaxYear
  }

  /** Days in the years before `y` (counting from year 1). */
  function DaysBeforeYear(y: int): int {
    var p := y - 1;
    p * 365 + p / 4 - p / 100 + p / 400
  }

  /** Days in the months of year `y` before month `m`. */
  function DaysBeforeMonth(y: int, m: int): int
    requires 1 <= m <= 12
  {
    [0, 31, 59, 90, 120, 151, 181, 212, 243, 273, 304, 334][m - 1]
    + (if m > 2 && IsLeapYear(y) then 1 else 0)
  }

  /** `date.toordinal()`. */
  function Ordinal(d: Date): int
    requires ValidDate(d)
  {
    DaysBeforeYear(d.year) + DaysBeforeMonth(d.year, d.month) + d.day
  }

  /** Chronological order of dates, as `date.__lt__` compares them. */
  predicate Before(a: Date, b: Date) {
    a.year < b.year
    || (a.year == b.year && a.month < b.month)
    || (a.year == b.year && a.month == b.month && a.day < b.day)
  }

  // ---------------------------------------------------------------------
  // Year and month arithmetic

  /** `(x + 1) / k` is `x / k`, plus one exactly when `k` divides `x + 1`. */
  lemma {:induction false} QuotientStep4(x: int)
    ensures (x + 1) / 4 == x / 4 + (if (x + 1) % 4 == 0 then 1 else 0)
  {
    if x % 4 == 3 {
      assert x + 1 == 4 * (x / 4 + 1);
    } else {
      assert x + 1 == 4 * (x / 4) + (x % 4 + 1);
    }
  }

  lemma {:induction false} QuotientStep100(x: int)
    ensures (x + 1) / 100 == x / 100 + (if (x + 1) % 100 == 0 then 1 else 0)
  {
    if x % 100 == 99 {
      assert x + 1 == 100 * (x / 100 + 1);
    } else {
      assert x + 1 == 100 * (x / 100) + (x % 100 + 1);
    }
  }

  lemma {:induction false} QuotientStep400(x: int)
    ensures (x + 1) / 400 == x / 400 + (if (x + 1) % 400 == 0 then 1 else 0)
  {
    if x % 400 == 399 {
      assert x + 1 == 400 * (x / 400 + 1);
    } else {
      assert x + 1 == 400 * (x / 400) + (x % 400 + 1);
    }
  }

  lemma {:induction false} YearStep(y: int)
    ensures DaysBeforeYear(y + 1) == DaysBeforeYear(y) + DaysInYear(y)
  {
    var p := y - 1;
    var a := if y % 4 == 0 then 1 else 0;
    var b := if y % 100 == 0 then 1 else 0;
    var c := if y % 400 == 0 then 1 else 0;
    assert y / 4 == p / 4 + a by { QuotientStep4(p); }
    assert y / 100 == p / 100 + b by { QuotientStep100(p); }
    assert y / 400 == p / 400 + c by { QuotientStep400(p); }
    LeapIndicators(y);
  }

  /** The length of year `y` from its divisibility by 4, 100 and 400. */
  lemma LeapIndicators(y: int)
    ensures DaysInYear(y) == 365 + (if y % 4 == 0 then 1 else 0)
      - (if y % 100 == 0 then 1 else 0) + (if y % 400 == 0 then 1 else 0)
  {
    if y % 400 == 0 {
      var k := y / 400;
      assert y == 100 * (4 * k);
      assert y == 4 * (100 * k);
    } else if y % 100 == 0 {
      var k := y / 100;
      assert y == 4 * (25 * k);
    }
  }

  lemma MonthStep(y: int, m: int)
    requires 1 <= m < 12
    ensures DaysBeforeMonth(y, m + 1) == DaysBeforeMonth(y, m) + DaysInMonth(y, m)
  {
  }

  lemma LastMonth(y: int)
    ensures DaysBeforeMonth(y, 12) + DaysInMonth(y, 12) == DaysInYear(y)
  {
  }

  /** December 31 is the day before the next year begins. */
  lemma LastDayOfYear(y: int)
    ensures ValidDate(Date(y, 12, 31)) && Ordinal(Date(y, 12, 31)) == DaysBeforeYear(y + 1)
  {
    YearStep(y);
    LastMonth(y);
  }

  /** The days before year 1 + 400a + 100b + 4c + e follow the 400-, 100-,
      4- and 1-year cycles of the calendar. */
  lemma {:induction false} CycleDecomposition(a: int, b: int, c: int, e: int)
    requires 0 <= b < 4 && 0 <= c < 25 && 0 <= e < 4
    ensures DaysBeforeYear(1 + 400 * a + 100 * b + 4 * c + e)
         == 146097 * a + 36524 * b + 1461 * c + 365 * e
  {
    var p := 400 * a + 100 * b + 4 * c + e;
    assert p == 4 * (100 * a + 25 * b + c) + e;
    assert p / 4 == 100 * a + 25 * b + c;
    assert p == 100 * (4 * a + b) + (4 * c + e);
    assert p / 100 == 4 * a + b;
    assert p == 400 * a + (100 * b + 4 * c + e);
    assert p / 400 == a;
  }

  // ---------------------------------------------------------------------
  // From an ordinal back to a date

  /** Walks the months of year `y` from month `m`, where `rest` days remain. */
  function MonthAndDay(y: int, m: int, rest: int): (d: Date)
    requires 1 <= m <= 12 && 0 <= rest
    requires DaysBeforeMonth(y, m) + rest < DaysInYear(y)
    ensures ValidDate(d) && d.year == y
    ensures DaysBeforeMonth(y, d.month) + d.day == DaysBeforeMonth(y, m) + rest + 1
    decreases 12 - m
  {
    if m == 12 then
      LastMonth(y);
      Date(y, m, rest + 1)
    else if rest < DaysInMonth(y, m) then
      Date(y, m, rest + 1)
    else
      MonthStep(y, m);
      MonthAndDay(y, m + 1, rest - DaysInMonth(y, m))
  }

  /** The divisions of `_ord2ymd`: a day offset is a number of 400-year
      cycles, then at most four 100-year cycles, then fewer than 25 4-year
      cycles, then at most four years, then the day of the year. */
  lemma OrdinalCycles(n0: int)
    ensures var r400 := n0 % 146097;
      var n100, r100 := r400 / 36524, r400 % 36524;
      var n4, r4 := r100 / 1461, r100 % 1461;
      var n1, r1 := r4 / 365, r4 % 365;
      && n0 == 146097 * (n0 / 146097) + 36524 * n100 + 1461 * n4 + 365 * n1 + r1
      && 0 <= n100 <= 4 && 0 <= n4 < 25 && 0 <= n1 <= 4 && 0 <= r1 < 365
      && (n100 == 4 ==> r400 == 146096 && n4 == 0 && n1 == 0 && r1 == 0)
      && (n1 == 4 ==> n4 < 24 && r1 == 0)
  {
    var r400 := n0 % 146097;
    var n100, r100 := r400 / 36524, r400 % 36524;
    var n4, r4 := r100 / 1461, r100 % 1461;
    var n1, r1 := r4 / 365, r4 % 365;
    assert n0 == 146097 * (n0 / 146097) + r400;
    assert r400 == 36524 * n100 + r100;
    assert r100 == 1461 * n4 + r4;
    assert r4 == 365 * n1 + r1;
  }

  /** The date `r1` days into the year that follows `n400` 400-year,
      `n100` 100-year, `n4` 4-year and `n1` 1-year cycles; `n100 == 4`
      and `n1 == 4` stand for the last day of a 400- or 4-year cycle, as
      in CPython's `_ord2ymd`. */
  function DateOfCycles(n400: int, n100: int, n4: int, n1: int, r1: int): (d: Date)
    requires 0 <= n100 <= 4 && 0 <= n4 < 25 && 0 <= n1 <= 4 && 0 <= r1 < 365
    requires n100 == 4 ==> n4 == 0 && n1 == 0 && r1 == 0
    requires n1 == 4 ==> n4 < 24 && r1 == 0
    ensures ValidDate(d)
    ensures Ordinal(d) == 146097 * n400 + 36524 * n100 + 1461 * n4 + 365 * n1 + r1 + 1
  {
    var year := 400 * n400 + 100 * n100 + 4 * n4 + n1 + 1;
    if n100 == 4 then
      // the last day of a 400-year cycle
      CycleDecomposition(n400 + 1, 0, 0, 0);
      LastDayOfYear(year - 1);
      Date(year - 1, 12, 31)
    else if n1 == 4 then
      // the last day of a 4-year cycle
      CycleDecomposition(n400, n100, n4 + 1, 0);
      LastDayOfYear(year - 1);
      Date(year - 1, 12, 31)
    else
      CycleDecomposition(n400, n100, n4, n1);
      MonthAndDay(year, 1, r1)
  }

  /** `date.fromordinal(n)`, for every integer `n` (proleptically): the
      ordinal is split into 400-, 100-, 4- and 1-year cycles as CPython's
      `_ord2ymd` does, then the months of the year are walked. */
  function DateOfOrdinal(n: int): (d: Date)
    ensures ValidDate(d) && Ordinal(d) == n
  {
    var n0 := n - 1;
    var r400 := n0 % 146097;
    var r100 := r400 % 36524;
    var r4 := r100 % 1461;
    OrdinalCycles(n0);
    DateOfCycles(n0 / 146097, r400 / 36524, r100 / 1461, r4 / 365, r4 % 365)
  }

  // ---------------------------------------------------------------------
  // Ordinals order dates

  lemma DayOfYearBounds(d: Date)
    requires ValidDate(d)
    ensures 1 <= DaysBeforeMonth(d.year, d.month) + d.day <= DaysInYear(d.year)
  {
  }

  lemma {:induction false} DaysBeforeMonthGrows(y: int, m1: int, m2: int)
    requires 1 <= m1 < m2 <= 12
    ensures DaysBeforeMonth(y, m1) + DaysInMonth(y, m1) <= DaysBeforeMonth(y, m2)
    decreases m2 - m1
  {
    MonthStep(y, m1);
    if m1 + 1 < m2 {
      DaysBeforeMonthGrows(y, m1 + 1, m2);
    }
  }

  lemma {:induction false} DaysBeforeYearGrows(y1: int, y2: int)
    requires y1 < y2
    ensures DaysBeforeYear(y1) + DaysInYear(y1) <= DaysBeforeYear(y2)
    decreases y2 - y1
  {
    YearStep(y1);
    if y1 + 1 < y2 {
      DaysBeforeYearGrows(y1 + 1, y2);
      YearStep(y1 + 1);
    }
  }

  /** Chronological order and ordinal order agree on real dates. */
  lemma OrdinalOrder(a: Date, b: Date)
    requires ValidDate(a) && ValidDate(b)
    ensures Before(a, b) <==> Ordinal(a) < Ordinal(b)
    ensures a == b <==> Ordinal(a) == Ordinal(b)
  {
    if Before(a, b) {
      OrdinalOrderForward(a, b);
    } else if Before(b, a) {
      OrdinalOrderForward(b, a);
    }
  }

  lemma OrdinalOrderForward(a: Date, b: Date)
    requires ValidDate(a) && ValidDate(b) && Before(a, b)
    ensures Ordinal(a) < Ordinal(b)
  {
    DayOfYearBounds(a);
    DayOfYearBounds(b);
    if a.year < b.year {
      DaysBeforeYearGrows(a.year, b.year);
    } else if a.month < b.month {
      DaysBeforeMonthGrows(a.year, a.month, b.month);
    }
  }

  /** `date.fromordinal(d.toordinal()) == d`. */
  lemma OrdinalRoundTrip(d: Date)
    requires ValidDate(d)
    ensures DateOfOrdinal(Ordinal(d)) == d
  {
    OrdinalOrder(d, DateOfOrdinal(Ordinal(d)));
  }

  lemma YearBoundaries()
    ensures DaysBeforeYear(MinYear) == 0
    ensures DaysBeforeYear(MaxYear + 1) == MaxOrdinal
  {
    assert 9999 / 4 == 2499 && 9999 / 100 == 99 && 9999 / 400 == 24;
  }

  /** The dates Python can hold are exactly the ordinals 1..MaxOrdinal. */
  lemma PyDateRange(d: Date)
    requires ValidDate(d)
    ensures IsPyDate(d) <==> 1 <= Ordinal(d) <= MaxOrdinal
  {
    YearBoundaries();
    DayOfYearBounds(d);
    if d.year < MinYear {
      DaysBeforeYearGrows(d.year, MinYear);
    } else if d.year > MinYear {
      DaysBeforeYearGrows(MinYear, d.year);
    }
    if d.year <= MaxYear {
      DaysBeforeYearGrows(d.year, MaxYear + 1);
    } else if d.year > MaxYear + 1 {
      DaysBeforeYearGrows(MaxYear + 1, d.year);
    }
  }

  // ---------------------------------------------------------------------
  // Adding days

  /** `d + timedelta(days=k)`: ordinal arithmetic, and OverflowError when
      the result leaves years 1..9999. */
  function AddDays(d: Date, k: int): (r: Result<Date>)
    requires ValidDate(d)
    ensures r.Ok? <==> 1 <= Ordinal(d) + k <= MaxOrdinal
    ensures r.Ok? ==> IsPyDate(r.value) && Ordinal(r.value) == Ordinal(d) + k
  {
    var n := Ordinal(d) + k;
    if 1 <= n <= MaxOrdinal then
      PyDateRange(DateOfOrdinal(n));
      Ok(DateOfOrdinal(n))
    else
      Err(DateOverflow)
  }

  /** The next calendar day, with month and year roll-over written out. */
  function Successor(d: Date): Date
    requires ValidDate(d)
  {
    if d.day < DaysInMonth(d.year, d.month) then Date(d.year, d.month, d.day + 1)
    else if d.month < 12 then Date(d.year, d.month + 1, 1)
    else Date(d.year + 1, 1, 1)
  }

  lemma SuccessorOrdinal(d: Date)
    requires ValidDate(d)
    ensures ValidDate(Successor(d)) && Ordinal(Successor(d)) == Ordinal(d) + 1
  {
    if d.day == DaysInMonth(d.year, d.month) {
      if d.month < 12 {
        MonthStep(d.year, d.month);
      } else {
        LastMonth(d.year);
        YearStep(d.year);
      }
    }
  }

  /** `d + timedelta(days=1)` is the next calendar day, rolling over the
      month and the year; only 9999-12-31 has no next day. */
  lemma NextDay(d: Date)
    requires IsPyDate(d)
    ensures d != Date(MaxYear, 12, 31) ==> AddDays(d, 1) == Ok(Successor(d))
    ensures d == Date(MaxYear, 12, 31) ==> AddDays(d, 1) == Err(DateOverflow)
  {
    var next := Successor(d);
    SuccessorOrdinal(d);
    PyDateRange(next);
    if d == Date(MaxYear, 12, 31) {
      assert next.year == MaxYear + 1;
    } else {
      assert IsPyDate(next);
      var r := AddDays(d, 1);
      OrdinalOrder(r.value, next);
    }
  }

  /** No day lies strictly between a date and its successor. */
  lemma SuccessorIsNext(d: Date, e: Date)
    requires ValidDate(d) && ValidDate(e)
    ensures Before(d, Successor(d))
    ensures Before(d, e) ==> e == Successor(d) || Before(Successor(d), e)
  {
    SuccessorOrdinal(d);
    OrdinalOrder(d, Successor(d));
    OrdinalOrder(d, e);
    OrdinalOrder(Successor(d), e);
  }
}
