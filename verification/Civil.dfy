/** The proleptic Gregorian calendar as Go's time package uses it, over day numbers.
    Day 0 is 0001-01-01, a Monday and the date of Go's zero time. */
module Civil {

  datatype Date = Date(year: int, month: int, day: int)

  predicate IsLeap(y: int) {
    y % 4 == 0 && (y % 100 != 0 || y % 400 == 0)
  }

  function YearLength(y: int): int {
    if IsLeap(y) then 366 else 365
  }

  // Days before January 1st of year y.
  function YearStart(y: int): int {
    365 * (y - 1) + (y - 1) / 4 - (y - 1) / 100 + (y - 1) / 400
  }

  // Days of year y before the first of month m; month 13 stands for the end of the year.
  function MonthStart(y: int, m: int): int
    requires 1 <= m <= 13
  {
    (if m == 1 then 0 else if m == 2 then 31 else if m == 3 then 59 else if m == 4 then 90
     else if m == 5 then 120 else if m == 6 then 151 else if m == 7 then 181 else if m == 8 then 212
     else if m == 9 then 243 else if m == 10 then 273 else if m == 11 then 304 else if m == 12 then 334
     else 365)
    + if m > 2 && IsLeap(y) then 1 else 0
  }

  predicate ValidDate(d: Date) {
    && 1 <= d.month <= 12
    && 1 <= d.day <= MonthLength(d.year, d.month)
  }

  /** time.Date: a day outside the month, zero and negative ones included, spills into its neighbours. */
  function DayNumber(y: int, m: int, d: int): int
    requires 1 <= m <= 12
  {
    YearStart(y) + MonthStart(y, m) + d - 1
  }

  lemma Quarters(y: int)
    ensures y / 4 == (y - 1) / 4 + if y % 4 == 0 then 1 else 0
  {}

  lemma Centuries(y: int)
    ensures y / 100 == (y - 1) / 100 + if y % 100 == 0 then 1 else 0
    ensures y / 400 == (y - 1) / 400 + if y % 400 == 0 then 1 else 0
  {}

  lemma CenturiesDivide(y: int)
    ensures y % 400 == 0 ==> y % 100 == 0
    ensures y % 100 == 0 ==> y % 4 == 0
  {}

  lemma YearStep(y: int)
    ensures YearStart(y + 1) == YearStart(y) + YearLength(y)
  {
    Quarters(y);
    Centuries(y);
    CenturiesDivide(y);
  }

  lemma {:induction false} YearsAscend(a: int, b: int)
    requires a < b
    ensures YearStart(a) + 365 <= YearStart(b)
    decreases b - a
  {
    YearStep(b - 1);
    if a < b - 1 { YearsAscend(a, b - 1); }
  }

  function MonthLength(y: int, m: int): int
    requires 1 <= m <= 12
  {
    MonthStart(y, m + 1) - MonthStart(y, m)
  }

  // The next and the previous day of the calendar.
  function Next(d: Date): (e: Date)
    requires 1 <= d.month <= 12
    ensures 1 <= e.month <= 12
  {
    if d.day < MonthLength(d.year, d.month) then Date(d.year, d.month, d.day + 1)
    else if d.month < 12 then Date(d.year, d.month + 1, 1)
    else Date(d.year + 1, 1, 1)
  }

  function Previous(d: Date): (e: Date)
    requires 1 <= d.month <= 12
    ensures 1 <= e.month <= 12
  {
    if d.day > 1 then Date(d.year, d.month, d.day - 1)
    else if d.month > 1 then Date(d.year, d.month - 1, MonthLength(d.year, d.month - 1))
    else Date(d.year - 1, 12, 31)
  }

  /** The civil date of a day number: t.Date() for a UTC time. */
  function DateOf(n: int): (d: Date)
    ensures 1 <= d.month <= 12
    decreases if n < 0 then -n else n
  {
    if n == 0 then Date(1, 1, 1)
    else if n > 0 then Next(DateOf(n - 1))
    else Previous(DateOf(n + 1))
  }

  lemma NextIs(d: Date)
    requires ValidDate(d)
    ensures var e := Next(d); ValidDate(e) && DayNumber(e.year, e.month, e.day) == DayNumber(d.year, d.month, d.day) + 1
  {
    YearStep(d.year);
  }

  lemma PreviousIs(d: Date)
    requires ValidDate(d)
    ensures var e := Previous(d);
      ValidDate(e) && DayNumber(e.year, e.month, e.day) == DayNumber(d.year, d.month, d.day) - 1
  {
    YearStep(d.year - 1);
  }

  lemma {:induction false} DateOfIs(n: int)
    ensures var d := DateOf(n); ValidDate(d) && DayNumber(d.year, d.month, d.day) == n
    decreases if n < 0 then -n else n
  {
    if n > 0 {
      DateOfIs(n - 1);
      NextIs(DateOf(n - 1));
    } else if n < 0 {
      DateOfIs(n + 1);
      PreviousIs(DateOf(n + 1));
    }
  }

  lemma {:induction false} MonthsAscend(y: int, a: int, b: int)
    requires 1 <= a < b <= 13
    ensures MonthStart(y, a) < MonthStart(y, b)
    decreases b - a
  {
    if a < b - 1 { MonthsAscend(y, a, b - 1); }
  }

  lemma YearUnique(n: int, a: int, b: int)
    requires YearStart(a) <= n < YearStart(a + 1) && YearStart(b) <= n < YearStart(b + 1)
    ensures a == b
  {
    if a + 1 < b { YearsAscend(a + 1, b); }
    if b + 1 < a { YearsAscend(b + 1, a); }
  }

  lemma MonthUnique(y: int, offset: int, a: int, b: int)
    requires 1 <= a <= 12 && MonthStart(y, a) <= offset < MonthStart(y, a + 1)
    requires 1 <= b <= 12 && MonthStart(y, b) <= offset < MonthStart(y, b + 1)
    ensures a == b
  {
    if a + 1 < b { MonthsAscend(y, a + 1, b); }
    if b + 1 < a { MonthsAscend(y, b + 1, a); }
  }

  lemma InsideYear(d: Date)
    requires ValidDate(d)
    ensures YearStart(d.year) <= DayNumber(d.year, d.month, d.day) < YearStart(d.year + 1)
  {
    YearStep(d.year);
    if d.month < 12 { MonthsAscend(d.year, d.month + 1, 13); }
    if d.month > 1 { MonthsAscend(d.year, 1, d.month); }
    assert MonthStart(d.year, 13) == YearLength(d.year);
  }

  /** Day numbers and dates determine each other. */
  lemma DateOfDayNumber(d: Date)
    requires ValidDate(d)
    ensures DateOf(DayNumber(d.year, d.month, d.day)) == d
  {
    var n := DayNumber(d.year, d.month, d.day);
    var e := DateOf(n);
    DateOfIs(n);
    InsideYear(d);
    InsideYear(e);
    YearUnique(n, d.year, e.year);
    MonthUnique(d.year, n - YearStart(d.year), d.month, e.month);
  }

  // ---------------------------------------------------------------- the calendar, counted month by month

  /** Thirty days hath September; February has one more day in the years that 4 divides, but of the centuries
      only in those that 400 divides. */
  function DaysIn(y: int, m: int): int {
    if m == 4 || m == 6 || m == 9 || m == 11 then 30
    else if m != 2 then 31
    else if y % 4 == 0 && (y % 100 != 0 || y % 400 == 0) then 29
    else 28
  }

  lemma MonthLengthIs(y: int, m: int)
    requires 1 <= m <= 12
    ensures MonthLength(y, m) == DaysIn(y, m)
  {}

  /** Days from January 1st of year 1 to a date, counted back day by day and month by month. */
  function Counted(y: nat, m: nat, d: nat): nat
    requires y >= 1 && m >= 1 && d >= 1
    decreases y, m, d
  {
    if d > 1 then Counted(y, m, d - 1) + 1
    else if m > 1 then Counted(y, m - 1, DaysIn(y, m - 1)) + 1
    else if y > 1 then Counted(y - 1, 12, 31) + 1
    else 0
  }

  lemma {:induction false} CountedIs(y: nat, m: nat, d: nat)
    requires y >= 1 && 1 <= m <= 12 && d >= 1
    ensures DayNumber(y, m, d) == Counted(y, m, d)
    decreases y, m, d
  {
    if d > 1 {
      CountedIs(y, m, d - 1);
    } else if m > 1 {
      MonthLengthIs(y, m - 1);
      CountedIs(y, m - 1, DaysIn(y, m - 1));
    } else if y > 1 {
      CountedIs(y - 1, 12, 31);
      YearStep(y - 1);
    }
  }

  /** So the date of a day number is the one reached by counting, */
  lemma DateIsCounted(y: nat, m: nat, d: nat)
    requires y >= 1 && 1 <= m <= 12 && 1 <= d <= DaysIn(y, m)
    ensures DateOf(Counted(y, m, d)) == Date(y, m, d)
  {
    CountedIs(y, m, d);
    MonthLengthIs(y, m);
    DateOfDayNumber(Date(y, m, d));
  }

  function Tomorrow(d: Date): Date {
    if d.day < DaysIn(d.year, d.month) then Date(d.year, d.month, d.day + 1)
    else if d.month < 12 then Date(d.year, d.month + 1, 1)
    else Date(d.year + 1, 1, 1)
  }

  lemma NextIsTomorrow(d: Date)
    requires ValidDate(d)
    ensures Next(d) == Tomorrow(d) && d.day <= DaysIn(d.year, d.month)
  {
    MonthLengthIs(d.year, d.month);
  }

  lemma Following(n: int, d: Date)
    requires d == DateOf(n)
    ensures ValidDate(d) && DateOf(n + 1) == Next(d)
  {
    DateOfIs(n);
    NextIs(d);
    DateOfDayNumber(Next(d));
  }

  /** every date is followed by the next one of the calendar, before year 1 too, */
  lemma DayAfter(n: int)
    ensures var d := DateOf(n);
      1 <= d.month <= 12 && 1 <= d.day <= DaysIn(d.year, d.month) && DateOf(n + 1) == Tomorrow(d)
  {
    Following(n, DateOf(n));
    NextIsTomorrow(DateOf(n));
  }

  /** and the Unix epoch is where it should be. */
  lemma Epoch(n: int, d: Date)
    requires n == 719_162 && d == Date(1970, 1, 1)
    ensures DateOf(n) == d
  {
    assert DayNumber(d.year, d.month, d.day) == n && ValidDate(d);
    DateOfDayNumber(d);
  }
}
