/** UTC weeks and the weekly hour a user chooses for the digest. */
module Weeks {
  import opened DispatchLog
  import opened Civil
  import opened SendTime

  const WEEK: int := 604_800_000_000_000

  // Sunday is 0. Day 0 is a Monday.
  function Weekday(n: int): int {
    (n + 1) % 7
  }

  function DaysSinceMonday(n: int): int {
    (if Weekday(n) == 0 then 7 else Weekday(n)) - 1
  }

  // time.Date with a day that may drop to zero and below.
  function GoBack(d: Date, days: int): Instant
    requires 1 <= d.month <= 12
  {
    DayNumber(d.year, d.month, d.day - days) * DAY
  }

  function MondayOfWeek(t: Instant): Instant {
    GoBack(DateOf(t / DAY), DaysSinceMonday(t / DAY))
  }

  function WeekStart(t: Instant): Instant {
    t - t % WEEK
  }

  lemma WeekdayOffset(n: int)
    ensures DaysSinceMonday(n) == n % 7
  {}

  lemma GoBackFrom(n: int, days: int)
    ensures GoBack(DateOf(n), days) == (n - days) * DAY
  {
    var d := DateOf(n);
    DateOfIs(n);
    assert DayNumber(d.year, d.month, d.day - days) == n - days;
  }

  lemma WeekOfDays(t: Instant)
    ensures (t / DAY - t / DAY % 7) * DAY == WeekStart(t)
  {
    var n, r := t / DAY, t % DAY;
    DaysOf(t);
    ModIs(t, n / 7, n % 7 * DAY + r);
  }

  lemma DaysOf(t: Instant)
    ensures var n := t / DAY; t == n / 7 * WEEK + (n % 7 * DAY + t % DAY) && 0 <= n % 7 * DAY + t % DAY < WEEK
  {
    var n := t / DAY;
    assert t == n * DAY + t % DAY;
    assert n == n / 7 * 7 + n % 7;
  }

  /** The calendar arithmetic finds the start of the week, whichever month or year it lies in. */
  lemma MondayIsWeekStart(t: Instant)
    ensures MondayOfWeek(t) == WeekStart(t)
  {
    GoBackFrom(t / DAY, DaysSinceMonday(t / DAY));
    WeekdayOffset(t / DAY);
    WeekOfDays(t);
  }

  lemma WeekStartBounds(t: Instant)
    ensures WeekStart(t) % DAY == 0 && Weekday(WeekStart(t) / DAY) == 1
    ensures WeekStart(t) <= t < WeekStart(t) + WEEK && WeekStart(t) % WEEK == 0
    ensures WeekStart(WeekStart(t)) == WeekStart(t)
  {
    var q := t / WEEK;
    assert WeekStart(t) == q * WEEK;
    ModIs(q * WEEK, q, 0);
    WholeWeeks(q);
  }

  lemma WholeWeeks(q: int)
    ensures q * WEEK % DAY == 0 && q * WEEK / DAY == 7 * q && Weekday(7 * q) == 1
  {
    assert q * WEEK == 7 * q * DAY;
  }

  /** It is a Monday midnight at or before t and less than a week away, and a fixed point. */
  lemma MondayBounds(t: Instant)
    ensures var m := MondayOfWeek(t);
      m % DAY == 0 && Weekday(m / DAY) == 1 && m <= t < m + WEEK && MondayOfWeek(m) == m
  {
    MondayIsWeekStart(t);
    WeekStartBounds(t);
    MondayIsWeekStart(WeekStart(t));
  }

  lemma Multiples(x: Instant, y: Instant)
    requires x % WEEK == 0 && y % WEEK == 0 && x < y
    ensures x + WEEK <= y
  {}

  lemma SameWeekStart(a: Instant, b: Instant)
    requires a <= b
    ensures WeekStart(a) <= WeekStart(b)
    ensures WeekStart(a) == WeekStart(b) ==> !exists m :: m % WEEK == 0 && a < m <= b
    ensures WeekStart(a) != WeekStart(b) ==> WeekStart(b) % WEEK == 0 && a < WeekStart(b) <= b
  {
    var ma, mb := WeekStart(a), WeekStart(b);
    WeekStartBounds(a);
    WeekStartBounds(b);
    if mb < ma { Multiples(mb, ma); }
    if ma < mb { Multiples(ma, mb); }
    forall m | m % WEEK == 0 && a < m <= b ensures ma != mb {
      Multiples(ma, m);
    }
  }

  /** It orders as time does, and two instants share it exactly when no Monday midnight separates them. */
  lemma SameMonday(a: Instant, b: Instant)
    requires a <= b
    ensures MondayOfWeek(a) <= MondayOfWeek(b)
    ensures MondayOfWeek(a) == MondayOfWeek(b) <==> !exists m :: m % WEEK == 0 && a < m <= b
  {
    MondayIsWeekStart(a);
    MondayIsWeekStart(b);
    SameWeekStart(a, b);
  }

  // ---------------------------------------------------------------- the chosen hour

  /** EXTRACT(DOW) and EXTRACT(HOUR) of the local time are the chosen day and hour. */
  predicate Matches(z: Zone, day: int, hour: int, t: Instant) {
    var w := Wall(z, t);
    Weekday(w / DAY) == day && w % DAY / HOUR == hour
  }

  // Where the chosen hour begins, counted from Monday midnight of the local week.
  function LocalSlot(day: int, hour: int): int {
    (day + 6) % 7 * DAY + hour * HOUR
  }

  // Where it begins in the UTC week.
  function UtcSlot(day: int, hour: int, o: int): int {
    (LocalSlot(day, hour) - o) % WEEK
  }

  lemma WallMatches(w: int, day: int, hour: int)
    requires 0 <= day < 7 && 0 <= hour < 24
    ensures (Weekday(w / DAY) == day && w % DAY / HOUR == hour) <==>
      LocalSlot(day, hour) <= w % WEEK < LocalSlot(day, hour) + HOUR
  {
    DayInWeek(w);
    SlotOfDay(w % WEEK / DAY, w % WEEK % DAY, day, hour);
  }

  lemma DayInWeek(w: int)
    ensures var r := w % WEEK; Weekday(w / DAY) == (r / DAY + 1) % 7 && w % DAY == r % DAY
  {
    var r := w % WEEK;
    assert w / DAY % 7 == r / DAY && w % DAY == r % DAY;
  }

  lemma SlotOfDay(n: int, clock: int, day: int, hour: int)
    requires 0 <= n < 7 && 0 <= clock < DAY && 0 <= day < 7 && 0 <= hour < 24
    ensures ((n + 1) % 7 == day && clock / HOUR == hour) <==>
      LocalSlot(day, hour) <= n * DAY + clock < LocalSlot(day, hour) + HOUR
  {}

  lemma Within(y: int, l: int)
    requires 0 <= l && l + HOUR <= WEEK
    ensures l <= y % WEEK < l + HOUR <==> (y - l) % WEEK < HOUR
  {
    var q, r := y / WEEK, y % WEEK;
    assert y == q * WEEK + r;
    if r >= l {
      ModIs(y - l, q, r - l);
    } else {
      ModIs(y - l, q - 1, r - l + WEEK);
    }
  }

  lemma ModIs(y: int, q: int, r: int)
    requires y == q * WEEK + r && 0 <= r < WEEK
    ensures y % WEEK == r
  {}

  lemma ModDifference(a: int, b: int)
    ensures (a - b % WEEK) % WEEK == (a - b) % WEEK
  {
    var q, p := b / WEEK, (a - b) / WEEK;
    assert a - b % WEEK == (p + q) * WEEK + (a - b) % WEEK;
    ModIs(a - b % WEEK, p + q, (a - b) % WEEK);
  }

  lemma MatchesModulo(z: Zone, o: int, day: int, hour: int, t: Instant)
    requires z(t) == o && 0 <= day < 7 && 0 <= hour < 24
    ensures Matches(z, day, hour, t) <==> (t - UtcSlot(day, hour, o)) % WEEK < HOUR
  {
    var l := LocalSlot(day, hour);
    WallMatches(t + o, day, hour);
    Within(t + o, l);
    ModDifference(t, l - o);
    assert t + o - l == t - (l - o);
  }

  /** The zone keeps one offset during the UTC week that begins at monday. */
  ghost predicate ConstantIn(z: Zone, o: int, monday: Instant) {
    forall t | monday <= t < monday + WEEK :: z(t) == o
  }

  /** The slot lies inside the UTC week. */
  predicate SlotUnbroken(day: int, hour: int, o: int) {
    UtcSlot(day, hour, o) <= WEEK - HOUR
  }

  // The part of a broken slot that reaches into the next week.
  function Overlap(day: int, hour: int, o: int): int {
    UtcSlot(day, hour, o) + HOUR - WEEK
  }

  lemma OverlapSize(day: int, hour: int, o: int)
    requires !SlotUnbroken(day, hour, o)
    ensures 0 < Overlap(day, hour, o) < HOUR
  {}

  lemma SlotInWeek(z: Zone, o: int, day: int, hour: int, monday: Instant, t: Instant)
    requires ConstantIn(z, o, monday) && 0 <= day < 7 && 0 <= hour < 24
    requires monday % WEEK == 0 && monday <= t < monday + WEEK
    ensures
      var u, x := UtcSlot(day, hour, o), t - monday;
      Matches(z, day, hour, t) <==> if x >= u then x - u < HOUR else x - u + WEEK < HOUR
  {
    var u, x, q := UtcSlot(day, hour, o), t - monday, monday / WEEK;
    MatchesModulo(z, o, day, hour, t);
    assert t - u == q * WEEK + (x - u);
    if x >= u {
      ModIs(t - u, q, x - u);
    } else {
      ModIs(t - u, q - 1, x - u + WEEK);
    }
  }

  /** Then the instants that match in a week of one offset are exactly one hour long stretch of it, */
  lemma OneSlotPerWeek(z: Zone, o: int, day: int, hour: int, monday: Instant, t: Instant)
    requires ConstantIn(z, o, monday) && 0 <= day < 7 && 0 <= hour < 24 && SlotUnbroken(day, hour, o)
    requires monday % WEEK == 0 && monday <= t < monday + WEEK
    ensures Matches(z, day, hour, t) <==> monday + UtcSlot(day, hour, o) <= t < monday + UtcSlot(day, hour, o) + HOUR
  {
    SlotInWeek(z, o, day, hour, monday, t);
  }

  /** and otherwise its first part of an hour and the rest of one at its end. */
  lemma BrokenWeek(z: Zone, o: int, day: int, hour: int, monday: Instant, t: Instant)
    requires ConstantIn(z, o, monday) && 0 <= day < 7 && 0 <= hour < 24 && !SlotUnbroken(day, hour, o)
    requires monday % WEEK == 0 && monday <= t < monday + WEEK
    ensures Matches(z, day, hour, t) <==> t < monday + Overlap(day, hour, o) || monday + UtcSlot(day, hour, o) <= t
  {
    SlotInWeek(z, o, day, hour, monday, t);
  }

  /** So the slot is broken exactly if both ends of the week match. */
  lemma BrokenSlot(z: Zone, o: int, day: int, hour: int, monday: Instant)
    requires ConstantIn(z, o, monday) && 0 <= day < 7 && 0 <= hour < 24 && monday % WEEK == 0
    ensures SlotUnbroken(day, hour, o) <==>
      !(Matches(z, day, hour, monday) && Matches(z, day, hour, monday + WEEK - 1))
  {
    SlotInWeek(z, o, day, hour, monday, monday);
    SlotInWeek(z, o, day, hour, monday, monday + WEEK - 1);
  }

  /** Every zone a whole number of hours from UTC keeps the hour inside the week. */
  lemma WholeHoursUnbroken(day: int, hour: int, hours: int)
    ensures SlotUnbroken(day, hour, hours * HOUR)
  {
    var n := (day + 6) % 7 * 24 + hour - hours;
    assert LocalSlot(day, hour) - hours * HOUR == n * HOUR;
    assert n * HOUR == n / 168 * WEEK + n % 168 * HOUR;
    ModIs(n * HOUR, n / 168, n % 168 * HOUR);
  }
}
