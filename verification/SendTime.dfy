/** When a reminder goes out: 09:00 local time, some days before the deadline. */
module SendTime {
  import opened DispatchLog
  import opened Civil

  /** A time zone: the offset east of UTC in force at an instant. */
  type Zone = Instant -> int

  const HOUR: int := 3_600_000_000_000
  const DAY: int := 86_400_000_000_000

  // The wall clock of a zone, in nanoseconds since local midnight of day 0.
  function Wall(z: Zone, t: Instant): int {
    t + z(t)
  }

  /** How time.Date picks the instant of a wall clock reading: guess with the offset found at the reading
      taken as UTC, then look the offset up once more at the guess. */
  function FromWall(z: Zone, w: int): Instant {
    w - z(w - z(w))
  }

  function GoDate(z: Zone, y: int, m: int, d: int, clock: int): Instant
    requires 1 <= m <= 12
  {
    FromWall(z, DayNumber(y, m, d) * DAY + clock)
  }

  // t.In(loc).AddDate(0, 0, days)
  function AddDays(z: Zone, t: Instant, days: int): Instant {
    var w := Wall(z, t);
    var d := DateOf(w / DAY);
    GoDate(z, d.year, d.month, d.day + days, w % DAY)
  }

  // The day number of the local date.
  function LocalDay(z: Zone, t: Instant): int {
    Wall(z, t) / DAY
  }

  function NineOn(z: Zone, d: Date): Instant
    requires 1 <= d.month <= 12
  {
    GoDate(z, d.year, d.month, d.day, 9 * HOUR)
  }

  function ScheduledFor(deadline: Instant, leadDays: int, z: Zone): Instant {
    NineOn(z, DateOf(LocalDay(z, AddDays(z, deadline, -leadDays))))
  }

  ghost predicate ConstantOffset(z: Zone, o: int) {
    forall t :: z(t) == o
  }

  lemma DaySplit(w: int, days: int)
    ensures (w / DAY + days) * DAY + w % DAY == w + days * DAY
    ensures (w + days * DAY) / DAY == w / DAY + days
  {
    assert w == DAY * (w / DAY) + w % DAY;
  }

  lemma GoDateOf(z: Zone, n: int, days: int, clock: int)
    ensures var d := DateOf(n); GoDate(z, d.year, d.month, d.day + days, clock) == FromWall(z, (n + days) * DAY + clock)
  {
    var d := DateOf(n);
    DateOfIs(n);
    assert DayNumber(d.year, d.month, d.day + days) == n + days;
  }

  /** Adding days moves the wall clock by whole days, across month and year ends alike. */
  lemma AddDaysMovesWall(z: Zone, t: Instant, days: int)
    ensures AddDays(z, t, days) == FromWall(z, Wall(z, t) + days * DAY)
  {
    var w := Wall(z, t);
    GoDateOf(z, w / DAY, days, w % DAY);
    DaySplit(w, days);
  }

  /** What the wall clock shows after going back the lead days; it differs from plain subtraction only
      when the clock skips that reading. */
  function BackWall(z: Zone, deadline: Instant, leadDays: int): int {
    Wall(z, FromWall(z, Wall(z, deadline) + -leadDays * DAY))
  }

  lemma BackDay(z: Zone, deadline: Instant, leadDays: int)
    ensures LocalDay(z, AddDays(z, deadline, -leadDays)) == BackWall(z, deadline, leadDays) / DAY
  {
    AddDaysMovesWall(z, deadline, -leadDays);
  }

  lemma NineOnDay(z: Zone, n: int)
    ensures NineOn(z, DateOf(n)) == FromWall(z, n * DAY + 9 * HOUR)
  {
    GoDateOf(z, n, 0, 9 * HOUR);
    assert n + 0 == n;
  }

  // 09:00 on the local date the reminder is sent on.
  function Nine(z: Zone, deadline: Instant, leadDays: int): int {
    BackWall(z, deadline, leadDays) / DAY * DAY + 9 * HOUR
  }

  /** The reminder goes out at 09:00 on the local date found by going back leadDays calendar days. */
  lemma SendsAtNine(z: Zone, deadline: Instant, leadDays: int)
    ensures ScheduledFor(deadline, leadDays, z) == FromWall(z, Nine(z, deadline, leadDays))
  {
    BackDay(z, deadline, leadDays);
    NineOnDay(z, BackWall(z, deadline, leadDays) / DAY);
  }

  /** How far the clock is put forward past a skipped reading when going back; zero if it exists. */
  function Jump(z: Zone, deadline: Instant, leadDays: int): int {
    BackWall(z, deadline, leadDays) - (Wall(z, deadline) + -leadDays * DAY)
  }

  // How far the offset at the send time lies behind the offset at the deadline.
  function Drift(z: Zone, deadline: Instant, leadDays: int): int {
    var nine := Nine(z, deadline, leadDays);
    z(deadline) - z(nine - z(nine))
  }

  lemma NineDistance(w: int, leadDays: int)
    ensures w - ((w + -leadDays * DAY) / DAY * DAY + 9 * HOUR) == leadDays * DAY + w % DAY - 9 * HOUR
  {
    DaySplit(w, -leadDays);
  }

  /** The exact distance between a reminder and its deadline, and the exact condition for it to come first;
      it is calendar days and the local time of day unless going back meets a skipped reading. */
  lemma SendDistance(z: Zone, deadline: Instant, leadDays: int)
    ensures deadline - ScheduledFor(deadline, leadDays, z)
      == Wall(z, deadline) - Nine(z, deadline, leadDays) - Drift(z, deadline, leadDays)
    ensures ScheduledFor(deadline, leadDays, z) < deadline
      <==> Drift(z, deadline, leadDays) < Wall(z, deadline) - Nine(z, deadline, leadDays)
    ensures Jump(z, deadline, leadDays) == 0 ==>
      Wall(z, deadline) - Nine(z, deadline, leadDays) == leadDays * DAY + Wall(z, deadline) % DAY - 9 * HOUR
  {
    SendsAtNine(z, deadline, leadDays);
    NineDistance(Wall(z, deadline), leadDays);
  }

  lemma NineAtMost(w: int, back: int, leadDays: int, jump: int)
    requires back == w + -leadDays * DAY + jump && leadDays >= 1
    ensures w - (back / DAY * DAY + 9 * HOUR) >= 15 * HOUR - jump
  {}

  /** A lead of a day or more is sent before the deadline if the jump and the drift together stay below
      15 hours. */
  lemma SentBeforeDeadline(z: Zone, deadline: Instant, leadDays: int)
    requires leadDays >= 1 && Jump(z, deadline, leadDays) + Drift(z, deadline, leadDays) < 15 * HOUR
    ensures ScheduledFor(deadline, leadDays, z) < deadline
  {
    SendDistance(z, deadline, leadDays);
    NineAtMost(Wall(z, deadline), BackWall(z, deadline, leadDays), leadDays, Jump(z, deadline, leadDays));
  }

  /** Offsets lie within a day of UTC. */
  ghost predicate OffsetsOk(z: Zone) {
    forall t :: -DAY < z(t) < DAY
  }

  // The instants whose offsets matter for one reminder.
  predicate Near(deadline: Instant, leadDays: int, t: Instant) {
    deadline - (leadDays + 6) * DAY <= t <= deadline + 6 * DAY
  }

  lemma JumpIsGain(z: Zone, deadline: Instant, leadDays: int, w: int)
    requires OffsetsOk(z) && leadDays >= 1 && w == Wall(z, deadline) + -leadDays * DAY
    ensures Jump(z, deadline, leadDays) == z(FromWall(z, w)) - z(w - z(w))
    ensures Near(deadline, leadDays, FromWall(z, w)) && Near(deadline, leadDays, w - z(w))
  {}

  lemma NineNear(z: Zone, deadline: Instant, leadDays: int, nine: int)
    requires OffsetsOk(z) && leadDays >= 1 && nine == Nine(z, deadline, leadDays)
    ensures Near(deadline, leadDays, nine - z(nine))
  {}

  /** Whatever readings are skipped, this holds wherever offsets differ by less than seven and a half hours
      around the reminder and its deadline. */
  lemma SmallChanges(z: Zone, deadline: Instant, leadDays: int)
    requires OffsetsOk(z) && leadDays >= 1
    requires forall a, b | Near(deadline, leadDays, a) && Near(deadline, leadDays, b) :: 2 * (z(a) - z(b)) < 15 * HOUR
    ensures ScheduledFor(deadline, leadDays, z) < deadline
  {
    var w, nine := Wall(z, deadline) + -leadDays * DAY, Nine(z, deadline, leadDays);
    JumpIsGain(z, deadline, leadDays, w);
    NineNear(z, deadline, leadDays, nine);
    assert Near(deadline, leadDays, deadline);
    SentBeforeDeadline(z, deadline, leadDays);
  }

  lemma NineFar(w: int, back: int, leadDays: int, jump: int)
    requires back == w + -leadDays * DAY + jump && leadDays >= 5 && jump < 2 * DAY
    ensures w - (back / DAY * DAY + 9 * HOUR) > 2 * DAY
  {}

  /** In every zone whatever, a lead of five days or more is sent before its deadline. */
  lemma LongLeads(z: Zone, deadline: Instant, leadDays: int)
    requires OffsetsOk(z) && leadDays >= 5
    ensures ScheduledFor(deadline, leadDays, z) < deadline
  {
    var w := Wall(z, deadline) + -leadDays * DAY;
    JumpIsGain(z, deadline, leadDays, w);
    NineFar(Wall(z, deadline), BackWall(z, deadline, leadDays), leadDays, Jump(z, deadline, leadDays));
    SendDistance(z, deadline, leadDays);
  }

  lemma ConstantDistance(z: Zone, o: int, deadline: Instant, leadDays: int)
    requires ConstantOffset(z, o)
    ensures deadline - ScheduledFor(deadline, leadDays, z) == leadDays * DAY + (deadline + o) % DAY - 9 * HOUR
  {
    SendDistance(z, deadline, leadDays);
  }

  /** With a constant offset nothing is skipped: consecutive leads are exactly 24 hours apart, */
  lemma ConstantOffsetSpacing(z: Zone, o: int, deadline: Instant, leadDays: int)
    requires ConstantOffset(z, o)
    ensures ScheduledFor(deadline, leadDays, z) - ScheduledFor(deadline, leadDays + 1, z) == DAY
  {
    ConstantDistance(z, o, deadline, leadDays);
    ConstantDistance(z, o, deadline, leadDays + 1);
  }

  /** a lead of a day or more comes strictly before the deadline, and a lead of zero comes after it
      exactly when the deadline lies before 09:00 local time. */
  lemma ConstantOffsetOrder(z: Zone, o: int, deadline: Instant, leadDays: int)
    requires ConstantOffset(z, o)
    ensures leadDays >= 1 ==> ScheduledFor(deadline, leadDays, z) < deadline
    ensures leadDays == 0 ==> (deadline < ScheduledFor(deadline, leadDays, z) <==> (deadline + o) % DAY < 9 * HOUR)
  {
    ConstantDistance(z, o, deadline, leadDays);
  }
}
