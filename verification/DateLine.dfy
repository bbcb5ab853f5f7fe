/** Zones that cross the date line by leaving out a whole local day: is a reminder still sent in time? */
module DateLine {
  import opened DispatchLog
  import opened SendTime

  /** Around a reminder the zone has one offset until the local midnight at, and a day more from then on. */
  ghost predicate SkipsDay(z: Zone, o: int, at: Instant, deadline: Instant, leadDays: int) {
    && -DAY < o < DAY && (at + o) % DAY == 0
    && forall t | Near(deadline, leadDays, t) :: z(t) == if t < at then o else o + DAY
  }

  function Offset(o: int, at: Instant, t: Instant): int {
    if t < at then o else o + DAY
  }

  // FromWall with such offsets.
  function Resolved(o: int, at: Instant, w: int): Instant {
    w - Offset(o, at, w - Offset(o, at, w))
  }

  // The send time with such offsets.
  function BackOf(o: int, at: Instant, deadline: Instant, leadDays: int): int {
    var f := Resolved(o, at, deadline + Offset(o, at, deadline) + -leadDays * DAY);
    f + Offset(o, at, f)
  }

  function SendOf(o: int, at: Instant, deadline: Instant, leadDays: int): Instant {
    Resolved(o, at, BackOf(o, at, deadline, leadDays) / DAY * DAY + 9 * HOUR)
  }

  lemma ResolvedNear(z: Zone, o: int, at: Instant, deadline: Instant, leadDays: int, w: int)
    requires SkipsDay(z, o, at, deadline, leadDays)
    requires deadline - (leadDays + 4) * DAY <= w <= deadline + 4 * DAY
    ensures FromWall(z, w) == Resolved(o, at, w)
    ensures w - 2 * DAY < FromWall(z, w) < w + 2 * DAY
  {
    assert Near(deadline, leadDays, w);
    assert Near(deadline, leadDays, w - z(w));
  }

  lemma BackIs(z: Zone, o: int, at: Instant, deadline: Instant, leadDays: int)
    requires SkipsDay(z, o, at, deadline, leadDays) && leadDays >= 1
    ensures BackWall(z, deadline, leadDays) == BackOf(o, at, deadline, leadDays)
    ensures deadline - (leadDays + 3) * DAY <= BackWall(z, deadline, leadDays) <= deadline + 3 * DAY
  {
    var w := Wall(z, deadline) + -leadDays * DAY;
    assert Near(deadline, leadDays, deadline);
    ResolvedNear(z, o, at, deadline, leadDays, w);
    assert Near(deadline, leadDays, FromWall(z, w));
  }

  lemma SendIs(z: Zone, o: int, at: Instant, deadline: Instant, leadDays: int)
    requires SkipsDay(z, o, at, deadline, leadDays) && leadDays >= 1
    ensures ScheduledFor(deadline, leadDays, z) == SendOf(o, at, deadline, leadDays)
  {
    BackIs(z, o, at, deadline, leadDays);
    SendsAtNine(z, deadline, leadDays);
    NineResolved(z, o, at, deadline, leadDays, BackWall(z, deadline, leadDays));
  }

  lemma NineResolved(z: Zone, o: int, at: Instant, deadline: Instant, leadDays: int, b: int)
    requires SkipsDay(z, o, at, deadline, leadDays)
    requires deadline - (leadDays + 3) * DAY <= b <= deadline + 3 * DAY
    ensures FromWall(z, b / DAY * DAY + 9 * HOUR) == Resolved(o, at, b / DAY * DAY + 9 * HOUR)
  {
    ResolvedNear(z, o, at, deadline, leadDays, b / DAY * DAY + 9 * HOUR);
  }

  // Before the change nothing unusual happens.
  lemma EarlyDeadline(o: int, at: Instant, deadline: Instant, leadDays: int)
    requires -DAY < o < -9 * HOUR && leadDays >= 1 && deadline < at
    ensures SendOf(o, at, deadline, leadDays) < deadline
  {}

  // The wall clock found by going back from a deadline after the change.
  lemma GoingBack(o: int, at: Instant, deadline: Instant, leadDays: int)
    requires -DAY < o < -9 * HOUR && leadDays >= 1 && deadline >= at
    ensures var w := deadline + o + DAY + -leadDays * DAY;
      var b := BackOf(o, at, deadline, leadDays);
      if w >= at && w - o - DAY < at then b == w + DAY && w + DAY >= at + o + DAY
      else if w >= at then b == w && w - o - DAY >= at
      else b == w || b == w - DAY
  {}

  lemma NineIn(at: Instant, o: int, b: int, nine: int)
    requires (at + o) % DAY == 0 && nine == b / DAY * DAY + 9 * HOUR
    ensures b - 15 * HOUR < nine <= b + 9 * HOUR
    ensures b >= at + o + DAY ==> nine >= at + o + DAY + 9 * HOUR
    ensures b < at + o + 2 * DAY ==> nine <= at + o + DAY + 9 * HOUR
  {}

  lemma LateDeadline(o: int, at: Instant, deadline: Instant, leadDays: int)
    requires -DAY < o < -9 * HOUR && leadDays >= 1 && deadline >= at && (at + o) % DAY == 0
    ensures SendOf(o, at, deadline, leadDays) < deadline
  {
    var b := BackOf(o, at, deadline, leadDays);
    var nine := b / DAY * DAY + 9 * HOUR;
    GoingBack(o, at, deadline, leadDays);
    NineIn(at, o, b, nine);
  }

  /** A zone that leaves out a day sends every reminder of a day or more before its deadline if it came from
      more than nine hours west of UTC; for leads of five days or more its other changes do not matter. */
  lemma SkippedDaySafe(z: Zone, o: int, at: Instant, deadline: Instant, leadDays: int)
    requires OffsetsOk(z) && leadDays >= 1 && o < -9 * HOUR
    requires leadDays < 5 ==> SkipsDay(z, o, at, deadline, leadDays)
    ensures ScheduledFor(deadline, leadDays, z) < deadline
  {
    if leadDays >= 5 {
      LongLeads(z, deadline, leadDays);
    } else {
      SendIs(z, o, at, deadline, leadDays);
      if deadline < at {
        EarlyDeadline(o, at, deadline, leadDays);
      } else {
        LateDeadline(o, at, deadline, leadDays);
      }
    }
  }

  // The first deadline whose day-earlier reading is skipped and resolved to the same day.
  function FirstLate(o: int, at: Instant): Instant {
    if o < 0 then at - o else at
  }

  lemma LateSend(o: int, at: Instant)
    requires -9 * HOUR <= o < DAY && (at + o) % DAY == 0
    ensures SendOf(o, at, FirstLate(o, at), 1) == at + 9 * HOUR
  {
    var deadline := FirstLate(o, at);
    var b := BackOf(o, at, deadline, 1);
    assert b == deadline + o + DAY;
    NineIn(at, o, b, b / DAY * DAY + 9 * HOUR);
  }

  /** From any other offset some one-day reminder is not: its deadline has come when it is sent. */
  lemma SkippedDayLate(z: Zone, o: int, at: Instant)
    requires -9 * HOUR <= o && SkipsDay(z, o, at, FirstLate(o, at), 1)
    ensures FirstLate(o, at) <= ScheduledFor(FirstLate(o, at), 1, z)
  {
    SendIs(z, o, at, FirstLate(o, at), 1);
    LateSend(o, at);
  }

  /** No other change of offset within three weeks of the skipped day. */
  ghost predicate SkipsOnce(z: Zone, o: int, at: Instant) {
    && -DAY < o < DAY && (at + o) % DAY == 0
    && forall t | at - 21 * DAY <= t <= at + 21 * DAY :: z(t) == if t < at then o else o + DAY
  }

  ghost predicate AllInTime(z: Zone, at: Instant) {
    forall deadline, leadDays | at - 10 * DAY <= deadline <= at + 10 * DAY && leadDays >= 1 ::
      ScheduledFor(deadline, leadDays, z) < deadline
  }

  /** So a skipped day is harmless, to all leads and to all deadlines within ten days of it, exactly if it
      starts from more than nine hours west of UTC. */
  lemma SkippedDay(z: Zone, o: int, at: Instant)
    requires OffsetsOk(z) && SkipsOnce(z, o, at)
    ensures AllInTime(z, at) <==> o < -9 * HOUR
  {
    if o < -9 * HOUR {
      forall deadline, leadDays | at - 10 * DAY <= deadline <= at + 10 * DAY && leadDays >= 1
        ensures ScheduledFor(deadline, leadDays, z) < deadline
      {
        SkippedDaySafe(z, o, at, deadline, leadDays);
      }
    } else {
      SkippedDayLate(z, o, at);
    }
  }
}
