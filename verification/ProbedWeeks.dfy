/** Which weeks are sure of a digest row: the exact condition for every zone, and what it means for weeks of one
    offset, for hours that run across Monday midnight UTC, and for hours that the clock skips. */
module ProbedWeeks {
  import opened DispatchLog
  import opened SendTime
  import opened Weeks
  import opened Reminders
  import opened Digest

  /** From this instant on the chosen hour lasts for a whole gap, inside the UTC week. */
  ghost predicate Covered(s: DigestSettings, monday: Instant, gap: int, from: Instant) {
    && monday <= from && from + gap <= monday + WEEK
    && forall t | from <= t < from + gap :: Chosen(s, t)
  }

  /** The probes go on from before the week to its end. */
  predicate Through(times: seq<Instant>, monday: Instant) {
    times != [] && times[0] <= monday && monday + WEEK <= times[|times| - 1]
  }

  /** User u keeps these settings; the others may do as they like. */
  ghost predicate Keeps(users: seq<map<Id, DigestSettings>>, u: Id, s: DigestSettings) {
    forall settings <- users :: u in settings && settings[u] == s
  }

  ghost predicate ProbedThrough(users: seq<map<Id, DigestSettings>>, times: seq<Instant>,
                                tables: seq<Table<DigestKey>>, u: Id, s: DigestSettings, monday: Instant, gap: int)
  {
    Probes(users, times, tables, gap) && Keeps(users, u, s) && Through(times, monday)
  }

  /** All probings at most gap apart that go on through the week leave user u, with these settings, a row for it. */
  ghost predicate SureOfRow(u: Id, s: DigestSettings, monday: Instant, gap: int) {
    forall users, times, tables: seq<Table<DigestKey>> | ProbedThrough(users, times, tables, u, s, monday, gap) ::
      DigestKey(u, monday) in tables[|times|].rows
  }

  // ---------------------------------------------------------------- a covered week

  lemma {:induction false} RowsStay(users: seq<map<Id, DigestSettings>>, times: seq<Instant>,
                                    tables: seq<Table<DigestKey>>, gap: int, k: DigestKey, i: nat, j: nat)
    requires Probes(users, times, tables, gap) && i <= j < |tables| && k in tables[i].rows
    ensures k in tables[j].rows
  {
    if i < j {
      RowsStay(users, times, tables, gap, k, i, j - 1);
      assert ProbeAndDispatch(users[j - 1], times[j - 1], tables[j - 1], tables[j - 1 + 1]);
    }
  }

  // The first probe at or after an instant comes less than a gap after it.
  lemma {:induction false} FirstProbe(times: seq<Instant>, gap: int, from: Instant, n: nat) returns (i: nat)
    requires n < |times| && times[0] <= from <= times[n] && gap > 0 && Spaced(times, gap)
    ensures i < |times| && from <= times[i] < from + gap
  {
    if n == 0 || times[n - 1] < from {
      i := n;
    } else {
      i := FirstProbe(times, gap, from, n - 1);
    }
  }

  lemma CoveredWeek(users: seq<map<Id, DigestSettings>>, times: seq<Instant>, tables: seq<Table<DigestKey>>, u: Id,
                    s: DigestSettings, monday: Instant, gap: int, from: Instant)
    requires ProbedThrough(users, times, tables, u, s, monday, gap) && gap > 0
    requires monday % WEEK == 0 && Covered(s, monday, gap, from)
    ensures DigestKey(u, monday) in tables[|times|].rows
  {
    var i := FirstProbe(times, gap, from, |times| - 1);
    MondayOfSlot(monday, times[i]);
    assert ProbeAndDispatch(users[i], times[i], tables[i], tables[i + 1]);
    assert users[i] in users;
    ProbedIs(users[i], times[i], DigestKey(u, monday));
    RowsStay(users, times, tables, gap, DigestKey(u, monday), i + 1, |times|);
  }

  lemma ProbedIs(settings: map<Id, DigestSettings>, now: Instant, k: DigestKey)
    ensures k in Probed(settings, now) <==>
      k.user in settings && Chosen(settings[k.user], now) && k == DigestKey(k.user, MondayOfWeek(now))
  {}

  // ---------------------------------------------------------------- a week that is not covered

  /** An instant at which a probe does not insert the row of the week. */
  predicate Avoids(s: DigestSettings, monday: Instant, t: Instant) {
    t < monday || monday + WEEK <= t || !Chosen(s, t)
  }

  lemma {:induction false} NeverInserted(users: seq<map<Id, DigestSettings>>, times: seq<Instant>,
                                         tables: seq<Table<DigestKey>>, u: Id, s: DigestSettings, monday: Instant,
                                         gap: int, j: nat)
    requires Probes(users, times, tables, gap) && Keeps(users, u, s) && j < |tables|
    requires DigestKey(u, monday) !in tables[0].rows && forall t <- times :: Avoids(s, monday, t)
    ensures DigestKey(u, monday) !in tables[j].rows
  {
    if j > 0 {
      var settings, t, k := users[j - 1], times[j - 1], DigestKey(u, monday);
      NeverInserted(users, times, tables, u, s, monday, gap, j - 1);
      assert ProbeAndDispatch(settings, t, tables[j - 1], tables[j - 1 + 1]);
      var mid: Table<DigestKey> :| ProbeStep(settings, t, tables[j - 1], mid) && tables[j].rows.Keys == mid.rows.Keys;
      assert t in times && settings in users;
      if k in mid.rows { RowsOnlyInTheirWeek(settings, t, tables[j - 1], mid, k); }
    }
  }

  // The next probe around the chosen hour, or at the end of the week.
  lemma StepAround(s: DigestSettings, monday: Instant, gap: int, t: Instant) returns (next: Instant)
    requires monday - 1 <= t < monday + WEEK && gap > 0 && !Covered(s, monday, gap, t + 1)
    ensures t < next <= t + gap && next <= monday + WEEK && Avoids(s, monday, next)
  {
    if monday + WEEK <= t + gap {
      next := monday + WEEK;
    } else {
      next :| t + 1 <= next < t + 1 + gap && !Chosen(s, next);
    }
  }

  lemma {:induction false} Around(s: DigestSettings, monday: Instant, gap: int, t: Instant)
    returns (times: seq<Instant>)
    requires monday - 1 <= t <= monday + WEEK && Avoids(s, monday, t)
    requires gap > 0 && forall from :: !Covered(s, monday, gap, from)
    ensures times != [] && times[0] == t && times[|times| - 1] == monday + WEEK
    ensures Spaced(times, gap) && forall r <- times :: Avoids(s, monday, r)
    decreases monday + WEEK - t
  {
    if t == monday + WEEK {
      times := [t];
    } else {
      var next := StepAround(s, monday, gap, t);
      var rest := Around(s, monday, gap, next);
      times := [t] + rest;
    }
  }

  lemma {:induction false} FillAll(t: Table<DigestKey>, want: map<DigestKey, Instant>) returns (t': Table<DigestKey>)
    ensures Filled(t, t', want)
    decreases |want|
  {
    if want == map[] {
      t' := t;
    } else {
      var k :| k in want;
      var mid := FillAll(t, want - {k});
      t' := Insert(mid, k, want[k]);
      OneMore(t, mid, want, k);
    }
  }

  lemma OneMore(t: Table<DigestKey>, mid: Table<DigestKey>, want: map<DigestKey, Instant>, k: DigestKey)
    requires k in want && Filled(t, mid, want - {k})
    ensures Filled(t, Insert(mid, k, want[k]), want)
  {
    InsertAfter(t, mid, want - {k}, k, want[k]);
    assert (want - {k})[k := want[k]] == want;
  }

  lemma {:induction false} TablesFor(settings: map<Id, DigestSettings>, times: seq<Instant>, gap: int)
    returns (tables: seq<Table<DigestKey>>)
    requires Spaced(times, gap)
    ensures Probes(seq(|times|, _ => settings), times, tables, gap) && tables[0] == Table(map[], 0)
  {
    if times == [] {
      tables := [Table(map[], 0)];
    } else {
      var n := |times| - 1;
      var before := TablesFor(settings, times[..n], gap);
      var last := FillAll(before[n], Probed(settings, times[n]));
      tables := before + [last];
      forall i | 0 <= i < |times| ensures ProbeAndDispatch(settings, times[i], tables[i], tables[i + 1]) {
        if i < n {
          assert times[..n][i] == times[i];
          assert ProbeAndDispatch(seq(n, _ => settings)[i], times[..n][i], before[i], before[i + 1]);
        } else {
          assert ProbeStep(settings, times[n], before[n], last);
        }
      }
    }
  }

  lemma MissedWeek(u: Id, s: DigestSettings, monday: Instant, gap: int)
    returns (users: seq<map<Id, DigestSettings>>, times: seq<Instant>, tables: seq<Table<DigestKey>>)
    requires gap > 0 && forall from :: !Covered(s, monday, gap, from)
    ensures ProbedThrough(users, times, tables, u, s, monday, gap)
    ensures DigestKey(u, monday) !in tables[|times|].rows
  {
    times := Around(s, monday, gap, monday - 1);
    users := seq(|times|, _ => map[u := s]);
    tables := TablesFor(map[u := s], times, gap);
    NeverInserted(users, times, tables, u, s, monday, gap, |times|);
  }

  /** For every zone, every setting and every week: a user who keeps the setting is sure of a row exactly if the
      chosen hour lasts, somewhere inside the week, for as long as the probes may lie apart. */
  lemma ProbedExactly(u: Id, s: DigestSettings, monday: Instant, gap: int)
    requires monday % WEEK == 0 && gap > 0
    ensures SureOfRow(u, s, monday, gap) <==> exists from :: Covered(s, monday, gap, from)
  {
    if from :| Covered(s, monday, gap, from) {
      forall users, times, tables: seq<Table<DigestKey>> | ProbedThrough(users, times, tables, u, s, monday, gap)
        ensures DigestKey(u, monday) in tables[|times|].rows
      {
        CoveredWeek(users, times, tables, u, s, monday, gap, from);
      }
    } else {
      var users, times, tables := MissedWeek(u, s, monday, gap);
    }
  }

  /** A user who keeps the digest switched off gets no row from any probing. */
  lemma SwitchedOff(users: seq<map<Id, DigestSettings>>, times: seq<Instant>, tables: seq<Table<DigestKey>>, u: Id,
                    s: DigestSettings, monday: Instant, gap: int)
    requires Probes(users, times, tables, gap) && Keeps(users, u, s) && !s.enabled
    requires DigestKey(u, monday) !in tables[0].rows
    ensures DigestKey(u, monday) !in tables[|times|].rows
  {
    NeverInserted(users, times, tables, u, s, monday, gap, |times|);
  }

  // ---------------------------------------------------------------- weeks of one offset

  /** The longest stretch of the chosen hour inside a week: the hour, or the longer part of a broken one. */
  function Longest(day: int, hour: int, o: int): int {
    if SlotUnbroken(day, hour, o) then HOUR
    else if 2 * Overlap(day, hour, o) >= HOUR then Overlap(day, hour, o)
    else HOUR - Overlap(day, hour, o)
  }

  lemma LongestStart(s: DigestSettings, o: int, monday: Instant) returns (from: Instant)
    requires ConstantIn(s.zone, o, monday) && monday % WEEK == 0
    requires s.enabled && 0 <= s.day < 7 && 0 <= s.hour < 24
    ensures Covered(s, monday, Longest(s.day, s.hour, o), from)
  {
    var u := UtcSlot(s.day, s.hour, o);
    from := if !SlotUnbroken(s.day, s.hour, o) && 2 * Overlap(s.day, s.hour, o) >= HOUR then monday else monday + u;
    forall t | from <= t < from + Longest(s.day, s.hour, o) ensures Chosen(s, t) {
      SlotInWeek(s.zone, o, s.day, s.hour, monday, t);
    }
  }

  lemma NoLonger(s: DigestSettings, o: int, monday: Instant, gap: int, from: Instant)
    requires ConstantIn(s.zone, o, monday) && monday % WEEK == 0
    requires 0 <= s.day < 7 && 0 <= s.hour < 24 && gap > Longest(s.day, s.hour, o)
    ensures !Covered(s, monday, gap, from)
  {
    var longest := Longest(s.day, s.hour, o);
    if Covered(s, monday, gap, from) {
      assert Chosen(s, from) && Chosen(s, from + longest);
      SlotInWeek(s.zone, o, s.day, s.hour, monday, from);
      SlotInWeek(s.zone, o, s.day, s.hour, monday, from + longest);
    }
  }

  /** In a week of one offset a user is sure of a row exactly if the digest is switched on and the probes are no
      further apart than that stretch. */
  lemma ConstantWeek(u: Id, s: DigestSettings, o: int, monday: Instant, gap: int)
    requires 0 <= s.day < 7 && 0 <= s.hour < 24
    requires ConstantIn(s.zone, o, monday) && monday % WEEK == 0 && gap > 0
    ensures SureOfRow(u, s, monday, gap) <==> s.enabled && gap <= Longest(s.day, s.hour, o)
  {
    ProbedExactly(u, s, monday, gap);
    if !s.enabled {
      forall from ensures !Covered(s, monday, gap, from) {
        assert Covered(s, monday, gap, from) ==> Chosen(s, from);
      }
    } else if gap <= Longest(s.day, s.hour, o) {
      var from := LongestStart(s, o, monday);
      assert Covered(s, monday, gap, from);
    } else {
      forall from ensures !Covered(s, monday, gap, from) { NoLonger(s, o, monday, gap, from); }
    }
  }

  /** That is so for every setting if they are half an hour apart or less, as the server's ticks are, and if they
      are an hour apart exactly for the unbroken slots. */
  lemma LongestBounds(day: int, hour: int, o: int)
    ensures TICK <= HOUR / 2 <= Longest(day, hour, o) <= HOUR
    ensures HOUR <= Longest(day, hour, o) <==> SlotUnbroken(day, hour, o)
  {
    if !SlotUnbroken(day, hour, o) { OverlapSize(day, hour, o); }
  }

  // 60 seconds
  const TICK: int := 60_000_000_000

  /** So with accepted settings and such probes no user who wants the digest misses a week of one offset. */
  lemma AcceptedSettings(zones: map<string, Zone>, u: Id, s: Settings, o: int, monday: Instant, gap: int)
    requires SettingsValid(s, zones) && s.digestEnabled && 0 < gap <= HOUR / 2
    requires ConstantIn(zones[s.timezone], o, monday) && monday % WEEK == 0
    ensures SureOfRow(u, DigestOf(zones, s), monday, gap)
  {
    LongestBounds(s.digestDay, s.digestHour, o);
    ConstantWeek(u, DigestOf(zones, s), o, monday, gap);
  }

  lemma SlotIs(day: int, hour: int, o: int, q: int, r: int)
    requires LocalSlot(day, hour) - o == q * WEEK + r && 0 <= r < WEEK
    ensures UtcSlot(day, hour, o) == r
  {
    ModIs(LocalSlot(day, hour) - o, q, r);
  }

  /** Five and a half hours east of UTC a digest at five on Monday morning has a broken slot: probes an hour apart
      may miss any week of that offset, probes half an hour apart none. */
  lemma HalfHourZone(u: Id, s: DigestSettings, monday: Instant)
    requires s.enabled && s.day == 1 && s.hour == 5
    requires ConstantIn(s.zone, 5 * HOUR + HOUR / 2, monday) && monday % WEEK == 0
    ensures !SureOfRow(u, s, monday, HOUR) && SureOfRow(u, s, monday, HOUR / 2)
  {
    var o := 5 * HOUR + HOUR / 2;
    SlotIs(1, 5, o, -1, WEEK - HOUR / 2);
    ConstantWeek(u, s, o, monday, HOUR);
    ConstantWeek(u, s, o, monday, HOUR / 2);
  }

  // ---------------------------------------------------------------- an hour that the clock skips

  /** The week in which Berlin's clocks go forward: Sunday from two to three is left out. */
  ghost predicate ClocksForward(z: Zone, monday: Instant) {
    forall t | monday <= t < monday + WEEK :: z(t) == if t < monday + 6 * DAY + HOUR then HOUR else 2 * HOUR
  }

  lemma NoMatch(z: Zone, monday: Instant, t: Instant)
    requires ClocksForward(z, monday) && monday % WEEK == 0 && monday <= t < monday + WEEK
    ensures !Matches(z, 0, 2, t)
  {
    var q, x := monday / WEEK, t - monday;
    MatchesModulo(z, z(t), 0, 2, t);
    SlotIs(0, 2, z(t), 0, 6 * DAY + 2 * HOUR - z(t));
    var u := UtcSlot(0, 2, z(t));
    assert t - u == q * WEEK + (x - u);
    if x >= u {
      ModIs(t - u, q, x - u);
    } else {
      ModIs(t - u, q - 1, x - u + WEEK);
    }
  }

  /** A user who chose Sunday at two gets no row for that week however often is probed, although the slot is
      unbroken under either offset. */
  lemma SkippedHour(users: seq<map<Id, DigestSettings>>, times: seq<Instant>, tables: seq<Table<DigestKey>>,
                    u: Id, s: DigestSettings, monday: Instant, gap: int)
    requires s.day == 0 && s.hour == 2 && ClocksForward(s.zone, monday) && monday % WEEK == 0
    requires Probes(users, times, tables, gap) && Keeps(users, u, s) && DigestKey(u, monday) !in tables[0].rows
    ensures DigestKey(u, monday) !in tables[|times|].rows
    ensures SlotUnbroken(0, 2, HOUR) && SlotUnbroken(0, 2, 2 * HOUR)
  {
    SlotIs(0, 2, HOUR, 0, 6 * DAY + HOUR);
    SlotIs(0, 2, 2 * HOUR, 0, 6 * DAY);
    forall t <- times ensures Avoids(s, monday, t) {
      if monday <= t < monday + WEEK { NoMatch(s.zone, monday, t); }
    }
    NeverInserted(users, times, tables, u, s, monday, gap, |times|);
  }
}
