/** The weekly digest: the probe that schedules it, the items it lists, and its one row per week. */
module Digest {
  import opened DispatchLog
  import opened SendTime
  import opened Weeks
  import opened Reminders
  import opened Dispatcher
  import opened DispatchRuns
  import opened DispatchLoop
  import opened Drain

  // uq_digest_dispatch
  datatype DigestKey = DigestKey(user: Id, week: Instant)

  datatype DigestSettings = DigestSettings(zone: Zone, enabled: bool, day: int, hour: int, horizonWeeks: int)

  /** The digest part of a user's settings. */
  function DigestOf(zones: map<string, Zone>, s: Settings): DigestSettings {
    DigestSettings(LoadZone(zones, s.timezone), s.digestEnabled, s.digestDay, s.digestHour, s.digestHorizonWeeks)
  }

  /** Accepted settings give a digest in the user's own zone, on a day of the week, at an hour of the day. */
  lemma AcceptedDigest(zones: map<string, Zone>, s: Settings)
    requires SettingsValid(s, zones)
    ensures
      var d := DigestOf(zones, s);
      && d.zone == zones[s.timezone] && (d.enabled <==> s.digestEnabled)
      && d.day == s.digestDay && d.hour == s.digestHour && d.horizonWeeks == s.digestHorizonWeeks
      && 0 <= d.day <= 6 && 0 <= d.hour <= 23 && 1 <= d.horizonWeeks <= 52
  {}

  predicate Chosen(s: DigestSettings, now: Instant) {
    s.enabled && Matches(s.zone, s.day, s.hour, now)
  }

  /** The rows one probe wants: every user whose chosen hour it is, for the current UTC week. */
  ghost function Probed(settings: map<Id, DigestSettings>, now: Instant): map<DigestKey, Instant> {
    map k | k in ProbedKeys(settings, now) :: now
  }

  ghost function ProbedKeys(settings: map<Id, DigestSettings>, now: Instant): set<DigestKey> {
    set u <- settings | Chosen(settings[u], now) :: DigestKey(u, MondayOfWeek(now))
  }

  ghost predicate ProbeStep(settings: map<Id, DigestSettings>, now: Instant, t: Table<DigestKey>,
                            t': Table<DigestKey>)
  {
    Filled(t, t', Probed(settings, now))
  }

  ghost function ForUsers(users: seq<Id>, week: Instant, now: Instant): map<DigestKey, Instant> {
    map k | k in KeysOf(users, week) :: now
  }

  ghost function KeysOf(users: seq<Id>, week: Instant): set<DigestKey> {
    set u <- users :: DigestKey(u, week)
  }

  lemma ForUsersStep(users: seq<Id>, i: nat, week: Instant, now: Instant)
    requires i < |users|
    ensures ForUsers(users[..i + 1], week, now) == ForUsers(users[..i], week, now)[DigestKey(users[i], week) := now]
  {
    assert users[..i + 1] == users[..i] + [users[i]];
  }

  lemma ProbeRound(t: Table<DigestKey>, t': Table<DigestKey>, users: seq<Id>, i: nat, week: Instant, now: Instant)
    requires i < |users| && Filled(t, t', ForUsers(users[..i], week, now))
    ensures Filled(t, Insert(t', DigestKey(users[i], week), now), ForUsers(users[..i + 1], week, now))
  {
    var k := DigestKey(users[i], week);
    InsertAfter(t, t', ForUsers(users[..i], week, now), k, now);
    ForUsersStep(users, i, week, now);
  }

  // Leaving out users that already have their row changes nothing.
  lemma SkippedUsersHaveRows(t: Table<DigestKey>, t': Table<DigestKey>, settings: map<Id, DigestSettings>,
                             users: seq<Id>, week: Instant, now: Instant)
    requires week == MondayOfWeek(now) && Filled(t, t', ForUsers(users, week, now))
    requires forall u :: u in users <==> u in settings && Chosen(settings[u], now) && DigestKey(u, week) !in t.rows
    ensures Filled(t, t', Probed(settings, now))
  {
    var want, all := ForUsers(users, week, now), Probed(settings, now);
    forall k <- all ensures k in t.rows || (k in want && all[k] == want[k]) {}
    forall k <- want ensures k in all && k !in t.rows {}
    FilledSame(t, t', want, all);
  }

  lemma FilledSame(t: Table<DigestKey>, t': Table<DigestKey>, want: map<DigestKey, Instant>,
                   all: map<DigestKey, Instant>)
    requires Filled(t, t', want)
    requires forall k <- all :: k in t.rows || (k in want && all[k] == want[k])
    requires forall k <- want :: k in all
    ensures Filled(t, t', all)
  {}

  // ---------------------------------------------------------------- what it lists

  datatype Item = Item(conf: Id, kind: Kind, at: Instant)

  predicate Upcoming(c: Conference, kind: Kind, now: Instant, horizon: Instant) {
    !c.archived && DeadlineOf(c, kind).Some? && now < DeadlineOf(c, kind).value <= horizon
  }

  const KINDS := [Submission, Abstract, Notification, CameraReady]

  lemma AllKinds()
    ensures KINDS[..|KINDS|] == KINDS && forall kind: Kind :: kind in KINDS
  {
    forall kind: Kind ensures kind in KINDS {
      match kind
      case Submission => assert KINDS[0] == kind;
      case Abstract => assert KINDS[1] == kind;
      case Notification => assert KINDS[2] == kind;
      case CameraReady => assert KINDS[3] == kind;
    }
  }

  // The items of one conference, and of a list of conferences, in order.
  function KindItems(c: Id, conf: Conference, kinds: seq<Kind>, now: Instant, horizon: Instant): seq<Item> {
    if kinds == [] then []
    else
      var n := |kinds| - 1;
      KindItems(c, conf, kinds[..n], now, horizon)
      + if Upcoming(conf, kinds[n], now, horizon) then [Item(c, kinds[n], DeadlineOf(conf, kinds[n]).value)] else []
  }

  function Items(starred: seq<Id>, confs: map<Id, Conference>, now: Instant, horizon: Instant): seq<Item>
    requires forall c <- starred :: c in confs
  {
    if starred == [] then []
    else
      var n := |starred| - 1;
      Items(starred[..n], confs, now, horizon) + KindItems(starred[n], confs[starred[n]], KINDS, now, horizon)
  }

  lemma {:induction false} KindItemsAre(c: Id, conf: Conference, kinds: seq<Kind>, now: Instant, horizon: Instant,
                                        it: Item)
    ensures it in KindItems(c, conf, kinds, now, horizon) <==>
      && it.conf == c && it.kind in kinds && Upcoming(conf, it.kind, now, horizon)
      && it.at == DeadlineOf(conf, it.kind).value
  {
    if kinds != [] {
      var n := |kinds| - 1;
      KindItemsAre(c, conf, kinds[..n], now, horizon, it);
      assert kinds == kinds[..n] + [kinds[n]];
    }
  }

  /** The list holds exactly the set deadlines of unarchived starred conferences after now and up to the
      horizon. */
  lemma {:induction false} ItemsAre(starred: seq<Id>, confs: map<Id, Conference>, now: Instant, horizon: Instant,
                                    it: Item)
    requires forall c <- starred :: c in confs
    ensures it in Items(starred, confs, now, horizon) <==> it.conf in starred && Listed(confs, it, now, horizon)
  {
    if starred != [] {
      var n := |starred| - 1;
      ItemsAre(starred[..n], confs, now, horizon, it);
      AllKinds();
      KindItemsAre(starred[n], confs[starred[n]], KINDS, now, horizon, it);
      assert starred == starred[..n] + [starred[n]];
    }
  }

  /** So a digest is skipped exactly when none of them has a deadline before the horizon. */
  lemma SkippedWhenNothingUpcoming(starred: seq<Id>, confs: map<Id, Conference>, now: Instant, horizon: Instant)
    requires forall c <- starred :: c in confs
    ensures Items(starred, confs, now, horizon) == [] <==> forall c <- starred, kind ::
      !Upcoming(confs[c], kind, now, horizon)
  {
    var items := Items(starred, confs, now, horizon);
    if items != [] {
      ItemsAre(starred, confs, now, horizon, items[0]);
    }
    forall c <- starred, kind | Upcoming(confs[c], kind, now, horizon) ensures items != [] {
      ItemsAre(starred, confs, now, horizon, Item(c, kind, DeadlineOf(confs[c], kind).value));
    }
  }

  lemma {:induction false} ArchivedHasNone(c: Id, conf: Conference, kinds: seq<Kind>, now: Instant, horizon: Instant)
    requires conf.archived
    ensures KindItems(c, conf, kinds, now, horizon) == []
  {
    if kinds != [] { ArchivedHasNone(c, conf, kinds[..|kinds| - 1], now, horizon); }
  }

  /** With the horizon so many weeks on by the scheduler's wall clock, the list is exactly this. */
  lemma ItemsWithin(starred: seq<Id>, confs: map<Id, Conference>, z: Zone, now: Instant, horizonWeeks: int)
    requires forall c <- starred :: c in confs
    ensures forall it :: it in Items(starred, confs, now, AddDays(z, now, horizonWeeks * 7)) <==>
      && it.conf in starred && !confs[it.conf].archived
      && DeadlineOf(confs[it.conf], it.kind) == Some(it.at)
      && now < it.at <= FromWall(z, Wall(z, now) + horizonWeeks * 604_800_000_000_000)
  {
    AddDaysMovesWall(z, now, horizonWeeks * 7);
    forall it: Item
      ensures it in Items(starred, confs, now, AddDays(z, now, horizonWeeks * 7)) <==>
        it.conf in starred && Listed(confs, it, now, AddDays(z, now, horizonWeeks * 7))
    {
      ItemsAre(starred, confs, now, AddDays(z, now, horizonWeeks * 7), it);
    }
  }

  method BuildDigestItems(starred: seq<Id>, confs: map<Id, Conference>, z: Zone, now: Instant, horizonWeeks: int)
    returns (items: seq<Item>)
    requires forall c <- starred :: c in confs
    ensures items == Items(starred, confs, now, AddDays(z, now, horizonWeeks * 7))
  {
    var horizon := AddDays(z, now, horizonWeeks * 7);
    items := [];
    for i := 0 to |starred|
      invariant items == Items(starred[..i], confs, now, horizon)
    {
      var c := confs[starred[i]];
      assert starred[..i + 1][..i] == starred[..i];
      if c.archived {
        ArchivedHasNone(starred[i], c, KINDS, now, horizon);
        continue;
      }
      ghost var before := items;
      for j := 0 to |KINDS|
        invariant items == before + KindItems(starred[i], c, KINDS[..j], now, horizon)
      {
        var d := DeadlineOf(c, KINDS[j]);
        if d.Some? && now < d.value && d.value <= horizon {
          items := items + [Item(starred[i], KINDS[j], d.value)];
        }
        assert KINDS[..j + 1][..j] == KINDS[..j];
      }
      AllKinds();
    }
    assert starred[..|starred|] == starred;
  }

  ghost predicate Listed(confs: map<Id, Conference>, it: Item, now: Instant, horizon: Instant) {
    && it.conf in confs && Upcoming(confs[it.conf], it.kind, now, horizon)
    && it.at == DeadlineOf(confs[it.conf], it.kind).value
  }

  // ---------------------------------------------------------------- the digest log and its dispatch

  /** What building a digest, rendering it, the mailer and the database answer for one row. */
  datatype Reply = Reply(built: bool, rendered: bool, accepted: bool, sqlOk: bool)

  function AnswerTo(items: seq<Item>, r: Reply): Answer {
    Answer(
      if !r.built then Unrendered
      else if items == [] then Nothing
      else if !r.rendered then Unrendered
      else if r.accepted then Delivered
      else Refused,
      r.sqlOk)
  }

  function AnswersTo(lists: seq<seq<Item>>, replies: seq<Reply>): seq<Answer>
    requires |lists| <= |replies|
  {
    seq(|lists|, i requires 0 <= i < |lists| => AnswerTo(lists[i], replies[i]))
  }

  lemma NothingNotMailed(batch: seq<DigestKey>, answers: seq<Answer>, i: nat)
    requires Distinct(batch) && i < |batch| <= |answers| && answers[i].outcome.Nothing?
    ensures batch[i] !in Mailed(batch, answers, |batch|)
  {
    MailedAre(batch, answers, |batch|, batch[i]);
  }

  lemma MarksKeepKeys(batch: seq<DigestKey>, rows: map<DigestKey, Row>, answers: seq<Answer>, max: int)
    requires |batch| <= |answers| && forall k <- batch :: k in rows
    ensures (rows + After(batch, rows, answers, |batch|, max).marks).Keys == rows.Keys
  {
    var marks := After(batch, rows, answers, |batch|, max).marks;
    forall k <- marks ensures k in rows { MarksBefore(batch, rows, answers, |batch|, max, k); }
  }

  /** The digests with nothing to list are not mailed, and if the dispatch commits exactly they end as
      skipped. */
  ghost predicate SkipRule(batch: seq<DigestKey>, rows: map<DigestKey, Row>, answers: seq<Answer>, max: int,
                           commitOk: bool)
    requires |batch| <= |answers| && forall k <- batch :: k in rows
  {
    var tx := After(batch, rows, answers, |batch|, max);
    var rows' := Committed(rows, tx, commitOk);
    && rows'.Keys == rows.Keys
    && (forall i | 0 <= i < |batch| && answers[i].outcome.Nothing? :: batch[i] !in Mailed(batch, answers, |batch|))
    && (commitOk && !tx.poisoned ==>
          forall i | 0 <= i < |batch| :: rows'[batch[i]].status.Skipped? <==> answers[i].outcome.Nothing?)
  }

  lemma SkippedExactly(batch: seq<DigestKey>, rows: map<DigestKey, Row>, now: Instant, answers: seq<Answer>,
                       max: int, commitOk: bool)
    requires IsBatch(rows, {}, now, batch) && |batch| <= |answers|
    ensures SkipRule(batch, rows, answers, max, commitOk)
  {
    var tx := After(batch, rows, answers, |batch|, max);
    MarksKeepKeys(batch, rows, answers, max);
    forall i | 0 <= i < |batch| && answers[i].outcome.Nothing? ensures batch[i] !in Mailed(batch, answers, |batch|) {
      NothingNotMailed(batch, answers, i);
    }
    if commitOk && !tx.poisoned { LoopSkips(rows, now, batch, answers, max); }
  }

  /** The digest is built and rendered, and the database takes what is written. */
  predicate Clean(r: Reply) {
    r.built && r.rendered && r.sqlOk
  }

  lemma DigestTick(batch: seq<DigestKey>, rows: map<DigestKey, Row>, now: Instant, answers: seq<Answer>,
                   replies: seq<Reply>, max: int, commitOk: bool)
    requires IsBatch(rows, {}, now, batch) && |batch| == |answers| <= |replies|
    requires forall i | 0 <= i < |batch| && Clean(replies[i]) :: answers[i].sqlOk && !answers[i].outcome.Unrendered?
    ensures commitOk && (forall i | 0 <= i < |batch| :: Clean(replies[i])) ==>
      Tick(rows, Committed(rows, After(batch, rows, answers, |batch|, max), commitOk), now, max, batch)
  {
    if commitOk && forall i | 0 <= i < |batch| :: Clean(replies[i]) {
      LoopIsTick(rows, now, batch, answers, max);
    }
  }

  /** What becomes of a pending digest row in a committed dispatch. */
  predicate DigestHandled(row: Row, row': Row, items: seq<Item>, r: Reply, max: int) {
    if !r.built || (items != [] && !r.rendered) then row' == row
    else if items == [] then row' == Row(row.id, row.at, Skipped, row.attempts)
    else if r.accepted then row' == Row(row.id, row.at, Sent, row.attempts)
    else if row.attempts + 1 >= max then row' == Row(row.id, row.at, Failed, row.attempts)
    else row' == Row(row.id, row.at, Pending, row.attempts + 1)
  }

  /** A statement was tried for the row, and failed. */
  predicate Broken(items: seq<Item>, r: Reply) {
    r.built && (items == [] || r.rendered) && !r.sqlOk
  }

  lemma AnswerMeans(items: seq<Item>, r: Reply, row: Row, row': Row, max: int)
    ensures var a := AnswerTo(items, r);
      && (a.outcome.Delivered? <==> r.built && items != [] && r.rendered && r.accepted)
      && (a.outcome.Nothing? <==> r.built && items == [])
      && (Broken(items, r) <==> !a.outcome.Unrendered? && !a.sqlOk)
      && (DigestHandled(row, row', items, r, max) <==> Handled(row, row', a.outcome, max))
  {}

  // The same for a whole batch, whose item lists are given.
  lemma DigestEffect(rows: map<DigestKey, Row>, rows': map<DigestKey, Row>, batch: seq<DigestKey>,
                     answers: seq<Answer>, lists: seq<seq<Item>>, replies: seq<Reply>, max: int, commitOk: bool)
    requires |batch| == |answers| == |lists| <= |replies| && forall k <- batch :: k in rows
    requires forall i | 0 <= i < |batch| :: answers[i] == AnswerTo(lists[i], replies[i])
    requires Effect(rows, rows', batch, answers, max, commitOk)
    ensures if commitOk && forall i | 0 <= i < |batch| :: !Broken(lists[i], replies[i])
            then forall i | 0 <= i < |batch| ::
              DigestHandled(rows[batch[i]], rows'[batch[i]], lists[i], replies[i], max)
            else rows' == rows
  {
    forall i | 0 <= i < |batch|
      ensures Broken(lists[i], replies[i]) <==> !(answers[i].outcome.Unrendered? || answers[i].sqlOk)
      ensures DigestHandled(rows[batch[i]], rows'[batch[i]], lists[i], replies[i], max) <==>
        Handled(rows[batch[i]], rows'[batch[i]], answers[i].outcome, max)
    {
      AnswerMeans(lists[i], replies[i], rows[batch[i]], rows'[batch[i]], max);
    }
  }

  lemma DigestOutcome(rows: map<DigestKey, Row>, rows': map<DigestKey, Row>, now: Instant, batch: seq<DigestKey>,
                      sent: seq<DigestKey>, answers: seq<Answer>, lists: seq<seq<Item>>, replies: seq<Reply>,
                      max: int, commitOk: bool)
    requires IsBatch(rows, {}, now, batch) && |batch| == |answers| == |lists| <= |replies|
    requires forall i | 0 <= i < |batch| :: answers[i] == AnswerTo(lists[i], replies[i])
    requires rows' == Committed(rows, After(batch, rows, answers, |batch|, max), commitOk)
    requires sent == Mailed(batch, answers, |batch|)
    ensures SkipRule(batch, rows, answers, max, commitOk)
    ensures commitOk && (forall i | 0 <= i < |batch| :: Clean(replies[i])) ==> Tick(rows, rows', now, max, batch)
    ensures forall i | 0 <= i < |batch| :: batch[i] in sent <==>
      var r := replies[i]; r.built && lists[i] != [] && r.rendered && r.accepted
    ensures rows'.Keys == rows.Keys && forall k <- rows | k !in batch :: rows'[k] == rows[k]
    ensures if commitOk && forall i | 0 <= i < |batch| :: !Broken(lists[i], replies[i])
            then forall i | 0 <= i < |batch| ::
              DigestHandled(rows[batch[i]], rows'[batch[i]], lists[i], replies[i], max)
            else rows' == rows
  {
    SkippedExactly(batch, rows, now, answers, max, commitOk);
    DigestTick(batch, rows, now, answers, replies, max, commitOk);
    LoopEffect(rows, batch, answers, max, commitOk);
    DigestEffect(rows, rows', batch, answers, lists, replies, max, commitOk);
    forall i | 0 <= i < |batch| ensures batch[i] in sent <==> answers[i].outcome.Delivered? {
      SentExactly(batch, answers, i);
    }
  }

  // Sunday is 0; day 0 is a Monday.
  predicate InHour(s: DigestSettings, now: Instant) {
    var w := now + s.zone(now);
    (w / 86_400_000_000_000 + 1) % 7 == s.day && w % 86_400_000_000_000 / 3_600_000_000_000 == s.hour
  }

  lemma ChosenIs(s: DigestSettings, now: Instant)
    ensures Chosen(s, now) <==> s.enabled && InHour(s, now)
  {}

  lemma WeekIs(now: Instant)
    ensures MondayOfWeek(now) == now - now % 604_800_000_000_000
  {
    MondayIsWeekStart(now);
  }

  lemma NewRowIs(settings: map<Id, DigestSettings>, now: Instant, t: Table<DigestKey>, t': Table<DigestKey>,
                 k: DigestKey)
    requires ProbeStep(settings, now, t, t') && k in t'.rows && k !in t.rows
    ensures k.user in settings && Chosen(settings[k.user], now) && k.week == MondayOfWeek(now)
    ensures t'.rows[k].at == now && t'.rows[k].status == Pending && t'.rows[k].attempts == 0
  {
    assert FreshRow(t'.rows[k], Probed(settings, now)[k], t.nextId, t'.nextId);
  }

  // The same with the hour and the week spelled out.
  lemma NewRowReads(settings: map<Id, DigestSettings>, now: Instant, t: Table<DigestKey>, t': Table<DigestKey>,
                    k: DigestKey)
    requires ProbeStep(settings, now, t, t') && k in t'.rows && k !in t.rows
    ensures k.user in settings && settings[k.user].enabled && InHour(settings[k.user], now)
    ensures k.week == now - now % 604_800_000_000_000
    ensures t'.rows[k].at == now && t'.rows[k].status == Pending && t'.rows[k].attempts == 0
  {
    NewRowIs(settings, now, t, t', k);
    ChosenIs(settings[k.user], now);
    WeekIs(now);
  }

  lemma RowInserted(settings: map<Id, DigestSettings>, now: Instant, t: Table<DigestKey>, t': Table<DigestKey>, u: Id)
    requires ProbeStep(settings, now, t, t') && u in settings && settings[u].enabled && InHour(settings[u], now)
    ensures DigestKey(u, now - now % 604_800_000_000_000) in t'.rows
  {
    ChosenIs(settings[u], now);
    WeekIs(now);
    assert DigestKey(u, MondayOfWeek(now)) in Probed(settings, now);
  }

  /** What a probe leaves behind, told without its definition. */
  lemma ProbedRows(settings: map<Id, DigestSettings>, now: Instant, t: Table<DigestKey>, t': Table<DigestKey>)
    requires ProbeStep(settings, now, t, t')
    ensures forall k <- t.rows :: k in t'.rows && t'.rows[k] == t.rows[k]
    ensures forall k <- t'.rows | k !in t.rows ::
      && k.user in settings && settings[k.user].enabled && InHour(settings[k.user], now)
      && k.week == now - now % 604_800_000_000_000
      && t'.rows[k].at == now && t'.rows[k].status == Pending && t'.rows[k].attempts == 0
    ensures forall u <- settings | settings[u].enabled && InHour(settings[u], now) ::
      DigestKey(u, now - now % 604_800_000_000_000) in t'.rows
  {
    forall k <- t'.rows | k !in t.rows
      ensures k.user in settings && settings[k.user].enabled && InHour(settings[k.user], now)
      ensures k.week == now - now % 604_800_000_000_000
      ensures t'.rows[k].at == now && t'.rows[k].status == Pending && t'.rows[k].attempts == 0
    {
      NewRowReads(settings, now, t, t', k);
    }
    forall u <- settings | settings[u].enabled && InHour(settings[u], now)
      ensures DigestKey(u, now - now % 604_800_000_000_000) in t'.rows
    {
      RowInserted(settings, now, t, t', u);
    }
  }

  class DigestStore {
    var settings: map<Id, DigestSettings>
    var starred: map<Id, seq<Id>>
    var confs: map<Id, Conference>
    var rows: map<DigestKey, Row>
    var nextId: nat

    constructor ()
      ensures settings == map[] && Log() == Table(map[], 0) && Valid()
    {
      settings, starred, confs, rows, nextId := map[], map[], map[], map[], 0;
    }

    /** Digest rows belong to users that have settings, and stars point at conferences that exist. */
    ghost predicate Valid()
      reads this
    {
      (forall k <- rows :: k.user in settings) && StarsOk()
    }

    ghost predicate StarsOk()
      reads this`starred, this`confs
    {
      forall u <- starred, c <- starred[u] :: c in confs
    }

    ghost function Log(): Table<DigestKey>
      reads this
    {
      Table(rows, nextId)
    }

    function StarredBy(u: Id): seq<Id>
      reads this`starred
    {
      if u in starred then starred[u] else []
    }

    /** The deadlines a user's digest would list now; z is the scheduler's own zone. */
    ghost function ItemsFor(u: Id, z: Zone, now: Instant): seq<Item>
      requires StarsOk() && u in settings
      reads this`settings, this`starred, this`confs
    {
      Items(StarredBy(u), confs, now, AddDays(z, now, settings[u].horizonWeeks * 7))
    }

    ghost function AnswerFor(u: Id, z: Zone, now: Instant, r: Reply): Answer
      requires StarsOk() && u in settings
      reads this`settings, this`starred, this`confs
    {
      AnswerTo(ItemsFor(u, z, now), r)
    }

    method SelectDigestDueUsers(now: Instant, week: Instant) returns (users: seq<Id>)
      ensures forall u :: u in users <==> u in settings && Chosen(settings[u], now) && DigestKey(u, week) !in rows
      ensures forall u :: u in users <==>
        && u in settings && settings[u].enabled
        && Matches(settings[u].zone, settings[u].day, settings[u].hour, now)
        && DigestKey(u, week) !in rows
    {
      var left := set u <- settings | Chosen(settings[u], now) && DigestKey(u, week) !in rows;
      users := [];
      while left != {}
        invariant forall u :: u in left || u in users <==>
          u in settings && Chosen(settings[u], now) && DigestKey(u, week) !in rows
        decreases |left|
      {
        var u :| u in left;
        users, left := users + [u], left - {u};
      }
    }

    method InsertDigestRow(k: DigestKey, at: Instant)
      modifies this`rows, this`nextId
      ensures Log() == Insert(old(Log()), k, at)
    {
      if k !in rows { rows, nextId := rows[k := Row(nextId, at, Pending, 0)], nextId + 1; }
    }

    method ProbeUsers(now: Instant)
      modifies this`rows, this`nextId
      ensures ProbeStep(settings, now, old(Log()), Log())
    {
      var week := MondayOfWeek(now);
      var users := SelectDigestDueUsers(now, week);
      ghost var start := Log();
      for i := 0 to |users|
        invariant Filled(start, Log(), ForUsers(users[..i], week, now))
      {
        ProbeRound(start, Log(), users, i, week, now);
        InsertDigestRow(DigestKey(users[i], week), now);
      }
      assert users[..|users|] == users;
      SkippedUsersHaveRows(start, Log(), settings, users, week, now);
    }

    method ScheduleDigests(now: Instant)
      modifies this`rows, this`nextId
      ensures ProbeStep(settings, now, old(Log()), Log())
      ensures forall k <- old(rows) :: k in rows && rows[k] == old(rows)[k]
      ensures forall k <- rows | k !in old(rows) ::
        && k.user in settings && settings[k.user].enabled && InHour(settings[k.user], now)
        && k.week == now - now % 604_800_000_000_000
        && rows[k].at == now && rows[k].status == Pending && rows[k].attempts == 0
      ensures forall u <- settings | settings[u].enabled && InHour(settings[u], now) ::
        DigestKey(u, now - now % 604_800_000_000_000) in rows
    {
      ProbeUsers(now);
      ProbedRows(settings, now, old(Log()), Log());
    }

    method BuildFor(u: Id, z: Zone, now: Instant) returns (items: seq<Item>)
      requires StarsOk() && u in settings
      ensures items == ItemsFor(u, z, now)
    {
      items := BuildDigestItems(StarredBy(u), confs, z, now, settings[u].horizonWeeks);
    }

    // The items of a whole batch; what they are read from does not change while it is handled.
    method BuildAll(batch: seq<DigestKey>, z: Zone, now: Instant) returns (lists: seq<seq<Item>>)
      requires StarsOk() && forall k <- batch :: k.user in settings
      ensures |lists| == |batch| && forall i | 0 <= i < |batch| :: lists[i] == ItemsFor(batch[i].user, z, now)
    {
      lists := [];
      for i := 0 to |batch|
        invariant |lists| == i && forall j | 0 <= j < i :: lists[j] == ItemsFor(batch[j].user, z, now)
      {
        var items := BuildFor(batch[i].user, z, now);
        lists := lists + [items];
      }
    }

    // The due rows and what there is to say about each.
    method PrepareDigests(z: Zone, now: Instant, replies: seq<Reply>)
      returns (batch: seq<DigestKey>, answers: seq<Answer>, lists: seq<seq<Item>>)
      requires Valid() && |replies| >= BATCH_LIMIT
      ensures IsBatch(rows, {}, now, batch) && |answers| == |lists| == |batch|
      ensures forall k <- batch :: k in rows && rows[k].status == Pending && rows[k].at <= now
      ensures forall k <- rows | rows[k].status == Pending && rows[k].at <= now && k !in batch ::
        |batch| == 50 && forall j <- batch :: rows[j].at <= rows[k].at
      ensures forall k <- batch :: k.user in settings
      ensures forall i | 0 <= i < |batch| :: lists[i] == ItemsFor(batch[i].user, z, now)
      ensures forall i | 0 <= i < |batch| :: answers[i] == AnswerTo(lists[i], replies[i])
    {
      batch := SelectDue(rows, {}, now);
      lists := BuildAll(batch, z, now);
      answers := AnswersTo(lists, replies);
    }

    // The dispatch in terms of the loop over its batch.
    method HandleDigests(z: Zone, now: Instant, max: int, replies: seq<Reply>, commitOk: bool)
      returns (batch: seq<DigestKey>, sent: seq<DigestKey>, answers: seq<Answer>, lists: seq<seq<Item>>)
      requires Valid() && |replies| >= BATCH_LIMIT
      modifies this`rows
      ensures Valid() && IsBatch(old(rows), {}, now, batch) && |answers| == |lists| == |batch|
      ensures forall k <- batch :: k in old(rows) && old(rows)[k].status == Pending && old(rows)[k].at <= now
      ensures forall k <- old(rows) | old(rows)[k].status == Pending && old(rows)[k].at <= now && k !in batch ::
        |batch| == 50 && forall j <- batch :: old(rows)[j].at <= old(rows)[k].at
      ensures forall i | 0 <= i < |batch| :: lists[i] == ItemsFor(batch[i].user, z, now)
      ensures forall i | 0 <= i < |batch| :: answers[i] == AnswerTo(lists[i], replies[i])
      ensures sent == Mailed(batch, answers, |batch|)
      ensures rows == Committed(old(rows), After(batch, old(rows), answers, |batch|, max), commitOk)
    {
      batch, answers, lists := PrepareDigests(z, now, replies);
      RowsUntouched(rows, batch, answers, max, commitOk);
      sent, rows := HandleBatch(rows, batch, max, answers, commitOk);
    }

    /** One dispatch of the digest log: of the due rows in its batch it mails exactly those that were built, have
        something to list and were rendered and accepted; after the commit these are sent, those with nothing to
        list are skipped, and those that were refused have one more attempt behind them or fail. If nothing but
        the mailer fails it is a tick in the sense of Drain. */
    method DispatchDigests(z: Zone, now: Instant, configured: int, replies: seq<Reply>, commitOk: bool)
      returns (batch: seq<DigestKey>, sent: seq<DigestKey>, answers: seq<Answer>)
      requires Valid() && |replies| >= BATCH_LIMIT
      modifies this`rows
      ensures Valid() && IsBatch(old(rows), {}, now, batch) && |answers| == |batch|
      ensures forall i :: 0 <= i < |batch| ==> answers[i] == AnswerFor(batch[i].user, z, now, replies[i])
      ensures SkipRule(batch, old(rows), answers, MaxAttempts(configured), commitOk)
      ensures commitOk && (forall i | 0 <= i < |batch| :: Clean(replies[i])) ==>
        Tick(old(rows), rows, now, MaxAttempts(configured), batch)
      ensures forall k <- batch :: k in old(rows) && old(rows)[k].status == Pending && old(rows)[k].at <= now
      ensures forall k <- old(rows) | old(rows)[k].status == Pending && old(rows)[k].at <= now && k !in batch ::
        |batch| == 50 && forall j <- batch :: old(rows)[j].at <= old(rows)[k].at
      ensures forall i | 0 <= i < |batch| :: batch[i] in sent <==>
        var r := replies[i]; r.built && ItemsFor(batch[i].user, z, now) != [] && r.rendered && r.accepted
      ensures rows.Keys == old(rows).Keys && forall k <- rows | k !in batch :: rows[k] == old(rows)[k]
      ensures if commitOk && forall i | 0 <= i < |batch| :: !Broken(ItemsFor(batch[i].user, z, now), replies[i])
              then forall i | 0 <= i < |batch| ::
                DigestHandled(old(rows)[batch[i]], rows[batch[i]], ItemsFor(batch[i].user, z, now), replies[i],
                              if configured == 0 then 3 else configured)
              else rows == old(rows)
    {
      ghost var before, max := rows, MaxAttempts(configured);
      var lists;
      batch, sent, answers, lists := HandleDigests(z, now, MaxAttempts(configured), replies, commitOk);
      DigestOutcome(before, rows, now, batch, sent, answers, lists, replies, max, commitOk);
    }

    /** With that, a digest is skipped exactly if it was built and its user has no upcoming deadline. */
    lemma SkippedIfNothingUpcoming(
      batch: seq<DigestKey>, rows0: map<DigestKey, Row>, answers: seq<Answer>, z: Zone, now: Instant, max: int,
      replies: seq<Reply>, i: nat)
      requires Valid() && i < |batch| == |answers| <= |replies| && (forall k <- batch :: k in rows0)
      requires batch[i].user in settings && answers[i] == AnswerFor(batch[i].user, z, now, replies[i])
      requires SkipRule(batch, rows0, answers, max, true) && !After(batch, rows0, answers, |batch|, max).poisoned
      ensures
        var u := batch[i].user;
        var horizon := AddDays(z, now, settings[u].horizonWeeks * 7);
        var rows' := Committed(rows0, After(batch, rows0, answers, |batch|, max), true);
        batch[i] in rows' && (rows'[batch[i]].status.Skipped? <==>
          replies[i].built && forall c <- StarredBy(u), kind :: !Upcoming(confs[c], kind, now, horizon))
    {
      var u := batch[i].user;
      SkippedWhenNothingUpcoming(StarredBy(u), confs, now, AddDays(z, now, settings[u].horizonWeeks * 7));
    }
  }

  // ---------------------------------------------------------------- one digest a week

  lemma FilledServed(t: Table<DigestKey>, t': Table<DigestKey>, want: map<DigestKey, Instant>, locked: set<DigestKey>)
    requires DistinctIds(t) && Filled(t, t', want)
    ensures Served(t, t', map[], map[], locked)
  {
    FilledKeepsIds(t, t', want);
    forall k <- t'.rows | k !in t.rows ensures Fresh(t.nextId, t'.rows[k], t'.nextId) {
      assert FreshRow(t'.rows[k], want[k], t.nextId, t'.nextId);
    }
  }

  // A probe is a service transaction of the dispatch protocol.
  lemma ProbeServed(s: State<DigestKey>, s': State<DigestKey>, settings: map<Id, DigestSettings>, now: Instant)
    requires TableOk(s) && s.buried == map[] && ProbeStep(settings, now, s.log, s'.log) && s' == s.(log := s'.log)
    ensures ServiceStep(s, s')
  {
    FilledServed(s.log, s'.log, Probed(settings, now), Locked(s));
  }

  ghost predicate DigestNext(s: State<DigestKey>, s': State<DigestKey>, max: int) {
    || (s' == s.(log := s'.log) && exists settings, now :: ProbeStep(settings, now, s.log, s'.log))
    || exists step: Step<DigestKey> :: WorkerStep(s, s', step, max)
  }

  ghost predicate DigestRun(run: seq<State<DigestKey>>, max: int) {
    && |run| > 0 && Start(run[0])
    && forall i :: 0 <= i < |run| - 1 ==> DigestNext(run[i], run[i + 1], max)
  }

  lemma DigestNextInv(s: State<DigestKey>, s': State<DigestKey>, max: int)
    requires Inv(s, max) && s.buried == map[] && DigestNext(s, s', max)
    ensures StepOk(s, s', max) && Inv(s', max) && s'.buried == map[]
  {
    if step: Step<DigestKey> :| WorkerStep(s, s', step, max) {
      InvWorker(s, s', step, max);
    } else {
      var settings, now :| ProbeStep(settings, now, s.log, s'.log);
      ProbeServed(s, s', settings, now);
      InvService(s, s', max);
    }
  }

  lemma {:induction false} DigestRunInv(run: seq<State<DigestKey>>, max: int, i: nat)
    requires DigestRun(run, max) && i < |run|
    ensures Inv(run[i], max) && run[i].buried == map[]
    ensures i > 0 ==> StepOk(run[i - 1], run[i], max)
  {
    if i == 0 {
      InvStart(run[0], max);
    } else {
      DigestRunInv(run, max, i - 1);
      assert DigestNext(run[i - 1], run[i - 1 + 1], max);
      DigestNextInv(run[i - 1], run[i], max);
    }
  }

  /** Every run of probes and workers is a run of the dispatch protocol, whatever settings the users choose
      meanwhile. */
  lemma ProtocolRun(run: seq<State<DigestKey>>, max: int)
    requires DigestRun(run, max)
    ensures Run(run, max)
  {
    forall j: nat | j + 1 < |run| ensures StepAt(run, max, j) {
      DigestRunInv(run, max, j + 1);
    }
  }

  /** So a user gets at most one digest mail per UTC week beyond the transactions lost while holding its row, */
  lemma DigestMails(run: seq<State<DigestKey>>, max: int, i: nat, u: Id, t: Instant)
    requires DigestRun(run, max) && i < |run|
    ensures
      var k := DigestKey(u, MondayOfWeek(t));
      && run[i].mails[k] <= 1 + run[i].lost[k]
      && (k in run[i].log.rows && run[i].log.rows[k].status.Sent? && run[i].lost[k] == 0 ==> run[i].mails[k] == 1)
  {
    ProtocolRun(run, max);
    MailsPerKey(run, max, i, DigestKey(u, MondayOfWeek(t)));
  }

  /** a pending digest row is below the limit, a failed one has seen exactly the limit of refusals, */
  lemma DigestAttempts(run: seq<State<DigestKey>>, max: int, i: nat, k: DigestKey)
    requires DigestRun(run, max) && i < |run| && k in run[i].log.rows
    ensures
      var row := run[i].log.rows[k];
      var refusals := run[i].failures[row.id];
      && (row.status.Pending? ==> row.attempts < Limit(max) && refusals == row.attempts)
      && (row.status.Failed? ==> row.attempts == Limit(max) - 1 && refusals == Limit(max))
  {
    ProtocolRun(run, max);
    AttemptsBounded(run, max, i, k);
  }

  /** and a finished digest row stays as it is. */
  lemma DigestTerminal(run: seq<State<DigestKey>>, max: int, i: nat, j: nat, k: DigestKey)
    requires DigestRun(run, max) && i <= j < |run|
    requires k in run[i].log.rows && Terminal(run[i].log.rows[k])
    ensures k in run[j].log.rows && run[j].log.rows[k] == run[i].log.rows[k]
  {
    ProtocolRun(run, max);
    TerminalForever(run, max, i, j, k);
    DigestRunInv(run, max, j);
  }

  /** A probe followed by whatever dispatches: rows change their status but none goes. */
  ghost predicate ProbeAndDispatch(settings: map<Id, DigestSettings>, now: Instant, t: Table<DigestKey>,
                                   t': Table<DigestKey>)
  {
    exists mid: Table<DigestKey> :: ProbeStep(settings, now, t, mid) && t'.rows.Keys == mid.rows.Keys
  }

  /** Probes at most gap apart, each followed by whatever dispatches; users[i] are the settings the i-th finds. */
  ghost predicate Probes(users: seq<map<Id, DigestSettings>>, times: seq<Instant>, tables: seq<Table<DigestKey>>,
                         gap: int)
  {
    && |tables| == |times| + 1 && |users| == |times|
    && (forall i :: 0 <= i < |times| ==> ProbeAndDispatch(users[i], times[i], tables[i], tables[i + 1]))
    && Spaced(times, gap)
  }

  ghost predicate Spaced(times: seq<Instant>, gap: int) {
    forall i :: 0 <= i < |times| - 1 ==> times[i] <= times[i + 1] <= times[i] + gap
  }

  lemma MondayOfSlot(monday: Instant, t: Instant)
    requires monday % WEEK == 0 && monday <= t < monday + WEEK
    ensures MondayOfWeek(t) == monday
  {
    MondayIsWeekStart(t);
    ModIs(t, monday / WEEK, t - monday);
  }

  /** A week's row is only ever inserted in the chosen hour of that week, and so only once. */
  lemma RowsOnlyInTheirWeek(settings: map<Id, DigestSettings>, now: Instant, t: Table<DigestKey>,
                            t': Table<DigestKey>, k: DigestKey)
    requires ProbeStep(settings, now, t, t') && k in t'.rows && k !in t.rows
    ensures k.user in settings && Chosen(settings[k.user], now)
    ensures k.week % WEEK == 0 && k.week <= now < k.week + WEEK
  {
    MondayIsWeekStart(now);
    WeekStartBounds(now);
  }
}
