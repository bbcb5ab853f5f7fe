/** The reminder table as a materialised view of "stars x set deadlines x lead days": what it should
    hold, and the effect of every service transaction on it. */
module Reminders {
  import opened DispatchLog
  import opened SendTime

  type Id = nat

  datatype Kind = Submission | Abstract | Notification | CameraReady

  // uq_reminder_dispatch
  datatype Key = Key(user: Id, conf: Id, kind: Kind, lead: int)

  datatype Conference = Conference(
    primaryDeadline: Option<Instant>,
    abstractDeadline: Option<Instant>,
    notificationDate: Option<Instant>,
    cameraReadyDate: Option<Instant>,
    eventEndDate: Option<int>,
    archived: bool)

  datatype Settings = Settings(
    timezone: string,
    leadDays: seq<int>,
    digestEnabled: bool,
    digestDay: int,
    digestHour: int,
    digestHorizonWeeks: int)

  /** Everything but the reminder rows. zones is the time zone database; ids below nextConf are used. */
  datatype Catalog = Catalog(
    zones: map<string, Zone>,
    confs: map<Id, Conference>,
    nextConf: Id,
    settings: map<Id, Settings>,
    stars: set<(Id, Id)>)

  function DeadlineOf(c: Conference, kind: Kind): Option<Instant> {
    match kind
    case Submission => c.primaryDeadline
    case Abstract => c.abstractDeadline
    case Notification => c.notificationDate
    case CameraReady => c.cameraReadyDate
  }

  const UTC: Zone := (_: Instant) => 0

  // time.LoadLocation, with UTC for a name it does not know.
  function LoadZone(zones: map<string, Zone>, name: string): Zone {
    if name in zones then zones[name] else UTC
  }

  /** Stars, settings and rows refer to conferences that exist and users that have settings. */
  ghost predicate CatalogOk(d: Catalog) {
    && (forall p <- d.stars :: p.1 in d.confs && p.0 in d.settings)
    && (forall c <- d.confs :: c < d.nextConf)
  }

  ghost predicate Wanted(d: Catalog, k: Key) {
    && (k.user, k.conf) in d.stars
    && k.conf in d.confs
    && k.user in d.settings
    && DeadlineOf(d.confs[k.conf], k.kind).Some?
    && k.lead in d.settings[k.user].leadDays
  }

  ghost function SendAt(d: Catalog, k: Key): Instant
    requires Wanted(d, k)
  {
    ScheduledFor(DeadlineOf(d.confs[k.conf], k.kind).value, k.lead, LoadZone(d.zones, d.settings[k.user].timezone))
  }

  /** A wanted reminder goes out at nine, in the user's own zone or else in UTC, on the day found by going back
      from the deadline that the key names. */
  lemma SendsAtNineThere(d: Catalog, k: Key)
    requires Wanted(d, k)
    ensures
      var tz := d.settings[k.user].timezone;
      var z := if tz in d.zones then d.zones[tz] else UTC;
      SendAt(d, k) == FromWall(z, Nine(z, DeadlineOf(d.confs[k.conf], k.kind).value, k.lead))
    ensures forall t :: UTC(t) == 0
  {
    var tz := d.settings[k.user].timezone;
    SendsAtNine(if tz in d.zones then d.zones[tz] else UTC, DeadlineOf(d.confs[k.conf], k.kind).value, k.lead);
  }

  /** The view, recomputed from scratch. */
  ghost function Recomputed(d: Catalog): map<Key, Instant>
    requires CatalogOk(d)
  {
    map k | k in WantedKeys(d) :: SendAt(d, k)
  }

  ghost function WantedKeys(d: Catalog): (keys: set<Key>)
    requires CatalogOk(d)
    ensures forall k :: k in keys <==> Wanted(d, k)
  {
    set p <- d.stars, kind: Kind, lead <- d.settings[p.0].leadDays
      | DeadlineOf(d.confs[p.1], kind).Some? :: Key(p.0, p.1, kind, lead)
  }

  ghost function RecomputedPair(d: Catalog, u: Id, c: Id): map<Key, Instant>
    requires CatalogOk(d)
  {
    map k | k in WantedKeys(d) && k.user == u && k.conf == c :: SendAt(d, k)
  }

  ghost function RecomputedConf(d: Catalog, c: Id): map<Key, Instant>
    requires CatalogOk(d)
  {
    map k | k in WantedKeys(d) && k.conf == c :: SendAt(d, k)
  }

  ghost function RecomputedUser(d: Catalog, u: Id): map<Key, Instant>
    requires CatalogOk(d)
  {
    map k | k in WantedKeys(d) && k.user == u :: SendAt(d, k)
  }

  /** The table agrees with the view on one key: a pending row is wanted and carries the right time, and
      a wanted key has a row, pending or finished. */
  ghost predicate Agrees(d: Catalog, t: Table<Key>, k: Key)
    requires CatalogOk(d)
  {
    && (k in t.rows && t.rows[k].status.Pending? ==> Wanted(d, k) && t.rows[k].at == SendAt(d, k))
    && (Wanted(d, k) ==> k in t.rows)
  }

  ghost predicate View(d: Catalog, t: Table<Key>)
    requires CatalogOk(d)
  {
    forall k :: Agrees(d, t, k)
  }

  ghost function PendingAt(t: Table<Key>): map<Key, Instant> {
    map k <- t.rows | t.rows[k].status.Pending? :: t.rows[k].at
  }

  ghost function FinishedKeys(t: Table<Key>): set<Key> {
    set k <- t.rows | !t.rows[k].status.Pending?
  }

  /** The view holds exactly if the pending rows are the recomputed ones without a finished row. */
  lemma ViewIsRecomputed(d: Catalog, t: Table<Key>)
    requires CatalogOk(d)
    ensures View(d, t) <==> PendingAt(t) == Recomputed(d) - FinishedKeys(t)
  {
    var pending, wanted := PendingAt(t), Recomputed(d) - FinishedKeys(t);
    if View(d, t) {
      forall k ensures (k in pending <==> k in wanted) && (k in pending ==> pending[k] == wanted[k]) {
        assert Agrees(d, t, k);
      }
    }
    if pending == wanted {
      forall k ensures Agrees(d, t, k) {
        if k in t.rows && t.rows[k].status.Pending? { assert k in pending; }
        if Wanted(d, k) { assert k in wanted || k in FinishedKeys(t); }
      }
    }
  }

  ghost function PairRows(t: Table<Key>, u: Id, c: Id): set<Key> {
    set k <- t.rows | k.user == u && k.conf == c
  }

  ghost function ConfRows(t: Table<Key>, c: Id): set<Key> {
    set k <- t.rows | k.conf == c
  }

  ghost function SweptRows(t: Table<Key>, ids: set<Id>): set<Key> {
    set k <- t.rows | k.conf in ids
  }

  // ---------------------------------------------------------------- service transactions

  datatype Op =
    | NewUser(user: Id, initial: Settings)
    | Create(fields: Conference)
    | Update(conf: Id, fields: Conference)
    | Archive(conf: Id)
    | Unarchive(conf: Id)
    | Delete(conf: Id)
    | Sweep(today: int, graceDays: int, ids: set<Id>)
    | Star(user: Id, conf: Id)
    | Unstar(user: Id, conf: Id)
    | SetSettings(user: Id, settings: Settings)

  ghost predicate NewUserStep(d: Catalog, t: Table<Key>, d': Catalog, t': Table<Key>, u: Id, initial: Settings) {
    && d' == (if u in d.settings then d else d.(settings := d.settings[u := initial]))
    && t' == t
  }

  ghost predicate CreateStep(d: Catalog, t: Table<Key>, d': Catalog, t': Table<Key>, fields: Conference) {
    && d' == d.(confs := d.confs[d.nextConf := fields.(archived := false)], nextConf := d.nextConf + 1)
    && t' == t
  }

  // Update and the found branch of the import upsert: archived_at is not among the columns written.
  ghost predicate UpdateStep(d: Catalog, t: Table<Key>, d': Catalog, t': Table<Key>, c: Id, fields: Conference) {
    if c !in d.confs then d' == d && t' == t
    else
      && d' == d.(confs := d.confs[c := fields.(archived := d.confs[c].archived)])
      && CatalogOk(d')
      && Filled(DropPending(t, ConfRows(t, c)), t', RecomputedConf(d', c))
  }

  ghost predicate ArchiveStep(d: Catalog, t: Table<Key>, d': Catalog, t': Table<Key>, c: Id) {
    if c !in d.confs then d' == d && t' == t
    else
      && d' == d.(confs := d.confs[c := d.confs[c].(archived := true)])
      && t' == CancelPending(t, ConfRows(t, c))
  }

  ghost predicate UnarchiveStep(d: Catalog, t: Table<Key>, d': Catalog, t': Table<Key>, c: Id) {
    && d' == (if c in d.confs then d.(confs := d.confs[c := d.confs[c].(archived := false)]) else d)
    && t' == t
  }

  // ON DELETE CASCADE takes the stars and the reminder rows along, finished rows included.
  ghost predicate DeleteStep(d: Catalog, t: Table<Key>, d': Catalog, t': Table<Key>, c: Id) {
    && d' == d.(confs := d.confs - {c}, stars := set p <- d.stars | p.1 != c)
    && t' == t.(rows := map k <- t.rows | k.conf != c :: t.rows[k])
  }

  function ArchivedAll(confs: map<Id, Conference>, ids: set<Id>): map<Id, Conference> {
    map c <- confs :: if c in ids then confs[c].(archived := true) else confs[c]
  }

  predicate Expired(c: Conference, today: int, graceDays: int) {
    !c.archived && c.eventEndDate.Some? && c.eventEndDate.value < today - graceDays
  }

  // Rows of conferences that another transaction holds are skipped, so ids may be any part of the expired.
  ghost predicate SweepStep(
    d: Catalog, t: Table<Key>, d': Catalog, t': Table<Key>, today: int, graceDays: int, ids: set<Id>)
  {
    && (forall c <- ids :: c in d.confs && Expired(d.confs[c], today, graceDays))
    && d' == d.(confs := ArchivedAll(d.confs, ids))
    && t' == CancelPending(t, SweptRows(t, ids))
  }

  ghost predicate StarStep(d: Catalog, t: Table<Key>, d': Catalog, t': Table<Key>, u: Id, c: Id) {
    if c !in d.confs || u !in d.settings then d' == d && t' == t
    else
      && d' == d.(stars := d.stars + {(u, c)})
      && CatalogOk(d')
      && Filled(t, t', RecomputedPair(d', u, c))
  }

  ghost predicate UnstarStep(d: Catalog, t: Table<Key>, d': Catalog, t': Table<Key>, u: Id, c: Id) {
    if c !in d.confs then d' == d && t' == t
    else
      && d' == d.(stars := d.stars - {(u, c)})
      && t' == CancelPending(t, PairRows(t, u, c))
  }

  ghost function StarredRows(d: Catalog, t: Table<Key>, u: Id): set<Key> {
    set k <- t.rows | k.user == u && (u, k.conf) in d.stars
  }

  predicate SettingsValid(s: Settings, zones: map<string, Zone>) {
    && s.timezone in zones
    && |s.leadDays| <= 10
    && (forall l <- s.leadDays :: 0 <= l <= 365)
    && 0 <= s.digestDay <= 6
    && 0 <= s.digestHour <= 23
    && 1 <= s.digestHorizonWeeks <= 52
  }

  ghost predicate SetSettingsStep(d: Catalog, t: Table<Key>, d': Catalog, t': Table<Key>, u: Id, s: Settings) {
    if !SettingsValid(s, d.zones) || u !in d.settings then d' == d && t' == t
    else
      && d' == d.(settings := d.settings[u := s])
      && CatalogOk(d')
      && Filled(DropPending(t, StarredRows(d, t, u)), t', RecomputedUser(d', u))
  }

  ghost predicate OpStep(d: Catalog, t: Table<Key>, d': Catalog, t': Table<Key>, op: Op) {
    match op
    case NewUser(u, initial) => NewUserStep(d, t, d', t', u, initial)
    case Create(fields) => CreateStep(d, t, d', t', fields)
    case Update(c, fields) => UpdateStep(d, t, d', t', c, fields)
    case Archive(c) => ArchiveStep(d, t, d', t', c)
    case Unarchive(c) => UnarchiveStep(d, t, d', t', c)
    case Delete(c) => DeleteStep(d, t, d', t', c)
    case Sweep(today, graceDays, ids) => SweepStep(d, t, d', t', today, graceDays, ids)
    case Star(u, c) => StarStep(d, t, d', t', u, c)
    case Unstar(u, c) => UnstarStep(d, t, d', t', u, c)
    case SetSettings(u, s) => SetSettingsStep(d, t, d', t', u, s)
  }

  // ---------------------------------------------------------------- the view is maintained

  lemma UpdateRepairsKey(d: Catalog, t: Table<Key>, d': Catalog, t': Table<Key>, c: Id, fields: Conference, k: Key)
    requires CatalogOk(d) && c in d.confs && UpdateStep(d, t, d', t', c, fields) && k.conf == c
    ensures CatalogOk(d') && Agrees(d', t', k)
  {
    if k in RecomputedConf(d', c) && k !in DropPending(t, ConfRows(t, c)).rows {
      assert FreshRow(t'.rows[k], RecomputedConf(d', c)[k], t.nextId, t'.nextId);
    }
  }

  /** The pending rows of the table t' are the wanted keys that had no finished row in t, at the right time. */
  ghost predicate Rebuilt(d: Catalog, t: Table<Key>, t': Table<Key>, k: Key)
    requires CatalogOk(d)
  {
    && ((k in t'.rows && t'.rows[k].status.Pending?) <==>
      (Wanted(d, k) && !(k in t.rows && !t.rows[k].status.Pending?)))
    && (k in t'.rows && t'.rows[k].status.Pending? ==> t'.rows[k].at == SendAt(d, k))
    && (k in t.rows && !t.rows[k].status.Pending? ==> k in t'.rows && t'.rows[k] == t.rows[k])
  }

  /** Starting from any rows at all, one conference update makes the view exact for that conference; the
      finished rows and all other conferences stay as they are. */
  lemma UpdateRepairs(d: Catalog, t: Table<Key>, d': Catalog, t': Table<Key>, c: Id, fields: Conference)
    requires CatalogOk(d) && c in d.confs && UpdateStep(d, t, d', t', c, fields)
    ensures CatalogOk(d') && forall k: Key | k.conf == c :: Agrees(d', t', k) && Rebuilt(d', t, t', k)
    ensures forall k: Key | k.conf != c :: (k in t'.rows <==> k in t.rows) && (k in t.rows ==> t'.rows[k] == t.rows[k])
  {
    var want, dropped := RecomputedConf(d', c), DropPending(t, ConfRows(t, c));
    forall k: Key | k.conf == c ensures Agrees(d', t', k) && Rebuilt(d', t, t', k) {
      UpdateRepairsKey(d, t, d', t', c, fields, k);
      if k in want && k !in dropped.rows { assert FreshRow(t'.rows[k], want[k], t.nextId, t'.nextId); }
    }
  }

  /** One settings update makes it exact for every conference the user stars, and touches no other row. */
  lemma SetSettingsRepairs(d: Catalog, t: Table<Key>, d': Catalog, t': Table<Key>, u: Id, s: Settings)
    requires CatalogOk(d) && u in d.settings && SettingsValid(s, d.zones) && SetSettingsStep(d, t, d', t', u, s)
    ensures CatalogOk(d')
    ensures forall k: Key | k.user == u && (u, k.conf) in d.stars :: Agrees(d', t', k) && Rebuilt(d', t, t', k)
    ensures forall k: Key | !(k.user == u && (u, k.conf) in d.stars) ::
      (k in t'.rows <==> k in t.rows) && (k in t.rows ==> t'.rows[k] == t.rows[k])
  {
    var want, dropped := RecomputedUser(d', u), DropPending(t, StarredRows(d, t, u));
    forall k: Key | k.user == u && (u, k.conf) in d.stars ensures Agrees(d', t', k) && Rebuilt(d', t, t', k) {
      SetSettingsRepairsKey(d, t, d', t', u, s, k);
      if k in want && k !in dropped.rows { assert FreshRow(t'.rows[k], want[k], t.nextId, t'.nextId); }
    }
  }

  lemma SetSettingsRepairsKey(d: Catalog, t: Table<Key>, d': Catalog, t': Table<Key>, u: Id, s: Settings, k: Key)
    requires CatalogOk(d) && u in d.settings && SettingsValid(s, d.zones) && SetSettingsStep(d, t, d', t', u, s)
    requires k.user == u && (u, k.conf) in d.stars
    ensures CatalogOk(d') && Agrees(d', t', k)
  {
    if k in RecomputedUser(d', u) && k !in DropPending(t, StarredRows(d, t, u)).rows {
      assert FreshRow(t'.rows[k], RecomputedUser(d', u)[k], t.nextId, t'.nextId);
    }
  }

  lemma StarAgrees(d: Catalog, t: Table<Key>, d': Catalog, t': Table<Key>, u: Id, c: Id, k: Key)
    requires CatalogOk(d) && Agrees(d, t, k) && StarStep(d, t, d', t', u, c)
    ensures CatalogOk(d') && Agrees(d', t', k)
  {
    if c in d.confs && u in d.settings {
      assert Wanted(d, k) ==> Wanted(d', k) && SendAt(d, k) == SendAt(d', k);
      if k in RecomputedPair(d', u, c) && k !in t.rows {
        assert FreshRow(t'.rows[k], RecomputedPair(d', u, c)[k], t.nextId, t'.nextId);
      }
    }
  }

  lemma UpdateAgrees(d: Catalog, t: Table<Key>, d': Catalog, t': Table<Key>, c: Id, fields: Conference, k: Key)
    requires CatalogOk(d) && Agrees(d, t, k) && UpdateStep(d, t, d', t', c, fields)
    ensures CatalogOk(d') && Agrees(d', t', k)
  {
    if c in d.confs {
      if k.conf == c {
        UpdateRepairsKey(d, t, d', t', c, fields, k);
      } else {
        assert Wanted(d, k) <==> Wanted(d', k);
      }
    }
  }

  lemma SetSettingsAgrees(d: Catalog, t: Table<Key>, d': Catalog, t': Table<Key>, u: Id, s: Settings, k: Key)
    requires CatalogOk(d) && Agrees(d, t, k) && SetSettingsStep(d, t, d', t', u, s)
    ensures CatalogOk(d') && Agrees(d', t', k)
  {
    if u in d.settings && SettingsValid(s, d.zones) {
      if k.user == u && (u, k.conf) in d.stars {
        SetSettingsRepairsKey(d, t, d', t', u, s, k);
      } else {
        assert Wanted(d, k) <==> Wanted(d', k);
      }
    }
  }

  lemma CancelAgrees(d: Catalog, t: Table<Key>, d': Catalog, which: set<Key>, k: Key)
    requires CatalogOk(d) && CatalogOk(d') && Agrees(d, t, k)
    requires Wanted(d', k) ==> Wanted(d, k) && SendAt(d', k) == SendAt(d, k)
    requires Wanted(d, k) && !Wanted(d', k) ==> k in which || k !in t.rows
    ensures Agrees(d', CancelPending(t, which), k)
  {}

  lemma CatalogKept(d: Catalog, t: Table<Key>, d': Catalog, t': Table<Key>, op: Op)
    requires CatalogOk(d) && OpStep(d, t, d', t', op)
    ensures CatalogOk(d')
  {}

  lemma ArchiveAgrees(d: Catalog, t: Table<Key>, d': Catalog, t': Table<Key>, c: Id, k: Key)
    requires CatalogOk(d) && CatalogOk(d') && Agrees(d, t, k) && ArchiveStep(d, t, d', t', c)
    ensures Agrees(d', t', k)
  {
    if c in d.confs { CancelAgrees(d, t, d', ConfRows(t, c), k); }
  }

  lemma SweepAgrees(
    d: Catalog, t: Table<Key>, d': Catalog, t': Table<Key>, today: int, graceDays: int, ids: set<Id>, k: Key)
    requires CatalogOk(d) && CatalogOk(d') && Agrees(d, t, k) && SweepStep(d, t, d', t', today, graceDays, ids)
    ensures Agrees(d', t', k)
  {
    CancelAgrees(d, t, d', SweptRows(t, ids), k);
  }

  lemma UnstarAgrees(d: Catalog, t: Table<Key>, d': Catalog, t': Table<Key>, u: Id, c: Id, k: Key)
    requires CatalogOk(d) && CatalogOk(d') && Agrees(d, t, k) && UnstarStep(d, t, d', t', u, c)
    ensures Agrees(d', t', k)
  {
    if c in d.confs { CancelAgrees(d, t, d', PairRows(t, u, c), k); }
  }

  lemma DeleteAgrees(d: Catalog, t: Table<Key>, d': Catalog, t': Table<Key>, c: Id, k: Key)
    requires CatalogOk(d) && CatalogOk(d') && Agrees(d, t, k) && DeleteStep(d, t, d', t', c)
    ensures Agrees(d', t', k)
  {
    assert Wanted(d', k) <==> Wanted(d, k) && k.conf != c;
  }

  lemma SameWants(d: Catalog, t: Table<Key>, d': Catalog, k: Key)
    requires CatalogOk(d) && CatalogOk(d') && Agrees(d, t, k)
    requires d'.stars == d.stars && d'.zones == d.zones
    requires k.conf in d.confs ==>
      k.conf in d'.confs && DeadlineOf(d'.confs[k.conf], k.kind) == DeadlineOf(d.confs[k.conf], k.kind)
    requires k.user in d.settings ==> k.user in d'.settings && d'.settings[k.user] == d.settings[k.user]
    ensures Agrees(d', t, k)
  {
    assert Wanted(d', k) <==> Wanted(d, k);
  }

  lemma OpAgreesCatalog(d: Catalog, t: Table<Key>, d': Catalog, t': Table<Key>, op: Op, k: Key)
    requires op.NewUser? || op.Create? || op.Unarchive? || op.Delete?
    requires CatalogOk(d) && CatalogOk(d') && Agrees(d, t, k) && OpStep(d, t, d', t', op)
    ensures Agrees(d', t', k)
  {
    if op.Delete? {
      DeleteAgrees(d, t, d', t', op.conf, k);
    } else {
      SameWants(d, t, d', k);
    }
  }

  lemma OpAgreesRows(d: Catalog, t: Table<Key>, d': Catalog, t': Table<Key>, op: Op, k: Key)
    requires !op.NewUser? && !op.Create? && !op.Unarchive? && !op.Delete?
    requires CatalogOk(d) && CatalogOk(d') && Agrees(d, t, k) && OpStep(d, t, d', t', op)
    ensures Agrees(d', t', k)
  {
    match op
    case Update(c, fields) => UpdateAgrees(d, t, d', t', c, fields, k);
    case Star(u, c) => StarAgrees(d, t, d', t', u, c, k);
    case SetSettings(u, s) => SetSettingsAgrees(d, t, d', t', u, s, k);
    case Archive(c) => ArchiveAgrees(d, t, d', t', c, k);
    case Sweep(today, graceDays, ids) => SweepAgrees(d, t, d', t', today, graceDays, ids, k);
    case Unstar(u, c) => UnstarAgrees(d, t, d', t', u, c, k);
  }

  /** Every service transaction keeps the incremental view equal to the recomputed one. */
  lemma OpKeepsView(d: Catalog, t: Table<Key>, d': Catalog, t': Table<Key>, op: Op)
    requires CatalogOk(d) && View(d, t) && OpStep(d, t, d', t', op)
    ensures CatalogOk(d') && View(d', t')
  {
    CatalogKept(d, t, d', t', op);
    forall k ensures Agrees(d', t', k) {
      assert Agrees(d, t, k);
      if op.NewUser? || op.Create? || op.Unarchive? || op.Delete? {
        OpAgreesCatalog(d, t, d', t', op, k);
      } else {
        OpAgreesRows(d, t, d', t', op, k);
      }
    }
  }
}
