/** The service transactions as the program runs them: queries and loops over the tables, each proved
    to do what Reminders says of it. */
module ReminderStore {
  import opened DispatchLog
  import opened SendTime
  import opened Reminders
  import opened Dispatcher
  import opened DispatchLoop

  datatype Deadline = Deadline(kind: Kind, at: Instant)

  /** The set deadlines of a conference, each kind once. */
  ghost predicate Lists(c: Conference, deadlines: seq<Deadline>) {
    && (forall i, j :: 0 <= i < j < |deadlines| ==> deadlines[i].kind != deadlines[j].kind)
    && (forall d <- deadlines :: DeadlineOf(c, d.kind) == Some(d.at))
    && (forall kind :: DeadlineOf(c, kind).Some? ==> Deadline(kind, DeadlineOf(c, kind).value) in deadlines)
  }

  method ConferenceDeadlines(c: Conference) returns (out: seq<Deadline>)
    ensures Lists(c, out)
  {
    out := [];
    if c.primaryDeadline.Some? { out := out + [Deadline(Submission, c.primaryDeadline.value)]; }
    if c.abstractDeadline.Some? { out := out + [Deadline(Abstract, c.abstractDeadline.value)]; }
    if c.notificationDate.Some? { out := out + [Deadline(Notification, c.notificationDate.value)]; }
    if c.cameraReadyDate.Some? { out := out + [Deadline(CameraReady, c.cameraReadyDate.value)]; }
  }

  // What the inner loop inserts for one deadline.
  ghost function WantLeads(u: Id, c: Id, z: Zone, d: Deadline, leads: seq<int>): map<Key, Instant> {
    map k | k in LeadKeys(u, c, d.kind, leads) :: ScheduledFor(d.at, k.lead, z)
  }

  ghost function LeadKeys(u: Id, c: Id, kind: Kind, leads: seq<int>): set<Key> {
    set l <- leads :: Key(u, c, kind, l)
  }

  // What both loops insert.
  ghost function WantDeadlines(u: Id, c: Id, z: Zone, deadlines: seq<Deadline>, leads: seq<int>): map<Key, Instant> {
    if deadlines == [] then map[]
    else
      var n := |deadlines| - 1;
      WantDeadlines(u, c, z, deadlines[..n], leads) + WantLeads(u, c, z, deadlines[n], leads)
  }

  lemma {:induction false} WantDeadlinesHas(u: Id, c: Id, z: Zone, deadlines: seq<Deadline>, leads: seq<int>, k: Key)
    ensures k in WantDeadlines(u, c, z, deadlines, leads) <==>
      k.user == u && k.conf == c && k.lead in leads && exists d <- deadlines :: d.kind == k.kind
    ensures k in WantDeadlines(u, c, z, deadlines, leads) ==>
      exists d <- deadlines ::
        d.kind == k.kind && WantDeadlines(u, c, z, deadlines, leads)[k] == ScheduledFor(d.at, k.lead, z)
  {
    if deadlines != [] {
      var n := |deadlines| - 1;
      WantDeadlinesHas(u, c, z, deadlines[..n], leads, k);
      assert deadlines == deadlines[..n] + [deadlines[n]];
    }
  }

  /** A fresh reminder of one of the deadlines, at nine on the day a lead before it. */
  ghost predicate ReminderOf(k: Key, row: Row, u: Id, c: Id, z: Zone, leads: seq<int>, deadlines: seq<Deadline>) {
    && k.user == u && k.conf == c && k.lead in leads
    && row.status == Pending && row.attempts == 0
    && exists d <- deadlines :: d.kind == k.kind && row.at == FromWall(z, Nine(z, d.at, k.lead))
  }

  lemma MaterializedRows(t: Table<Key>, t': Table<Key>, u: Id, c: Id, z: Zone, leads: seq<int>,
                         deadlines: seq<Deadline>)
    requires Filled(t, t', WantDeadlines(u, c, z, deadlines, leads))
    ensures forall d <- deadlines, lead <- leads :: Key(u, c, d.kind, lead) in t'.rows
    ensures forall k <- t'.rows | k !in t.rows :: ReminderOf(k, t'.rows[k], u, c, z, leads, deadlines)
  {
    var want := WantDeadlines(u, c, z, deadlines, leads);
    forall d <- deadlines, lead <- leads ensures Key(u, c, d.kind, lead) in t'.rows {
      WantDeadlinesHas(u, c, z, deadlines, leads, Key(u, c, d.kind, lead));
    }
    forall k <- t'.rows | k !in t.rows ensures ReminderOf(k, t'.rows[k], u, c, z, leads, deadlines) {
      WantDeadlinesHas(u, c, z, deadlines, leads, k);
      var d :| d in deadlines && d.kind == k.kind && want[k] == ScheduledFor(d.at, k.lead, z);
      SendsAtNine(z, d.at, k.lead);
      assert FreshRow(t'.rows[k], want[k], t.nextId, t'.nextId);
    }
  }

  // The same key by key.
  lemma WantedOfPair(d: Catalog, u: Id, c: Id, deadlines: seq<Deadline>, z: Zone, leads: seq<int>, k: Key)
    requires CatalogOk(d) && (u, c) in d.stars && Lists(d.confs[c], deadlines)
    requires z == LoadZone(d.zones, d.settings[u].timezone) && leads == d.settings[u].leadDays
    ensures k in WantDeadlines(u, c, z, deadlines, leads) <==> k in RecomputedPair(d, u, c)
    ensures k in RecomputedPair(d, u, c) ==> WantDeadlines(u, c, z, deadlines, leads)[k] == RecomputedPair(d, u, c)[k]
  {
    WantDeadlinesHas(u, c, z, deadlines, leads, k);
    if k in RecomputedPair(d, u, c) {
      assert Deadline(k.kind, DeadlineOf(d.confs[c], k.kind).value) in deadlines;
    }
  }

  /** For a starred conference the two loops ask for exactly the recomputed rows of the pair. */
  lemma WantDeadlinesIsPair(d: Catalog, u: Id, c: Id, deadlines: seq<Deadline>)
    requires CatalogOk(d) && (u, c) in d.stars && Lists(d.confs[c], deadlines)
    ensures WantDeadlines(u, c, LoadZone(d.zones, d.settings[u].timezone), deadlines, d.settings[u].leadDays)
      == RecomputedPair(d, u, c)
  {
    var z, leads := LoadZone(d.zones, d.settings[u].timezone), d.settings[u].leadDays;
    forall k
      ensures k in WantDeadlines(u, c, z, deadlines, leads) <==> k in RecomputedPair(d, u, c)
      ensures k in RecomputedPair(d, u, c) ==>
        WantDeadlines(u, c, z, deadlines, leads)[k] == RecomputedPair(d, u, c)[k]
    {
      WantedOfPair(d, u, c, deadlines, z, leads, k);
    }
    SameMap(WantDeadlines(u, c, z, deadlines, leads), RecomputedPair(d, u, c));
  }

  lemma SameMap<K, V>(a: map<K, V>, b: map<K, V>)
    requires forall k :: k in a <==> k in b
    requires forall k <- b :: a[k] == b[k]
    ensures a == b
  {}

  /** Deleting the pending rows of keys that the earlier inserts did not concern commutes with them. */
  lemma DropAfterFill(t: Table<Key>, t': Table<Key>, a: set<Key>, b: set<Key>, want: map<Key, Instant>)
    requires Filled(DropPending(t, a), t', want) && want.Keys !! b
    ensures Filled(DropPending(t, a + b), DropPending(t', b), want)
  {
    var mid := DropPending(t', b);
    var start := DropPending(t, a + b);
    forall k <- want | k !in start.rows
      ensures FreshRow(mid.rows[k], want[k], start.nextId, mid.nextId) && t'.rows[k] == mid.rows[k]
      ensures k !in DropPending(t, a).rows
    {
      assert FreshRow(t'.rows[k], want[k], t.nextId, t'.nextId);
    }
  }

  lemma WantLeadsStep(u: Id, c: Id, z: Zone, d: Deadline, leads: seq<int>, j: nat)
    requires j < |leads|
    ensures var k := Key(u, c, d.kind, leads[j]);
      WantLeads(u, c, z, d, leads[..j + 1]) == WantLeads(u, c, z, d, leads[..j])[k := ScheduledFor(d.at, leads[j], z)]
  {
    assert leads[..j + 1] == leads[..j] + [leads[j]];
  }

  // One pass of the inner loop.
  lemma InsertLead(t: Table<Key>, t': Table<Key>, u: Id, c: Id, z: Zone, d: Deadline, leads: seq<int>, j: nat)
    requires j < |leads| && Filled(t, t', WantLeads(u, c, z, d, leads[..j]))
    ensures Filled(t, Insert(t', Key(u, c, d.kind, leads[j]), ScheduledFor(d.at, leads[j], z)),
                   WantLeads(u, c, z, d, leads[..j + 1]))
  {
    var k, at := Key(u, c, d.kind, leads[j]), ScheduledFor(d.at, leads[j], z);
    WantLeadsStep(u, c, z, d, leads, j);
    InsertAfter(t, t', WantLeads(u, c, z, d, leads[..j]), k, at);
  }

  lemma DeadlineRound(t: Table<Key>, mid: Table<Key>, t': Table<Key>, u: Id, c: Id, z: Zone, deadlines: seq<Deadline>,
                      leads: seq<int>, i: nat)
    requires i < |deadlines| && forall m, n :: 0 <= m < n < |deadlines| ==> deadlines[m].kind != deadlines[n].kind
    requires Filled(t, mid, WantDeadlines(u, c, z, deadlines[..i], leads))
    requires Filled(mid, t', WantLeads(u, c, z, deadlines[i], leads))
    ensures Filled(t, t', WantDeadlines(u, c, z, deadlines[..i + 1], leads))
  {
    KindsBefore(u, c, z, deadlines, leads, i);
    assert deadlines[..i + 1][..i] == deadlines[..i];
    FilledCompose(t, mid, t', WantDeadlines(u, c, z, deadlines[..i], leads), WantLeads(u, c, z, deadlines[i], leads));
  }

  lemma KindsBefore(u: Id, c: Id, z: Zone, deadlines: seq<Deadline>, leads: seq<int>, i: nat)
    requires i < |deadlines| && forall m, n :: 0 <= m < n < |deadlines| ==> deadlines[m].kind != deadlines[n].kind
    ensures forall k <- WantDeadlines(u, c, z, deadlines[..i], leads) :: k.kind != deadlines[i].kind
  {
    forall k <- WantDeadlines(u, c, z, deadlines[..i], leads) ensures k.kind != deadlines[i].kind {
      WantDeadlinesHas(u, c, z, deadlines[..i], leads, k);
    }
  }

  // What the loop over starring users has asked for so far.
  ghost function RecomputedUsers(d: Catalog, c: Id, users: seq<Id>): map<Key, Instant>
    requires CatalogOk(d)
  {
    map k | k in WantedKeys(d) && k.conf == c && k.user in users :: SendAt(d, k)
  }

  lemma UsersStep(d: Catalog, c: Id, users: seq<Id>, i: nat)
    requires CatalogOk(d) && i < |users|
    ensures RecomputedUsers(d, c, users[..i]) + RecomputedPair(d, users[i], c) == RecomputedUsers(d, c, users[..i + 1])
  {
    assert users[..i + 1] == users[..i] + [users[i]];
  }

  lemma UsersRound(d: Catalog, c: Id, users: seq<Id>, i: nat, start: Table<Key>, mid: Table<Key>, after: Table<Key>)
    requires CatalogOk(d) && i < |users| && Filled(start, mid, RecomputedUsers(d, c, users[..i]))
    requires Filled(mid, after, RecomputedPair(d, users[i], c))
    ensures Filled(start, after, RecomputedUsers(d, c, users[..i + 1]))
  {
    FilledCompose(start, mid, after, RecomputedUsers(d, c, users[..i]), RecomputedPair(d, users[i], c));
    UsersStep(d, c, users, i);
  }

  lemma AllUsers(d: Catalog, c: Id, users: seq<Id>)
    requires CatalogOk(d) && forall u :: u in users <==> (u, c) in d.stars
    ensures RecomputedUsers(d, c, users[..|users|]) == RecomputedConf(d, c)
  {
    assert users[..|users|] == users;
  }

  // What the loop over a user's starred conferences has asked for so far, and the rows it has cleared.
  ghost function RecomputedConfs(d: Catalog, u: Id, ids: seq<Id>): map<Key, Instant>
    requires CatalogOk(d)
  {
    map k | k in WantedKeys(d) && k.user == u && k.conf in ids :: SendAt(d, k)
  }

  ghost function UserRows(t: Table<Key>, u: Id, ids: seq<Id>): set<Key> {
    set k <- t.rows | k.user == u && k.conf in ids
  }

  lemma ConfsStep(d: Catalog, u: Id, ids: seq<Id>, i: nat)
    requires CatalogOk(d) && i < |ids|
    ensures RecomputedConfs(d, u, ids[..i]) + RecomputedPair(d, u, ids[i]) == RecomputedConfs(d, u, ids[..i + 1])
  {
    assert ids[..i + 1] == ids[..i] + [ids[i]];
  }

  /** One pass of the settings loop: clear one conference, then fill it, on top of what is done already. */
  lemma SettingsRound(d: Catalog, start: Table<Key>, before: Table<Key>, mid: Table<Key>, after: Table<Key>,
                      u: Id, ids: seq<Id>, i: nat)
    requires CatalogOk(d) && i < |ids| && forall m, n :: 0 <= m < n < |ids| ==> ids[m] != ids[n]
    requires Filled(DropPending(start, UserRows(start, u, ids[..i])), before, RecomputedConfs(d, u, ids[..i]))
    requires mid == DropPending(before, PairRows(before, u, ids[i]))
    requires Filled(mid, after, RecomputedPair(d, u, ids[i]))
    ensures Filled(DropPending(start, UserRows(start, u, ids[..i + 1])), after, RecomputedConfs(d, u, ids[..i + 1]))
  {
    var a, b := UserRows(start, u, ids[..i]), PairRows(before, u, ids[i]);
    DropAfterFill(start, before, a, b, RecomputedConfs(d, u, ids[..i]));
    SameDrop(start, before, u, ids, i, RecomputedConfs(d, u, ids[..i]));
    FilledCompose(DropPending(start, a + b), mid, after, RecomputedConfs(d, u, ids[..i]), RecomputedPair(d, u, ids[i]));
    ConfsStep(d, u, ids, i);
  }

  lemma AllStarred(d: Catalog, t: Table<Key>, u: Id, starred: seq<Id>)
    requires CatalogOk(d) && forall c :: c in starred <==> (u, c) in d.stars
    ensures RecomputedConfs(d, u, starred) == RecomputedUser(d, u) && UserRows(t, u, starred) == StarredRows(d, t, u)
  {}

  lemma SameDrop(start: Table<Key>, before: Table<Key>, u: Id, ids: seq<Id>, i: nat, want: map<Key, Instant>)
    requires i < |ids| && forall m, n :: 0 <= m < n < |ids| ==> ids[m] != ids[n]
    requires Filled(DropPending(start, UserRows(start, u, ids[..i])), before, want)
    ensures DropPending(start, UserRows(start, u, ids[..i]) + PairRows(before, u, ids[i]))
      == DropPending(start, UserRows(start, u, ids[..i + 1]))
  {
    assert ids[..i + 1] == ids[..i] + [ids[i]];
    assert ids[i] !in ids[..i];
    var dropped := DropPending(start, UserRows(start, u, ids[..i]));
    assert forall k <- start.rows | k.conf == ids[i] :: k in dropped.rows && k in before.rows;
  }

  lemma SweepRound(confs: map<Id, Conference>, t: Table<Key>, done: set<Id>, c: Id)
    requires c in confs
    ensures var cancelled := CancelPending(t, SweptRows(t, done));
      CancelPending(cancelled, ConfRows(cancelled, c)) == CancelPending(t, SweptRows(t, done + {c}))
    ensures var archived := ArchivedAll(confs, done);
      archived[c := archived[c].(archived := true)] == ArchivedAll(confs, done + {c})
  {}

  class Store {
    const zones: map<string, Zone>
    var confs: map<Id, Conference>
    var nextConf: Id
    var settings: map<Id, Settings>
    var stars: set<(Id, Id)>
    var rows: map<Key, Row>
    var nextId: nat

    constructor (zones: map<string, Zone>)
      ensures Cat() == Catalog(zones, map[], 0, map[], {}) && Log() == Table(map[], 0)
    {
      this.zones := zones;
      confs, nextConf, settings, stars, rows, nextId := map[], 0, map[], {}, map[], 0;
    }

    ghost function Cat(): Catalog
      reads this
    {
      Catalog(zones, confs, nextConf, settings, stars)
    }

    ghost function Log(): Table<Key>
      reads this
    {
      Table(rows, nextId)
    }

    // ------------------------------------------------------------ queries

    method InsertReminderRow(k: Key, at: Instant)
      modifies this`rows, this`nextId
      ensures Log() == Insert(old(Log()), k, at)
    {
      if k !in rows {
        rows, nextId := rows[k := Row(nextId, at, Pending, 0)], nextId + 1;
      }
    }

    method CancelUserConferenceReminders(u: Id, c: Id)
      modifies this`rows
      ensures Log() == CancelPending(old(Log()), PairRows(old(Log()), u, c))
    {
      rows := map k <- rows :: if rows[k].status.Pending? && k.user == u && k.conf == c
                               then rows[k].(status := Cancelled) else rows[k];
    }

    method CancelConferenceReminders(c: Id)
      modifies this`rows
      ensures Log() == CancelPending(old(Log()), ConfRows(old(Log()), c))
    {
      rows := map k <- rows :: if rows[k].status.Pending? && k.conf == c
                               then rows[k].(status := Cancelled) else rows[k];
    }

    method DeleteConferencePendingReminders(c: Id)
      modifies this`rows
      ensures Log() == DropPending(old(Log()), ConfRows(old(Log()), c))
    {
      rows := map k <- rows | !(rows[k].status.Pending? && k.conf == c) :: rows[k];
    }

    method DeleteUserConferencePendingReminders(u: Id, c: Id)
      modifies this`rows
      ensures Log() == DropPending(old(Log()), PairRows(old(Log()), u, c))
    {
      rows := map k <- rows | !(rows[k].status.Pending? && k.user == u && k.conf == c) :: rows[k];
    }

    // The order of the answer is up to the database.
    method ListUsersStarring(c: Id) returns (users: seq<Id>)
      ensures forall u :: u in users <==> (u, c) in stars && u in settings
    {
      var left := set p <- stars | p.1 == c && p.0 in settings :: p.0;
      forall u | (u, c) in stars && u in settings ensures u in left { assert (u, c).0 == u; }
      users := [];
      while left != {}
        invariant forall u :: u in left || u in users <==> (u, c) in stars && u in settings
        decreases |left|
      {
        var u :| u in left;
        users, left := users + [u], left - {u};
      }
    }

    method ListUserStarred(u: Id) returns (ids: seq<Id>)
      ensures forall c :: c in ids <==> (u, c) in stars
      ensures forall i, j :: 0 <= i < j < |ids| ==> ids[i] != ids[j]
    {
      var left := set p <- stars | p.0 == u :: p.1;
      forall c | (u, c) in stars ensures c in left { assert (u, c).1 == c; }
      ids := [];
      while left != {}
        invariant forall c :: c in left || c in ids <==> (u, c) in stars
        invariant forall c <- ids :: c !in left
        invariant forall i, j :: 0 <= i < j < |ids| ==> ids[i] != ids[j]
        decreases |left|
      {
        var c :| c in left;
        ids, left := ids + [c], left - {c};
      }
    }

    // ------------------------------------------------------------ materialisation

    method FillLeads(u: Id, c: Id, z: Zone, d: Deadline, leads: seq<int>)
      modifies this`rows, this`nextId
      ensures Filled(old(Log()), Log(), WantLeads(u, c, z, d, leads))
    {
      ghost var start := Log();
      for j := 0 to |leads|
        invariant Filled(start, Log(), WantLeads(u, c, z, d, leads[..j]))
      {
        InsertLead(start, Log(), u, c, z, d, leads, j);
        InsertReminderRow(Key(u, c, d.kind, leads[j]), ScheduledFor(d.at, leads[j], z));
      }
      assert leads[..|leads|] == leads;
    }

    method FillDeadlines(u: Id, c: Id, z: Zone, leads: seq<int>, deadlines: seq<Deadline>)
      requires forall i, j :: 0 <= i < j < |deadlines| ==> deadlines[i].kind != deadlines[j].kind
      modifies this`rows, this`nextId
      ensures Filled(old(Log()), Log(), WantDeadlines(u, c, z, deadlines, leads))
    {
      ghost var start := Log();
      for i := 0 to |deadlines|
        invariant Filled(start, Log(), WantDeadlines(u, c, z, deadlines[..i], leads))
      {
        ghost var mid := Log();
        FillLeads(u, c, z, deadlines[i], leads);
        DeadlineRound(start, mid, Log(), u, c, z, deadlines, leads, i);
      }
      assert deadlines[..|deadlines|] == deadlines;
    }

    /** In the zone of that name, or else in UTC, every deadline and lead gets a pending row at nine on its day,
        unless it had a row; the rows that were there stay. */
    method Materialize(u: Id, c: Id, tz: string, leads: seq<int>, deadlines: seq<Deadline>)
      requires forall i, j :: 0 <= i < j < |deadlines| ==> deadlines[i].kind != deadlines[j].kind
      modifies this`rows, this`nextId
      ensures Filled(old(Log()), Log(), WantDeadlines(u, c, LoadZone(zones, tz), deadlines, leads))
      ensures forall k <- old(rows) :: k in rows && rows[k] == old(rows)[k]
      ensures forall d <- deadlines, lead <- leads :: Key(u, c, d.kind, lead) in rows
      ensures var z := if tz in zones then zones[tz] else UTC;
        forall k <- rows | k !in old(rows) :: ReminderOf(k, rows[k], u, c, z, leads, deadlines)
    {
      var z := if tz in zones then zones[tz] else UTC;
      FillDeadlines(u, c, z, leads, deadlines);
      MaterializedRows(old(Log()), Log(), u, c, z, leads, deadlines);
    }

    method FillUser(u: Id, c: Id, deadlines: seq<Deadline>)
      requires CatalogOk(Cat()) && (u, c) in stars && Lists(confs[c], deadlines)
      modifies this`rows, this`nextId
      ensures Filled(old(Log()), Log(), RecomputedPair(Cat(), u, c))
    {
      Materialize(u, c, settings[u].timezone, settings[u].leadDays, deadlines);
      WantDeadlinesIsPair(Cat(), u, c, deadlines);
    }

    method FillPair(u: Id, c: Id)
      requires CatalogOk(Cat()) && (u, c) in stars
      modifies this`rows, this`nextId
      ensures Filled(old(Log()), Log(), RecomputedPair(Cat(), u, c))
    {
      var deadlines := ConferenceDeadlines(confs[c]);
      FillUser(u, c, deadlines);
    }

    // ------------------------------------------------------------ service transactions

    method Rematerialize(c: Id)
      requires CatalogOk(Cat()) && c in confs
      modifies this`rows, this`nextId
      ensures Filled(DropPending(old(Log()), ConfRows(old(Log()), c)), Log(), RecomputedConf(Cat(), c))
    {
      DeleteConferencePendingReminders(c);
      var users := ListUsersStarring(c);
      var deadlines := ConferenceDeadlines(confs[c]);
      ghost var start := Log();
      for i := 0 to |users|
        invariant Filled(start, Log(), RecomputedUsers(Cat(), c, users[..i]))
      {
        ghost var mid := Log();
        FillUser(users[i], c, deadlines);
        UsersRound(Cat(), c, users, i, start, mid, Log());
      }
      AllUsers(Cat(), c, users);
    }

    method NewUser(u: Id, initial: Settings)
      modifies this`settings
      ensures NewUserStep(old(Cat()), old(Log()), Cat(), Log(), u, initial)
    {
      if u !in settings { settings := settings[u := initial]; }
    }

    method Create(fields: Conference) returns (c: Id)
      modifies this`confs, this`nextConf
      ensures c == old(nextConf) && CreateStep(old(Cat()), old(Log()), Cat(), Log(), fields)
    {
      c := nextConf;
      confs, nextConf := confs[c := fields.(archived := false)], nextConf + 1;
    }

    method Update(c: Id, fields: Conference) returns (found: bool)
      requires CatalogOk(Cat())
      modifies this`confs, this`rows, this`nextId
      ensures found == (c in old(confs))
      ensures UpdateStep(old(Cat()), old(Log()), Cat(), Log(), c, fields)
    {
      found := c in confs;
      if found {
        confs := confs[c := fields.(archived := confs[c].archived)];
        Rematerialize(c);
      }
    }

    method Archive(c: Id) returns (found: bool)
      modifies this`confs, this`rows
      ensures found == (c in old(confs))
      ensures ArchiveStep(old(Cat()), old(Log()), Cat(), Log(), c)
    {
      found := c in confs;
      if found {
        confs := confs[c := confs[c].(archived := true)];
        CancelConferenceReminders(c);
      }
    }

    method Unarchive(c: Id) returns (found: bool)
      modifies this`confs
      ensures found == (c in old(confs))
      ensures UnarchiveStep(old(Cat()), old(Log()), Cat(), Log(), c)
    {
      found := c in confs;
      if found { confs := confs[c := confs[c].(archived := false)]; }
    }

    // Every row refers to a conference: the table's foreign key.
    method Delete(c: Id) returns (found: bool)
      requires CatalogOk(Cat()) && forall k <- rows :: k.conf in confs
      modifies this`confs, this`stars, this`rows
      ensures found == (c in old(confs))
      ensures DeleteStep(old(Cat()), old(Log()), Cat(), Log(), c)
    {
      found := c in confs;
      if found {
        confs := confs - {c};
        stars := set p <- stars | p.1 != c;
        rows := map k <- rows | k.conf != c :: rows[k];
      } else {
        assert stars == set p <- stars | p.1 != c;
        assert confs == confs - {c};
      }
    }

    method SelectExpiredConferences(today: int, graceDays: int) returns (ids: seq<Id>)
      ensures forall c :: c in ids <==> c in confs && Expired(confs[c], today, graceDays)
      ensures forall c :: c in ids <==>
        && c in confs && !confs[c].archived
        && confs[c].eventEndDate.Some? && confs[c].eventEndDate.value < today - graceDays
    {
      var left := set c <- confs | Expired(confs[c], today, graceDays);
      ids := [];
      while left != {}
        invariant forall c :: c in left || c in ids <==> c in confs && Expired(confs[c], today, graceDays)
        decreases |left|
      {
        var c :| c in left;
        ids, left := ids + [c], left - {c};
      }
    }

    method SweepArchive(today: int, graceDays: int) returns (ids: seq<Id>)
      modifies this`confs, this`rows
      ensures SweepStep(old(Cat()), old(Log()), Cat(), Log(), today, graceDays, Elements(ids))
      ensures forall c <- confs :: !Expired(confs[c], today, graceDays)
      ensures confs.Keys == old(confs).Keys && forall c <- confs ::
        var before := old(confs)[c];
        var over := before.eventEndDate.Some? && before.eventEndDate.value < today - graceDays;
        confs[c] == before.(archived := before.archived || over)
    {
      ids := SelectExpiredConferences(today, graceDays);
      ghost var confs0, start := confs, Log();
      ghost var done: set<Id> := {};
      for i := 0 to |ids|
        invariant done == Elements(ids[..i])
        invariant confs == ArchivedAll(confs0, done)
        invariant Log() == CancelPending(start, SweptRows(start, done))
      {
        var c := ids[i];
        CancelConferenceReminders(c);
        confs := confs[c := confs[c].(archived := true)];
        SweepRound(confs0, start, done, c);
        done := done + {c};
        assert ids[..i + 1] == ids[..i] + [c];
      }
      assert ids[..|ids|] == ids;
    }

    method Star(u: Id, c: Id) returns (ok: bool)
      requires CatalogOk(Cat())
      modifies this`stars, this`rows, this`nextId
      ensures ok == (c in confs && u in settings)
      ensures StarStep(old(Cat()), old(Log()), Cat(), Log(), u, c)
    {
      ok := c in confs && u in settings;
      if ok {
        stars := stars + {(u, c)};
        FillPair(u, c);
      }
    }

    method Unstar(u: Id, c: Id) returns (found: bool)
      modifies this`stars, this`rows
      ensures found == (c in confs)
      ensures UnstarStep(old(Cat()), old(Log()), Cat(), Log(), u, c)
    {
      found := c in confs;
      if found {
        stars := stars - {(u, c)};
        CancelUserConferenceReminders(u, c);
      }
    }

    // One pass over a starred conference: its pending rows go and are filled in again.
    method RefillPair(u: Id, c: Id)
      requires CatalogOk(Cat()) && (u, c) in stars
      modifies this`rows, this`nextId
      ensures Filled(DropPending(old(Log()), PairRows(old(Log()), u, c)), Log(), RecomputedPair(Cat(), u, c))
    {
      DeleteUserConferencePendingReminders(u, c);
      FillPair(u, c);
    }

    method RefillStarred(u: Id)
      requires CatalogOk(Cat()) && u in settings
      modifies this`rows, this`nextId
      ensures Filled(DropPending(old(Log()), StarredRows(Cat(), old(Log()), u)), Log(), RecomputedUser(Cat(), u))
    {
      var starred := ListUserStarred(u);
      ghost var start, d := Log(), Cat();
      for i := 0 to |starred|
        invariant Filled(DropPending(start, UserRows(start, u, starred[..i])), Log(),
                         RecomputedConfs(d, u, starred[..i]))
      {
        ghost var before := Log();
        RefillPair(u, starred[i]);
        SettingsRound(d, start, before, DropPending(before, PairRows(before, u, starred[i])), Log(), u, starred, i);
      }
      assert starred[..|starred|] == starred;
      AllStarred(d, start, u, starred);
    }

    method ValidateSettings(s: Settings) returns (ok: bool)
      ensures ok <==> SettingsValid(s, zones)
    {
      if s.timezone !in zones || |s.leadDays| > 10 { return false; }
      for i := 0 to |s.leadDays|
        invariant forall l <- s.leadDays[..i] :: 0 <= l <= 365
      {
        var l := s.leadDays[i];
        assert l in s.leadDays && s.leadDays[..i + 1] == s.leadDays[..i] + [l];
        if l < 0 || l > 365 { return false; }
      }
      assert s.leadDays[..|s.leadDays|] == s.leadDays;
      if s.digestDay < 0 || s.digestDay > 6 || s.digestHour < 0 || s.digestHour > 23 { return false; }
      ok := !(s.digestHorizonWeeks < 1 || s.digestHorizonWeeks > 52);
    }

    method UpdateSettings(u: Id, s: Settings) returns (ok: bool)
      requires CatalogOk(Cat())
      modifies this`settings, this`rows, this`nextId
      ensures ok <==> u in old(settings) && SettingsValid(s, zones)
      ensures ok ==> s.timezone in zones && |s.leadDays| <= 10 && forall l <- s.leadDays :: 0 <= l <= 365
      ensures ok ==> 0 <= s.digestDay <= 6 && 0 <= s.digestHour <= 23 && 1 <= s.digestHorizonWeeks <= 52
      ensures SetSettingsStep(old(Cat()), old(Log()), Cat(), Log(), u, s)
    {
      ok := ValidateSettings(s);
      if !ok || u !in settings { return false; }
      settings := settings[u := s];
      RefillStarred(u);
    }

    /** One dispatch by the only scheduler with the configured limit: answers says how the mailer and the
        database respond. */
    method DispatchReminders(now: Instant, configured: int, answers: seq<Answer>, commitOk: bool)
      returns (batch: seq<Key>, sent: seq<Key>)
      requires |answers| >= BATCH_LIMIT
      modifies this`rows
      ensures IsBatch(old(rows), {}, now, batch)
      ensures sent == Mailed(batch, answers, |batch|)
      ensures rows == Committed(old(rows), After(batch, old(rows), answers, |batch|, MaxAttempts(configured)), commitOk)
      ensures forall k <- batch :: k in old(rows) && old(rows)[k].status == Pending && old(rows)[k].at <= now
      ensures forall k <- old(rows) | old(rows)[k].status == Pending && old(rows)[k].at <= now && k !in batch ::
        |batch| == 50 && forall j <- batch :: old(rows)[j].at <= old(rows)[k].at
      ensures forall i | 0 <= i < |batch| :: batch[i] in sent <==> answers[i].outcome.Delivered?
      ensures Effect(old(rows), rows, batch, answers, if configured == 0 then 3 else configured, commitOk)
    {
      batch, sent, rows := Dispatch(rows, now, MaxAttempts(configured), answers, commitOk);
    }
  }
}
