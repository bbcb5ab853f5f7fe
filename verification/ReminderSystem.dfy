/** Reminders end to end: service transactions and any number of scheduler workers over one database. */
module ReminderSystem {
  import opened DispatchLog
  import opened Dispatcher
  import opened DispatchRuns
  import opened Reminders
  import opened SendTime

  datatype System = System(cat: Catalog, core: State<Key>)

  /** The finished rows a service transaction removed. */
  ghost function Removed(t: Table<Key>, t': Table<Key>): map<Key, Row> {
    map k <- t.rows | Terminal(t.rows[k]) && k !in t'.rows :: t.rows[k]
  }

  /** A service transaction takes effect at once and only when no worker holds a row it would write. */
  ghost predicate ServiceNext(s: System, s': System, op: Op) {
    && OpStep(s.cat, s.core.log, s'.cat, s'.core.log, op)
    && (forall k <- Locked(s.core) | k in s.core.log.rows ::
          k in s'.core.log.rows && s'.core.log.rows[k] == s.core.log.rows[k])
    && s'.core == s.core.(log := s'.core.log, buried := s.core.buried + Removed(s.core.log, s'.core.log))
  }

  ghost predicate Next(s: System, s': System, max: int) {
    || (exists op :: ServiceNext(s, s', op))
    || (s'.cat == s.cat && exists step: Step<Key> :: WorkerStep(s.core, s'.core, step, max))
  }

  ghost predicate SystemRun(run: seq<System>, max: int) {
    && |run| > 0
    && CatalogOk(run[0].cat) && run[0].cat.stars == {} && Start(run[0].core)
    && forall i :: 0 <= i < |run| - 1 ==> Next(run[i], run[i + 1], max)
  }

  /** Rows and stars point at live conferences, and what was deleted stays deleted: ids are not reused. */
  ghost predicate ReferencesOk(s: System) {
    && CatalogOk(s.cat)
    && (forall k <- s.core.log.rows :: k.conf in s.cat.confs)
    && (forall k <- s.core.buried :: k.conf !in s.cat.confs && k.conf < s.cat.nextConf)
  }

  ghost predicate SystemInv(s: System, max: int) {
    ReferencesOk(s) && View(s.cat, s.core.log) && Inv(s.core, max)
  }

  // ---------------------------------------------------------------- service transactions respect the protocol

  lemma DroppedThenFilled(t: Table<Key>, t': Table<Key>, which: set<Key>, want: map<Key, Instant>,
                          buried: map<Key, Row>)
    requires DistinctIds(t) && Filled(DropPending(t, which), t', want)
    ensures DistinctIds(t') && t.nextId <= t'.nextId
    ensures forall k <- t.rows :: RowServed(t, t', buried, k)
    ensures forall k <- t'.rows | k !in t.rows :: k in want && Fresh(t.nextId, t'.rows[k], t'.nextId)
    ensures forall k <- t.rows | Terminal(t.rows[k]) :: k in t'.rows
  {
    var mid := DropPending(t, which);
    FilledKeepsIds(mid, t', want);
    forall k <- t'.rows | k !in mid.rows ensures Fresh(t.nextId, t'.rows[k], t'.nextId) {
      assert FreshRow(t'.rows[k], want[k], t.nextId, t'.nextId);
    }
  }

  lemma JustFilled(t: Table<Key>, t': Table<Key>, want: map<Key, Instant>, buried: map<Key, Row>)
    requires DistinctIds(t) && Filled(t, t', want)
    ensures DistinctIds(t') && t.nextId <= t'.nextId
    ensures forall k <- t.rows :: RowServed(t, t', buried, k)
    ensures forall k <- t'.rows | k !in t.rows :: k in want && Fresh(t.nextId, t'.rows[k], t'.nextId)
    ensures forall k <- t.rows | Terminal(t.rows[k]) :: k in t'.rows
  {
    assert DropPending(t, {}) == t;
    DroppedThenFilled(t, t', {}, want, buried);
  }

  lemma JustCancelled(t: Table<Key>, which: set<Key>, buried: map<Key, Row>)
    requires DistinctIds(t)
    ensures DistinctIds(CancelPending(t, which))
    ensures forall k <- t.rows :: RowServed(t, CancelPending(t, which), buried, k)
  {}

  /** What every service transaction does to the rows of the table. */
  lemma OpRows(d: Catalog, t: Table<Key>, d': Catalog, t': Table<Key>, op: Op, buried: map<Key, Row>)
    requires CatalogOk(d) && CatalogOk(d') && DistinctIds(t) && OpStep(d, t, d', t', op)
    requires op.Delete? ==>
      forall k <- t.rows | Terminal(t.rows[k]) && k !in t'.rows :: k in buried && buried[k] == t.rows[k]
    ensures DistinctIds(t') && t.nextId <= t'.nextId
    ensures forall k <- t.rows :: RowServed(t, t', buried, k)
    ensures forall k <- t'.rows | k !in t.rows :: Wanted(d', k) && Fresh(t.nextId, t'.rows[k], t'.nextId)
    ensures forall k <- t.rows | Terminal(t.rows[k]) && k !in t'.rows :: op.Delete? && k.conf == op.conf
  {
    match op
    case Update(c, fields) =>
      if c in d.confs { DroppedThenFilled(t, t', ConfRows(t, c), RecomputedConf(d', c), buried); }
    case SetSettings(u, s) =>
      if u in d.settings && SettingsValid(s, d.zones) {
        DroppedThenFilled(t, t', StarredRows(d, t, u), RecomputedUser(d', u), buried);
      }
    case Star(u, c) =>
      if c in d.confs && u in d.settings { JustFilled(t, t', RecomputedPair(d', u, c), buried); }
    case Archive(c) => JustCancelled(t, ConfRows(t, c), buried);
    case Unstar(u, c) => JustCancelled(t, PairRows(t, u, c), buried);
    case Sweep(_, _, ids) => JustCancelled(t, SweptRows(t, ids), buried);
    case _ =>
  }

  lemma ConfsOnlyGo(d: Catalog, t: Table<Key>, d': Catalog, t': Table<Key>, op: Op)
    requires CatalogOk(d) && OpStep(d, t, d', t', op)
    ensures d'.nextConf >= d.nextConf
    ensures d'.confs.Keys <= d.confs.Keys + {d.nextConf}
    ensures forall c <- d.confs :: c in d'.confs || (op.Delete? && op.conf == c)
    ensures op.Delete? ==> op.conf !in d'.confs && forall k <- t'.rows :: k.conf != op.conf
  {}

  lemma ServiceServed(s: System, s': System, op: Op)
    requires ReferencesOk(s) && TableOk(s.core) && ServiceNext(s, s', op)
    ensures ServiceStep(s.core, s'.core) && ReferencesOk(s')
  {
    CatalogKept(s.cat, s.core.log, s'.cat, s'.core.log, op);
    ConfsOnlyGo(s.cat, s.core.log, s'.cat, s'.core.log, op);
    OpRows(s.cat, s.core.log, s'.cat, s'.core.log, op, s'.core.buried);
    forall k <- s'.core.log.rows ensures k.conf in s'.cat.confs {
      if k !in s.core.log.rows { assert Wanted(s'.cat, k); }
    }
    forall k <- s'.core.buried ensures k.conf !in s'.cat.confs && k.conf < s'.cat.nextConf {
      assert k in s.core.buried || k in Removed(s.core.log, s'.core.log);
    }
  }

  // ---------------------------------------------------------------- workers keep the view

  lemma MarksAgree(d: Catalog, t: Table<Key>, tx: Tx<Key>, max: int, k: Key)
    requires CatalogOk(d) && Agrees(d, t, k) && TxOk(t.rows, tx, max)
    ensures Agrees(d, t.(rows := t.rows + tx.marks), k)
    ensures (t.rows + tx.marks).Keys == t.rows.Keys
  {
    if k in tx.marks {
      assert t.rows[k].status.Pending? && tx.marks[k].at == t.rows[k].at;
    }
  }

  lemma WorkerKeepsView(s: System, s': System, step: Step<Key>, max: int)
    requires ReferencesOk(s) && View(s.cat, s.core.log) && LocksOk(s.core, max)
    requires s'.cat == s.cat && WorkerStep(s.core, s'.core, step, max)
    ensures ReferencesOk(s') && View(s'.cat, s'.core.log)
  {
    if step.Commit? {
      var tx := s.core.txs[step.worker];
      forall k ensures Agrees(s'.cat, s'.core.log, k) && (s.core.log.rows + tx.marks).Keys == s.core.log.rows.Keys {
        assert Agrees(s.cat, s.core.log, k);
        MarksAgree(s.cat, s.core.log, tx, max, k);
      }
    }
  }

  lemma SystemInvNext(s: System, s': System, max: int)
    requires SystemInv(s, max) && Next(s, s', max)
    ensures SystemInv(s', max) && StepOk(s.core, s'.core, max)
  {
    if op :| ServiceNext(s, s', op) {
      ServiceServed(s, s', op);
      InvService(s.core, s'.core, max);
      OpKeepsView(s.cat, s.core.log, s'.cat, s'.core.log, op);
    } else {
      var step: Step<Key> :| WorkerStep(s.core, s'.core, step, max);
      WorkerKeepsView(s, s', step, max);
      InvWorker(s.core, s'.core, step, max);
    }
  }

  lemma SystemInvStart(s: System, max: int)
    requires CatalogOk(s.cat) && s.cat.stars == {} && Start(s.core)
    ensures SystemInv(s, max)
  {
    InvStart(s.core, max);
  }

  lemma {:induction false} SystemRunInv(run: seq<System>, max: int, i: nat)
    requires SystemRun(run, max) && i < |run|
    ensures SystemInv(run[i], max)
  {
    if i == 0 {
      SystemInvStart(run[0], max);
    } else {
      SystemRunInv(run, max, i - 1);
      assert Next(run[i - 1], run[i - 1 + 1], max);
      SystemInvNext(run[i - 1], run[i], max);
    }
  }

  ghost function Cores(run: seq<System>): (cores: seq<State<Key>>)
    ensures |cores| == |run| && forall i :: 0 <= i < |run| ==> cores[i] == run[i].core
  {
    seq(|run|, i requires 0 <= i < |run| => run[i].core)
  }

  /** Every run of the system is a run of the dispatch protocol, so all its theorems hold of reminders. */
  lemma ProtocolRun(run: seq<System>, max: int)
    requires SystemRun(run, max)
    ensures Run(Cores(run), max)
  {
    forall i: nat | i + 1 < |run| ensures StepAt(Cores(run), max, i) {
      SystemRunInv(run, max, i);
      assert Next(run[i], run[i + 1], max);
      SystemInvNext(run[i], run[i + 1], max);
    }
  }

  /** In every reachable state the pending rows are exactly the starred, set deadlines and chosen leads that have
      no finished row, each due at nine in the user's zone as recomputed from the current deadline and lead. */
  lemma ViewInEveryState(run: seq<System>, max: int, i: nat, k: Key)
    requires SystemRun(run, max) && i < |run|
    ensures
      var d, rows := run[i].cat, run[i].core.log.rows;
      && ((k in rows && rows[k].status == Pending) <==>
           && (k.user, k.conf) in d.stars && k.conf in d.confs && DeadlineOf(d.confs[k.conf], k.kind).Some?
           && k.user in d.settings && k.lead in d.settings[k.user].leadDays
           && !(k in rows && rows[k].status != Pending))
      && (k in rows && rows[k].status == Pending ==>
            var tz := d.settings[k.user].timezone;
            var z := if tz in d.zones then d.zones[tz] else UTC;
            rows[k].at == FromWall(z, Nine(z, DeadlineOf(d.confs[k.conf], k.kind).value, k.lead)))
  {
    SystemRunInv(run, max, i);
    assert Agrees(run[i].cat, run[i].core.log, k);
    if Wanted(run[i].cat, k) { SendsAtNineThere(run[i].cat, k); }
  }

  /** No reminder goes out before its time: when it is mailed, a selection that took it had found that the send
      time, as it still is, had come. */
  lemma NoMailEarly(run: seq<System>, max: int, i: nat, w: nat, sqlOk: bool) returns (j: nat, now: Instant)
    requires SystemRun(run, max) && i + 1 < |run|
    requires ProcessStep(run[i].core, run[i + 1].core, w, Delivered, sqlOk, max)
    ensures j < i && SelectStep(run[j].core, run[j + 1].core, w, now, run[i].core.txs[w].batch)
    ensures var k := NextKey(run[i].core, w); Wanted(run[i].cat, k) && SendAt(run[i].cat, k) <= now
  {
    ProtocolRun(run, max);
    j, now := SelectedBefore(Cores(run), max, i, w);
    SystemRunInv(run, max, i);
    assert Agrees(run[i].cat, run[i].core.log, NextKey(run[i].core, w));
  }

  /** Reminder mails over a whole run: see DispatchRuns.MailsPerKey. */
  lemma ReminderMails(run: seq<System>, max: int, i: nat, k: Key)
    requires SystemRun(run, max) && i < |run|
    ensures run[i].core.mails[k] <= 1 + run[i].core.lost[k]
    ensures k in run[i].core.log.rows && run[i].core.log.rows[k].status.Sent? && run[i].core.lost[k] == 0 ==>
        run[i].core.mails[k] == 1
  {
    ProtocolRun(run, max);
    MailsPerKey(Cores(run), max, i, k);
  }

  /** Once finished, a reminder stays as it is for as long as its conference exists, and with the conference
      it is gone for good. */
  lemma FinishedStays(run: seq<System>, max: int, i: nat, j: nat, k: Key)
    requires SystemRun(run, max) && i <= j < |run|
    requires k in run[i].core.log.rows && Terminal(run[i].core.log.rows[k])
    ensures if k.conf in run[j].cat.confs
            then k in run[j].core.log.rows && run[j].core.log.rows[k] == run[i].core.log.rows[k]
            else k !in run[j].core.log.rows
  {
    ProtocolRun(run, max);
    TerminalForever(Cores(run), max, i, j, k);
    SystemRunInv(run, max, j);
  }

  /** Unstarring is final for the reminders it cancels: no later star, update or settings change makes
      one of those keys pending again. */
  lemma UnstarIsFinal(run: seq<System>, max: int, i: nat, j: nat, k: Key)
    requires SystemRun(run, max) && i < j < |run|
    requires ServiceNext(run[i], run[i + 1], Unstar(k.user, k.conf))
    requires k in run[i].core.log.rows
    ensures !(k in run[j].core.log.rows && run[j].core.log.rows[k].status.Pending?)
  {
    SystemRunInv(run, max, i);
    ProtocolRun(run, max);
    assert k in PairRows(run[i].core.log, k.user, k.conf);
    TerminalForever(Cores(run), max, i + 1, j, k);
  }
}
