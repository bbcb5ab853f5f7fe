/** The dispatch protocol shared by reminders and digests: any number of workers each lock a batch,
    send mail row by row, and record every outcome in one commit at the end. The key type K is the
    table's UNIQUE key, so one proof serves both tables. */
module Dispatcher {
  import opened DispatchLog

  const BATCH_LIMIT := 50
  const DEFAULT_MAX_ATTEMPTS := 3

  /** What one pass of the dispatch loop meets: a template error, a digest without items,
      an accepted mail, or a refused one. */
  datatype Outcome = Unrendered | Nothing | Delivered | Refused

  /** A worker's open transaction: its locked batch, how many rows it has handled, the updates no one
      else can see yet, the rows it has mailed, and whether a statement failed inside it. */
  datatype Tx<K> = Tx(batch: seq<K>, done: nat, marks: map<K, Row>, delivered: set<K>, poisoned: bool)

  /** The committed table, the finished rows a cascade removed, the open transactions, and what
      the world has seen: accepted mails, aborted transactions, mails whose transaction was aborted, and
      committed refusals, the first two counted both per key and per row id. */
  datatype State<K> = State(
    log: Table<K>,
    buried: map<K, Row>,
    txs: map<nat, Tx<K>>,
    mails: multiset<K>,
    mailsFor: multiset<nat>,
    lost: multiset<K>,
    lostFor: multiset<nat>,
    wasted: multiset<K>,
    failures: multiset<nat>)

  datatype Step<K> =
    | Select(worker: nat, now: Instant, batch: seq<K>)
    | Process(worker: nat, outcome: Outcome, sqlOk: bool)
    | Commit(worker: nat)
    | Abort(worker: nat)

  // New: an unset MaxAttempts means three.
  function MaxAttempts(configured: int): int {
    if configured == 0 then DEFAULT_MAX_ATTEMPTS else configured
  }

  /** Refusals a row can survive before it fails; a configured value below one acts like one. */
  function Limit(max: int): nat {
    if max < 1 then 1 else max
  }

  predicate Due(row: Row, now: Instant) {
    row.status.Pending? && row.at <= now
  }

  predicate Terminal(row: Row) {
    !row.status.Pending?
  }

  ghost predicate Distinct<K>(s: seq<K>) {
    forall i, j :: 0 <= i < j < |s| ==> s[i] != s[j]
  }

  /** The answer of SELECT ... WHERE pending AND due ORDER BY scheduled_for LIMIT 50 SKIP LOCKED. */
  ghost predicate IsBatch<K>(rows: map<K, Row>, locked: set<K>, now: Instant, batch: seq<K>) {
    && |batch| <= BATCH_LIMIT
    && Distinct(batch)
    && (forall k <- batch :: k in rows && k !in locked && Due(rows[k], now))
    && (forall i, j :: 0 <= i < j < |batch| ==> rows[batch[i]].at <= rows[batch[j]].at)
    && (forall k <- rows | Due(rows[k], now) && k !in locked && k !in batch ::
          |batch| == BATCH_LIMIT && forall j <- batch :: rows[j].at <= rows[k].at)
  }

  // The status and counter a row is given after its mail was tried.
  function AfterSend(row: Row, outcome: Outcome, max: int): Row {
    match outcome
    case Unrendered => row
    case Nothing => row.(status := Skipped)
    case Delivered => row.(status := Sent)
    case Refused =>
      if row.attempts + 1 >= max then row.(status := Failed) else row.(attempts := row.attempts + 1)
  }

  // One pass of the loop body over the next row of the batch. A failed statement leaves the
  // transaction unusable, yet the loop goes on mailing the rest of its batch.
  function ProcessNext<K(==)>(tx: Tx<K>, row: Row, outcome: Outcome, sqlOk: bool, max: int): Tx<K>
    requires tx.done < |tx.batch|
  {
    var k := tx.batch[tx.done];
    tx.(done := tx.done + 1,
        marks := if outcome.Unrendered? || tx.poisoned || !sqlOk then tx.marks
                 else tx.marks[k := AfterSend(row, outcome, max)],
        delivered := if outcome.Delivered? then tx.delivered + {k} else tx.delivered,
        poisoned := tx.poisoned || (!outcome.Unrendered? && !sqlOk))
  }

  ghost function Locked<K>(s: State<K>): set<K> {
    set w <- s.txs, k <- s.txs[w].batch :: k
  }

  ghost predicate InFlight<K>(s: State<K>, k: K) {
    exists w <- s.txs :: k in s.txs[w].delivered
  }

  ghost function RowIds<K>(rows: map<K, Row>, keys: set<K>): set<nat> {
    set k <- keys | k in rows :: rows[k].id
  }

  ghost function RefusedKeys<K>(tx: Tx<K>): set<K> {
    set k <- tx.marks | tx.marks[k].status.Failed? || tx.marks[k].status.Pending?
  }

  ghost function BatchSet<K>(tx: Tx<K>): set<K> {
    set k <- tx.batch
  }

  ghost predicate SelectStep<K>(s: State<K>, s': State<K>, w: nat, now: Instant, batch: seq<K>) {
    && w !in s.txs
    && IsBatch(s.log.rows, Locked(s), now, batch)
    && s' == s.(txs := s.txs[w := Tx(batch, 0, map[], {}, false)])
  }

  ghost function NextKey<K>(s: State<K>, w: nat): K
    requires w in s.txs && s.txs[w].done < |s.txs[w].batch|
  {
    s.txs[w].batch[s.txs[w].done]
  }

  ghost predicate ProcessStep<K>(s: State<K>, s': State<K>, w: nat, outcome: Outcome, sqlOk: bool, max: int) {
    && w in s.txs
    && s.txs[w].done < |s.txs[w].batch|
    && NextKey(s, w) in s.log.rows
    && var row := s.log.rows[NextKey(s, w)];
    s' == s.(txs := s.txs[w := ProcessNext(s.txs[w], row, outcome, sqlOk, max)],
             mails := if outcome.Delivered? then s.mails + multiset{NextKey(s, w)} else s.mails,
             mailsFor := if outcome.Delivered? then s.mailsFor + multiset{row.id} else s.mailsFor)
  }

  ghost predicate CommitStep<K>(s: State<K>, s': State<K>, w: nat) {
    && w in s.txs
    && !s.txs[w].poisoned
    && s.txs[w].done == |s.txs[w].batch|
    && s' == s.(log := s.log.(rows := s.log.rows + s.txs[w].marks),
                txs := s.txs - {w},
                failures := s.failures + multiset(RowIds(s.log.rows, RefusedKeys(s.txs[w]))))
  }

  // A crash, a lost connection, a failed statement or a failed commit: the locks go, the mails stay sent.
  ghost predicate AbortStep<K>(s: State<K>, s': State<K>, w: nat) {
    && w in s.txs
    && s' == s.(txs := s.txs - {w},
                lost := s.lost + multiset(BatchSet(s.txs[w])),
                lostFor := s.lostFor + multiset(RowIds(s.log.rows, BatchSet(s.txs[w]))),
                wasted := s.wasted + multiset(s.txs[w].delivered))
  }

  ghost predicate WorkerStep<K>(s: State<K>, s': State<K>, step: Step<K>, max: int) {
    match step
    case Select(w, now, batch) => SelectStep(s, s', w, now, batch)
    case Process(w, outcome, sqlOk) => ProcessStep(s, s', w, outcome, sqlOk, max)
    case Commit(w) => CommitStep(s, s', w)
    case Abort(w) => AbortStep(s, s', w)
  }

  ghost predicate Fresh(t: nat, row: Row, t': nat) {
    FreshRow(row, row.at, t, t')
  }

  /** What a service transaction may do to one row: leave it, cancel it while pending, replace it by a
      fresh one (or none) while pending, or remove it for good. */
  ghost predicate RowServed<K>(log: Table<K>, log': Table<K>, buried': map<K, Row>, k: K)
    requires k in log.rows
  {
    || (k in log'.rows && log'.rows[k] == log.rows[k])
    || (log.rows[k].status.Pending? && k in log'.rows && log'.rows[k] == log.rows[k].(status := Cancelled))
    || (log.rows[k].status.Pending? && (k in log'.rows ==> Fresh(log.nextId, log'.rows[k], log'.nextId)))
    || (k !in log'.rows && k in buried' && buried'[k] == log.rows[k])
  }

  /** A service transaction, serialised at its commit: it waits for every row lock it would need. */
  ghost predicate Served<K>(log: Table<K>, log': Table<K>, buried: map<K, Row>, buried': map<K, Row>, locked: set<K>) {
    && log.nextId <= log'.nextId
    && (forall k <- locked | k in log.rows :: k in log'.rows && log'.rows[k] == log.rows[k])
    && (forall k <- log.rows :: RowServed(log, log', buried', k))
    && (forall k <- log'.rows | k !in log.rows :: k !in buried && Fresh(log.nextId, log'.rows[k], log'.nextId))
    && DistinctIds(log')
    && (forall k <- buried :: k in buried' && buried'[k] == buried[k])
    && (forall k <- buried' | k !in buried :: k in log.rows && buried'[k] == log.rows[k])
    && buried'.Keys !! log'.rows.Keys
  }

  ghost predicate ServiceStep<K>(s: State<K>, s': State<K>) {
    && Served(s.log, s'.log, s.buried, s'.buried, Locked(s))
    && s' == s.(log := s'.log, buried := s'.buried)
  }

  // ---------------------------------------------------------------- invariants

  ghost predicate Start<K>(s: State<K>) {
    && s.log.rows == map[] && s.buried == map[] && s.txs == map[]
    && s.mails == multiset{} && s.mailsFor == multiset{}
    && s.lost == multiset{} && s.lostFor == multiset{} && s.wasted == multiset{} && s.failures == multiset{}
  }

  /** Locks: every batch holds distinct pending rows of the committed table, no row is in two batches,
      and what a transaction has prepared concerns rows it has already handled. */
  ghost predicate TxOk<K>(rows: map<K, Row>, tx: Tx<K>, max: int) {
    && Distinct(tx.batch)
    && tx.done <= |tx.batch|
    && (forall k <- tx.batch :: k in rows && rows[k].status.Pending?)
    && (forall k <- tx.marks :: k in tx.batch[..tx.done]
          && tx.marks[k] in {AfterSend(rows[k], Nothing, max), AfterSend(rows[k], Delivered, max),
            AfterSend(rows[k], Refused, max)}
          && (tx.marks[k].status.Sent? ==> k in tx.delivered))
    && (forall k <- tx.delivered :: k in tx.batch[..tx.done]
          && (!tx.poisoned ==> k in tx.marks && tx.marks[k].status.Sent?))
  }

  ghost predicate LocksOk<K>(s: State<K>, max: int) {
    && (forall w <- s.txs :: TxOk(s.log.rows, s.txs[w], max))
    && (forall w <- s.txs, v <- s.txs | w != v :: BatchSet(s.txs[w]) !! BatchSet(s.txs[v]))
  }

  ghost predicate TableOk<K>(s: State<K>) {
    DistinctIds(s.log) && s.buried.Keys !! s.log.rows.Keys
  }

  /** The counter of a row that has not failed is its number of committed refusals and stays below the
      limit; a failed row has seen exactly the limit although its counter stopped one short. */
  predicate RefusalsCounted(row: Row, refusals: nat, max: int) {
    if row.status.Failed? then row.attempts == Limit(max) - 1 && refusals == Limit(max)
    else row.attempts < Limit(max) && refusals == row.attempts
  }

  ghost predicate AttemptsOk<K(!new)>(s: State<K>, max: int) {
    && (forall k <- s.log.rows :: RefusalsCounted(s.log.rows[k], s.failures[s.log.rows[k].id], max))
    && (forall id: nat :: s.failures[id] <= Limit(max) && (id >= s.log.nextId ==> s.failures[id] == 0))
  }

  ghost predicate SentNow<K>(s: State<K>, k: K) {
    k in s.log.rows && s.log.rows[k].status.Sent?
  }

  /** Per key: one mail at most beyond the transactions that were lost while holding the key. */
  ghost predicate KeyLedgerOk<K(!new)>(s: State<K>) {
    && (forall k: K :: s.mails[k] <= s.lost[k] + if SentNow(s, k) || k in s.buried || InFlight(s, k) then 1 else 0)
    && (forall k: K :: SentNow(s, k) || InFlight(s, k) ==> s.mails[k] >= 1)
  }

  /** Per row: the same for the individual row, whatever happened to other rows of its key. */
  ghost predicate RowLedgerOk<K(!new)>(s: State<K>) {
    && (forall k <- s.log.rows ::
          var id := s.log.rows[k].id;
          && s.mailsFor[id] <= s.lostFor[id] + (if SentNow(s, k) || InFlight(s, k) then 1 else 0)
          && (SentNow(s, k) || InFlight(s, k) ==> s.mailsFor[id] >= 1))
    && (forall id: nat :: s.mailsFor[id] <= s.lostFor[id] + 1 && (id >= s.log.nextId ==> s.mailsFor[id] == 0))
  }

  ghost predicate Inv<K(!new)>(s: State<K>, max: int) {
    TableOk(s) && LocksOk(s, max) && AttemptsOk(s, max) && KeyLedgerOk(s) && RowLedgerOk(s)
  }

  lemma InvStart<K(!new)>(s: State<K>, max: int)
    requires Start(s)
    ensures Inv(s, max)
  {}

  lemma InFlightSelect<K(!new)>(s: State<K>, s': State<K>, w: nat, now: Instant, batch: seq<K>)
    requires SelectStep(s, s', w, now, batch)
    ensures forall k: K :: InFlight(s', k) <==> InFlight(s, k)
  {
    forall k: K ensures InFlight(s', k) <==> InFlight(s, k) {
      if InFlight(s, k) {
        var v :| v in s.txs && k in s.txs[v].delivered;
        assert v in s'.txs && k in s'.txs[v].delivered;
      }
    }
  }

  lemma LocksSelect<K(!new)>(s: State<K>, s': State<K>, w: nat, now: Instant, batch: seq<K>, max: int)
    requires LocksOk(s, max) && SelectStep(s, s', w, now, batch)
    ensures LocksOk(s', max)
  {
    forall v <- s.txs ensures BatchSet(s.txs[v]) !! BatchSet(s'.txs[w]) {
      forall k <- BatchSet(s.txs[v]) ensures k in Locked(s) {}
    }
  }

  lemma InvSelect<K(!new)>(s: State<K>, s': State<K>, w: nat, now: Instant, batch: seq<K>, max: int)
    requires Inv(s, max) && SelectStep(s, s', w, now, batch)
    ensures Inv(s', max)
  {
    InFlightSelect(s, s', w, now, batch);
    LocksSelect(s, s', w, now, batch, max);
  }

  lemma InFlightProcess<K(!new)>(s: State<K>, s': State<K>, w: nat, outcome: Outcome, sqlOk: bool, max: int)
    requires LocksOk(s, max) && ProcessStep(s, s', w, outcome, sqlOk, max)
    ensures forall k: K :: InFlight(s', k) <==> InFlight(s, k) || (outcome.Delivered? && k == NextKey(s, w))
    ensures !InFlight(s, NextKey(s, w))
  {
    var key := NextKey(s, w);
    forall k: K
      ensures InFlight(s', k) <==> InFlight(s, k) || (outcome.Delivered? && k == key)
    {
      if InFlight(s, k) {
        var v :| v in s.txs && k in s.txs[v].delivered;
        assert v in s'.txs && k in s'.txs[v].delivered;
      }
      if outcome.Delivered? && k == key { assert k in s'.txs[w].delivered; }
    }
    forall v <- s.txs ensures key !in s.txs[v].delivered {
      if v != w {
        assert key in BatchSet(s.txs[w]);
        assert key !in BatchSet(s.txs[v]);
      } else {
        assert key !in s.txs[w].batch[..s.txs[w].done];
      }
    }
  }

  lemma TxOkProcess<K(!new)>(rows: map<K, Row>, tx: Tx<K>, outcome: Outcome, sqlOk: bool, max: int)
    requires TxOk(rows, tx, max) && tx.done < |tx.batch|
    ensures TxOk(rows, ProcessNext(tx, rows[tx.batch[tx.done]], outcome, sqlOk, max), max)
  {
    var tx' := ProcessNext(tx, rows[tx.batch[tx.done]], outcome, sqlOk, max);
    assert tx'.batch[..tx'.done] == tx.batch[..tx.done] + [tx.batch[tx.done]];
    assert tx.batch[tx.done] !in tx.batch[..tx.done];
  }

  lemma LocksProcess<K(!new)>(s: State<K>, s': State<K>, w: nat, outcome: Outcome, sqlOk: bool, max: int)
    requires LocksOk(s, max) && ProcessStep(s, s', w, outcome, sqlOk, max)
    ensures LocksOk(s', max)
  {
    TxOkProcess(s.log.rows, s.txs[w], outcome, sqlOk, max);
    assert forall v <- s'.txs :: BatchSet(s'.txs[v]) == BatchSet(s.txs[v]);
  }

  lemma KeyLedgerProcess<K(!new)>(s: State<K>, s': State<K>, w: nat, outcome: Outcome, sqlOk: bool, max: int)
    requires LocksOk(s, max) && TableOk(s) && KeyLedgerOk(s) && ProcessStep(s, s', w, outcome, sqlOk, max)
    ensures KeyLedgerOk(s')
  {
    InFlightProcess(s, s', w, outcome, sqlOk, max);
    assert s.log.rows[NextKey(s, w)].status.Pending?;
    assert forall k: K :: s'.mails[k] == s.mails[k] + if outcome.Delivered? && k == NextKey(s, w) then 1 else 0;
  }

  lemma RowLedgerProcess<K(!new)>(s: State<K>, s': State<K>, w: nat, outcome: Outcome, sqlOk: bool, max: int)
    requires LocksOk(s, max) && TableOk(s) && RowLedgerOk(s) && ProcessStep(s, s', w, outcome, sqlOk, max)
    ensures RowLedgerOk(s')
  {
    InFlightProcess(s, s', w, outcome, sqlOk, max);
    var row := s.log.rows[NextKey(s, w)];
    assert row.status.Pending?;
    assert forall id: nat :: s'.mailsFor[id] == s.mailsFor[id] + if outcome.Delivered? && id == row.id then 1 else 0;
  }

  lemma InFlightRemoved<K(!new)>(s: State<K>, s': State<K>, w: nat, max: int)
    requires LocksOk(s, max) && w in s.txs && s'.txs == s.txs - {w}
    ensures forall k: K :: InFlight(s, k) <==> InFlight(s', k) || k in s.txs[w].delivered
    ensures forall k <- s.txs[w].delivered :: !InFlight(s', k)
  {
    forall k: K
      ensures InFlight(s, k) <==> InFlight(s', k) || k in s.txs[w].delivered
    {
      if InFlight(s, k) {
        var v :| v in s.txs && k in s.txs[v].delivered;
        if v != w { assert v in s'.txs && k in s'.txs[v].delivered; }
      }
      if InFlight(s', k) {
        var v :| v in s'.txs && k in s'.txs[v].delivered;
        assert v in s.txs && k in s.txs[v].delivered;
      }
    }
    forall k <- s.txs[w].delivered, v <- s'.txs ensures k !in s'.txs[v].delivered {
      assert k in BatchSet(s.txs[w]);
      assert k !in BatchSet(s.txs[v]);
    }
  }

  lemma LocksCommit<K(!new)>(s: State<K>, s': State<K>, w: nat, max: int)
    requires LocksOk(s, max) && CommitStep(s, s', w)
    ensures LocksOk(s', max)
    ensures s'.log.rows.Keys == s.log.rows.Keys
    ensures forall k <- s.log.rows :: s'.log.rows[k].id == s.log.rows[k].id
  {
    RowsCommit(s, s', w, max);
    forall v <- s'.txs ensures TxOk(s'.log.rows, s'.txs[v], max) {
      assert TxOk(s.log.rows, s.txs[v], max);
      forall k <- s'.txs[v].batch ensures k in s'.log.rows && s'.log.rows[k] == s.log.rows[k] {
        assert k in BatchSet(s.txs[v]);
      }
    }
  }

  lemma RowsCommit<K(!new)>(s: State<K>, s': State<K>, w: nat, max: int)
    requires LocksOk(s, max) && CommitStep(s, s', w)
    ensures s'.log.rows.Keys == s.log.rows.Keys
    ensures forall k <- s.log.rows :: s'.log.rows[k].id == s.log.rows[k].id
    ensures forall v <- s'.txs, k <- BatchSet(s.txs[v]) :: k in s.log.rows && s'.log.rows[k] == s.log.rows[k]
  {
    assert TxOk(s.log.rows, s.txs[w], max);
    forall v <- s'.txs, k <- BatchSet(s.txs[v]) ensures k in s.log.rows && k !in s.txs[w].marks {
      assert TxOk(s.log.rows, s.txs[v], max) && k !in BatchSet(s.txs[w]);
    }
  }

  // One committed row: its refusal counter moves exactly when it was refused.
  lemma MarkedRow(row: Row, mark: Row, max: int, refusals: nat)
    requires row.status.Pending? && RefusalsCounted(row, refusals, max)
    requires mark in {AfterSend(row, Nothing, max), AfterSend(row, Delivered, max), AfterSend(row, Refused, max)}
    ensures RefusalsCounted(mark, refusals + if mark.status.Failed? || mark.status.Pending? then 1 else 0, max)
    ensures mark.id == row.id && refusals < Limit(max)
  {}

  lemma RefusalsCommit<K(!new)>(s: State<K>, s': State<K>, w: nat, max: int)
    requires LocksOk(s, max) && TableOk(s) && CommitStep(s, s', w)
    ensures forall k <- s.log.rows ::
      s'.failures[s.log.rows[k].id] == s.failures[s.log.rows[k].id] + if k in RefusedKeys(s.txs[w]) then 1 else 0
    ensures forall id: nat ::
      s.failures[id] == s'.failures[id]
      || exists k :: k in RefusedKeys(s.txs[w]) && k in s.log.rows && id == s.log.rows[k].id
  {
    var refused := RefusedKeys(s.txs[w]);
    var ids := RowIds(s.log.rows, refused);
    assert forall id: nat :: s'.failures[id] == s.failures[id] + if id in ids then 1 else 0;
    forall k <- s.log.rows ensures s.log.rows[k].id in ids <==> k in refused {}
  }

  lemma RowCommit<K(!new)>(s: State<K>, s': State<K>, w: nat, max: int, k: K)
    requires LocksOk(s, max) && TableOk(s) && AttemptsOk(s, max) && CommitStep(s, s', w) && k in s.log.rows
    ensures k in s'.log.rows && s'.log.rows[k].id == s.log.rows[k].id
    ensures RefusalsCounted(s'.log.rows[k], s'.failures[s'.log.rows[k].id], max)
  {
    var tx := s.txs[w];
    RefusalsCommit(s, s', w, max);
    if k in tx.marks {
      MarkedRow(s.log.rows[k], tx.marks[k], max, s.failures[s.log.rows[k].id]);
    }
  }

  lemma AttemptsCommit<K(!new)>(s: State<K>, s': State<K>, w: nat, max: int)
    requires LocksOk(s, max) && TableOk(s) && AttemptsOk(s, max) && CommitStep(s, s', w)
    ensures AttemptsOk(s', max)
  {
    LocksCommit(s, s', w, max);
    forall k <- s'.log.rows
      ensures RefusalsCounted(s'.log.rows[k], s'.failures[s'.log.rows[k].id], max)
    {
      RowCommit(s, s', w, max, k);
    }
    forall id: nat
      ensures s'.failures[id] <= Limit(max) && (id >= s'.log.nextId ==> s'.failures[id] == 0)
    {
      RefusalsCommit(s, s', w, max);
      if s'.failures[id] != s.failures[id] {
        var k :| k in RefusedKeys(s.txs[w]) && k in s.log.rows && id == s.log.rows[k].id;
        RowCommit(s, s', w, max, k);
      }
    }
  }

  lemma KeyLedgerCommit<K(!new)>(s: State<K>, s': State<K>, w: nat, max: int)
    requires LocksOk(s, max) && TableOk(s) && KeyLedgerOk(s) && CommitStep(s, s', w)
    ensures KeyLedgerOk(s')
  {
    InFlightRemoved(s, s', w, max);
    assert forall k: K :: SentNow(s', k) <==> SentNow(s, k) || k in s.txs[w].delivered;
  }

  lemma RowLedgerCommit<K(!new)>(s: State<K>, s': State<K>, w: nat, max: int)
    requires LocksOk(s, max) && TableOk(s) && RowLedgerOk(s) && CommitStep(s, s', w)
    ensures RowLedgerOk(s')
  {
    InFlightRemoved(s, s', w, max);
    LocksCommit(s, s', w, max);
    assert forall k: K :: SentNow(s', k) <==> SentNow(s, k) || k in s.txs[w].delivered;
  }

  lemma KeyLedgerAbort<K(!new)>(s: State<K>, s': State<K>, w: nat, max: int)
    requires LocksOk(s, max) && KeyLedgerOk(s) && AbortStep(s, s', w)
    ensures KeyLedgerOk(s')
  {
    InFlightRemoved(s, s', w, max);
    var batch := BatchSet(s.txs[w]);
    assert s.txs[w].delivered <= batch;
    assert forall k: K :: s'.lost[k] == s.lost[k] + if k in batch then 1 else 0;
  }

  lemma RowLedgerAbort<K(!new)>(s: State<K>, s': State<K>, w: nat, max: int)
    requires LocksOk(s, max) && TableOk(s) && RowLedgerOk(s) && AbortStep(s, s', w)
    ensures RowLedgerOk(s')
  {
    InFlightRemoved(s, s', w, max);
    var batch := BatchSet(s.txs[w]);
    var ids := RowIds(s.log.rows, batch);
    assert s.txs[w].delivered <= batch;
    assert forall id: nat :: s'.lostFor[id] == s.lostFor[id] + if id in ids then 1 else 0;
    forall k <- s.log.rows ensures s.log.rows[k].id in ids <==> k in batch {}
  }

  lemma LocksService<K(!new)>(s: State<K>, s': State<K>, max: int)
    requires LocksOk(s, max) && ServiceStep(s, s')
    ensures LocksOk(s', max)
    ensures forall k: K :: InFlight(s', k) <==> InFlight(s, k)
    ensures forall k: K :: InFlight(s, k) ==> k in Locked(s)
  {
    forall w <- s.txs, k <- s.txs[w].batch
      ensures k in s'.log.rows && s'.log.rows[k] == s.log.rows[k]
    {
      assert k in Locked(s);
    }
    forall k: K ensures InFlight(s', k) <==> InFlight(s, k) {}
    forall k: K | InFlight(s, k) ensures k in Locked(s) {
      var w :| w in s.txs && k in s.txs[w].delivered;
      assert k in s.txs[w].batch;
    }
  }

  /** A row that comes out of a service transaction is either the old row (perhaps just cancelled) or new. */
  lemma ServedRow<K(!new)>(s: State<K>, s': State<K>, k: K)
    requires ServiceStep(s, s') && k in s'.log.rows
    ensures Fresh(s.log.nextId, s'.log.rows[k], s'.log.nextId)
      || (k in s.log.rows && s'.log.rows[k] == s.log.rows[k])
      || (k in s.log.rows && s.log.rows[k].status.Pending? && s'.log.rows[k] == s.log.rows[k].(status := Cancelled))
  {
    if k in s.log.rows { assert RowServed(s.log, s'.log, s'.buried, k); }
  }

  lemma AttemptsService<K(!new)>(s: State<K>, s': State<K>, max: int)
    requires AttemptsOk(s, max) && ServiceStep(s, s')
    ensures AttemptsOk(s', max)
  {
    forall k <- s'.log.rows { ServedRow(s, s', k); }
  }

  lemma KeyLedgerService<K(!new)>(s: State<K>, s': State<K>, max: int)
    requires LocksOk(s, max) && KeyLedgerOk(s) && ServiceStep(s, s')
    ensures KeyLedgerOk(s')
  {
    LocksService(s, s', max);
    forall k: K ensures SentNow(s', k) ==> SentNow(s, k) {
      if k in s'.log.rows { ServedRow(s, s', k); }
    }
    forall k: K | SentNow(s, k) ensures SentNow(s', k) || k in s'.buried {
      assert RowServed(s.log, s'.log, s'.buried, k);
    }
  }

  lemma RowLedgerService<K(!new)>(s: State<K>, s': State<K>, max: int)
    requires LocksOk(s, max) && TableOk(s) && RowLedgerOk(s) && ServiceStep(s, s')
    ensures RowLedgerOk(s')
  {
    LocksService(s, s', max);
    forall k <- s'.log.rows
      ensures var id := s'.log.rows[k].id;
        && s'.mailsFor[id] <= s'.lostFor[id] + (if SentNow(s', k) || InFlight(s', k) then 1 else 0)
        && (SentNow(s', k) || InFlight(s', k) ==> s'.mailsFor[id] >= 1)
    {
      ServedRow(s, s', k);
      assert InFlight(s, k) ==> k in Locked(s) && k in s.log.rows;
    }
  }

  lemma InvProcess<K(!new)>(s: State<K>, s': State<K>, w: nat, outcome: Outcome, sqlOk: bool, max: int)
    requires Inv(s, max) && ProcessStep(s, s', w, outcome, sqlOk, max)
    ensures Inv(s', max)
  {
    LocksProcess(s, s', w, outcome, sqlOk, max);
    KeyLedgerProcess(s, s', w, outcome, sqlOk, max);
    RowLedgerProcess(s, s', w, outcome, sqlOk, max);
  }

  lemma InvCommit<K(!new)>(s: State<K>, s': State<K>, w: nat, max: int)
    requires Inv(s, max) && CommitStep(s, s', w)
    ensures Inv(s', max)
  {
    LocksCommit(s, s', w, max);
    AttemptsCommit(s, s', w, max);
    KeyLedgerCommit(s, s', w, max);
    RowLedgerCommit(s, s', w, max);
  }

  lemma InvAbort<K(!new)>(s: State<K>, s': State<K>, w: nat, max: int)
    requires Inv(s, max) && AbortStep(s, s', w)
    ensures Inv(s', max)
  {
    KeyLedgerAbort(s, s', w, max);
    RowLedgerAbort(s, s', w, max);
  }

  /** The whole invariant survives every worker step, for any number of workers in any order. */
  lemma InvWorker<K(!new)>(s: State<K>, s': State<K>, step: Step<K>, max: int)
    requires Inv(s, max) && WorkerStep(s, s', step, max)
    ensures Inv(s', max)
  {
    match step
    case Select(w, now, batch) => InvSelect(s, s', w, now, batch, max);
    case Process(w, outcome, sqlOk) => InvProcess(s, s', w, outcome, sqlOk, max);
    case Commit(w) => InvCommit(s, s', w, max);
    case Abort(w) => InvAbort(s, s', w, max);
  }

  lemma InvService<K(!new)>(s: State<K>, s': State<K>, max: int)
    requires Inv(s, max) && ServiceStep(s, s')
    ensures Inv(s', max)
  {
    LocksService(s, s', max);
    AttemptsService(s, s', max);
    KeyLedgerService(s, s', max);
    RowLedgerService(s, s', max);
  }
}
