/** Safety of whole runs: any number of workers and any service transactions, in any interleaving. */
module DispatchRuns {
  import opened DispatchLog
  import opened Dispatcher

  ghost predicate StepOk<K(!new)>(s: State<K>, s': State<K>, max: int) {
    ServiceStep(s, s') || exists step: Step<K> :: WorkerStep(s, s', step, max)
  }

  ghost predicate StepAt<K(!new)>(run: seq<State<K>>, max: int, i: nat)
    requires i + 1 < |run|
  {
    StepOk(run[i], run[i + 1], max)
  }

  ghost predicate Run<K(!new)>(run: seq<State<K>>, max: int) {
    && |run| > 0
    && Start(run[0])
    && forall i: nat | i + 1 < |run| :: StepAt(run, max, i)
  }

  lemma InvStep<K(!new)>(s: State<K>, s': State<K>, max: int)
    requires Inv(s, max) && StepOk(s, s', max)
    ensures Inv(s', max)
  {
    if ServiceStep(s, s') {
      InvService(s, s', max);
    } else {
      var step: Step<K> :| WorkerStep(s, s', step, max);
      InvWorker(s, s', step, max);
    }
  }

  lemma {:induction false} RunInv<K(!new)>(run: seq<State<K>>, max: int, i: nat)
    requires Run(run, max) && i < |run|
    ensures Inv(run[i], max)
  {
    if i == 0 {
      InvStart(run[0], max);
    } else {
      RunInv(run, max, i - 1);
      assert StepAt(run, max, i - 1);
      InvStep(run[i - 1], run[i], max);
    }
  }

  /** Mail is sent before the commit, so only an aborted transaction can cause a second one. If none
      that held the key was aborted, its mail went out at most once over the whole run, across
      deletions and re-insertions of its row, and exactly once if the row now reads sent. */
  lemma MailsPerKey<K(!new)>(run: seq<State<K>>, max: int, i: nat, k: K)
    requires Run(run, max) && i < |run|
    ensures run[i].mails[k] <= 1 + run[i].lost[k]
    ensures k in run[i].log.rows && run[i].log.rows[k].status.Sent? ==>
        1 <= run[i].mails[k] && (run[i].lost[k] == 0 ==> run[i].mails[k] == 1)
  {
    RunInv(run, max, i);
  }

  lemma MailsPerRow<K(!new)>(run: seq<State<K>>, max: int, i: nat, id: nat)
    requires Run(run, max) && i < |run|
    ensures run[i].mailsFor[id] <= 1 + run[i].lostFor[id]
    ensures forall k <- run[i].log.rows | run[i].log.rows[k].id == id && run[i].log.rows[k].status.Sent? ::
        1 <= run[i].mailsFor[id] && (run[i].lostFor[id] == 0 ==> run[i].mailsFor[id] == 1)
  {
    RunInv(run, max, i);
    forall k <- run[i].log.rows | run[i].log.rows[k].id == id && run[i].log.rows[k].status.Sent?
      ensures SentNow(run[i], k)
    {}
  }

  /** Attempts: a pending row is below the limit and counts its committed refusals; a failed row has
      seen exactly the limit. */
  lemma AttemptsBounded<K(!new)>(run: seq<State<K>>, max: int, i: nat, k: K)
    requires Run(run, max) && i < |run| && k in run[i].log.rows
    ensures
      var row := run[i].log.rows[k];
      var refusals := run[i].failures[row.id];
      && (row.status.Pending? ==> row.attempts < Limit(max) && refusals == row.attempts)
      && (row.status.Failed? ==> row.attempts == Limit(max) - 1 && refusals == Limit(max))
      && refusals <= Limit(max)
  {
    RunInv(run, max, i);
    assert RefusalsCounted(run[i].log.rows[k], run[i].failures[run[i].log.rows[k].id], max);
  }

  /** Locked batches of distinct workers are disjoint and hold only rows that are pending for everyone. */
  lemma LockedBatches<K(!new)>(run: seq<State<K>>, max: int, i: nat, w: nat, v: nat)
    requires Run(run, max) && i < |run| && w in run[i].txs && v in run[i].txs
    ensures forall k <- run[i].txs[w].batch :: k in run[i].log.rows && run[i].log.rows[k].status.Pending?
    ensures w != v ==> forall k <- run[i].txs[w].batch :: k !in run[i].txs[v].batch
  {
    RunInv(run, max, i);
    if w != v {
      forall k <- run[i].txs[w].batch ensures k !in run[i].txs[v].batch {
        assert k in BatchSet(run[i].txs[w]);
      }
    }
  }

  lemma HeldStep<K(!new)>(s: State<K>, s': State<K>, max: int, w: nat)
    requires Inv(s, max) && StepOk(s, s', max) && w in s.txs && w in s'.txs
    ensures s'.txs[w].batch == s.txs[w].batch
    ensures forall k <- s.txs[w].batch :: k in s.log.rows && k in s'.log.rows && s'.log.rows[k] == s.log.rows[k]
  {
    if ServiceStep(s, s') {
      forall k <- s.txs[w].batch ensures k in Locked(s) {}
    } else {
      var step: Step<K> :| WorkerStep(s, s', step, max);
      if step.Commit? {
        forall k <- s.txs[w].batch ensures k !in s.txs[step.worker].marks {
          assert k in BatchSet(s.txs[w]) && k !in BatchSet(s.txs[step.worker]);
        }
      }
    }
  }

  // Worker w holds this batch, and its rows are as in the given table.
  ghost predicate Holds<K>(s: State<K>, w: nat, batch: seq<K>, rows: map<K, Row>) {
    && w in s.txs && s.txs[w].batch == batch
    && forall k <- batch :: k in rows && k in s.log.rows && s.log.rows[k] == rows[k]
  }

  lemma HeldInRun<K(!new)>(run: seq<State<K>>, max: int, j: nat, w: nat, batch: seq<K>, rows: map<K, Row>)
    requires Run(run, max) && j + 1 < |run| && Holds(run[j], w, batch, rows) && w in run[j + 1].txs
    ensures Holds(run[j + 1], w, batch, rows)
  {
    RunInv(run, max, j);
    assert StepAt(run, max, j);
    HeldStep(run[j], run[j + 1], max, w);
  }

  lemma {:induction false} StaysHeld<K(!new)>(
    run: seq<State<K>>, max: int, i: nat, j: nat, w: nat, batch: seq<K>, rows: map<K, Row>)
    requires Run(run, max) && i <= j < |run| && Holds(run[i], w, batch, rows)
    requires forall m :: i <= m <= j ==> w in run[m].txs
    ensures Holds(run[j], w, batch, rows)
  {
    if i < j {
      StaysHeld(run, max, i, j - 1, w, batch, rows);
      HeldInRun(run, max, j - 1, w, batch, rows);
    }
  }

  lemma Opened<K(!new)>(s: State<K>, s': State<K>, max: int, w: nat) returns (now: Instant)
    requires StepOk(s, s', max) && w !in s.txs && w in s'.txs
    ensures SelectStep(s, s', w, now, s'.txs[w].batch) && Holds(s', w, s'.txs[w].batch, s.log.rows)
    ensures forall k <- s'.txs[w].batch :: s.log.rows[k].status == Pending && s.log.rows[k].at <= now
  {
    var step: Step<K> :| WorkerStep(s, s', step, max);
    now := step.now;
  }

  /** An open transaction goes back to a selection: its rows were pending and their time had come then, and
      they are still the same. */
  lemma {:induction false} SelectedBefore<K(!new)>(run: seq<State<K>>, max: int, i: nat, w: nat)
    returns (j: nat, now: Instant)
    requires Run(run, max) && i < |run| && w in run[i].txs
    ensures j < i && SelectStep(run[j], run[j + 1], w, now, run[i].txs[w].batch)
    ensures Holds(run[i], w, run[i].txs[w].batch, run[j].log.rows)
    ensures forall k <- run[i].txs[w].batch :: run[j].log.rows[k].status == Pending && run[j].log.rows[k].at <= now
  {
    assert i > 0 by { assert Start(run[0]); }
    assert StepAt(run, max, i - 1);
    if w in run[i - 1].txs {
      j, now := SelectedBefore(run, max, i - 1, w);
      HeldInRun(run, max, i - 1, w, run[i - 1].txs[w].batch, run[j].log.rows);
    } else {
      j := i - 1;
      now := Opened(run[i - 1], run[i], max, w);
    }
  }

  /** For as long as a worker's transaction stays open, nobody else changes a row of its batch: no
      service transaction cancels, replaces or deletes it and no other worker marks it. */
  lemma HeldRowsStay<K(!new)>(run: seq<State<K>>, max: int, i: nat, j: nat, w: nat)
    requires Run(run, max) && i <= j < |run|
    requires forall m :: i <= m <= j ==> w in run[m].txs
    ensures run[j].txs[w].batch == run[i].txs[w].batch
    ensures forall k <- run[i].txs[w].batch ::
        k in run[i].log.rows && k in run[j].log.rows && run[j].log.rows[k] == run[i].log.rows[k]
        && run[i].log.rows[k].status.Pending?
  {
    RunInv(run, max, i);
    StaysHeld(run, max, i, j, w, run[i].txs[w].batch, run[i].log.rows);
  }

  ghost predicate Settled<K>(s: State<K>, k: K, row: Row) {
    (k in s.log.rows && s.log.rows[k] == row) || (k !in s.log.rows && k in s.buried && s.buried[k] == row)
  }

  lemma SettledStep<K(!new)>(s: State<K>, s': State<K>, max: int, k: K, row: Row)
    requires Inv(s, max) && StepOk(s, s', max) && Settled(s, k, row) && Terminal(row)
    ensures Settled(s', k, row)
  {
    if ServiceStep(s, s') {
      if k in s.log.rows { assert RowServed(s.log, s'.log, s'.buried, k); }
    } else {
      var step: Step<K> :| WorkerStep(s, s', step, max);
      if step.Commit? {
        assert forall m <- s.txs[step.worker].marks :: m in s.log.rows && s.log.rows[m].status.Pending?;
      }
    }
  }

  lemma SettledInRun<K(!new)>(run: seq<State<K>>, max: int, j: nat, k: K, row: Row)
    requires Run(run, max) && j + 1 < |run| && Settled(run[j], k, row) && Terminal(row)
    ensures Settled(run[j + 1], k, row)
  {
    RunInv(run, max, j);
    assert StepAt(run, max, j);
    SettledStep(run[j], run[j + 1], max, k, row);
  }

  lemma {:induction false} StaysSettled<K(!new)>(run: seq<State<K>>, max: int, i: nat, j: nat, k: K, row: Row)
    requires Run(run, max) && i <= j < |run| && Settled(run[i], k, row) && Terminal(row)
    ensures Settled(run[j], k, row)
  {
    if i < j {
      StaysSettled(run, max, i, j - 1, k, row);
      SettledInRun(run, max, j - 1, k, row);
    }
  }

  /** Once sent, failed, cancelled or skipped, a row is never touched again: it stays as it is, or it is on
      record as removed and its key never returns. */
  lemma TerminalForever<K(!new)>(run: seq<State<K>>, max: int, i: nat, j: nat, k: K)
    requires Run(run, max) && i <= j < |run|
    requires k in run[i].log.rows && Terminal(run[i].log.rows[k])
    ensures Settled(run[j], k, run[i].log.rows[k])
  {
    StaysSettled(run, max, i, j, k, run[i].log.rows[k]);
  }
}
