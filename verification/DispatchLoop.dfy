/** One dispatch from its SELECT to its COMMIT, as the scheduler runs it: a loop over the batch inside a
    transaction. It is a chain of protocol steps, and when nothing goes wrong but the mail, a tick. */
module DispatchLoop {
  import opened DispatchLog
  import opened Dispatcher
  import opened Drain

  /** What the mailer and the database answer while one row is handled. */
  datatype Answer = Answer(outcome: Outcome, sqlOk: bool)

  function Begin<K>(batch: seq<K>): Tx<K> {
    Tx(batch, 0, map[], {}, false)
  }

  // The transaction after the first n rows of its batch.
  function After<K(==)>(batch: seq<K>, rows: map<K, Row>, answers: seq<Answer>, n: nat, max: int): (tx: Tx<K>)
    requires n <= |batch| <= |answers| && forall k <- batch :: k in rows
    ensures tx.batch == batch && tx.done == n
  {
    if n == 0 then Begin(batch)
    else ProcessNext(After(batch, rows, answers, n - 1, max), rows[batch[n - 1]], answers[n - 1].outcome,
      answers[n - 1].sqlOk, max)
  }

  // The mails of the first n rows that were accepted, in order.
  function Mailed<K>(batch: seq<K>, answers: seq<Answer>, n: nat): seq<K>
    requires n <= |batch| <= |answers|
  {
    if n == 0 then []
    else Mailed(batch, answers, n - 1) + if answers[n - 1].outcome.Delivered? then [batch[n - 1]] else []
  }

  /** The committed rows at the end: all marks or, if a statement or the commit failed, none. */
  function Committed<K(==)>(rows: map<K, Row>, tx: Tx<K>, commitOk: bool): map<K, Row> {
    if tx.poisoned || !commitOk then rows else rows + tx.marks
  }

  /** The batch of a due selection past the rows others hold: repeatedly the earliest row that is left, up to
      the limit. It holds pending rows whose time has come and no others, and one that is left out is held or
      has fifty before it. */
  method SelectDue<K(!new, ==)>(rows: map<K, Row>, locked: set<K>, now: Instant) returns (batch: seq<K>)
    ensures IsBatch(rows, locked, now, batch)
    ensures |batch| <= 50 && forall k <- batch ::
      k in rows && k !in locked && rows[k].status == Pending && rows[k].at <= now
    ensures forall k <- rows | rows[k].status == Pending && rows[k].at <= now && k !in locked && k !in batch ::
      |batch| == 50 && forall j <- batch :: rows[j].at <= rows[k].at
    ensures forall i, j :: 0 <= i < j < |batch| ==> batch[i] != batch[j] && rows[batch[i]].at <= rows[batch[j]].at
  {
    var left := set k <- rows | rows[k].status.Pending? && rows[k].at <= now && k !in locked;
    batch := [];
    while |batch| < BATCH_LIMIT && left != {}
      invariant |batch| <= BATCH_LIMIT && Distinct(batch)
      invariant forall k <- left :: k in rows && k !in locked && Due(rows[k], now) && k !in batch
      invariant forall k <- batch :: k in rows && k !in locked && Due(rows[k], now)
      invariant forall k <- rows | Due(rows[k], now) && k !in locked :: k in left || k in batch
      invariant forall i, j :: 0 <= i < j < |batch| ==> rows[batch[i]].at <= rows[batch[j]].at
      invariant forall j <- batch, k <- left :: rows[j].at <= rows[k].at
      decreases |left|
    {
      var first := Earliest(rows, left);
      batch, left := batch + [first], left - {first};
    }
  }

  method Earliest<K(!new, ==)>(rows: map<K, Row>, keys: set<K>) returns (first: K)
    requires keys != {} && forall k <- keys :: k in rows
    ensures first in keys && forall k <- keys :: rows[first].at <= rows[k].at
  {
    first :| first in keys;
    var left := keys - {first};
    while left != {}
      invariant left <= keys && first in keys
      invariant forall k <- keys :: k in left || rows[first].at <= rows[k].at
      decreases |left|
    {
      var k :| k in left;
      if rows[k].at < rows[first].at { first := k; }
      left := left - {k};
    }
  }

  // The body of the loop: one row, after its mail was tried.
  method HandleNext<K(==)>(tx: Tx<K>, row: Row, answer: Answer, max: int) returns (tx': Tx<K>)
    requires tx.done < |tx.batch|
    ensures tx' == ProcessNext(tx, row, answer.outcome, answer.sqlOk, max)
  {
    var k := tx.batch[tx.done];
    tx' := tx.(done := tx.done + 1);
    if answer.outcome.Unrendered? { return; }
    if answer.outcome.Delivered? { tx' := tx'.(delivered := tx'.delivered + {k}); }
    if tx.poisoned || !answer.sqlOk {
      tx' := tx'.(poisoned := true);
      return;
    }
    var mark: Row;
    if answer.outcome.Refused? {
      var newAttempts := row.attempts + 1;
      mark := if newAttempts >= max then row.(status := Failed) else row.(attempts := newAttempts);
    } else {
      mark := row.(status := if answer.outcome.Delivered? then Sent else Skipped);
    }
    tx' := tx'.(marks := tx'.marks[k := mark]);
  }

  /** The loop over a batch and the commit: every row is mailed and marked in turn; the marks become
      visible only at the commit, the mails at once. */
  method HandleBatch<K(!new, ==)>(rows: map<K, Row>, batch: seq<K>, max: int, answers: seq<Answer>, commitOk: bool)
    returns (sent: seq<K>, rows': map<K, Row>)
    requires |batch| <= |answers| && forall k <- batch :: k in rows
    ensures sent == Mailed(batch, answers, |batch|)
    ensures rows' == Committed(rows, After(batch, rows, answers, |batch|, max), commitOk)
  {
    var tx := Begin(batch);
    sent := [];
    for i := 0 to |batch|
      invariant tx == After(batch, rows, answers, i, max)
      invariant sent == Mailed(batch, answers, i)
    {
      tx := HandleNext(tx, rows[batch[i]], answers[i], max);
      if answers[i].outcome.Delivered? { sent := sent + [batch[i]]; }
    }
    rows' := if tx.poisoned || !commitOk then rows else rows + tx.marks;
  }

  lemma {:induction false} MailedAre<K>(batch: seq<K>, answers: seq<Answer>, n: nat, k: K)
    requires n <= |batch| <= |answers|
    ensures k in Mailed(batch, answers, n) <==> exists i :: 0 <= i < n && batch[i] == k && answers[i].outcome.Delivered?
  {
    if n > 0 { MailedAre(batch, answers, n - 1, k); }
  }

  // Marks concern rows handled so far.
  lemma {:induction false} MarksBefore<K>(batch: seq<K>, rows: map<K, Row>, answers: seq<Answer>, n: nat, max: int,
                                          k: K)
    requires n <= |batch| <= |answers| && forall j <- batch :: j in rows
    requires k in After(batch, rows, answers, n, max).marks
    ensures exists i :: 0 <= i < n && batch[i] == k
  {
    if n > 0 && k in After(batch, rows, answers, n - 1, max).marks {
      MarksBefore(batch, rows, answers, n - 1, max, k);
    }
  }

  /** What a transaction that can commit has prepared: every row handled so far, after its own answer. */
  lemma {:induction false} MarksAre<K>(
    batch: seq<K>, rows: map<K, Row>, answers: seq<Answer>, n: nat, max: int, i: nat)
    requires i < n <= |batch| <= |answers| && Distinct(batch) && forall k <- batch :: k in rows
    requires !After(batch, rows, answers, n, max).poisoned
    ensures
      var tx := After(batch, rows, answers, n, max);
      if answers[i].outcome.Unrendered? then batch[i] !in tx.marks
      else batch[i] in tx.marks && tx.marks[batch[i]] == AfterSend(rows[batch[i]], answers[i].outcome, max)
  {
    var before := After(batch, rows, answers, n - 1, max);
    if i < n - 1 {
      MarksAre(batch, rows, answers, n - 1, max, i);
      assert batch[i] != batch[n - 1];
    } else if batch[i] in before.marks {
      MarksBefore(batch, rows, answers, n - 1, max, batch[i]);
    }
  }

  // A statement that fails spoils the transaction.
  lemma {:induction false} PoisonedIf<K>(batch: seq<K>, rows: map<K, Row>, answers: seq<Answer>, n: nat, max: int)
    requires n <= |batch| <= |answers| && forall k <- batch :: k in rows
    ensures After(batch, rows, answers, n, max).poisoned <==>
      exists i :: 0 <= i < n && !answers[i].outcome.Unrendered? && !answers[i].sqlOk
  {
    if n > 0 { PoisonedIf(batch, rows, answers, n - 1, max); }
  }

  /** What becomes of a pending row in a committed dispatch. */
  predicate Handled(row: Row, row': Row, outcome: Outcome, max: int) {
    match outcome
    case Unrendered => row' == row
    case Nothing => row' == Row(row.id, row.at, Skipped, row.attempts)
    case Delivered => row' == Row(row.id, row.at, Sent, row.attempts)
    case Refused =>
      if row.attempts + 1 >= max then row' == Row(row.id, row.at, Failed, row.attempts)
      else row' == Row(row.id, row.at, Pending, row.attempts + 1)
  }

  lemma RowOutcome<K(!new)>(rows: map<K, Row>, batch: seq<K>, answers: seq<Answer>, max: int, i: nat)
    requires i < |batch| <= |answers| && Distinct(batch) && forall k <- batch :: k in rows
    requires forall j | 0 <= j < |batch| :: answers[j].outcome.Unrendered? || answers[j].sqlOk
    requires rows[batch[i]].status == Pending
    ensures
      var row, rows' := rows[batch[i]], Committed(rows, After(batch, rows, answers, |batch|, max), true);
      batch[i] in rows' && Handled(row, rows'[batch[i]], answers[i].outcome, max)
  {
    PoisonedIf(batch, rows, answers, |batch|, max);
    MarksAre(batch, rows, answers, |batch|, max, i);
  }

  /** A row outside the batch stays as it is, and so does every row if the dispatch does not commit. */
  lemma RowsUntouched<K(!new)>(rows: map<K, Row>, batch: seq<K>, answers: seq<Answer>, max: int, commitOk: bool)
    requires |batch| <= |answers| && forall k <- batch :: k in rows
    ensures
      var rows' := Committed(rows, After(batch, rows, answers, |batch|, max), commitOk);
      && rows'.Keys == rows.Keys
      && (forall k <- rows | k !in batch :: rows'[k] == rows[k])
      && (!commitOk || (exists i :: 0 <= i < |batch| && !answers[i].outcome.Unrendered? && !answers[i].sqlOk) ==>
            rows' == rows)
  {
    var marks := After(batch, rows, answers, |batch|, max).marks;
    PoisonedIf(batch, rows, answers, |batch|, max);
    forall k <- marks ensures k in batch { MarksBefore(batch, rows, answers, |batch|, max, k); }
  }

  /** The whole effect of a dispatch on the rows of its batch, and on no others, told without its transaction. */
  ghost predicate Effect<K>(rows: map<K, Row>, rows': map<K, Row>, batch: seq<K>, answers: seq<Answer>, max: int,
                            commitOk: bool)
    requires |batch| <= |answers| && forall k <- batch :: k in rows
  {
    && rows'.Keys == rows.Keys
    && (forall k <- rows | k !in batch :: rows'[k] == rows[k])
    && if commitOk && forall j | 0 <= j < |batch| :: answers[j].outcome.Unrendered? || answers[j].sqlOk
       then forall i | 0 <= i < |batch| :: Handled(rows[batch[i]], rows'[batch[i]], answers[i].outcome, max)
       else rows' == rows
  }

  lemma LoopEffect<K(!new)>(rows: map<K, Row>, batch: seq<K>, answers: seq<Answer>, max: int, commitOk: bool)
    requires |batch| <= |answers| && Distinct(batch)
    requires forall k <- batch :: k in rows && rows[k].status == Pending
    ensures Effect(rows, Committed(rows, After(batch, rows, answers, |batch|, max), commitOk), batch, answers, max,
                   commitOk)
  {
    RowsUntouched(rows, batch, answers, max, commitOk);
    if commitOk && forall j | 0 <= j < |batch| :: answers[j].outcome.Unrendered? || answers[j].sqlOk {
      forall i | 0 <= i < |batch|
        ensures Handled(rows[batch[i]], Committed(rows, After(batch, rows, answers, |batch|, max), commitOk)[batch[i]],
                        answers[i].outcome, max)
      {
        RowOutcome(rows, batch, answers, max, i);
      }
    }
  }

  lemma SentExactly<K(!new)>(batch: seq<K>, answers: seq<Answer>, i: nat)
    requires i < |batch| <= |answers| && Distinct(batch)
    ensures batch[i] in Mailed(batch, answers, |batch|) <==> answers[i].outcome.Delivered?
  {
    MailedAre(batch, answers, |batch|, batch[i]);
  }

  /** dispatchReminders, from its selection to its commit. */
  method Dispatch<K(!new, ==)>(rows: map<K, Row>, now: Instant, max: int, answers: seq<Answer>, commitOk: bool)
    returns (batch: seq<K>, sent: seq<K>, rows': map<K, Row>)
    requires |answers| >= BATCH_LIMIT
    ensures IsBatch(rows, {}, now, batch)
    ensures sent == Mailed(batch, answers, |batch|)
    ensures rows' == Committed(rows, After(batch, rows, answers, |batch|, max), commitOk)
    ensures forall k <- batch :: k in rows && rows[k].status == Pending && rows[k].at <= now
    ensures forall k <- rows | rows[k].status == Pending && rows[k].at <= now && k !in batch ::
      |batch| == 50 && forall j <- batch :: rows[j].at <= rows[k].at
    ensures forall i | 0 <= i < |batch| :: batch[i] in sent <==> answers[i].outcome.Delivered?
    ensures Effect(rows, rows', batch, answers, max, commitOk)
  {
    batch := SelectDue(rows, {}, now);
    forall i | 0 <= i < |batch| ensures batch[i] in Mailed(batch, answers, |batch|) <==> answers[i].outcome.Delivered? {
      SentExactly(batch, answers, i);
    }
    LoopEffect(rows, batch, answers, max, commitOk);
    sent, rows' := HandleBatch(rows, batch, max, answers, commitOk);
  }

  // The row ids of the accepted mails.
  function MailedIds<K>(batch: seq<K>, rows: map<K, Row>, answers: seq<Answer>, n: nat): seq<nat>
    requires n <= |batch| <= |answers| && forall k <- batch :: k in rows
  {
    if n == 0 then []
    else MailedIds(batch, rows, answers, n - 1) + if answers[n - 1].outcome.Delivered? then [rows[batch[n - 1]].id]
      else []
  }

  /** The whole database after n rows of a worker's batch. */
  ghost function Progress<K>(s: State<K>, w: nat, batch: seq<K>, answers: seq<Answer>, n: nat, max: int): State<K>
    requires n <= |batch| <= |answers| && forall k <- batch :: k in s.log.rows
  {
    s.(txs := s.txs[w := After(batch, s.log.rows, answers, n, max)],
       mails := s.mails + multiset(Mailed(batch, answers, n)),
       mailsFor := s.mailsFor + multiset(MailedIds(batch, s.log.rows, answers, n)))
  }

  lemma OneMoreMail<T>(a: multiset<T>, s: seq<T>, x: T, more: bool)
    ensures a + multiset(s + if more then [x] else []) ==
      if more then a + multiset(s) + multiset{x} else a + multiset(s)
  {
    if !more { assert s + [] == s; }
  }

  /** The loop is the protocol: it starts with a selection, */
  lemma LoopStarts<K(!new)>(s: State<K>, w: nat, now: Instant, batch: seq<K>, answers: seq<Answer>, max: int)
    requires w !in s.txs && IsBatch(s.log.rows, Locked(s), now, batch) && |batch| <= |answers|
    ensures SelectStep(s, Progress(s, w, batch, answers, 0, max), w, now, batch)
  {
    assert s.mails + multiset(Mailed(batch, answers, 0)) == s.mails;
    assert s.mailsFor + multiset(MailedIds(batch, s.log.rows, answers, 0)) == s.mailsFor;
  }

  /** every pass is a step, */
  lemma LoopSteps<K(!new)>(s: State<K>, w: nat, batch: seq<K>, answers: seq<Answer>, max: int, n: nat)
    requires n < |batch| <= |answers| && forall k <- batch :: k in s.log.rows
    ensures ProcessStep(Progress(s, w, batch, answers, n, max), Progress(s, w, batch, answers, n + 1, max),
                        w, answers[n].outcome, answers[n].sqlOk, max)
  {
    var p, p' := Progress(s, w, batch, answers, n, max), Progress(s, w, batch, answers, n + 1, max);
    var row := s.log.rows[batch[n]];
    assert NextKey(p, w) == batch[n];
    assert p'.txs == p.txs[w := ProcessNext(p.txs[w], row, answers[n].outcome, answers[n].sqlOk, max)];
    MailsStep(s, batch, answers, n);
  }

  lemma MailsStep<K(!new)>(s: State<K>, batch: seq<K>, answers: seq<Answer>, n: nat)
    requires n < |batch| <= |answers| && forall k <- batch :: k in s.log.rows
    ensures var before := s.mails + multiset(Mailed(batch, answers, n));
      s.mails + multiset(Mailed(batch, answers, n + 1)) ==
      if answers[n].outcome.Delivered? then before + multiset{batch[n]} else before
    ensures var before := s.mailsFor + multiset(MailedIds(batch, s.log.rows, answers, n));
      s.mailsFor + multiset(MailedIds(batch, s.log.rows, answers, n + 1)) ==
      if answers[n].outcome.Delivered? then before + multiset{s.log.rows[batch[n]].id} else before
  {
    OneMoreMail(s.mails, Mailed(batch, answers, n), batch[n], answers[n].outcome.Delivered?);
    OneMoreMail(s.mailsFor, MailedIds(batch, s.log.rows, answers, n), s.log.rows[batch[n]].id,
      answers[n].outcome.Delivered?);
  }

  /** and it ends with the commit or the abort whose rows the loop returns. */
  lemma LoopEnds<K(!new)>(s: State<K>, w: nat, now: Instant, batch: seq<K>, answers: seq<Answer>, max: int,
                          commitOk: bool)
    returns (s': State<K>)
    requires w !in s.txs && IsBatch(s.log.rows, Locked(s), now, batch) && |batch| <= |answers|
    ensures
      var p := Progress(s, w, batch, answers, |batch|, max);
      if commitOk && !p.txs[w].poisoned then CommitStep(p, s', w) else AbortStep(p, s', w)
    ensures s'.log == s.log.(rows := Committed(s.log.rows, After(batch, s.log.rows, answers, |batch|, max), commitOk))
    ensures s'.txs == s.txs
    ensures s'.mails == s.mails + multiset(Mailed(batch, answers, |batch|))
  {
    var p := Progress(s, w, batch, answers, |batch|, max);
    var tx := p.txs[w];
    assert p.txs - {w} == s.txs;
    if commitOk && !tx.poisoned {
      s' := p.(log := p.log.(rows := p.log.rows + tx.marks),
               txs := p.txs - {w},
               failures := p.failures + multiset(RowIds(p.log.rows, RefusedKeys(tx))));
    } else {
      s' := p.(txs := p.txs - {w},
               lost := p.lost + multiset(BatchSet(tx)),
               lostFor := p.lostFor + multiset(RowIds(p.log.rows, BatchSet(tx))),
               wasted := p.wasted + multiset(tx.delivered));
    }
  }

  ghost predicate CleanAnswers(answers: seq<Answer>, n: nat) {
    && n <= |answers|
    && forall i | 0 <= i < n :: answers[i].sqlOk && !answers[i].outcome.Unrendered?
  }

  lemma {:induction false} CleanKeys<K(!new)>(batch: seq<K>, rows: map<K, Row>, answers: seq<Answer>, n: nat, max: int)
    requires n <= |batch| <= |answers| && (forall k <- batch :: k in rows) && CleanAnswers(answers, n)
    ensures !After(batch, rows, answers, n, max).poisoned
    ensures After(batch, rows, answers, n, max).marks.Keys == Elements(batch[..n])
  {
    if n > 0 {
      CleanKeys(batch, rows, answers, n - 1, max);
      assert batch[..n] == batch[..n - 1] + [batch[n - 1]];
    }
  }

  /** A dispatch that renders every mail and whose statements and commit succeed is a tick in the sense of
      Drain, whatever the mailer answers. */
  lemma LoopIsTick<K(!new)>(rows: map<K, Row>, now: Instant, batch: seq<K>, answers: seq<Answer>, max: int)
    requires IsBatch(rows, {}, now, batch) && |batch| <= |answers|
    requires CleanAnswers(answers, |batch|)
    ensures Tick(rows, Committed(rows, After(batch, rows, answers, |batch|, max), true), now, max, batch)
  {
    CleanKeys(batch, rows, answers, |batch|, max);
    assert batch[..|batch|] == batch;
    var rows' := Committed(rows, After(batch, rows, answers, |batch|, max), true);
    forall k <- batch ensures Answered(rows[k], rows'[k], max) {
      var i :| 0 <= i < |batch| && batch[i] == k;
      MarksAre(batch, rows, answers, |batch|, max, i);
    }
  }

  /** Only the answer that there is nothing to send makes it skip a row. */
  lemma LoopSkips<K(!new)>(rows: map<K, Row>, now: Instant, batch: seq<K>, answers: seq<Answer>, max: int)
    requires IsBatch(rows, {}, now, batch) && |batch| <= |answers|
    requires !After(batch, rows, answers, |batch|, max).poisoned
    ensures
      var rows' := Committed(rows, After(batch, rows, answers, |batch|, max), true);
      forall i | 0 <= i < |batch| :: batch[i] in rows'
        && (rows'[batch[i]].status.Skipped? <==> answers[i].outcome.Nothing?)
  {
    var rows' := Committed(rows, After(batch, rows, answers, |batch|, max), true);
    forall i | 0 <= i < |batch|
      ensures batch[i] in rows' && (rows'[batch[i]].status.Skipped? <==> answers[i].outcome.Nothing?)
    {
      MarksAre(batch, rows, answers, |batch|, max, i);
    }
  }
}
