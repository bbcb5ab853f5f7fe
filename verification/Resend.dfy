/** When exactly a mail is repeated: the design notes claim at-most-once delivery across crashes, but mail
    goes out before the commit. */
module Resend {
  import opened DispatchLog
  import opened Dispatcher
  import opened DispatchRuns
  import opened DispatchLoop

  /** The key's row is sent, or was when its conference was deleted. */
  ghost predicate WasSent<K>(s: State<K>, k: K) {
    SentNow(s, k) || (k in s.buried && s.buried[k].status.Sent?)
  }

  /** Every mail is accounted for: wasted by an aborted transaction, or on its way to a sent row. */
  ghost predicate Accounted<K(!new)>(s: State<K>) {
    forall k: K :: s.mails[k] == s.wasted[k] + if WasSent(s, k) || InFlight(s, k) then 1 else 0
  }

  lemma AccountedSelect<K(!new)>(s: State<K>, s': State<K>, w: nat, now: Instant, batch: seq<K>)
    requires Accounted(s) && SelectStep(s, s', w, now, batch)
    ensures Accounted(s')
  {
    InFlightSelect(s, s', w, now, batch);
  }

  lemma AccountedProcess<K(!new)>(s: State<K>, s': State<K>, w: nat, outcome: Outcome, sqlOk: bool, max: int)
    requires Inv(s, max) && Accounted(s) && ProcessStep(s, s', w, outcome, sqlOk, max)
    ensures Accounted(s')
  {
    InFlightProcess(s, s', w, outcome, sqlOk, max);
    assert s.log.rows[NextKey(s, w)].status.Pending?;
    assert forall k: K :: s'.mails[k] == s.mails[k] + if outcome.Delivered? && k == NextKey(s, w) then 1 else 0;
  }

  lemma AccountedCommit<K(!new)>(s: State<K>, s': State<K>, w: nat, max: int)
    requires Inv(s, max) && Accounted(s) && CommitStep(s, s', w)
    ensures Accounted(s')
  {
    InFlightRemoved(s, s', w, max);
    assert forall k: K :: SentNow(s', k) <==> SentNow(s, k) || k in s.txs[w].delivered;
  }

  lemma AccountedAbort<K(!new)>(s: State<K>, s': State<K>, w: nat, max: int)
    requires Inv(s, max) && Accounted(s) && AbortStep(s, s', w)
    ensures Accounted(s')
  {
    InFlightRemoved(s, s', w, max);
    DeliveredPending(s, w, max);
    MoreWasted(s.wasted, s.txs[w].delivered);
  }

  lemma DeliveredPending<K(!new)>(s: State<K>, w: nat, max: int)
    requires TableOk(s) && LocksOk(s, max) && w in s.txs
    ensures forall k <- s.txs[w].delivered :: !WasSent(s, k)
  {
    assert TxOk(s.log.rows, s.txs[w], max);
  }

  lemma MoreWasted<K(!new)>(wasted: multiset<K>, delivered: set<K>)
    ensures forall k: K :: (wasted + multiset(delivered))[k] == wasted[k] + if k in delivered then 1 else 0
  {}

  lemma AccountedService<K(!new)>(s: State<K>, s': State<K>, max: int)
    requires Inv(s, max) && Accounted(s) && ServiceStep(s, s')
    ensures Accounted(s')
  {
    LocksService(s, s', max);
    forall k: K ensures WasSent(s', k) <==> WasSent(s, k) {
      if k in s'.log.rows { ServedRow(s, s', k); }
      if k in s.log.rows { assert RowServed(s.log, s'.log, s'.buried, k); }
    }
  }

  lemma AccountedStep<K(!new)>(s: State<K>, s': State<K>, max: int)
    requires Inv(s, max) && Accounted(s) && StepOk(s, s', max)
    ensures Accounted(s')
  {
    if ServiceStep(s, s') {
      AccountedService(s, s', max);
    } else {
      var step: Step<K> :| WorkerStep(s, s', step, max);
      match step
      case Select(w, now, batch) => AccountedSelect(s, s', w, now, batch);
      case Process(w, outcome, sqlOk) => AccountedProcess(s, s', w, outcome, sqlOk, max);
      case Commit(w) => AccountedCommit(s, s', w, max);
      case Abort(w) => AccountedAbort(s, s', w, max);
    }
  }

  lemma AccountedNext<K(!new)>(run: seq<State<K>>, max: int, j: nat)
    requires Run(run, max) && j + 1 < |run| && Accounted(run[j])
    ensures Accounted(run[j + 1])
  {
    RunInv(run, max, j);
    assert StepAt(run, max, j);
    AccountedStep(run[j], run[j + 1], max);
  }

  lemma {:induction false} AccountedInRun<K(!new)>(run: seq<State<K>>, max: int, i: nat)
    requires Run(run, max) && i < |run|
    ensures Accounted(run[i])
  {
    if i == 0 {
      assert Start(run[0]);
    } else {
      AccountedInRun(run, max, i - 1);
      AccountedNext(run, max, i - 1);
    }
  }

  /** A key has been mailed at most once exactly if no transaction that had mailed it was aborted, or one
      was and nobody has mailed it again. */
  lemma AtMostOnce<K(!new)>(run: seq<State<K>>, max: int, i: nat, k: K)
    requires Run(run, max) && i < |run|
    ensures run[i].wasted[k] <= run[i].mails[k] <= run[i].wasted[k] + 1
    ensures run[i].mails[k] <= 1 <==>
      run[i].wasted[k] == 0 || (run[i].wasted[k] == 1 && !WasSent(run[i], k) && !InFlight(run[i], k))
  {
    AccountedInRun(run, max, i);
  }

  // ---------------------------------------------------------------- a crash between the mails and the commit

  ghost predicate Works<K(!new)>(s: State<K>, s': State<K>, max: int) {
    exists step: Step<K> :: WorkerStep(s, s', step, max)
  }

  /** Steps of workers, one after the other. */
  ghost predicate Chain<K(!new)>(trace: seq<State<K>>, max: int) {
    |trace| > 0 && forall i | 0 <= i < |trace| - 1 :: Works(trace[i], trace[i + 1], max)
  }

  lemma Extended<K(!new)>(trace: seq<State<K>>, s: State<K>, max: int)
    requires Chain(trace, max) && Works(trace[|trace| - 1], s, max)
    ensures Chain(trace + [s], max)
  {}

  lemma Joined<K(!new)>(a: seq<State<K>>, b: seq<State<K>>, max: int) returns (trace: seq<State<K>>)
    requires Chain(a, max) && Chain(b, max) && a[|a| - 1] == b[0]
    ensures Chain(trace, max) && trace[0] == a[0] && trace[|trace| - 1] == b[|b| - 1]
  {
    trace := a + b[1..];
    forall i | 0 <= i < |trace| - 1 ensures Works(trace[i], trace[i + 1], max) {
      if i < |a| - 1 {
        assert Works(a[i], a[i + 1], max);
      } else {
        assert Works(b[i - (|a| - 1)], b[i - (|a| - 1) + 1], max);
      }
    }
  }

  lemma StartWorks<K(!new)>(s: State<K>, w: nat, now: Instant, batch: seq<K>, answers: seq<Answer>, max: int)
    requires w !in s.txs && IsBatch(s.log.rows, Locked(s), now, batch) && |batch| <= |answers|
    ensures Works(s, Progress(s, w, batch, answers, 0, max), max)
  {
    LoopStarts(s, w, now, batch, answers, max);
    assert WorkerStep(s, Progress(s, w, batch, answers, 0, max), Select(w, now, batch), max);
  }

  lemma StepWorks<K(!new)>(s: State<K>, w: nat, batch: seq<K>, answers: seq<Answer>, max: int, n: nat)
    requires n < |batch| <= |answers| && forall k <- batch :: k in s.log.rows
    ensures Works(Progress(s, w, batch, answers, n, max), Progress(s, w, batch, answers, n + 1, max), max)
  {
    var p, p' := Progress(s, w, batch, answers, n, max), Progress(s, w, batch, answers, n + 1, max);
    LoopSteps(s, w, batch, answers, max, n);
    assert WorkerStep(p, p', Process(w, answers[n].outcome, answers[n].sqlOk), max);
  }

  lemma OneFurther<K(!new)>(trace: seq<State<K>>, p: State<K>, max: int) returns (longer: seq<State<K>>)
    requires Chain(trace, max) && Works(trace[|trace| - 1], p, max)
    ensures Chain(longer, max) && longer[0] == trace[0] && longer[|longer| - 1] == p
  {
    Extended(trace, p, max);
    longer := trace + [p];
  }

  ghost function LoopStates<K>(s: State<K>, w: nat, batch: seq<K>, answers: seq<Answer>, max: int): seq<State<K>>
    requires |batch| <= |answers| && forall k <- batch :: k in s.log.rows
  {
    seq(|batch| + 1, i requires 0 <= i <= |batch| => Progress(s, w, batch, answers, i, max))
  }

  lemma LoopChain<K(!new)>(s: State<K>, w: nat, batch: seq<K>, answers: seq<Answer>, max: int)
    requires |batch| <= |answers| && forall k <- batch :: k in s.log.rows
    ensures Chain(LoopStates(s, w, batch, answers, max), max)
  {
    var states := LoopStates(s, w, batch, answers, max);
    forall i | 0 <= i < |states| - 1 ensures Works(states[i], states[i + 1], max) {
      StepWorks(s, w, batch, answers, max, i);
    }
  }

  lemma Prefixed<K(!new)>(s: State<K>, trace: seq<State<K>>, max: int) returns (longer: seq<State<K>>)
    requires Chain(trace, max) && Works(s, trace[0], max)
    ensures Chain(longer, max) && longer[0] == s && longer[|longer| - 1] == trace[|trace| - 1]
  {
    longer := [s] + trace;
    forall i | 0 <= i < |longer| - 1 ensures Works(longer[i], longer[i + 1], max) {
      if i > 0 { assert Works(trace[i - 1], trace[i - 1 + 1], max); }
    }
  }

  lemma LoopTrace<K(!new)>(s: State<K>, w: nat, now: Instant, batch: seq<K>, answers: seq<Answer>, max: int)
    returns (trace: seq<State<K>>)
    requires w !in s.txs && IsBatch(s.log.rows, Locked(s), now, batch) && |batch| <= |answers|
    ensures Chain(trace, max) && trace[0] == s
    ensures trace[|trace| - 1] == Progress(s, w, batch, answers, |batch|, max)
  {
    var states := LoopStates(s, w, batch, answers, max);
    LoopChain(s, w, batch, answers, max);
    StartWorks(s, w, now, batch, answers, max);
    trace := Prefixed(s, states, max);
  }

  /** A whole dispatch, from its selection to its commit or abort, as steps of the protocol. */
  lemma DispatchTrace<K(!new)>(s: State<K>, w: nat, now: Instant, batch: seq<K>, answers: seq<Answer>, max: int,
                               commitOk: bool)
    returns (trace: seq<State<K>>)
    requires w !in s.txs && IsBatch(s.log.rows, Locked(s), now, batch) && |batch| <= |answers|
    ensures Chain(trace, max) && trace[0] == s
    ensures
      var end := trace[|trace| - 1];
      && end.txs == s.txs
      && end.log == s.log.(rows := Committed(s.log.rows, After(batch, s.log.rows, answers, |batch|, max), commitOk))
      && end.mails == s.mails + multiset(Mailed(batch, answers, |batch|))
  {
    var p := Progress(s, w, batch, answers, |batch|, max);
    trace := LoopTrace(s, w, now, batch, answers, max);
    var end := LoopEnds(s, w, now, batch, answers, max, commitOk);
    assert WorkerStep(p, end, if commitOk && !p.txs[w].poisoned then Commit(w) else Abort(w), max);
    trace := OneFurther(trace, end, max);
  }

  function Accepted(n: nat): seq<Answer> {
    seq(n, _ => Answer(Delivered, true))
  }

  lemma {:induction false} AllMailed<K>(batch: seq<K>, n: nat)
    requires n <= |batch|
    ensures Mailed(batch, Accepted(|batch|), n) == batch[..n]
  {
    if n > 0 {
      AllMailed(batch, n - 1);
      assert batch[..n] == batch[..n - 1] + [batch[n - 1]];
    }
  }

  lemma AllSent<K(!new)>(batch: seq<K>, rows: map<K, Row>, locked: set<K>, now: Instant, max: int)
    requires IsBatch(rows, locked, now, batch)
    ensures
      var rows' := Committed(rows, After(batch, rows, Accepted(|batch|), |batch|, max), true);
      forall k <- batch :: k in rows' && rows'[k] == rows[k].(status := Sent)
  {
    CleanKeys(batch, rows, Accepted(|batch|), |batch|, max);
    forall i | 0 <= i < |batch|
      ensures After(batch, rows, Accepted(|batch|), |batch|, max).marks[batch[i]] == rows[batch[i]].(status := Sent)
    {
      MarksAre(batch, rows, Accepted(|batch|), |batch|, max, i);
    }
  }

  /** Whatever a worker may select, all of it can be mailed twice: the mails go out, the commit is lost, and
      the same rows are selected and mailed again. */
  lemma BatchTwice<K(!new)>(s: State<K>, w: nat, now: Instant, batch: seq<K>, max: int)
    returns (trace: seq<State<K>>)
    requires w !in s.txs && IsBatch(s.log.rows, Locked(s), now, batch)
    ensures Chain(trace, max) && trace[0] == s
    ensures
      var end := trace[|trace| - 1];
      && end.mails == s.mails + multiset(batch) + multiset(batch)
      && forall k <- batch :: k in end.log.rows && end.log.rows[k] == s.log.rows[k].(status := Sent)
  {
    var lost := DispatchTrace(s, w, now, batch, Accepted(|batch|), max, false);
    var again := DispatchTrace(lost[|lost| - 1], w, now, batch, Accepted(|batch|), max, true);
    trace := Joined(lost, again, max);
    AllMailed(batch, |batch|);
    assert batch[..|batch|] == batch;
    AllSent(batch, s.log.rows, Locked(s), now, max);
  }
}
