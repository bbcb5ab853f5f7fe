/** Progress: how many ticks one scheduler needs to finish the rows that are due now. */
module Drain {
  import opened DispatchLog
  import opened Dispatcher

  predicate Before(a: Row, b: Row) {
    a.at < b.at || (a.at == b.at && a.id < b.id)
  }

  /** Ties between equal send times are broken by a fixed order of the row ids. The query leaves this to
      the database; see DrainAnyOrder for what holds without it. */
  ghost predicate FirstInOrder<K>(rows: map<K, Row>, now: Instant, batch: seq<K>) {
    forall k <- rows, j <- batch | j in rows && Due(rows[k], now) && k !in batch :: Before(rows[j], rows[k])
  }

  predicate Answered(row: Row, row': Row, max: int) {
    row' in {AfterSend(row, Nothing, max), AfterSend(row, Delivered, max), AfterSend(row, Refused, max)}
  }

  /** A dispatch that renders every mail and reaches its commit; the mailer may answer as it likes, and a
      digest may turn out to be empty. */
  ghost predicate Tick<K(!new)>(rows: map<K, Row>, rows': map<K, Row>, now: Instant, max: int, batch: seq<K>) {
    && IsBatch(rows, {}, now, batch)
    && rows'.Keys == rows.Keys
    && (forall k <- rows :: if k in batch then Answered(rows[k], rows'[k], max) else rows'[k] == rows[k])
  }

  /** What may happen between two ticks: anything that adds no pending row due by t0 and leaves those
      there are alone, except to end or remove them. Rows that become due later may come and go. */
  ghost predicate Quiet<K(!new)>(rows: map<K, Row>, rows': map<K, Row>, t0: Instant) {
    forall k <- rows' | Due(rows'[k], t0) :: k in rows && rows[k] == rows'[k]
  }

  /** One tick and what follows it; with fixed, its ties are broken by the fixed order. */
  ghost predicate Round<K(!new)>(rows: map<K, Row>, rows': map<K, Row>, now: Instant, t0: Instant, max: int,
                                 fixed: bool)
  {
    t0 <= now && exists mid, batch ::
      Tick(rows, mid, now, max, batch) && (fixed ==> FirstInOrder(rows, now, batch)) && Quiet(mid, rows', t0)
  }

  ghost predicate Rounds<K(!new)>(run: seq<map<K, Row>>, times: seq<Instant>, t0: Instant, max: int, fixed: bool) {
    && |run| == |times| + 1
    && forall i :: 0 <= i < |times| ==> Round(run[i], run[i + 1], times[i], t0, max, fixed)
  }

  ghost function DueSet<K>(rows: map<K, Row>, t0: Instant): set<K> {
    set k <- rows | Due(rows[k], t0)
  }

  ghost predicate Counted<K(!new)>(rows: map<K, Row>, t0: Instant, max: int) {
    forall k <- DueSet(rows, t0) :: rows[k].attempts < Limit(max)
  }

  /** The rows of front come before every other row due by t0. */
  ghost predicate Front<K(!new)>(rows: map<K, Row>, t0: Instant, front: set<K>) {
    forall k <- DueSet(rows, t0), f <- front | f in DueSet(rows, t0) && Before(rows[k], rows[f]) :: k in front
  }

  lemma {:induction false} DistinctCard<K>(s: seq<K>)
    requires Distinct(s)
    ensures |Elements(s)| == |s|
  {
    if s != [] {
      var n := |s| - 1;
      assert Distinct(s[..n]);
      DistinctCard(s[..n]);
      assert Elements(s) == Elements(s[..n]) + {s[n]};
      assert s[n] !in s[..n];
    }
  }

  lemma SubsetCard<K>(a: set<K>, b: set<K>)
    requires a <= b
    ensures |a| <= |b|
  {
    assert b == a + (b - a);
  }

  /** A front of at most one batch is picked up whole by every tick. */
  lemma FrontPicked<K(!new)>(rows: map<K, Row>, now: Instant, batch: seq<K>, t0: Instant, front: set<K>, f: K)
    requires IsBatch(rows, {}, now, batch) && FirstInOrder(rows, now, batch) && t0 <= now
    requires Front(rows, t0, front) && |front| <= BATCH_LIMIT
    requires f in front && f in DueSet(rows, t0)
    ensures f in batch
  {
    if f !in batch {
      var picked := Elements(batch);
      forall k <- picked ensures k in front - {f} {
        assert Before(rows[k], rows[f]);
        assert k in DueSet(rows, t0);
      }
      DistinctCard(batch);
      SubsetCard(picked, front - {f});
      SubsetCard({f}, front);
    }
  }

  /** Over one round the rows due by t0 only get fewer, and one that was in the batch and is still
      pending has one more attempt behind it. */
  lemma RoundShrinks<K(!new)>(rows: map<K, Row>, rows': map<K, Row>, now: Instant, t0: Instant, max: int, front: set<K>)
    requires Round(rows, rows', now, t0, max, true) && Counted(rows, t0, max)
    requires Front(rows, t0, front) && |front| <= BATCH_LIMIT
    ensures Counted(rows', t0, max) && Front(rows', t0, front)
    ensures DueSet(rows', t0) <= DueSet(rows, t0)
    ensures forall k <- DueSet(rows', t0) | k in front :: rows'[k].attempts >= rows[k].attempts + 1
  {
    var mid, batch :| Tick(rows, mid, now, max, batch) && FirstInOrder(rows, now, batch) && Quiet(mid, rows', t0);
    forall k <- DueSet(rows', t0)
      ensures k in DueSet(rows, t0) && rows'[k].id == rows[k].id && rows'[k].at == rows[k].at
      ensures rows'[k].attempts < Limit(max)
      ensures k in front ==> rows'[k].attempts == rows[k].attempts + 1
    {
      assert mid[k] == rows'[k];
      if k in front {
        assert k in DueSet(rows, t0);
        FrontPicked(rows, now, batch, t0, front, k);
      }
    }
  }

  ghost predicate Worked<K(!new)>(rows: map<K, Row>, t0: Instant, front: set<K>, m: nat) {
    forall k <- DueSet(rows, t0) | k in front :: rows[k].attempts >= m
  }

  lemma {:induction false} FrontWorks<K(!new)>(
    run: seq<map<K, Row>>, times: seq<Instant>, t0: Instant, max: int, front: set<K>, m: nat)
    requires Rounds(run, times, t0, max, true) && Counted(run[0], t0, max)
    requires Front(run[0], t0, front) && |front| <= BATCH_LIMIT
    requires m < |run|
    ensures Counted(run[m], t0, max) && Front(run[m], t0, front) && Worked(run[m], t0, front, m)
    ensures DueSet(run[m], t0) <= DueSet(run[0], t0)
  {
    if m > 0 {
      FrontWorks(run, times, t0, max, front, m - 1);
      assert Round(run[m - 1], run[m - 1 + 1], times[m - 1], t0, max, true);
      RoundShrinks(run[m - 1], run[m], times[m - 1], t0, max, front);
    }
  }

  /** The rows of the first batch that are due by t0 are a front; if the batch is full it holds a whole
      batch of them, and otherwise all of them. */
  lemma FirstFront<K(!new)>(rows: map<K, Row>, now: Instant, batch: seq<K>, t0: Instant) returns (front: set<K>)
    requires IsBatch(rows, {}, now, batch) && FirstInOrder(rows, now, batch) && t0 <= now
    ensures Front(rows, t0, front) && |front| <= BATCH_LIMIT && front <= DueSet(rows, t0)
    ensures front == DueSet(rows, t0) || |front| == BATCH_LIMIT
  {
    var picked := Elements(batch);
    DistinctCard(batch);
    front := picked * DueSet(rows, t0);
    SubsetCard(front, picked);
    if front != DueSet(rows, t0) {
      var f :| f in DueSet(rows, t0) && f !in batch;
      assert |batch| == BATCH_LIMIT;
      forall k <- picked ensures k in DueSet(rows, t0) {
        assert Before(rows[k], rows[f]);
      }
      assert front == picked;
    }
  }

  lemma RoundsFrom<K(!new)>(run: seq<map<K, Row>>, times: seq<Instant>, t0: Instant, max: int, m: nat)
    requires Rounds(run, times, t0, max, true) && m < |run|
    ensures Rounds(run[m..], times[m..], t0, max, true)
  {
    forall i | 0 <= i < |times[m..]|
      ensures Round(run[m..][i], run[m..][i + 1], times[m..][i], t0, max, true)
    {
      assert Round(run[m + i], run[m + i + 1], times[m + i], t0, max, true);
    }
  }

  /** Limit ticks finish a whole batch of the rows due by t0, or all of them. */
  lemma Phase<K(!new)>(run: seq<map<K, Row>>, times: seq<Instant>, t0: Instant, max: int)
    requires Rounds(run, times, t0, max, true) && Counted(run[0], t0, max) && |run| > Limit(max)
    ensures Counted(run[Limit(max)], t0, max)
    ensures DueSet(run[Limit(max)], t0) == {} || |DueSet(run[Limit(max)], t0)| + BATCH_LIMIT <= |DueSet(run[0], t0)|
  {
    var m := Limit(max);
    assert Round(run[0], run[0 + 1], times[0], t0, max, true);
    var mid, batch :|
      Tick(run[0], mid, times[0], max, batch) && FirstInOrder(run[0], times[0], batch) && Quiet(mid, run[1], t0);
    var front := FirstFront(run[0], times[0], batch, t0);
    FrontWorks(run, times, t0, max, front, m);
    var rest := DueSet(run[0], t0) - front;
    assert DueSet(run[m], t0) <= rest;
    SubsetCard(DueSet(run[m], t0), rest);
    assert |rest| == |DueSet(run[0], t0)| - |front|;
  }

  /** Rows due by t0 that fit in j batches are gone from the pending rows after Limit * j ticks,
      whatever the mailer answers and whatever becomes due later. */
  lemma {:induction false} DrainBatches<K(!new)>(run: seq<map<K, Row>>, times: seq<Instant>, t0: Instant, max: int,
                                                 j: nat)
    requires Rounds(run, times, t0, max, true) && Counted(run[0], t0, max)
    requires |DueSet(run[0], t0)| <= BATCH_LIMIT * j
    requires |run| > Limit(max) * j
    ensures DueSet(run[Limit(max) * j], t0) == {}
    decreases j
  {
    if j > 0 {
      var m := Limit(max);
      assert m * j == m * (j - 1) + m && m * (j - 1) >= 0;
      Phase(run, times, t0, max);
      RoundsFrom(run, times, t0, max, m);
      DrainBatches(run[m..], times[m..], t0, max, j - 1);
      assert run[m..][m * (j - 1)] == run[m * j];
    }
  }

  /** MaxAttempts * ceil(n / 50) */
  function TicksFor(n: nat, max: int): nat {
    Limit(max) * ((n + BATCH_LIMIT - 1) / BATCH_LIMIT)
  }

  /** With ties in the fixed order, n rows due by t0 are all out of the pending rows after
      MaxAttempts * ceil(n / 50) ticks. */
  lemma DrainBound<K(!new)>(run: seq<map<K, Row>>, times: seq<Instant>, t0: Instant, max: int)
    requires Rounds(run, times, t0, max, true) && Counted(run[0], t0, max)
    requires |run| > TicksFor(|DueSet(run[0], t0)|, max)
    ensures DueSet(run[TicksFor(|DueSet(run[0], t0)|, max)], t0) == {}
    ensures TicksFor(|DueSet(run[0], t0)|, max) == (if max < 1 then 1 else max) * ((|DueSet(run[0], t0)| + 49) / 50)
  {
    DrainBatches(run, times, t0, max, (|DueSet(run[0], t0)| + BATCH_LIMIT - 1) / BATCH_LIMIT);
  }

  /** Runs in which nothing but ticks happens. */
  ghost predicate TickOnly<K(!new)>(rows: map<K, Row>, rows': map<K, Row>, now: Instant, max: int, fixed: bool) {
    exists batch :: Tick(rows, rows', now, max, batch) && (fixed ==> FirstInOrder(rows, now, batch))
  }

  ghost predicate TicksOnly<K(!new)>(run: seq<map<K, Row>>, times: seq<Instant>, t0: Instant, max: int, fixed: bool) {
    && |run| == |times| + 1
    && forall i :: 0 <= i < |times| ==> t0 <= times[i] && TickOnly(run[i], run[i + 1], times[i], max, fixed)
  }

  lemma TicksAreRounds<K(!new)>(run: seq<map<K, Row>>, times: seq<Instant>, t0: Instant, max: int, fixed: bool)
    requires TicksOnly(run, times, t0, max, fixed)
    ensures Rounds(run, times, t0, max, fixed)
  {
    forall i | 0 <= i < |times| ensures Round(run[i], run[i + 1], times[i], t0, max, fixed) {
      TickIsRound(run[i], run[i + 1], times[i], t0, max, fixed);
    }
  }

  lemma TickIsRound<K(!new)>(rows: map<K, Row>, rows': map<K, Row>, now: Instant, t0: Instant, max: int, fixed: bool)
    requires t0 <= now && TickOnly(rows, rows', now, max, fixed)
    ensures Round(rows, rows', now, t0, max, fixed)
  {
    var batch :| Tick(rows, rows', now, max, batch) && (fixed ==> FirstInOrder(rows, now, batch));
    assert Quiet(rows', rows', t0);
  }

  ghost predicate Finished(row: Row) {
    row.status.Sent? || row.status.Failed? || row.status.Skipped?
  }

  lemma {:induction false} DueOrFinished<K(!new)>(
    run: seq<map<K, Row>>, times: seq<Instant>, t0: Instant, max: int, fixed: bool, k: K, m: nat)
    requires TicksOnly(run, times, t0, max, fixed) && m < |run| && k in DueSet(run[0], t0)
    ensures k in run[m] && (Finished(run[m][k]) || k in DueSet(run[m], t0))
  {
    if m > 0 {
      DueOrFinished(run, times, t0, max, fixed, k, m - 1);
      assert TickOnly(run[m - 1], run[m - 1 + 1], times[m - 1], max, fixed);
      var batch :| Tick(run[m - 1], run[m], times[m - 1], max, batch);
    }
  }

  /** When nothing but ticks happens, every row that was due ends as sent, failed or skipped within the
      bound. */
  lemma TicksOnlyDrain<K(!new)>(run: seq<map<K, Row>>, times: seq<Instant>, t0: Instant, max: int, k: K)
    requires TicksOnly(run, times, t0, max, true) && Counted(run[0], t0, max)
    requires |run| > TicksFor(|DueSet(run[0], t0)|, max)
    requires k in DueSet(run[0], t0)
    ensures
      var end := run[TicksFor(|DueSet(run[0], t0)|, max)];
      k in end && Finished(end[k])
  {
    TicksAreRounds(run, times, t0, max, true);
    DrainBound(run, times, t0, max);
    DueOrFinished(run, times, t0, max, true, k, TicksFor(|DueSet(run[0], t0)|, max));
  }
}
