/** Progress when the database breaks ties between equal send times as it likes, tick by tick. */
module DrainAnyOrder {
  import opened DispatchLog
  import opened Dispatcher
  import opened Drain

  /** The attempts that rows due by t0 still have before them, one element for each. */
  ghost function Work<K>(rows: map<K, Row>, t0: Instant, max: int): set<(K, int)> {
    set k <- DueSet(rows, t0), i | rows[k].attempts <= i < Limit(max) :: (k, i)
  }

  ghost function Pairs<K>(keys: set<K>, n: nat): set<(K, int)> {
    set k <- keys, i | 0 <= i < n :: (k, i)
  }

  ghost function Slice<K>(keys: set<K>, i: int): set<(K, int)> {
    set k <- keys :: (k, i)
  }

  lemma {:induction false} SliceCard<K>(keys: set<K>, i: int)
    ensures |Slice(keys, i)| == |keys|
  {
    if keys != {} {
      var k :| k in keys;
      SliceCard(keys - {k}, i);
      assert Slice(keys, i) == Slice(keys - {k}, i) + {(k, i)};
    }
  }

  lemma {:induction false} PairsCard<K>(keys: set<K>, n: nat)
    ensures |Pairs(keys, n)| == |keys| * n
  {
    if n == 0 {
      assert Pairs(keys, 0) == {};
    } else {
      PairsCard(keys, n - 1);
      PairsStep(keys, n - 1);
      OneMore(|keys|, n - 1);
    }
  }

  lemma OneMore(size: nat, n: nat)
    ensures size * (n + 1) == size * n + size
  {}

  lemma PairsStep<K>(keys: set<K>, n: nat)
    ensures |Pairs(keys, n + 1)| == |Pairs(keys, n)| + |keys|
  {
    SliceCard(keys, n);
    assert Pairs(keys, n + 1) == Pairs(keys, n) + Slice(keys, n);
    assert Pairs(keys, n) !! Slice(keys, n);
  }

  lemma WorkBound<K>(rows: map<K, Row>, t0: Instant, max: int)
    ensures |Work(rows, t0, max)| <= |DueSet(rows, t0)| * Limit(max)
  {
    var all := Pairs(DueSet(rows, t0), Limit(max));
    assert Work(rows, t0, max) <= all;
    SubsetCard(Work(rows, t0, max), all);
    PairsCard(DueSet(rows, t0), Limit(max));
  }

  /** A batch holds all rows due by t0, or is full of them. */
  lemma BatchCovers<K>(rows: map<K, Row>, now: Instant, batch: seq<K>, t0: Instant)
    requires IsBatch(rows, {}, now, batch) && t0 <= now
    ensures DueSet(rows, t0) <= Elements(batch)
      || (|batch| == BATCH_LIMIT && Elements(batch) <= DueSet(rows, t0))
  {}

  // The attempts a batch uses up.
  ghost function Spent<K>(rows: map<K, Row>, batch: seq<K>): set<(K, int)>
    requires forall k <- batch :: k in rows
  {
    set k <- batch :: (k, rows[k].attempts)
  }

  lemma {:induction false} SpentCard<K>(rows: map<K, Row>, batch: seq<K>)
    requires Distinct(batch) && forall k <- batch :: k in rows
    ensures |Spent(rows, batch)| == |batch|
  {
    if batch != [] {
      var n := |batch| - 1;
      assert Distinct(batch[..n]);
      SpentCard(rows, batch[..n]);
      assert batch == batch[..n] + [batch[n]];
      assert Spent(rows, batch) == Spent(rows, batch[..n]) + {(batch[n], rows[batch[n]].attempts)};
      assert batch[n] !in batch[..n];
    }
  }

  /** Every row due by t0 that was not in the batch is as it was, and one that was and is still pending has
      one more attempt behind it. */
  lemma RoundKeeps<K(!new)>(rows: map<K, Row>, mid: map<K, Row>, rows': map<K, Row>, now: Instant, t0: Instant,
                            max: int, batch: seq<K>, k: K)
    requires Tick(rows, mid, now, max, batch) && Quiet(mid, rows', t0) && Counted(rows, t0, max)
    requires t0 <= now && k in DueSet(rows', t0)
    ensures k in DueSet(rows, t0) && rows'[k].attempts < Limit(max)
    ensures rows'[k].attempts == rows[k].attempts + if k in batch then 1 else 0
  {
    assert mid[k] == rows'[k];
    assert k in DueSet(rows, t0);
  }

  lemma SpendsWork<K(!new)>(rows: map<K, Row>, mid: map<K, Row>, rows': map<K, Row>, now: Instant, t0: Instant,
                            max: int, batch: seq<K>)
    requires Tick(rows, mid, now, max, batch) && Quiet(mid, rows', t0) && Counted(rows, t0, max) && t0 <= now
    requires Elements(batch) <= DueSet(rows, t0)
    ensures |Work(rows', t0, max)| + |batch| <= |Work(rows, t0, max)|
  {
    var spent := Spent(rows, batch);
    forall p <- Work(rows', t0, max) ensures p in Work(rows, t0, max) && p !in spent {
      RoundKeeps(rows, mid, rows', now, t0, max, batch, p.0);
    }
    forall p <- spent ensures p in Work(rows, t0, max) {
      assert p.0 in Elements(batch);
    }
    SpentCard(rows, batch);
    SubsetCard(Work(rows', t0, max) + spent, Work(rows, t0, max));
  }

  lemma WorkShrinks<K(!new)>(rows: map<K, Row>, mid: map<K, Row>, rows': map<K, Row>, now: Instant, t0: Instant,
                             max: int, batch: seq<K>)
    requires Tick(rows, mid, now, max, batch) && Quiet(mid, rows', t0) && Counted(rows, t0, max) && t0 <= now
    ensures |Work(rows', t0, max)| <= |Work(rows, t0, max)|
  {
    forall p <- Work(rows', t0, max) ensures p in Work(rows, t0, max) {
      RoundKeeps(rows, mid, rows', now, t0, max, batch, p.0);
    }
    SubsetCard(Work(rows', t0, max), Work(rows, t0, max));
  }

  ghost predicate AtLeast<K>(rows: map<K, Row>, t0: Instant, m: nat) {
    forall k <- DueSet(rows, t0) :: rows[k].attempts >= m
  }

  /** One round either uses up fifty of the attempts still to be made, or adds one to every row due by t0
      that stays pending. */
  lemma RoundWorks<K(!new)>(rows: map<K, Row>, rows': map<K, Row>, now: Instant, t0: Instant, max: int, fixed: bool,
                            m: nat)
    returns (full: bool)
    requires Round(rows, rows', now, t0, max, fixed) && Counted(rows, t0, max) && AtLeast(rows, t0, m)
    ensures Counted(rows', t0, max)
    ensures if full then |Work(rows', t0, max)| + BATCH_LIMIT <= |Work(rows, t0, max)| && AtLeast(rows', t0, m)
            else |Work(rows', t0, max)| <= |Work(rows, t0, max)| && AtLeast(rows', t0, m + 1)
  {
    var mid, batch :|
      Tick(rows, mid, now, max, batch) && (fixed ==> FirstInOrder(rows, now, batch)) && Quiet(mid, rows', t0);
    forall k <- DueSet(rows', t0)
      ensures k in DueSet(rows, t0) && rows'[k].attempts < Limit(max)
      ensures rows'[k].attempts == rows[k].attempts + if k in batch then 1 else 0
    {
      RoundKeeps(rows, mid, rows', now, t0, max, batch, k);
    }
    BatchCovers(rows, now, batch, t0);
    full := !(DueSet(rows, t0) <= Elements(batch));
    if full {
      SpendsWork(rows, mid, rows', now, t0, max, batch);
    } else {
      WorkShrinks(rows, mid, rows', now, t0, max, batch);
    }
  }

  /** After m rounds some number of them was full, and the rest touched every row. */
  lemma {:induction false} RoundsWork<K(!new)>(
    run: seq<map<K, Row>>, times: seq<Instant>, t0: Instant, max: int, fixed: bool, m: nat) returns (full: nat)
    requires Rounds(run, times, t0, max, fixed) && Counted(run[0], t0, max) && m < |run|
    ensures full <= m && Counted(run[m], t0, max) && AtLeast(run[m], t0, m - full)
    ensures |Work(run[m], t0, max)| + BATCH_LIMIT * full <= |Work(run[0], t0, max)|
  {
    if m == 0 {
      full := 0;
    } else {
      full := RoundsWork(run, times, t0, max, fixed, m - 1);
      assert Round(run[m - 1], run[m - 1 + 1], times[m - 1], t0, max, fixed);
      var more := RoundWorks(run[m - 1], run[m], times[m - 1], t0, max, fixed, m - 1 - full);
      if more { full := full + 1; }
    }
  }

  lemma NoneDue<K(!new)>(rows: map<K, Row>, t0: Instant, max: int, m: nat)
    requires Counted(rows, t0, max) && AtLeast(rows, t0, m) && m >= Limit(max)
    ensures DueSet(rows, t0) == {}
  {}

  /** floor(n * MaxAttempts / 50) + MaxAttempts */
  function TicksAnyOrder(n: nat, max: int): nat {
    n * Limit(max) / BATCH_LIMIT + Limit(max)
  }

  /** However ties are broken, n rows due by t0 are all out of the pending rows after that many ticks,
      whatever the mailer answers and whatever becomes due later. */
  lemma DrainAnyOrderBound<K(!new)>(run: seq<map<K, Row>>, times: seq<Instant>, t0: Instant, max: int, fixed: bool)
    requires Rounds(run, times, t0, max, fixed) && Counted(run[0], t0, max)
    requires |run| > TicksAnyOrder(|DueSet(run[0], t0)|, max)
    ensures DueSet(run[TicksAnyOrder(|DueSet(run[0], t0)|, max)], t0) == {}
    ensures var limit := if max < 1 then 1 else max;
      TicksAnyOrder(|DueSet(run[0], t0)|, max) == |DueSet(run[0], t0)| * limit / 50 + limit
  {
    var n, m := |DueSet(run[0], t0)|, TicksAnyOrder(|DueSet(run[0], t0)|, max);
    var full := RoundsWork(run, times, t0, max, fixed, m);
    WorkBound(run[0], t0, max);
    assert full <= n * Limit(max) / BATCH_LIMIT;
    NoneDue(run[m], t0, max, m - full);
  }

  /** When nothing but ticks happens, every row that was due is then sent, failed or
      skipped. */
  lemma TicksOnlyAnyOrder<K(!new)>(run: seq<map<K, Row>>, times: seq<Instant>, t0: Instant, max: int, k: K)
    requires TicksOnly(run, times, t0, max, false) && Counted(run[0], t0, max)
    requires |run| > TicksAnyOrder(|DueSet(run[0], t0)|, max)
    requires k in DueSet(run[0], t0)
    ensures
      var end := run[TicksAnyOrder(|DueSet(run[0], t0)|, max)];
      k in end && Finished(end[k])
  {
    TicksAreRounds(run, times, t0, max, false);
    DrainAnyOrderBound(run, times, t0, max, false);
    DueOrFinished(run, times, t0, max, false, k, TicksAnyOrder(|DueSet(run[0], t0)|, max));
  }

  // ---------------------------------------------------------------- the order of ties matters

  // Rows due at the same time, in quarters of 25; with a limit of two a row is new, refused once, or failed.
  function Tied(id: nat, refused: nat): Row {
    if refused < 2 then Row(id, 0, Pending, refused) else Row(id, 0, Failed, 1)
  }

  function Quarters(keys: set<nat>, a: nat, b: nat, c: nat, d: nat): map<nat, Row> {
    map k <- keys :: Tied(k, if k < 25 then a else if k < 50 then b else if k < 75 then c else d)
  }

  lemma {:induction false} FirstKeys(n: nat) returns (keys: set<nat>)
    ensures |keys| == n && forall k: nat :: k in keys <==> k < n
  {
    keys := {};
    if n > 0 {
      keys := FirstKeys(n - 1);
      keys := keys + {n - 1};
    }
  }

  /** A tick that picks these rows and is refused for all of them. */
  lemma RefusedTick(rows: map<nat, Row>, rows': map<nat, Row>, batch: seq<nat>)
    requires |batch| <= BATCH_LIMIT && Distinct(batch) && forall k <- batch :: k in rows && Due(rows[k], 0)
    requires |batch| == BATCH_LIMIT || DueSet(rows, 0) <= Elements(batch)
    requires forall k <- rows :: rows[k].at == 0
    requires rows'.Keys == rows.Keys
    requires forall k <- rows :: rows'[k] == if k in batch then AfterSend(rows[k], Refused, 2) else rows[k]
    ensures Round(rows, rows', 0, 0, 2, false)
  {
    forall k <- rows | Due(rows[k], 0) && k !in batch ensures |batch| == BATCH_LIMIT {
      assert k in DueSet(rows, 0) && k !in Elements(batch);
    }
    assert IsBatch(rows, {}, 0, batch);
    assert Tick(rows, rows', 0, 2, batch) && Quiet(rows', rows', 0);
  }

  // Two quarters, by their first rows, and one.
  function Halves(x: nat, y: nat): seq<nat> {
    seq(50, i requires 0 <= i < 50 => if i < 25 then x + i else y + (i - 25))
  }

  predicate InHalves(x: nat, y: nat, k: nat) {
    x <= k < x + 25 || y <= k < y + 25
  }

  lemma HalvesAre(x: nat, y: nat)
    requires x + 25 <= y
    ensures |Halves(x, y)| == 50 && Distinct(Halves(x, y)) && forall k: nat :: k in Halves(x, y) <==> InHalves(x, y, k)
  {
    forall k: nat ensures k in Halves(x, y) <==> InHalves(x, y, k) {
      if x <= k < x + 25 { assert Halves(x, y)[k - x] == k; }
      if y <= k < y + 25 { assert Halves(x, y)[k - y + 25] == k; }
    }
  }

  function Quarter(x: nat): seq<nat> {
    seq(25, i requires 0 <= i < 25 => x + i)
  }

  lemma QuarterIs(x: nat)
    ensures |Quarter(x)| == 25 && Distinct(Quarter(x)) && forall k: nat :: k in Quarter(x) <==> x <= k < x + 25
  {
    forall k: nat ensures k in Quarter(x) <==> x <= k < x + 25 {
      if x <= k < x + 25 { assert Quarter(x)[k - x] == k; }
    }
  }

  lemma FirstTick(keys: set<nat>)
    requires forall k: nat :: k in keys <==> k < 100
    ensures Round(Quarters(keys, 0, 0, 0, 0), Quarters(keys, 1, 1, 0, 0), 0, 0, 2, false)
  {
    HalvesAre(0, 25);
    RefusedTick(Quarters(keys, 0, 0, 0, 0), Quarters(keys, 1, 1, 0, 0), Halves(0, 25));
  }

  lemma SecondTick(keys: set<nat>)
    requires forall k: nat :: k in keys <==> k < 100
    ensures Round(Quarters(keys, 1, 1, 0, 0), Quarters(keys, 2, 1, 1, 0), 0, 0, 2, false)
  {
    HalvesAre(0, 50);
    RefusedTick(Quarters(keys, 1, 1, 0, 0), Quarters(keys, 2, 1, 1, 0), Halves(0, 50));
  }

  lemma ThirdTick(keys: set<nat>)
    requires forall k: nat :: k in keys <==> k < 100
    ensures Round(Quarters(keys, 2, 1, 1, 0), Quarters(keys, 2, 2, 2, 0), 0, 0, 2, false)
  {
    HalvesAre(25, 50);
    RefusedTick(Quarters(keys, 2, 1, 1, 0), Quarters(keys, 2, 2, 2, 0), Halves(25, 50));
  }

  lemma FourthTick(keys: set<nat>)
    requires forall k: nat :: k in keys <==> k < 100
    ensures Round(Quarters(keys, 2, 2, 2, 0), Quarters(keys, 2, 2, 2, 1), 0, 0, 2, false)
  {
    QuarterIs(75);
    RefusedTick(Quarters(keys, 2, 2, 2, 0), Quarters(keys, 2, 2, 2, 1), Quarter(75));
  }

  lemma FourRounds(a: map<nat, Row>, b: map<nat, Row>, c: map<nat, Row>, d: map<nat, Row>, e: map<nat, Row>)
    returns (run: seq<map<nat, Row>>)
    requires Round(a, b, 0, 0, 2, false) && Round(b, c, 0, 0, 2, false)
    requires Round(c, d, 0, 0, 2, false) && Round(d, e, 0, 0, 2, false)
    ensures |run| == 5 && run[0] == a && run[4] == e && Rounds(run, [0, 0, 0, 0], 0, 2, false)
  {
    run := [a, b, c, d, e];
  }

  lemma UnluckyTicks(keys: set<nat>) returns (run: seq<map<nat, Row>>)
    requires forall k: nat :: k in keys <==> k < 100
    ensures |run| == 5 && run[0] == Quarters(keys, 0, 0, 0, 0) && run[4] == Quarters(keys, 2, 2, 2, 1)
    ensures Rounds(run, [0, 0, 0, 0], 0, 2, false)
  {
    FirstTick(keys);
    SecondTick(keys);
    ThirdTick(keys);
    FourthTick(keys);
    run := FourRounds(Quarters(keys, 0, 0, 0, 0), Quarters(keys, 1, 1, 0, 0), Quarters(keys, 2, 1, 1, 0),
                      Quarters(keys, 2, 2, 2, 0), Quarters(keys, 2, 2, 2, 1));
  }

  lemma FirstAndLast(keys: set<nat>)
    requires forall k: nat :: k in keys <==> k < 100
    ensures DueSet(Quarters(keys, 0, 0, 0, 0), 0) == keys && Counted(Quarters(keys, 0, 0, 0, 0), 0, 2)
    ensures 99 in DueSet(Quarters(keys, 2, 2, 2, 1), 0)
  {}

  /** Without a fixed order of ties the bound of Drain fails: of a hundred rows due at once, all refused
      with a limit of two, some are still pending after its four ticks. */
  lemma TiesMatter() returns (run: seq<map<nat, Row>>)
    ensures |run| == 5 && Rounds(run, [0, 0, 0, 0], 0, 2, false) && Counted(run[0], 0, 2)
    ensures |DueSet(run[0], 0)| == 100 && TicksFor(100, 2) == 4 && DueSet(run[4], 0) != {}
  {
    var keys := FirstKeys(100);
    run := UnluckyTicks(keys);
    FirstAndLast(keys);
  }
}
