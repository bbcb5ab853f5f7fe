/** Repeated mail in the systems themselves: whatever batch of reminders or digests a worker may select in a
    reachable state, a crash between its mails and its commit can have all of it mailed twice. */
module SecondMails {
  import opened DispatchLog
  import opened Dispatcher
  import opened Resend
  import opened Reminders
  import R = ReminderSystem
  import D = Digest

  // ---------------------------------------------------------------- reminders

  lemma ReminderChain(run: seq<R.System>, trace: seq<State<Key>>, max: int) returns (ext: seq<R.System>)
    requires R.SystemRun(run, max) && Chain(trace, max) && trace[0] == run[|run| - 1].core
    ensures R.SystemRun(ext, max) && run <= ext
    ensures ext[|ext| - 1] == R.System(run[|run| - 1].cat, trace[|trace| - 1])
  {
    var cat := run[|run| - 1].cat;
    ext := run[..|run| - 1] + seq(|trace|, i requires 0 <= i < |trace| => R.System(cat, trace[i]));
    assert ext[|run| - 1] == run[|run| - 1];
    forall i | 0 <= i < |ext| - 1 ensures R.Next(ext[i], ext[i + 1], max) {
      if i < |run| - 1 {
        assert R.Next(run[i], run[i + 1], max);
      } else {
        assert Works(trace[i - (|run| - 1)], trace[i - (|run| - 1) + 1], max);
      }
    }
  }

  /** Every run of the whole system can go on like this from any batch that can be selected at its end. */
  lemma RemindersTwice(run: seq<R.System>, max: int, w: nat, now: Instant, batch: seq<Key>)
    returns (ext: seq<R.System>)
    requires R.SystemRun(run, max)
    requires var s := run[|run| - 1].core; w !in s.txs && IsBatch(s.log.rows, Locked(s), now, batch)
    ensures R.SystemRun(ext, max) && run <= ext
    ensures
      var s, end := run[|run| - 1].core, ext[|ext| - 1].core;
      && end.mails == s.mails + multiset(batch) + multiset(batch)
      && forall k <- batch :: k in end.log.rows && end.log.rows[k] == s.log.rows[k].(status := Sent)
  {
    var trace := BatchTwice(run[|run| - 1].core, w, now, batch, max);
    ext := ReminderChain(run, trace, max);
  }

  // ---------------------------------------------------------------- digests

  lemma DigestChain(run: seq<State<D.DigestKey>>, trace: seq<State<D.DigestKey>>, max: int)
    returns (ext: seq<State<D.DigestKey>>)
    requires D.DigestRun(run, max) && Chain(trace, max) && trace[0] == run[|run| - 1]
    ensures D.DigestRun(ext, max) && run <= ext && ext[|ext| - 1] == trace[|trace| - 1]
  {
    ext := run[..|run| - 1] + trace;
    assert ext[|run| - 1] == run[|run| - 1];
    forall i | 0 <= i < |ext| - 1 ensures D.DigestNext(ext[i], ext[i + 1], max) {
      if i < |run| - 1 {
        assert D.DigestNext(run[i], run[i + 1], max);
      } else {
        assert Works(trace[i - (|run| - 1)], trace[i - (|run| - 1) + 1], max);
      }
    }
  }

  /** The same for the digest log. */
  lemma DigestsTwice(run: seq<State<D.DigestKey>>, max: int, w: nat, now: Instant, batch: seq<D.DigestKey>)
    returns (ext: seq<State<D.DigestKey>>)
    requires D.DigestRun(run, max)
    requires var s := run[|run| - 1]; w !in s.txs && IsBatch(s.log.rows, Locked(s), now, batch)
    ensures D.DigestRun(ext, max) && run <= ext
    ensures
      var s, end := run[|run| - 1], ext[|ext| - 1];
      && end.mails == s.mails + multiset(batch) + multiset(batch)
      && forall k <- batch :: k in end.log.rows && end.log.rows[k] == s.log.rows[k].(status := Sent)
  {
    var trace := BatchTwice(run[|run| - 1], w, now, batch, max);
    ext := DigestChain(run, trace, max);
  }

  // ---------------------------------------------------------------- a run from the empty database

  const USER: Id := 0
  const CONF: Id := 0

  /** A user, a conference with one deadline and, once starred, a reminder of it. */
  function Fields(deadline: Instant): Conference {
    Conference(Some(deadline), None, None, None, None, false)
  }

  function KeyFor(lead: int): Key {
    Key(USER, CONF, Submission, lead)
  }

  function Leads(lead: int): Settings {
    Settings("UTC", [lead], false, 1, 8, 4)
  }

  ghost function Cat(step: nat, deadline: Instant, lead: int): Catalog {
    Catalog(map[], if step >= 2 then map[CONF := Fields(deadline)] else map[], if step >= 2 then 1 else 0,
            if step >= 1 then map[USER := Leads(lead)] else map[], if step >= 3 then {(USER, CONF)} else {})
  }

  ghost function Core(log: Table<Key>): State<Key> {
    State(log, map[], map[], multiset{}, multiset{}, multiset{}, multiset{}, multiset{}, multiset{})
  }

  ghost function Waiting(deadline: Instant, lead: int): Table<Key> {
    Table(map[KeyFor(lead) := Row(0, SendAt(Cat(3, deadline, lead), KeyFor(lead)), Pending, 0)], 1)
  }

  lemma Starred(deadline: Instant, lead: int)
    ensures
      StarStep(Cat(2, deadline, lead), Table(map[], 0), Cat(3, deadline, lead), Waiting(deadline, lead), USER, CONF)
  {
    OnlyReminder(deadline, lead);
    var t, k := Waiting(deadline, lead), KeyFor(lead);
    assert FreshRow(t.rows[k], SendAt(Cat(3, deadline, lead), k), 0, 1);
    assert Filled(Table(map[], 0), t, map[k := SendAt(Cat(3, deadline, lead), k)]);
  }

  lemma OnlyReminder(deadline: Instant, lead: int)
    ensures var d', k := Cat(3, deadline, lead), KeyFor(lead); RecomputedPair(d', USER, CONF) == map[k := SendAt(d', k)]
  {
    var d', k := Cat(3, deadline, lead), KeyFor(lead);
    forall j ensures j in RecomputedPair(d', USER, CONF) <==> j == k {}
  }

  lemma Begins(deadline: Instant, lead: int, max: int) returns (run: seq<R.System>)
    ensures R.SystemRun(run, max)
    ensures run[|run| - 1] == R.System(Cat(3, deadline, lead), Core(Waiting(deadline, lead)))
  {
    var none := Table(map[], 0);
    var s0, s1 := R.System(Cat(0, deadline, lead), Core(none)), R.System(Cat(1, deadline, lead), Core(none));
    var s2 := R.System(Cat(2, deadline, lead), Core(none));
    var s3 := R.System(Cat(3, deadline, lead), Core(Waiting(deadline, lead)));
    run := [s0, s1, s2, s3];
    assert R.ServiceNext(s0, s1, NewUser(USER, Leads(lead)));
    assert R.ServiceNext(s1, s2, Create(Fields(deadline)));
    Starred(deadline, lead);
    assert R.ServiceNext(s2, s3, Star(USER, CONF));
  }

  /** So for every deadline and lead there is a run of the system, from the empty database, that mails the
      reminder twice. */
  lemma CrashResends(deadline: Instant, lead: int, max: int) returns (run: seq<R.System>)
    ensures R.SystemRun(run, max)
    ensures var s, k := run[|run| - 1].core, KeyFor(lead); s.mails[k] == 2 && SentNow(s, k)
  {
    run := Begins(deadline, lead, max);
    var k, s := KeyFor(lead), run[|run| - 1].core;
    assert Locked(s) == {};
    run := RemindersTwice(run, max, 0, s.log.rows[k].at, [k]);
  }
}
