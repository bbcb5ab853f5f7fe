/** The dispatch tables: rows keyed by their UNIQUE constraint, and the statements that change them.
    A row's uuid primary key is modelled by a number that is handed out once and never again. */
module DispatchLog {

  datatype Option<+T> = None | Some(value: T)

  ghost function Elements<T>(s: seq<T>): set<T> {
    set x <- s
  }

  /** Nanoseconds since 0001-01-01 00:00:00 UTC, the instant Go calls the zero time. */
  type Instant = int

  datatype Status = Pending | Sent | Failed | Cancelled | Skipped

  datatype Row = Row(id: nat, at: Instant, status: Status, attempts: nat)

  datatype Table<K> = Table(rows: map<K, Row>, nextId: nat)

  /** Row ids are handed out once: none repeats and none lies ahead of the counter. */
  ghost predicate DistinctIds<K>(t: Table<K>) {
    && (forall k <- t.rows :: t.rows[k].id < t.nextId)
    && (forall k <- t.rows, j <- t.rows :: k != j ==> t.rows[k].id != t.rows[j].id)
  }

  // INSERT ... ON CONFLICT DO NOTHING
  function Insert<K(==)>(t: Table<K>, k: K, at: Instant): Table<K> {
    if k in t.rows then t else Table(t.rows[k := Row(t.nextId, at, Pending, 0)], t.nextId + 1)
  }

  // DELETE ... WHERE status = 'pending' AND key in the given set
  function DropPending<K(==)>(t: Table<K>, which: set<K>): Table<K> {
    t.(rows := map k <- t.rows | !(k in which && t.rows[k].status.Pending?) :: t.rows[k])
  }

  // UPDATE ... SET status = 'cancelled' WHERE status = 'pending' AND key in the given set
  function CancelPending<K(==)>(t: Table<K>, which: set<K>): Table<K> {
    t.(rows := map k <- t.rows ::
      if k in which && t.rows[k].status.Pending? then t.rows[k].(status := Cancelled) else t.rows[k])
  }

  ghost predicate FreshRow(row: Row, at: Instant, t: nat, t': nat) {
    row.at == at && row.status.Pending? && row.attempts == 0 && t <= row.id < t'
  }

  /** t' is t with a fresh pending row for every wanted key that had no row, and nothing else changed. */
  ghost predicate Filled<K(!new)>(t: Table<K>, t': Table<K>, want: map<K, Instant>) {
    && t.nextId <= t'.nextId
    && t'.rows.Keys == t.rows.Keys + want.Keys
    && (forall k <- t.rows :: t'.rows[k] == t.rows[k])
    && (forall k <- want | k !in t.rows :: FreshRow(t'.rows[k], want[k], t.nextId, t'.nextId))
    && (forall k <- want, j <- want | k !in t.rows && j !in t.rows && k != j :: t'.rows[k].id != t'.rows[j].id)
  }

  lemma InsertFills<K(!new)>(t: Table<K>, k: K, at: Instant)
    ensures Filled(t, Insert(t, k, at), map[k := at])
  {}

  /** Two rounds of inserts amount to one, provided they agree about the keys they share. */
  lemma FilledCompose<K(!new)>(t0: Table<K>, t1: Table<K>, t2: Table<K>, a: map<K, Instant>, b: map<K, Instant>)
    requires Filled(t0, t1, a) && Filled(t1, t2, b)
    requires forall k <- a | k in b :: a[k] == b[k]
    ensures Filled(t0, t2, a + b)
  {}

  lemma InsertAfter<K(!new)>(t: Table<K>, t': Table<K>, want: map<K, Instant>, k: K, at: Instant)
    requires Filled(t, t', want) && (k in want ==> want[k] == at)
    ensures Filled(t, Insert(t', k, at), want[k := at])
  {}

  lemma FilledKeepsIds<K(!new)>(t: Table<K>, t': Table<K>, want: map<K, Instant>)
    requires DistinctIds(t) && Filled(t, t', want)
    ensures DistinctIds(t')
  {
    forall k <- t'.rows | k !in t.rows
      ensures t.nextId <= t'.rows[k].id < t'.nextId
    {
      assert FreshRow(t'.rows[k], want[k], t.nextId, t'.nextId);
    }
  }
}
