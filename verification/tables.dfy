/**
 * A relational table with an auto-increment primary key, and the two
 * query shapes the services use: `where(...)->first()` and `where(...)->get()`.
 */
module Tables {
  import opened Wrappers

  datatype RawTable<T> = RawTable(rows: map<nat, T>, next: nat)

  /** Rows keyed by id; every id in use lies below the next id to be issued. */
  type Table<T> = t: RawTable<T> | forall k :: k in t.rows ==> k < t.next
    witness RawTable(map[], 0)

  /** The table with no rows. */
  function Empty<T>(): (t: Table<T>)
    ensures t.rows == map[]
  {
    RawTable(map[], 0)
  }

  /** INSERT: the row is stored under a fresh id; no existing row moves or changes. */
  function Insert<T>(t: Table<T>, row: T): (r: (Table<T>, nat))
    ensures r.1 !in t.rows
    ensures r.0.rows == t.rows[r.1 := row]
  {
    (RawTable(t.rows[t.next := row], t.next + 1), t.next)
  }

  /** UPDATE of one existing row; no other row changes. */
  function Update<T>(t: Table<T>, id: nat, row: T): (r: Table<T>)
    requires id in t.rows
    ensures r.rows == t.rows[id := row]
    ensures r.rows.Keys == t.rows.Keys
  {
    RawTable(t.rows[id := row], t.next)
  }

  /**
   * `where(p)->first()`: the matching row with the smallest id, or none
   * when no row matches.
   */
  function First<T>(t: Table<T>, p: T -> bool): (r: Option<nat>)
    ensures r.Some? ==> r.value in t.rows && p(t.rows[r.value])
    ensures r.Some? ==> forall k :: k in t.rows && k < r.value ==> !p(t.rows[k])
    ensures r.None? <==> forall k :: k in t.rows ==> !p(t.rows[k])
  {
    FirstFrom(t, p, 0)
  }

  /** The smallest matching id at or above `from`. */
  function FirstFrom<T>(t: Table<T>, p: T -> bool, from: nat): (r: Option<nat>)
    ensures r.Some? ==> from <= r.value && r.value in t.rows && p(t.rows[r.value])
    ensures r.Some? ==> forall k :: k in t.rows && from <= k < r.value ==> !p(t.rows[k])
    ensures r.None? <==> forall k :: k in t.rows && from <= k ==> !p(t.rows[k])
    decreases t.next - from
  {
    if from >= t.next then None
    else if from in t.rows && p(t.rows[from]) then Some(from)
    else FirstFrom(t, p, from + 1)
  }
}
