/**
 * The result store: one `XmlStorage` table per catalog file, keyed by request
 * uid, holding the XML (or a failure note) and the status of each request, and
 * the lock-retrying wrapper every store call goes through.
 */
module Store {
  import opened Wrappers

  /** A stored request: its XML or failure note, and its status. */
  datatype Row = Row(content: string, status: int)

  /** A store file; a file without the `XmlStorage` table has no rows to give and takes none. */
  datatype Db = Db(table: Option<map<string, Row>>)

  /** `load_xml_from_sqlite(uid)`: the stored row, nothing for an unknown uid or a missing table. */
  function Load(db: Db, uid: string): (r: Option<Row>)
    ensures r.Some? <==> db.table.Some? && uid in db.table.value
    ensures r.Some? ==> r.value == db.table.value[uid]
  {
    if db.table.Some? && uid in db.table.value then Some(db.table.value[uid]) else None
  }

  /** Every uid other than `uid` reads the same in both stores. */
  ghost predicate OthersUnchanged(a: Db, b: Db, uid: string) {
    forall u :: u != uid ==> Load(a, u) == Load(b, u)
  }

  /** A placeholder row: no XML yet, status 200. */
  const Pending: Row := Row("", 200)

  /** `insert_uid_with_none(uid)`: `INSERT OR IGNORE` of a pending row; an existing row is kept. */
  function InsertUidWithNone(db: Db, uid: string): (d: Db)
    ensures db.table.Some? ==> Load(d, uid) == if Load(db, uid).Some? then Load(db, uid) else Some(Pending)
    ensures db.table.None? ==> d == db
    ensures OthersUnchanged(d, db, uid)
  {
    match db.table
    case None => db
    case Some(t) => if uid in t then db else Db(Some(t[uid := Pending]))
  }

  /** `update_xml_in_sqlite(uid, xml, status)`: rewrites an existing row and never adds one. */
  function Update(db: Db, uid: string, content: string, status: int): (d: Db)
    ensures Load(d, uid) == if Load(db, uid).Some? then Some(Row(content, status)) else None
    ensures OthersUnchanged(d, db, uid)
  {
    match db.table
    case None => db
    case Some(t) => if uid in t then Db(Some(t[uid := Row(content, status)])) else db
  }

  /** `save_xml_to_sqlite(uid, xml, status)`: `REPLACE` writes the row whether or not it existed. */
  function Save(db: Db, uid: string, content: string, status: int): (d: Db)
    ensures db.table.Some? ==> Load(d, uid) == Some(Row(content, status))
    ensures db.table.None? ==> d == db
    ensures OthersUnchanged(d, db, uid)
  {
    match db.table
    case None => db
    case Some(t) => Db(Some(t[uid := Row(content, status)]))
  }

  /** `remove_uid_from_db(uid)`: the uid is gone afterwards. */
  function Remove(db: Db, uid: string): (d: Db)
    ensures Load(d, uid).None?
    ensures OthersUnchanged(d, db, uid)
  {
    match db.table
    case None => db
    case Some(t) => Db(Some(t - {uid}))
  }

  /** Inserting twice is inserting once. */
  lemma InsertIdempotent(db: Db, uid: string)
    ensures InsertUidWithNone(InsertUidWithNone(db, uid), uid) == InsertUidWithNone(db, uid)
  {
    var d := InsertUidWithNone(db, uid);
    assert d.table.Some? ==> uid in d.table.value;
  }

  /** After the placeholder insert, an update always lands: the store then reads what was written. */
  lemma InsertThenUpdate(db: Db, uid: string, content: string, status: int)
    requires db.table.Some?
    ensures Load(Update(InsertUidWithNone(db, uid), uid, content, status), uid) == Some(Row(content, status))
  {
    assert Load(InsertUidWithNone(db, uid), uid).Some?;
  }

  /** Saving writes the same row an insert followed by an update does, and leaves the same store. */
  lemma SaveIsInsertThenUpdate(db: Db, uid: string, content: string, status: int)
    ensures Save(db, uid, content, status) == Update(InsertUidWithNone(db, uid), uid, content, status)
  {
    if db.table.Some? {
      var t := db.table.value;
      if uid in t {
        assert t[uid := Pending][uid := Row(content, status)] == t[uid := Row(content, status)];
      } else {
        assert t[uid := Pending][uid := Row(content, status)] == t[uid := Row(content, status)];
      }
    }
  }

  /** A removed uid can be inserted afresh: it reads as pending again. */
  lemma RemoveThenInsert(db: Db, uid: string)
    requires db.table.Some?
    ensures Load(InsertUidWithNone(Remove(db, uid), uid), uid) == Some(Pending)
  {
    assert Load(Remove(db, uid), uid).None?;
  }

  // ---------------------------------------------------------------------------
  // retry_on_lock

  const Retries: nat := 5

  /**
   * What one call of a store method does: return a value, or raise
   * `sqlite3.OperationalError`, `locked` recording whether its message
   * mentions a lock.
   */
  datatype Call<T> = Returned(value: T) | Operational(locked: bool)

  /** What the wrapper hands back: the call's value, or the error it re-raises. */
  datatype Outcome<T> = Value(value: T) | Raised(locked: bool)

  /** The wrapper's run: its outcome, how many calls it made and how long it slept, in seconds. */
  datatype Run<T> = Run(outcome: Outcome<T>, calls: nat, slept: real)

  function OutcomeOf<T>(c: Call<T>): (o: Outcome<T>)
    ensures o.Value? <==> c.Returned?
    ensures c.Returned? ==> o.value == c.value
    ensures c.Operational? ==> o.locked == c.locked
  {
    match c
    case Returned(v) => Value(v)
    case Operational(l) => Raised(l)
  }

  /** Seconds slept before the retries of the first `n` attempts: `0.5 * (k + 1)` after attempt `k`. */
  function SleepBefore(n: nat): (s: real)
    ensures 4.0 * s == (n * (n + 1)) as real
  {
    if n == 0 then 0.0 else SleepBefore(n - 1) + 0.5 * n as real
  }

  /** Locked failures are retried while attempts remain. */
  predicate Retryable<T>(c: Call<T>, attempt: nat) {
    c.Operational? && c.locked && attempt < Retries - 1
  }

  /**
   * `retry_on_lock` from attempt `attempt` on, where `call(k)` is what the
   * `k`-th call does. The wrapper returns the first value, re-raises the first
   * error that is not a lock or comes on the last attempt, and retries every
   * other error after sleeping half a second times the attempt number.
   */
  function RetryFrom<T>(call: nat -> Call<T>, attempt: nat): (r: Run<T>)
    requires attempt < Retries
    ensures attempt < attempt + r.calls <= Retries
    ensures forall k :: attempt <= k < attempt + r.calls - 1 ==> Retryable(call(k), k)
    ensures !Retryable(call(attempt + r.calls - 1), attempt + r.calls - 1)
    ensures r.outcome == OutcomeOf(call(attempt + r.calls - 1))
    ensures 4.0 * r.slept == ((attempt + r.calls - 1) * (attempt + r.calls)) as real - (attempt * (attempt + 1)) as real
    decreases Retries - attempt
  {
    var c := call(attempt);
    if Retryable(c, attempt) then
      var rest := RetryFrom(call, attempt + 1);
      Run(rest.outcome, rest.calls + 1, 0.5 * (attempt + 1) as real + rest.slept)
    else
      Run(OutcomeOf(c), 1, 0.0)
  }

  /** The wrapper as applied to a store method. */
  function RetryOnLock<T>(call: nat -> Call<T>): (r: Run<T>)
    ensures 1 <= r.calls <= Retries
    ensures r.outcome == OutcomeOf(call(r.calls - 1))
    ensures forall k :: 0 <= k < r.calls - 1 ==> call(k) == Operational(true)
    ensures r.calls < Retries ==> !(call(r.calls - 1).Operational? && call(r.calls - 1).locked)
    ensures r.slept == SleepBefore(r.calls - 1)
  {
    RetryFrom(call, 0)
  }

  /** However often the database is locked, the wrapper sleeps at most five seconds in all. */
  lemma {:induction false} SleepBound<T>(call: nat -> Call<T>)
    ensures RetryOnLock(call).slept <= 5.0
  {
    var r := RetryOnLock(call);
    var n: nat := r.calls - 1;
    assert 4.0 * SleepBefore(n) == (n * (n + 1)) as real;
    assert n * (n + 1) <= 20 by {
      assert n <= 4;
      assert n * (n + 1) <= 4 * (n + 1) <= 20;
    }
  }

  // ---------------------------------------------------------------------------
  // The wrapper over the store methods as written

  /**
   * Every store method catches `sqlite3.Error` itself, `OperationalError`
   * included, logs it and returns its fallback (`None`, or nothing), so the
   * error never reaches the wrapper.
   */
  function Guarded<T>(c: Call<T>, fallback: T): (g: Call<T>)
    ensures g.Returned?
    ensures c.Returned? ==> g == c
    ensures c.Operational? ==> g.value == fallback
  {
    match c
    case Returned(v) => c
    case Operational(_) => Returned(fallback)
  }

  /** The wrapper over a guarded store method: it makes exactly one call, whatever happens. */
  function RetryGuarded<T>(call: nat -> Call<T>, fallback: T): (r: Run<T>)
    ensures r.calls == 1 && r.slept == 0.0
    ensures r.outcome == Value(Guarded(call(0), fallback).value)
  {
    RetryOnLock(k => Guarded(call(k), fallback))
  }

  /** A load whose first call meets a locked database and whose second would find the row. */
  function LockedOnce(row: Row): nat -> Call<Option<Row>> {
    k => if k == 0 then Operational(true) else Returned(Some(row))
  }

  /**
   * A database locked for one moment: the guarded load reports the uid as
   * unknown after a single call, where the retrying wrapper would have found
   * its row on the second call, half a second later.
   */
  lemma LockedLoadReadsAsMissing(row: Row)
    ensures RetryGuarded(LockedOnce(row), None).outcome == Value(None)
    ensures RetryOnLock(LockedOnce(row)) == Run(Value(Some(row)), 2, 0.5)
  {
    var call := LockedOnce(row);
    assert Retryable(call(0), 0);
    assert !Retryable(call(1), 1);
    assert RetryFrom(call, 1) == Run(Value(Some(row)), 1, 0.0);
  }
}
