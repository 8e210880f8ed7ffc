/**
  The durable event log. Writers allocate sequence values inside transactions that may commit
  late, roll back or crash; consumers read committed rows by `seq > cursor`. That is only safe
  because every writer first takes the table's exclusive lock.
*/
module Outbox {
  import opened Wrappers

  /** The payload members the consumers look at, already read out of the JSON. */
  datatype Payload = Payload(
    classification: Option<string>, eligible: bool, chain: Option<string>,
    token: Option<nat>, trader: Option<nat>, effectiveAt: Option<int>)

  datatype Event = Event(
    kind: string, aggregateType: Option<string>, aggregate: Option<nat>, key: string,
    payload: Payload, createdAt: int)

  /** `num` is the `seq` column. */
  datatype Row = Row(num: nat, event: Event)

  type Tx = nat

  /** `rows` are the committed rows in the order their transactions committed. */
  datatype Db = Db(rows: seq<Row>, nextSeq: nat, holder: Option<Tx>, pending: map<Tx, seq<Row>>)

  datatype Action = Lock(tx: Tx) | Insert(tx: Tx, event: Event) | Commit(tx: Tx) | Rollback(tx: Tx)

  const EMPTY := Db([], 1, None, map[])

  function Pending(db: Db, tx: Tx): seq<Row> {
    if tx in db.pending then db.pending[tx] else []
  }

  predicate HasKey(rows: seq<Row>, key: string) {
    exists i :: 0 <= i < |rows| && rows[i].event.key == key
  }

  function Released(db: Db, tx: Tx): Option<Tx> {
    if db.holder == Some(tx) then None else db.holder
  }

  /** A conflicting insert returns the existing row, but its sequence value is spent all the same. */
  function Inserted(db: Db, tx: Tx, event: Event): Db {
    var mine := Pending(db, tx);
    if HasKey(db.rows, event.key) || HasKey(mine, event.key) then db.(nextSeq := db.nextSeq + 1)
    else db.(nextSeq := db.nextSeq + 1, pending := db.pending[tx := mine + [Row(db.nextSeq, event)]])
  }

  /** One statement; a statement that has to wait changes nothing. A crash is a rollback. */
  function Apply(db: Db, a: Action, locking: bool): Db {
    match a
    case Lock(tx) => if db.holder.None? then db.(holder := Some(tx)) else db
    case Insert(tx, event) =>
      if locking && db.holder != Some(tx) then db else Inserted(db, tx, event)
    case Commit(tx) =>
      db.(rows := db.rows + Pending(db, tx), holder := Released(db, tx), pending := db.pending - {tx})
    case Rollback(tx) => db.(holder := Released(db, tx), pending := db.pending - {tx})
  }

  function ApplyAll(db: Db, schedule: seq<Action>, locking: bool): Db {
    if |schedule| == 0 then db
    else Apply(ApplyAll(db, schedule[..|schedule| - 1], locking), schedule[|schedule| - 1], locking)
  }

  /** What a statement does to the visible rows, the lock and the sequence: only a commit shows rows, those of its own
      transaction; a rollback drops them; both release the lock; every insert that does not wait spends a value. */
  lemma StatementEffects(db: Db, a: Action, locking: bool)
    ensures var next := Apply(db, a, locking);
      && next.rows == (if a.Commit? then db.rows + Pending(db, a.tx) else db.rows)
      && next.holder == (if a.Lock? then (if db.holder.None? then Some(a.tx) else db.holder)
                         else if (a.Commit? || a.Rollback?) && db.holder == Some(a.tx) then None else db.holder)
      && next.nextSeq == (if a.Insert? && (db.holder == Some(a.tx) || !locking) then db.nextSeq + 1 else db.nextSeq)
  {
  }

  /** And to the rows not yet visible: an insert adds one, unless its key is visible or among the transaction's own. */
  lemma PendingEffects(db: Db, a: Action, locking: bool, tx: Tx)
    ensures var next, mine := Apply(db, a, locking), Pending(db, a.tx);
      && (tx != a.tx || a.Lock? ==> Pending(next, tx) == Pending(db, tx))
      && (a.Commit? || a.Rollback? ==> Pending(next, a.tx) == [])
      && (a.Insert? && locking && db.holder != Some(a.tx) ==> next == db)
      && (a.Insert? && (db.holder == Some(a.tx) || !locking) ==>
            Pending(next, a.tx) ==
              if exists i :: 0 <= i < |db.rows + mine| && (db.rows + mine)[i].event.key == a.event.key then mine
              else mine + [Row(db.nextSeq, a.event)])
  {
    if a.Insert? {
      var mine := Pending(db, a.tx);
      KeyOfEither(db.rows, mine, a.event.key);
    }
  }

  lemma KeyOfEither(rows: seq<Row>, mine: seq<Row>, key: string)
    ensures HasKey(rows, key) || HasKey(mine, key) <==> exists i :: 0 <= i < |rows + mine| && (rows + mine)[i].event.key == key
  {
    var all := rows + mine;
    if HasKey(rows, key) {
      var i :| 0 <= i < |rows| && rows[i].event.key == key;
      assert all[i] == rows[i];
    } else if HasKey(mine, key) {
      var i :| 0 <= i < |mine| && mine[i].event.key == key;
      assert all[|rows| + i] == mine[i];
    }
  }

  // ---------------------------------------------------------------- commit order is sequence order

  ghost predicate Ascending(rows: seq<Row>) {
    forall i, j :: 0 <= i < j < |rows| ==> rows[i].num < rows[j].num
  }

  ghost predicate DistinctKeys(rows: seq<Row>) {
    forall i, j :: 0 <= i < j < |rows| ==> rows[i].event.key != rows[j].event.key
  }

  /** What readers rely on: positive, strictly increasing sequence values and unique keys. */
  ghost predicate Ordered(rows: seq<Row>) {
    Ascending(rows) && DistinctKeys(rows) && (forall i :: 0 <= i < |rows| ==> rows[i].num > 0)
  }

  /** The committed rows together with whatever the lock holder has inserted so far. */
  function Ahead(db: Db): seq<Row> {
    db.rows + (match db.holder case Some(tx) => Pending(db, tx) case None => [])
  }

  ghost predicate Sound(db: Db) {
    && Ordered(Ahead(db))
    && db.nextSeq > 0
    && (forall i :: 0 <= i < |Ahead(db)| ==> Ahead(db)[i].num < db.nextSeq)
    && (forall tx :: tx in db.pending && db.holder != Some(tx) ==> db.pending[tx] == [])
  }

  /** `later` continues `rows`: nothing is removed, and what is new carries greater sequence values. */
  ghost predicate Grows(rows: seq<Row>, later: seq<Row>) {
    && rows <= later
    && (forall i, j :: 0 <= i < |rows| <= j < |later| ==> rows[i].num < later[j].num)
  }

  lemma OrderedPrefix(rows: seq<Row>, n: nat)
    requires Ordered(rows) && n <= |rows|
    ensures Ordered(rows[..n]) && Grows(rows[..n], rows)
  {
  }

  lemma AppendOrdered(rows: seq<Row>, r: Row)
    requires Ordered(rows) && r.num > 0
    requires forall i :: 0 <= i < |rows| ==> rows[i].num < r.num && rows[i].event.key != r.event.key
    ensures Ordered(rows + [r])
  {
  }

  lemma InsertKeepsSound(db: Db, tx: Tx, event: Event)
    requires Sound(db) && db.holder == Some(tx)
    ensures Sound(Inserted(db, tx, event)) && Inserted(db, tx, event).rows == db.rows
  {
    var next := Inserted(db, tx, event);
    var all := Ahead(db);
    if next.pending != db.pending {
      assert Ahead(next) == all + [Row(db.nextSeq, event)];
      forall i | 0 <= i < |all| ensures all[i].event.key != event.key {
        if i < |db.rows| { assert all[i] == db.rows[i]; } else { assert all[i] == Pending(db, tx)[i - |db.rows|]; }
      }
      AppendOrdered(all, Row(db.nextSeq, event));
    } else {
      assert Ahead(next) == all;
    }
  }

  /** Every statement of every transaction keeps the log sound and only ever extends it at the end. */
  lemma StepIsSafe(db: Db, a: Action)
    requires Sound(db)
    ensures Sound(Apply(db, a, true)) && Grows(db.rows, Apply(db, a, true).rows)
  {
    var next := Apply(db, a, true);
    match a {
      case Lock(tx) =>
        if db.holder.None? {
          assert Pending(db, tx) == [];
          assert Ahead(next) == Ahead(db);
        }
      case Insert(tx, event) =>
        if db.holder == Some(tx) { InsertKeepsSound(db, tx, event); }
      case Commit(tx) =>
        if db.holder == Some(tx) {
          assert Ahead(next) == Ahead(db);
        } else {
          assert Pending(db, tx) == [];
          assert next.rows == db.rows && Ahead(next) == Ahead(db);
        }
      case Rollback(tx) =>
        if db.holder == Some(tx) {
          OrderedPrefix(Ahead(db), |db.rows|);
          assert Ahead(next) == db.rows == Ahead(db)[..|db.rows|];
        } else {
          assert Ahead(next) == Ahead(db);
        }
    }
  }

  lemma {:induction false} ScheduleIsSafe(schedule: seq<Action>)
    ensures Sound(ApplyAll(EMPTY, schedule, true))
  {
    if |schedule| > 0 {
      var init := schedule[..|schedule| - 1];
      ScheduleIsSafe(init);
      StepIsSafe(ApplyAll(EMPTY, init, true), schedule[|schedule| - 1]);
    }
  }

  lemma GrowsTransitive(a: seq<Row>, b: seq<Row>, c: seq<Row>)
    requires Grows(a, b) && Grows(b, c)
    ensures Grows(a, c)
  {
    forall i, j | 0 <= i < |a| <= j < |c| ensures a[i].num < c[j].num {
      if j < |b| { assert c[j] == b[j]; } else { assert a[i] == b[i]; }
    }
  }

  /** Whatever the interleaving, no row ever becomes visible at or below a sequence value already visible. */
  lemma {:induction false} NoLateCommit(schedule: seq<Action>, k: nat)
    requires k <= |schedule|
    ensures Grows(ApplyAll(EMPTY, schedule[..k], true).rows, ApplyAll(EMPTY, schedule, true).rows)
    ensures Ordered(ApplyAll(EMPTY, schedule, true).rows)
    decreases |schedule|
  {
    ScheduleIsSafe(schedule);
    var db := ApplyAll(EMPTY, schedule, true);
    OrderedPrefix(Ahead(db), |db.rows|);
    assert Ahead(db)[..|db.rows|] == db.rows;
    if k < |schedule| {
      var init := schedule[..|schedule| - 1];
      NoLateCommit(init, k);
      ScheduleIsSafe(init);
      StepIsSafe(ApplyAll(EMPTY, init, true), schedule[|schedule| - 1]);
      assert init[..k] == schedule[..k];
      GrowsTransitive(ApplyAll(EMPTY, schedule[..k], true).rows, ApplyAll(EMPTY, init, true).rows, db.rows);
    } else {
      assert schedule[..k] == schedule;
    }
  }

  /** Without the lock two writers suffice to commit a lower sequence value after a higher one. */
  lemma LockIsNeeded(first: Event, second: Event)
    requires first.key != second.key
    ensures var schedule := [Insert(1, first), Insert(2, second), Commit(2), Commit(1)];
      && ApplyAll(EMPTY, schedule[..3], false).rows == [Row(2, second)]
      && ApplyAll(EMPTY, schedule, false).rows == [Row(2, second), Row(1, first)]
  {
    var i1, i2, c2, c1 := Insert(1, first), Insert(2, second), Commit(2), Commit(1);
    var schedule := [i1, i2, c2, c1];
    ApplyLast(EMPTY, [], i1, false);
    ApplyLast(EMPTY, [i1], i2, false);
    ApplyLast(EMPTY, [i1, i2], c2, false);
    ApplyLast(EMPTY, [i1, i2, c2], c1, false);
    assert [] + [i1] == [i1] && [i1] + [i2] == [i1, i2] && [i1, i2] + [c2] == [i1, i2, c2] == schedule[..3];
    assert [i1, i2, c2] + [c1] == schedule;
    assert ApplyAll(EMPTY, [], false) == EMPTY && Pending(EMPTY, 1) == [];
    var d1 := Apply(EMPTY, i1, false);
    assert Pending(EMPTY, 1) + [Row(1, first)] == [Row(1, first)];
    assert d1 == Inserted(EMPTY, 1, first) && d1.pending[1] == [Row(1, first)];
    var d2 := Apply(d1, i2, false);
    assert Pending(d1, 2) == [] && d2 == Inserted(d1, 2, second);
    assert d2.pending[2] == [Row(2, second)] && d2.pending[1] == [Row(1, first)];
  }

  lemma ApplyLast(db: Db, schedule: seq<Action>, a: Action, locking: bool)
    ensures ApplyAll(db, schedule + [a], locking) == Apply(ApplyAll(db, schedule, locking), a, locking)
  {
    assert (schedule + [a])[..|schedule|] == schedule;
  }

  // ---------------------------------------------------------------- reads

  /** Rows with `after < num <= through`. */
  function Select(rows: seq<Row>, after: int, through: int): (r: seq<Row>)
    ensures forall i :: 0 <= i < |r| ==> r[i] in rows && after < r[i].num <= through
  {
    if |rows| == 0 then []
    else
      var init, last := Select(rows[..|rows| - 1], after, through), rows[|rows| - 1];
      if after < last.num <= through then init + [last] else init
  }

  function Take(rows: seq<Row>, limit: nat): seq<Row> {
    if |rows| <= limit then rows else rows[..limit]
  }

  function HighWatermark(rows: seq<Row>): (w: nat)
    ensures forall i :: 0 <= i < |rows| ==> rows[i].num <= w
    ensures w == 0 || exists i :: 0 <= i < |rows| && rows[i].num == w
  {
    if |rows| == 0 then 0
    else
      var w := HighWatermark(rows[..|rows| - 1]);
      assert forall i :: 0 <= i < |rows| - 1 ==> rows[..|rows| - 1][i] == rows[i];
      if rows[|rows| - 1].num > w then rows[|rows| - 1].num else w
  }

  lemma WatermarkGrows(rows: seq<Row>, later: seq<Row>)
    requires Grows(rows, later)
    ensures HighWatermark(rows) <= HighWatermark(later)
  {
    if HighWatermark(rows) > 0 {
      var i :| 0 <= i < |rows| && rows[i].num == HighWatermark(rows);
      assert later[i] == rows[i];
    }
  }

  lemma {:induction false} SelectKeeps(rows: seq<Row>, after: int, through: int, r: Row)
    ensures r in Select(rows, after, through) <==> r in rows && after < r.num <= through
  {
    if |rows| > 0 {
      SelectKeeps(rows[..|rows| - 1], after, through, r);
      assert rows == rows[..|rows| - 1] + [rows[|rows| - 1]];
    }
  }

  lemma {:induction false} SelectNone(rows: seq<Row>, after: int, through: int)
    requires forall i :: 0 <= i < |rows| ==> rows[i].num <= after
    ensures Select(rows, after, through) == []
  {
    if |rows| > 0 { SelectNone(rows[..|rows| - 1], after, through); }
  }

  /** Reading in two stages loses and repeats nothing. */
  lemma {:induction false} SelectSplits(rows: seq<Row>, a: int, b: int, c: int)
    requires Ascending(rows) && a <= b <= c
    ensures Select(rows, a, c) == Select(rows, a, b) + Select(rows, b, c)
  {
    if |rows| > 0 {
      var init, last := rows[..|rows| - 1], rows[|rows| - 1];
      SelectSplits(init, a, b, c);
      assert forall i :: 0 <= i < |init| ==> init[i] == rows[i];
      if last.num <= b { SelectNone(init, b, c); }
    }
  }

  /** Rows committed later do not disturb what was read up to a visible sequence value. */
  lemma {:induction false} SelectIsStable(rows: seq<Row>, later: seq<Row>, after: int, through: int)
    requires Grows(rows, later) && Ordered(later) && through <= HighWatermark(rows)
    ensures Select(later, after, through) == Select(rows, after, through)
  {
    if |later| > |rows| {
      var init := later[..|later| - 1];
      assert Grows(rows, init);
      SelectIsStable(rows, init, after, through);
      assert later[|later| - 1].num > HighWatermark(rows);
    } else {
      assert later == rows;
    }
  }

  lemma {:induction false} SelectAscends(rows: seq<Row>, after: int, through: int)
    requires Ascending(rows)
    ensures Ascending(Select(rows, after, through))
  {
    if |rows| > 0 {
      SelectAscends(rows[..|rows| - 1], after, through);
    }
  }

  lemma SoundIsOrdered(db: Db)
    requires Sound(db)
    ensures Ordered(db.rows)
  {
    OrderedPrefix(Ahead(db), |db.rows|);
    assert Ahead(db)[..|db.rows|] == db.rows;
  }

  lemma OrderedAscends(rows: seq<Row>)
    requires Ordered(rows)
    ensures Ascending(rows)
  {
  }

  lemma {:induction false} NothingBetween(rows: seq<Row>, at: int)
    ensures Select(rows, at, at) == []
  {
    if |rows| > 0 { NothingBetween(rows[..|rows| - 1], at); }
  }
}
