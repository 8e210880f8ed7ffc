/** Runs of the alert engine among concurrent writers, and the drain loop when it runs alone. */
module AlertRuns {
  import opened Wrappers
  import opened Outbox
  import opened AlertEngine

  const ENGINE: Tx := 0

  /** Where the engine's open transaction stands; `source` is the row it read under the cursor lock. */
  datatype Stage = Idle | Loaded(source: Row) | Appended(source: Row)

  /** `history` records the rows whose transactions have committed, in commit order. */
  datatype Engine = Engine(db: Db, cursor: nat, alerts: Alerts, stage: Stage, history: seq<Row>)

  datatype Move = Other(action: Action) | Load | TakeLock | Append | Finish | Abort

  function Unread(e: Engine): seq<Row> {
    Select(e.db.rows, e.cursor, HighWatermark(e.db.rows))
  }

  function Announcement(alerts: Alerts, source: Row, trades: Trades): Event
    requires Classify(source.event.kind).Some?
  {
    Delivery(source, Upsert(alerts, source, trades), Classify(source.event.kind).value, trades)
  }

  /** The transaction's commit: alert, announcement and cursor become durable together. */
  function Committed(e: Engine, source: Row, trades: Trades): Engine {
    Engine(Apply(e.db, Commit(ENGINE), true), source.num, Upsert(e.alerts, source, trades), Idle, e.history + [source])
  }

  function Step(e: Engine, m: Move, trades: Trades): Engine {
    match m
    case Other(a) => if a.tx == ENGINE then e else e.(db := Apply(e.db, a, true))
    case Load =>
      if e.stage.Idle? && |Unread(e)| > 0 then e.(stage := Loaded(Unread(e)[0])) else e
    case TakeLock =>
      if e.stage.Loaded? && Classify(e.stage.source.event.kind).Some? then e.(db := Apply(e.db, Lock(ENGINE), true)) else e
    case Append =>
      if e.stage.Loaded? && e.db.holder == Some(ENGINE) && Classify(e.stage.source.event.kind).Some?
      then e.(db := Inserted(e.db, ENGINE, Announcement(e.alerts, e.stage.source, trades)), stage := Appended(e.stage.source))
      else e
    case Finish =>
      if e.stage.Appended? || (e.stage.Loaded? && Classify(e.stage.source.event.kind).None?)
      then Committed(e, e.stage.source, trades)
      else e
    case Abort => e.(db := Apply(e.db, Rollback(ENGINE), true), stage := Idle)
  }

  function StepAll(e: Engine, moves: seq<Move>, trades: Trades): Engine {
    if |moves| == 0 then e
    else Step(StepAll(e, moves[..|moves| - 1], trades), moves[|moves| - 1], trades)
  }

  /** Adoption: the cursor starts at the watermark of whatever the writers have committed so far. */
  function Adopted(before: seq<Action>): Engine {
    var db := Apply(ApplyAll(EMPTY, before, true), Rollback(ENGINE), true);
    Engine(db, HighWatermark(db.rows), map[], Idle, [])
  }

  ghost predicate StageOk(e: Engine) {
    && (e.stage.Idle? || Select(e.db.rows, e.cursor, e.stage.source.num) == [e.stage.source])
    && (!e.stage.Idle? ==> e.cursor < e.stage.source.num <= HighWatermark(e.db.rows))
    && (e.stage.Appended? ==>
          && e.db.holder == Some(ENGINE)
          && Classify(e.stage.source.event.kind).Some?
          && HasKey(Ahead(e.db), DeliveryKey(e.stage.source.num)))
    && (!e.stage.Appended? ==> Pending(e.db, ENGINE) == [])
  }

  ghost predicate AllAnnounced(rows: seq<Row>, history: seq<Row>) {
    forall i :: 0 <= i < |history| && Classify(history[i].event.kind).Some? ==> HasKey(rows, DeliveryKey(history[i].num))
  }

  /** Every committed row after adoption is consumed exactly once, in order, and the alert table
      is the fold of exactly those rows. */
  ghost predicate Faithful(e: Engine, start: nat, trades: Trades) {
    && Sound(e.db) && Ordered(e.db.rows)
    && start <= e.cursor <= HighWatermark(e.db.rows)
    && e.history == Select(e.db.rows, start, e.cursor)
    && e.alerts == Fold(e.history, trades)
    && AllAnnounced(e.db.rows, e.history)
    && StageOk(e)
  }

  lemma KeyGrows(rows: seq<Row>, later: seq<Row>, key: string)
    requires rows <= later && HasKey(rows, key)
    ensures HasKey(later, key)
  {
    var i :| 0 <= i < |rows| && rows[i].event.key == key;
    assert later[i] == rows[i];
  }

  /** Reading ahead: the first unread row is the next one whatever commits meanwhile. */
  lemma {:induction false} FirstUnread(rows: seq<Row>, cursor: int, through: int)
    requires Ascending(rows) && |Select(rows, cursor, through)| > 0
    ensures var r := Select(rows, cursor, through)[0];
      Select(rows, cursor, r.num) == [r] && r in rows && cursor < r.num <= through
  {
    var all := Select(rows, cursor, through);
    var r := all[0];
    SelectAscends(rows, cursor, through);
    SelectSplits(rows, cursor, r.num, through);
    var head := Select(rows, cursor, r.num);
    SelectKeeps(rows, cursor, through, r);
    SelectKeeps(rows, cursor, r.num, r);
    assert r in head && head <= all;
    assert head[0] == r;
    assert head[|head| - 1] == all[|head| - 1] && head[|head| - 1].num <= r.num;
  }

  lemma OthersKeepFaith(e: Engine, a: Action, start: nat, trades: Trades)
    requires Faithful(e, start, trades) && a.tx != ENGINE
    ensures Faithful(e.(db := Apply(e.db, a, true)), start, trades)
  {
    hide Upsert, Sound, Ordered, HighWatermark, Fold, StageOk, AllAnnounced, Apply;
    DatabaseStep(e.db, a);
    StageSurvives(e, a);
    StillTheSame(e, Apply(e.db, a, true), start);
  }

  lemma StageSurvives(e: Engine, a: Action)
    requires StageOk(e) && Sound(e.db) && a.tx != ENGINE
    ensures StageOk(e.(db := Apply(e.db, a, true)))
  {
    hide Sound, Ordered, HighWatermark, Classify;
    var next := Apply(e.db, a, true);
    DatabaseStep(e.db, a);
    if !e.stage.Idle? { SelectIsStable(e.db.rows, next.rows, e.cursor, e.stage.source.num); }
    assert Pending(next, ENGINE) == Pending(e.db, ENGINE);
    if e.stage.Appended? { HolderKeepsKeys(e.db, a, DeliveryKey(e.stage.source.num)); }
  }

  lemma DatabaseStep(db: Db, a: Action)
    requires Sound(db)
    ensures var next := Apply(db, a, true);
      && Sound(next) && Ordered(next.rows) && Ordered(db.rows) && Grows(db.rows, next.rows)
      && HighWatermark(db.rows) <= HighWatermark(next.rows)
  {
    StepIsSafe(db, a);
    SoundIsOrdered(db);
    SoundIsOrdered(Apply(db, a, true));
    WatermarkGrows(db.rows, Apply(db, a, true).rows);
  }

  /** What the engine has read and written so far is unaffected by rows appended behind its back. */
  lemma StillTheSame(e: Engine, next: Db, start: nat)
    requires Grows(e.db.rows, next.rows) && Ordered(next.rows) && start <= e.cursor <= HighWatermark(e.db.rows)
    requires AllAnnounced(e.db.rows, e.history)
    ensures Select(next.rows, start, e.cursor) == Select(e.db.rows, start, e.cursor)
    ensures AllAnnounced(next.rows, e.history)
  {
    SelectIsStable(e.db.rows, next.rows, start, e.cursor);
    forall i | 0 <= i < |e.history| && Classify(e.history[i].event.kind).Some?
      ensures HasKey(next.rows, DeliveryKey(e.history[i].num))
    {
      KeyGrows(e.db.rows, next.rows, DeliveryKey(e.history[i].num));
    }
  }

  lemma HolderKeepsKeys(db: Db, a: Action, key: string)
    requires Sound(db) && db.holder == Some(ENGINE) && a.tx != ENGINE && HasKey(Ahead(db), key)
    ensures var next := Apply(db, a, true); next.holder == Some(ENGINE) && HasKey(Ahead(next), key)
  {
    assert Pending(db, a.tx) == [];
    assert db.rows + [] == db.rows;
  }

  lemma LoadKeepsFaith(e: Engine, start: nat, trades: Trades)
    requires Faithful(e, start, trades)
    ensures Faithful(Step(e, Load, trades), start, trades)
  {
    hide Upsert, Sound, HighWatermark, Classify, Fold, AllAnnounced, DeliveryKey, StageOk, Unread;
    if e.stage.Idle? && |Unread(e)| > 0 { LoadedStage(e); }
  }

  lemma LoadedStage(e: Engine)
    requires e.stage.Idle? && |Unread(e)| > 0 && Ascending(e.db.rows) && StageOk(e)
    ensures StageOk(e.(stage := Loaded(Unread(e)[0])))
  {
    hide HighWatermark, Classify, Ascending, Select, HasKey, Ahead, Pending, DeliveryKey;
    FirstUnread(e.db.rows, e.cursor, HighWatermark(e.db.rows));
  }

  lemma LockKeepsFaith(e: Engine, start: nat, trades: Trades)
    requires Faithful(e, start, trades)
    ensures Faithful(Step(e, TakeLock, trades), start, trades)
  {
    hide Upsert, Sound, Ordered, HighWatermark, Classify;
    DatabaseStep(e.db, Lock(ENGINE));
  }

  lemma AppendKeepsFaith(e: Engine, start: nat, trades: Trades)
    requires Faithful(e, start, trades)
    ensures Faithful(Step(e, Append, trades), start, trades)
  {
    hide Upsert, Sound, Ordered, HighWatermark, Classify;
    if e.stage.Loaded? && e.db.holder == Some(ENGINE) && Classify(e.stage.source.event.kind).Some? {
      var event := Announcement(e.alerts, e.stage.source, trades);
      InsertKeepsSound(e.db, ENGINE, event);
      InsertedHasKey(e.db, ENGINE, event);
    }
  }

  lemma InsertedHasKey(db: Db, tx: Tx, event: Event)
    requires db.holder == Some(tx)
    ensures HasKey(Ahead(Inserted(db, tx, event)), event.key)
  {
    var next := Inserted(db, tx, event);
    if HasKey(db.rows, event.key) {
      KeyGrows(db.rows, Ahead(next), event.key);
    } else if HasKey(Pending(db, tx), event.key) {
      var i :| 0 <= i < |Pending(db, tx)| && Pending(db, tx)[i].event.key == event.key;
      assert Ahead(next)[|db.rows| + i] == Pending(db, tx)[i];
    } else {
      assert Ahead(next)[|Ahead(next)| - 1] == Row(db.nextSeq, event);
    }
  }

  lemma FinishKeepsFaith(e: Engine, start: nat, trades: Trades)
    requires Faithful(e, start, trades) && !e.stage.Idle?
    requires e.stage.Appended? || Classify(e.stage.source.event.kind).None?
    ensures Faithful(Committed(e, e.stage.source, trades), start, trades)
  {
    hide Upsert, Sound, Ordered, HighWatermark, Classify, Fold, Apply, DeliveryKey, Select, AllAnnounced, Grows;
    var source := e.stage.source;
    var next := Committed(e, source, trades);
    var rows, later := e.db.rows, next.db.rows;
    DatabaseStep(e.db, Commit(ENGINE));
    CommitReleases(e.db);
    StillTheSame(e, next.db, start);
    SelectIsStable(rows, later, e.cursor, source.num);
    OrderedAscends(later);
    SelectSplits(later, start, e.cursor, source.num);
    FoldExtends(e.history, source, trades);
    AnnounceOneMore(later, e.history, source);
  }

  lemma CommitReleases(db: Db)
    ensures var next := Apply(db, Commit(ENGINE), true);
      && Pending(next, ENGINE) == []
      && (db.holder == Some(ENGINE) ==> next.rows == Ahead(db))
  {
  }

  lemma FoldExtends(rows: seq<Row>, r: Row, trades: Trades)
    ensures Fold(rows + [r], trades) == Upsert(Fold(rows, trades), r, trades)
  {
    hide Upsert;
    assert (rows + [r])[..|rows|] == rows;
  }

  lemma AnnounceOneMore(rows: seq<Row>, history: seq<Row>, r: Row)
    requires AllAnnounced(rows, history)
    requires Classify(r.event.kind).Some? ==> HasKey(rows, DeliveryKey(r.num))
    ensures AllAnnounced(rows, history + [r])
  {
  }

  lemma AbortKeepsFaith(e: Engine, start: nat, trades: Trades)
    requires Faithful(e, start, trades)
    ensures Faithful(Step(e, Abort, trades), start, trades)
  {
    hide Upsert, Sound, Ordered, HighWatermark, Classify;
    DatabaseStep(e.db, Rollback(ENGINE));
  }

  lemma StepKeepsFaith(e: Engine, m: Move, start: nat, trades: Trades)
    requires Faithful(e, start, trades)
    ensures Faithful(Step(e, m, trades), start, trades)
  {
    hide Faithful, Apply, Committed, Unread, Inserted, Announcement, Classify;
    match m {
      case Other(a) => if a.tx != ENGINE { OthersKeepFaith(e, a, start, trades); }
      case Load => LoadKeepsFaith(e, start, trades);
      case TakeLock => LockKeepsFaith(e, start, trades);
      case Append => AppendKeepsFaith(e, start, trades);
      case Finish =>
        if e.stage.Appended? || (e.stage.Loaded? && Classify(e.stage.source.event.kind).None?) {
          FinishKeepsFaith(e, start, trades);
        }
      case Abort => AbortKeepsFaith(e, start, trades);
    }
  }

  lemma AdoptionIsFaithful(before: seq<Action>, trades: Trades)
    ensures Faithful(Adopted(before), Adopted(before).cursor, trades)
    ensures forall r :: r in Adopted(before).db.rows ==> r.num <= Adopted(before).cursor
    ensures Adopted(before).history == [] && Adopted(before).alerts == map[]
  {
    ScheduleIsSafe(before);
    StepIsSafe(ApplyAll(EMPTY, before, true), Rollback(ENGINE));
    SoundIsOrdered(Adopted(before).db);
    NothingBetween(Adopted(before).db.rows, Adopted(before).cursor);
  }

  /** Over every interleaving of writers, waits, rollbacks and crashes the engine stays faithful. */
  lemma {:induction false} EveryRunIsFaithful(before: seq<Action>, moves: seq<Move>, trades: Trades)
    ensures Faithful(StepAll(Adopted(before), moves, trades), Adopted(before).cursor, trades)
  {
    hide Faithful, Step, Adopted;
    if |moves| == 0 {
      AdoptionIsFaithful(before, trades);
    } else {
      EveryRunIsFaithful(before, moves[..|moves| - 1], trades);
      StepKeepsFaith(StepAll(Adopted(before), moves[..|moves| - 1], trades), moves[|moves| - 1], Adopted(before).cursor, trades);
    }
  }

  /** In no run can the alert insert fail on a unique column other than the semantic key. */
  lemma InsertNeverFails(before: seq<Action>, moves: seq<Move>, trades: Trades)
    ensures var e := StepAll(Adopted(before), moves, trades);
      !e.stage.Idle? ==> !Clashes(e.alerts, e.stage.source)
  {
    hide Adopted, StepAll, Upsert, Classify, Clashes, Fold;
    EveryRunIsFaithful(before, moves, trades);
    var e, start := StepAll(Adopted(before), moves, trades), Adopted(before).cursor;
    if !e.stage.Idle? {
      SelectSplits(e.db.rows, start, e.cursor, e.stage.source.num);
      SelectIsOrdered(e.db.rows, start, e.stage.source.num);
      NeverClashes(e.history, e.stage.source, trades);
    }
  }

  lemma {:induction false} SelectIsOrdered(rows: seq<Row>, after: int, through: int)
    requires Ordered(rows)
    ensures Ordered(Select(rows, after, through))
  {
    if |rows| > 0 {
      var init, last := rows[..|rows| - 1], rows[|rows| - 1];
      OrderedPrefix(rows, |rows| - 1);
      SelectIsOrdered(init, after, through);
      var chosen := Select(init, after, through);
      forall i | 0 <= i < |chosen| ensures chosen[i].num < last.num && chosen[i].event.key != last.event.key {
        var j :| 0 <= j < |init| && init[j] == chosen[i];
        assert rows[j] == chosen[i];
      }
      if after < last.num <= through { AppendOrdered(chosen, last); }
    }
  }

  /** The other transactions run their own statements at any point, and the engine asks for the lock only to announce
      a classified row it has read. */
  lemma MovesOfOthers(e: Engine, a: Action, trades: Trades)
    ensures Step(e, Other(a), trades) == if a.tx == ENGINE then e else e.(db := Apply(e.db, a, true))
    ensures Step(e, TakeLock, trades) != e <==>
      e.stage.Loaded? && Classify(e.stage.source.event.kind).Some? && e.db.holder.None?
    ensures Step(e, TakeLock, trades) != e ==> Step(e, TakeLock, trades) == e.(db := e.db.(holder := Some(ENGINE)))
  {
    hide Classify;
  }

  // ---------------------------------------------------------------- running alone

  /** What still has to be done: a classified row costs itself and the announcement it will append. */
  function Weight(rows: seq<Row>): nat {
    if |rows| == 0 then 0
    else Weight(rows[..|rows| - 1]) + (if Classify(rows[|rows| - 1].event.kind).Some? then 2 else 1)
  }

  lemma {:induction false} WeightOfConcat(a: seq<Row>, b: seq<Row>)
    ensures Weight(a + b) == Weight(a) + Weight(b)
  {
    hide Classify;
    if |b| == 0 {
      assert a + b == a;
    } else {
      WeightOfConcat(a, b[..|b| - 1]);
      assert (a + b)[..|a + b| - 1] == a + b[..|b| - 1];
    }
  }

  /** One uninterrupted call of `process_next` on a nonempty backlog. */
  const CALL := [Load, TakeLock, Append, Finish]

  function Processed(e: Engine, trades: Trades): Engine {
    Step(Step(Step(Step(e, Load, trades), TakeLock, trades), Append, trades), Finish, trades)
  }

  /** No other writer is active. */
  predicate Alone(e: Engine) {
    e.stage.Idle? && e.db.holder.None?
  }

  lemma ProcessedIsACall(e: Engine, trades: Trades)
    ensures Processed(e, trades) == StepAll(e, CALL, trades)
  {
    hide Step;
    StepLast(e, [], Load, trades);
    StepLast(e, [Load], TakeLock, trades);
    StepLast(e, [Load, TakeLock], Append, trades);
    StepLast(e, [Load, TakeLock, Append], Finish, trades);
    assert [] + [Load] == [Load] && [Load] + [TakeLock] == [Load, TakeLock];
    assert [Load, TakeLock] + [Append] == [Load, TakeLock, Append] && [Load, TakeLock, Append] + [Finish] == CALL;
  }

  lemma StepLast(e: Engine, moves: seq<Move>, m: Move, trades: Trades)
    ensures StepAll(e, moves + [m], trades) == Step(StepAll(e, moves, trades), m, trades)
  {
    hide Step;
    assert (moves + [m])[..|moves|] == moves;
  }

  /** The call written out: one commit covers the alert, the announcement and the cursor. */
  function CallDb(e: Engine, source: Row, trades: Trades): Db {
    if Classify(source.event.kind).Some?
    then Apply(Inserted(e.db.(holder := Some(ENGINE)), ENGINE, Announcement(e.alerts, source, trades)), Commit(ENGINE), true)
    else Apply(e.db, Commit(ENGINE), true)
  }

  lemma CallWrittenOut(e: Engine, trades: Trades)
    requires Alone(e) && |Unread(e)| > 0
    ensures var source := Unread(e)[0];
      Processed(e, trades)
        == Engine(CallDb(e, source, trades), source.num, Upsert(e.alerts, source, trades), Idle, e.history + [source])
  {
    hide Classify, Unread, Upsert, Announcement, Inserted;
  }

  /** What a call appends: the announcement of a classified row, unless its key is taken. */
  function NewRows(e: Engine, source: Row, trades: Trades): seq<Row> {
    if Classify(source.event.kind).None? || HasKey(e.db.rows, DeliveryKey(source.num)) then []
    else [Row(e.db.nextSeq, Announcement(e.alerts, source, trades))]
  }

  /** The first committed row beyond a cursor. */
  ghost predicate IsNext(rows: seq<Row>, cursor: int, r: Row) {
    r in rows && cursor < r.num && forall s :: s in rows && s.num > cursor ==> r.num <= s.num
  }

  /** No committed row lies beyond a cursor. */
  ghost predicate AllConsumed(rows: seq<Row>, cursor: int) {
    forall r :: r in rows ==> r.num <= cursor
  }

  /** Nothing is unread exactly when no committed row lies beyond the cursor; otherwise the first such row is next. */
  lemma UnreadMeans(e: Engine)
    requires Ordered(e.db.rows)
    ensures |Unread(e)| == 0 <==> AllConsumed(e.db.rows, e.cursor)
    ensures |Unread(e)| > 0 ==> IsNext(e.db.rows, e.cursor, Unread(e)[0])
  {
    var rows, unread := e.db.rows, Unread(e);
    forall r | r in rows && r.num > e.cursor ensures r in unread {
      SelectKeeps(rows, e.cursor, HighWatermark(rows), r);
    }
    if |unread| > 0 {
      SelectKeeps(rows, e.cursor, HighWatermark(rows), unread[0]);
      SelectAscends(rows, e.cursor, HighWatermark(rows));
    }
  }

  /** A call consumes exactly the first unread row, and appends at most one row, never a classified one. */
  lemma CallConsumesOne(e: Engine, start: nat, trades: Trades)
    requires Faithful(e, start, trades) && Alone(e) && |Unread(e)| > 0
    ensures var next := Processed(e, trades);
      && next == StepAll(e, CALL, trades)
      && Faithful(next, start, trades) && Alone(next)
      && next.history == e.history + [Unread(e)[0]]
      && next.cursor == Unread(e)[0].num
      && next.db.rows == e.db.rows + NewRows(e, Unread(e)[0], trades)
      && |NewRows(e, Unread(e)[0], trades)| <= 1
      && forall r :: r in NewRows(e, Unread(e)[0], trades) ==> Classify(r.event.kind).None?
  {
    hide Faithful, Classify, Unread, Upsert, Announcement, Processed;
    ProcessedIsACall(e, trades);
    CallKeepsFaith(e, start, trades);
    CallWrittenOut(e, trades);
    NoPending(e, start, trades);
    var source := Unread(e)[0];
    assert e.db.rows + [] == e.db.rows;
    if Classify(source.event.kind).Some? {
      var event := Announcement(e.alerts, source, trades);
      AnnouncementIsNotClassified(e.alerts, source, trades);
      var locked := e.db.(holder := Some(ENGINE));
      assert event.key == DeliveryKey(source.num) by {
        AnnouncementKey(e.alerts, source, trades);
      }
      if !HasKey(locked.rows, event.key) {
        assert Pending(Inserted(locked, ENGINE, event), ENGINE) == [] + [Row(e.db.nextSeq, event)];
        assert CallDb(e, source, trades).rows == e.db.rows + [Row(e.db.nextSeq, event)];
      }
    }
  }

  lemma AnnouncementKey(alerts: Alerts, source: Row, trades: Trades)
    requires Classify(source.event.kind).Some?
    ensures Announcement(alerts, source, trades).key == DeliveryKey(source.num)
  {
    hide Classify, Upsert;
  }

  lemma AnnouncementIsNotClassified(alerts: Alerts, source: Row, trades: Trades)
    requires Classify(source.event.kind).Some?
    ensures Classify(Announcement(alerts, source, trades).kind).None?
  {
    DeliveriesAreNotClassified(source, Upsert(alerts, source, trades), Classify(source.event.kind).value, trades);
  }

  lemma NoPending(e: Engine, start: nat, trades: Trades)
    requires Faithful(e, start, trades) && Alone(e)
    ensures Pending(e.db, ENGINE) == []
  {
  }

  lemma CallKeepsFaith(e: Engine, start: nat, trades: Trades)
    requires Faithful(e, start, trades)
    ensures Faithful(Processed(e, trades), start, trades)
  {
    hide Faithful, Step;
    StepKeepsFaith(e, Load, start, trades);
    StepKeepsFaith(Step(e, Load, trades), TakeLock, start, trades);
    StepKeepsFaith(Step(Step(e, Load, trades), TakeLock, trades), Append, start, trades);
    StepKeepsFaith(Step(Step(Step(e, Load, trades), TakeLock, trades), Append, trades), Finish, start, trades);
  }

  /** Although a call may append a row to its own source, the work left strictly shrinks. */
  lemma CallShrinksWork(e: Engine, start: nat, trades: Trades)
    requires Faithful(e, start, trades) && Alone(e) && |Unread(e)| > 0
    ensures Weight(Unread(Processed(e, trades))) < Weight(Unread(e))
  {
    hide Faithful, Classify, Processed, Alone, HighWatermark, Ordered, Select, Announcement, Weight;
    CallConsumesOne(e, start, trades);
    FaithfulRows(e, start, trades);
    FaithfulRows(Processed(e, trades), start, trades);
    var appended := NewRows(e, Unread(e)[0], trades);
    hide NewRows;
    OneReplacesAnother(e.db.rows, e.cursor, appended);
  }

  lemma OneReplacesAnother(rows: seq<Row>, cursor: int, appended: seq<Row>)
    requires Ordered(rows) && Ordered(rows + appended) && |Select(rows, cursor, HighWatermark(rows))| > 0
    requires |appended| <= 1 && forall r :: r in appended ==> Classify(r.event.kind).None?
    requires Classify(Select(rows, cursor, HighWatermark(rows))[0].event.kind).None? ==> appended == []
    ensures var unread, later := Select(rows, cursor, HighWatermark(rows)), rows + appended;
      Weight(Select(later, unread[0].num, HighWatermark(later))) < Weight(unread)
  {
    hide Classify, HighWatermark, Ordered, Select, Weight;
    var unread := Select(rows, cursor, HighWatermark(rows));
    TailIsUnread(rows, cursor);
    if |appended| == 0 {
      assert rows + appended == rows && unread[1..] + appended == unread[1..];
    } else {
      assert appended == [appended[0]];
      AppendedIsUnread(rows, appended[0], unread[0].num);
    }
    WeightFalls(unread, appended);
  }

  lemma TailIsUnread(rows: seq<Row>, cursor: int)
    requires Ordered(rows) && |Select(rows, cursor, HighWatermark(rows))| > 0
    ensures var unread := Select(rows, cursor, HighWatermark(rows));
      unread[0].num <= HighWatermark(rows) && Select(rows, unread[0].num, HighWatermark(rows)) == unread[1..]
  {
    OrderedAscends(rows);
    hide HighWatermark, Ordered, Ascending, Select;
    var high := HighWatermark(rows);
    var source := Select(rows, cursor, high)[0];
    FirstUnread(rows, cursor, high);
    SelectSplits(rows, cursor, source.num, high);
    assert ([source] + Select(rows, source.num, high))[1..] == Select(rows, source.num, high);
  }

  lemma WeightFalls(unread: seq<Row>, appended: seq<Row>)
    requires |unread| > 0 && |appended| <= 1 && forall r :: r in appended ==> Classify(r.event.kind).None?
    requires Classify(unread[0].event.kind).None? ==> appended == []
    ensures Weight(unread[1..] + appended) < Weight(unread)
  {
    hide Classify, Weight;
    assert unread == [unread[0]] + unread[1..];
    WeightOfConcat([unread[0]], unread[1..]);
    WeightOfConcat(unread[1..], appended);
    WeightOfOne(unread[0]);
    if |appended| == 0 {
      assert unread[1..] + appended == unread[1..];
    } else {
      assert appended == [appended[0]] && appended[0] in appended;
      WeightOfOne(appended[0]);
    }
  }

  lemma WeightOfOne(r: Row)
    ensures Weight([r]) == if Classify(r.event.kind).Some? then 2 else 1
  {
    hide Classify;
    assert [r][..0] == [] && Weight([]) == 0;
  }

  lemma FaithfulRows(e: Engine, start: nat, trades: Trades)
    requires Faithful(e, start, trades)
    ensures Ordered(e.db.rows) && e.cursor <= HighWatermark(e.db.rows)
  {
  }

  lemma AppendedIsUnread(rows: seq<Row>, r: Row, cursor: int)
    requires Ordered(rows + [r]) && cursor <= HighWatermark(rows)
    ensures Select(rows + [r], cursor, HighWatermark(rows + [r])) == Select(rows, cursor, HighWatermark(rows)) + [r]
  {
    var later := rows + [r];
    assert later[..|rows|] == rows && later[|rows|] == r;
    OrderedPrefix(later, |rows|);
    assert r.num > HighWatermark(rows) by { if HighWatermark(rows) > 0 {
      var i :| 0 <= i < |rows| && rows[i].num == HighWatermark(rows);
      assert later[i].num < later[|rows|].num; } }
    SelectBeyond(rows, cursor, HighWatermark(rows), r.num);
  }

  lemma {:induction false} SelectBeyond(rows: seq<Row>, after: int, through: int, beyond: int)
    requires through <= beyond && forall i :: 0 <= i < |rows| ==> rows[i].num <= through
    ensures Select(rows, after, beyond) == Select(rows, after, through)
  {
    if |rows| > 0 { SelectBeyond(rows[..|rows| - 1], after, through, beyond); }
  }

  lemma AdoptionIsAlone(before: seq<Action>)
    requires ApplyAll(EMPTY, before, true).holder.None?
    ensures Alone(Adopted(before)) && Adopted(before).stage == Idle
  {
    hide ApplyAll, HighWatermark;
  }

  lemma UnclassifiedUpsert(alerts: Alerts, r: Row, trades: Trades)
    requires Classify(r.event.kind).None?
    ensures Upsert(alerts, r, trades) == alerts
  {
  }

  /** The process that owns the cursor. */
  class AlertProcess {
    var db: Db
    var cursor: nat
    var alerts: Alerts
    const trades: Trades
    ghost var history: seq<Row>
    ghost const start: nat

    ghost function View(): Engine
      reads this
    {
      Engine(db, cursor, alerts, Idle, history)
    }

    ghost predicate Valid()
      reads this
    {
      Faithful(View(), start, trades) && Alone(View())
    }

    constructor (before: seq<Action>, trades: Trades)
      requires ApplyAll(EMPTY, before, true).holder.None?
      ensures Valid() && View() == Adopted(before) && this.trades == trades && start == Adopted(before).cursor
    {
      var e := Adopted(before);
      db, cursor, alerts, history := e.db, e.cursor, e.alerts, [];
      this.trades, start := trades, e.cursor;
      new;
      hide Faithful, Adopted, Alone;
      AdoptionIsFaithful(before, trades);
      AdoptionIsAlone(before);
    }

    /** `process_next` with no other writer: false exactly when nothing is unread. */
    method ProcessNext() returns (more: bool)
      requires Valid()
      modifies this
      ensures Valid()
      ensures more == (|Unread(old(View()))| > 0)
      ensures View() == if more then Processed(old(View()), trades) else old(View())
    {
      hide Faithful, Classify, Upsert, Inserted, Announcement, Apply, Processed, HighWatermark, NewRows;
      var unread := Select(db.rows, cursor, HighWatermark(db.rows));
      if |unread| == 0 {
        return false;
      }
      CallConsumesOne(View(), start, trades);
      CallWrittenOut(View(), trades);
      var source := unread[0];
      if Classify(source.event.kind).Some? {
        db := db.(holder := Some(ENGINE));
        var event := Announcement(alerts, source, trades);
        alerts := Upsert(alerts, source, trades);
        db := Inserted(db, ENGINE, event);
      } else {
        UnclassifiedUpsert(alerts, source, trades);
      }
      db := Apply(db, Commit(ENGINE), true);
      cursor := source.num;
      history := history + [source];
      return true;
    }

    /** The inner loop of `run_alert_engine` ends, with everything consumed, its own announcements included. */
    method Drain()
      requires Valid()
      modifies this
      ensures Valid() && AllConsumed(db.rows, cursor)
      ensures old(db.rows) <= db.rows && old(history) <= history
    {
      hide Faithful, Classify, Processed, Weight, AllConsumed, NewRows, IsNext;
      var more := true;
      while more
        invariant Valid() && old(db.rows) <= db.rows && old(history) <= history
        invariant !more ==> AllConsumed(db.rows, cursor)
        decreases Weight(Unread(View())), more
      {
        ghost var e := View();
        FaithfulRows(e, start, trades);
        UnreadMeans(e);
        if |Unread(e)| > 0 {
          CallConsumesOne(e, start, trades);
          CallShrinksWork(e, start, trades);
        }
        more := ProcessNext();
      }
    }
  }
}
