/**
  The event log as its callers see it: the repository's statements over the table, the replay endpoint's
  page, and the publisher loop.
*/
module OutboxTable {
  import opened Wrappers
  import opened Outbox
  import Delivery
  import RealtimeClient

  datatype Page = Page(events: seq<Row>, next: int, high: int, more: bool)

  datatype ReplayError = InvalidCursor

  function WithKey(rows: seq<Row>, key: string): (r: Row)
    requires HasKey(rows, key)
    ensures r in rows && r.event.key == key
  {
    if rows[|rows| - 1].event.key == key then rows[|rows| - 1] else WithKey(rows[..|rows| - 1], key)
  }

  function Least(a: nat, b: nat): nat {
    if a <= b then a else b
  }

  function LastNum(rows: seq<Row>, default: int): int {
    if |rows| == 0 then default else rows[|rows| - 1].num
  }

  function Nums(rows: seq<Row>): set<nat> {
    set i | 0 <= i < |rows| :: rows[i].num
  }

  class EventOutbox {
    var db: Db
    var published: set<nat>

    constructor ()
      ensures db == EMPTY && published == {} && Sound(db)
    {
      db := EMPTY;
      published := {};
    }

    /** Takes the table lock, then inserts; a conflicting key gives back the row that has it. None means waiting. */
    method AppendInTransaction(tx: Tx, event: Event) returns (r: Option<Row>)
      requires Sound(db)
      modifies this`db
      ensures Sound(db) && db == Apply(Apply(old(db), Lock(tx), true), Insert(tx, event), true)
      ensures db.rows == old(db.rows)
      ensures r.Some? <==> old(db.holder) == None || old(db.holder) == Some(tx)
      ensures r.Some? ==> db.holder == Some(tx) && r.value in Ahead(db) && r.value.event.key == event.key
      ensures r.Some? && !HasKey(old(Ahead(db)), event.key) ==> r == Some(Row(old(db.nextSeq), event))
    {
      hide Ordered, Ascending, DistinctKeys;
      StepIsSafe(db, Lock(tx));
      StepIsSafe(Apply(db, Lock(tx), true), Insert(tx, event));
      if db.holder.Some? && db.holder != Some(tx) {
        return None;
      }
      db := db.(holder := Some(tx));
      var mine := Pending(db, tx);
      var row := Row(db.nextSeq, event);
      if HasKey(db.rows, event.key) {
        row := WithKey(db.rows, event.key);
      } else if HasKey(mine, event.key) {
        row := WithKey(mine, event.key);
      } else {
        db := db.(pending := db.pending[tx := mine + [row]]);
      }
      db := db.(nextSeq := db.nextSeq + 1);
      r := Some(row);
    }

    method Commit(tx: Tx)
      requires Sound(db)
      modifies this`db
      ensures Sound(db) && db == Apply(old(db), Outbox.Action.Commit(tx), true) && Grows(old(db.rows), db.rows)
    {
      StepIsSafe(db, Outbox.Action.Commit(tx));
      db := db.(rows := db.rows + Pending(db, tx), holder := Released(db, tx), pending := db.pending - {tx});
    }

    method Range(after: int, through: int, limit: nat) returns (rows: seq<Row>)
      ensures rows == Take(Select(db.rows, after, through), limit)
    {
      rows := Take(Select(db.rows, after, through), limit);
    }

    /** Every visible row counts: no row lies beyond the watermark. */
    method After(after: int, limit: nat) returns (rows: seq<Row>)
      ensures rows == Take(Select(db.rows, after, HighWatermark(db.rows)), limit)
    {
      rows := Range(after, HighWatermark(db.rows), limit);
    }

    method MarkPublished(num: nat)
      modifies this`published
      ensures published == if num in Nums(db.rows) then old(published) + {num} else old(published)
    {
      if num in Nums(db.rows) {
        published := published + {num};
      }
    }

    /** The replay endpoint: one page of the rows behind a cursor, up to a watermark. */
    method ReplayEvents(after: int, through: Option<int>, limit: Option<int>, maximum: nat) returns (r: Result<Page, ReplayError>)
      requires Sound(db) && maximum >= 1
      ensures r.Err? <==> after < 0 || (through.Some? && through.value < after)
      ensures r.Ok? ==>
        var page, all := r.value, Select(db.rows, after, r.value.high);
        && page.high == (if through.Some? then through.value else HighWatermark(db.rows))
        && page.events <= all && |page.events| <= maximum
        && var wanted := if limit.Some? then limit.value else 100;
        && |page.events| == Least(|all|, if wanted < 1 then 1 else Least(wanted, maximum))
        && page.next == (if page.events == [] then after else page.events[|page.events| - 1].num)
        && (page.more <==> page.next < page.high)
        && (!page.more ==> page.events == all)
        && (page.events != [] ==> page.next > after)
      ensures r.Ok? && r.value.more && r.value.high in Nums(db.rows) ==> r.value.events != []
    {
      hide Select, Sound, Ordered, HighWatermark;
      if after < 0 || (through.Some? && through.value < after) {
        return Err(InvalidCursor);
      }
      var high := if through.Some? then through.value else HighWatermark(db.rows);
      var wanted := if limit.Some? then limit.value else 100;
      var size: nat := if wanted < 1 then 1 else if wanted > maximum then maximum else wanted;
      var events := Range(after, high, size);
      var next := LastNum(events, after);
      SoundIsOrdered(db);
      PageReachesHigh(db.rows, after, high, size);
      r := Ok(Page(events, next, high, next < high));
    }
  }

  /** A page that ends at the watermark is the last one, and one is never empty while a row is left. */
  lemma PageReachesHigh(rows: seq<Row>, after: int, high: int, size: nat)
    requires Ascending(rows) && size >= 1
    ensures var all := Select(rows, after, high);
      var events := Take(all, size);
      && (LastNum(events, after) >= high ==> events == all)
      && (high > after && high in Nums(rows) ==> events != [])
  {
    var all := Select(rows, after, high);
    SelectAscends(rows, after, high);
    if |all| > size {
      assert all[size - 1].num < all[size].num <= high;
    }
    if high > after && high in Nums(rows) {
      var i :| 0 <= i < |rows| && rows[i].num == high;
      SelectKeeps(rows, after, high, rows[i]);
    }
    if |all| > 0 && |all| <= size {
      assert Take(all, size) == all;
    }
    if |all| == 0 {
      assert Take(all, size) == all;
    }
  }

  /** The publisher: `sent` is what has been broadcast since it started at `start`. */
  class EventHub {
    const outbox: EventOutbox
    const start: nat
    var cursor: nat
    var sent: seq<Row>

    /** Exactly the rows between where it started and where it stands. */
    ghost predicate Faithful()
      reads this, outbox
    {
      && Sound(outbox.db)
      && start <= cursor <= HighWatermark(outbox.db.rows)
      && sent == Select(outbox.db.rows, start, cursor)
    }

    /** Starts just before the first unpublished row, or from the beginning when that cannot be read. */
    constructor (outbox: EventOutbox, readFails: bool)
      requires Sound(outbox.db)
      ensures this.outbox == outbox && sent == [] && cursor == start && Faithful()
      ensures readFails ==> start == 0
      ensures !readFails ==>
        && (forall r :: r in outbox.db.rows && r.num <= start ==> r.num in outbox.published)
        && (start != HighWatermark(outbox.db.rows) ==>
              exists r :: r in outbox.db.rows && r.num == start + 1 && r.num !in outbox.published)
    {
      SoundIsOrdered(outbox.db);
      CursorIs(outbox.db.rows, outbox.published);
      CursorIsNatural(outbox.db.rows, outbox.published);
      var c: nat := 0;
      if !readFails {
        c := Delivery.PublisherCursor(outbox.db.rows, outbox.published);
      }
      this.outbox := outbox;
      start, cursor, sent := c, c, [];
      NothingBetween(outbox.db.rows, c);
    }

    /** One tick: a batch is read, then every row of it is sent and marked; marking may fail. */
    method Tick(readFails: bool, marks: nat -> bool)
      requires Faithful()
      modifies this`cursor, this`sent, outbox`published
      ensures Faithful()
      ensures sent == old(sent) + (if readFails then [] else Take(Select(outbox.db.rows, old(cursor), HighWatermark(outbox.db.rows)), Delivery.BATCH))
      ensures !readFails && cursor < HighWatermark(outbox.db.rows) ==> |sent| == |old(sent)| + 256
      ensures old(outbox.published) <= outbox.published <= old(outbox.published) + Nums(sent)
    {
      if readFails {
        assert sent + [] == sent;
        return;
      }
      hide Select, HighWatermark, Take, Ordered, Sound;
      ghost var from := cursor;
      var events := outbox.After(cursor, Delivery.BATCH);
      SoundIsOrdered(outbox.db);
      BatchFacts(outbox.db.rows, from, Delivery.BATCH);
      Broadcast(events, marks);
      JoinSelects(outbox.db.rows, start, from, cursor);
    }

    method Broadcast(events: seq<Row>, marks: nat -> bool)
      modifies this`cursor, this`sent, outbox`published
      ensures sent == old(sent) + events && cursor == LastNum(events, old(cursor))
      ensures old(outbox.published) <= outbox.published <= old(outbox.published) + Nums(sent)
    {
      ghost var from, already := cursor, sent;
      for i := 0 to |events|
        invariant sent == already + events[..i]
        invariant cursor == LastNum(events[..i], from)
        invariant old(outbox.published) <= outbox.published <= old(outbox.published) + Nums(sent)
      {
        var event := events[i];
        NumsNext(sent, event);
        assert already + events[..i + 1] == already + events[..i] + [event];
        cursor := event.num;
        sent := sent + [event];
        if marks(i) {
          outbox.MarkPublished(event.num);
        }
      }
      assert events[..|events|] == events;
    }
  }

  lemma JoinSelects(rows: seq<Row>, a: int, b: int, c: int)
    requires Ordered(rows) && a <= b <= c
    ensures Select(rows, a, c) == Select(rows, a, b) + Select(rows, b, c)
  {
    SelectSplits(rows, a, b, c);
  }

  /** `n` rows are published, and the next one, if any, is not. */
  lemma {:induction false} PublishedPrefix(rows: seq<Row>, published: set<nat>) returns (n: nat)
    ensures n <= |rows| && forall i :: 0 <= i < n ==> rows[i].num in published
    ensures n < |rows| ==> rows[n].num !in published
    ensures Delivery.PublisherCursor(rows, published) ==
      if n < |rows| then rows[n].num - 1 else if n == 0 then 0 else rows[n - 1].num
  {
    hide HighWatermark;
    if |rows| == 0 || rows[0].num !in published {
      n := 0;
    } else {
      var m := PublishedPrefix(rows[1..], published);
      n := m + 1;
    }
  }

  /** The publisher's cursor: every row up to it is published, the row right behind it, if any, is not, and without
      such a row it stands at the watermark. */
  lemma CursorIs(rows: seq<Row>, published: set<nat>)
    requires Ordered(rows)
    ensures var c := Delivery.PublisherCursor(rows, published);
      && (forall r :: r in rows && r.num <= c ==> r.num in published)
      && (c != HighWatermark(rows) ==> exists r :: r in rows && r.num == c + 1 && r.num !in published)
  {
    var n := PublishedPrefix(rows, published);
    hide Delivery.PublisherCursor;
    if n < |rows| {
      assert rows[n] in rows;
    } else if n > 0 {
      assert rows[n - 1].num == HighWatermark(rows);
    }
    forall r | r in rows && r.num <= Delivery.PublisherCursor(rows, published) ensures r.num in published {
      var i :| 0 <= i < |rows| && rows[i] == r;
    }
  }

  lemma {:induction false} CursorIsNatural(rows: seq<Row>, published: set<nat>)
    requires Ordered(rows)
    ensures Delivery.PublisherCursor(rows, published) >= 0
  {
    if |rows| > 1 {
      CursorIsNatural(rows[1..], published);
    }
  }

  lemma NumsNext(rows: seq<Row>, r: Row)
    ensures Nums(rows + [r]) == Nums(rows) + {r.num}
  {
    var all := rows + [r];
    assert all[|rows|] == r;
    forall n | n in Nums(rows) ensures n in Nums(all) {
      var i :| 0 <= i < |rows| && rows[i].num == n;
      assert all[i] == rows[i];
    }
  }

  /** No row lies between a cursor and the watermark only when the cursor is there. */
  lemma NothingLeft(rows: seq<Row>, cursor: int)
    requires Select(rows, cursor, HighWatermark(rows)) == [] && 0 <= cursor
    ensures cursor >= HighWatermark(rows)
  {
    var high := HighWatermark(rows);
    if high > 0 {
      var i :| 0 <= i < |rows| && rows[i].num == high;
      SelectKeeps(rows, cursor, high, rows[i]);
    }
  }

  /** A batch is exactly the rows up to its last one, and a short batch reaches the watermark. */
  lemma BatchFacts(rows: seq<Row>, cursor: nat, size: nat)
    requires Ordered(rows) && cursor <= HighWatermark(rows) && size >= 1
    ensures var all := Select(rows, cursor, HighWatermark(rows));
      var batch := Take(all, size);
      var last := LastNum(batch, cursor);
      && cursor <= last <= HighWatermark(rows)
      && batch == Select(rows, cursor, last)
      && (last < HighWatermark(rows) ==> |batch| == size)
  {
    var high := HighWatermark(rows);
    var all := Select(rows, cursor, high);
    var batch := Take(all, size);
    var last := LastNum(batch, cursor);
    RealtimeClient.PageIsSelect(rows, cursor, high, size);
    NothingBetween(rows, cursor);
    SelectSplits(rows, cursor, last, high);
    if |batch| < size {
      assert batch == all;
      assert |Select(rows, last, high)| == 0;
      NothingLeft(rows, last);
    }
  }

  /** Rows committed between ticks never invalidate what was sent. */
  lemma CommitsKeepFaith(rows: seq<Row>, later: seq<Row>, start: nat, cursor: nat, sent: seq<Row>)
    requires Grows(rows, later) && Ordered(later) && start <= cursor <= HighWatermark(rows)
    requires sent == Select(rows, start, cursor)
    ensures sent == Select(later, start, cursor) && cursor <= HighWatermark(later)
  {
    SelectIsStable(rows, later, start, cursor);
    WatermarkGrows(rows, later);
  }
}
