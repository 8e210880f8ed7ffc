/**
  The browser client. It merges paged replay with live messages that arrive while a page is being
  awaited. An `await` splits a method in two: the state between the halves is the in-flight replay.
*/
module RealtimeClient {
  import opened Wrappers
  import opened Outbox
  import Sorting

  /** An awaited page of a replay through `high`; `before` is the cursor it was requested with. */
  datatype Replay = Replay(high: nat, before: nat)

  /** `applied` lists the events handed to the page so far. */
  datatype Client = Client(seen: nat, applied: seq<Row>, buffered: seq<Row>, replaying: bool, replays: seq<Replay>)

  /** `SequenceStore.accept`, then the event callback. */
  function Accept(c: Client, r: Row): Client {
    if r.num <= c.seen then c else c.(seen := r.num, applied := c.applied + [r])
  }

  function AcceptAll(c: Client, rows: seq<Row>): Client {
    if |rows| == 0 then c else Accept(AcceptAll(c, rows[..|rows| - 1]), rows[|rows| - 1])
  }

  predicate NotLater(a: Row, b: Row) {
    a.num <= b.num
  }

  function SortBySeq(rows: seq<Row>): seq<Row> {
    Sorting.Sort(rows, NotLater)
  }

  /** What follows the `await` of a replay: go live and apply what was buffered, in order. */
  function Flush(c: Client): Client {
    AcceptAll(c.(replaying := false), SortBySeq(c.buffered)).(buffered := [])
  }

  /** Enters the replay loop: request the next page, or finish at once when nothing is missing. */
  function StartReplay(c: Client, high: nat): Client {
    if c.seen < high then c.(replaying := true, replays := c.replays + [Replay(high, c.seen)])
    else Flush(c.(replaying := true))
  }

  function ReceiveHello(c: Client, watermark: nat): Client {
    StartReplay(c, watermark)
  }

  function ReceiveEvent(c: Client, r: Row): Client {
    if c.replaying then c.(buffered := c.buffered + [r])
    else if r.num > c.seen + 1 then StartReplay(c.(buffered := c.buffered + [r]), r.num - 1)
    else Accept(c, r)
  }

  function Without(replays: seq<Replay>, i: nat): seq<Replay>
    requires i < |replays|
  {
    replays[..i] + replays[i + 1..]
  }

  /** A page arrives for replay `i`; the server reports the last sequence value and whether it stops short of `high`. */
  function PageArrives(c: Client, i: nat, page: seq<Row>): Client
    requires i < |c.replays|
  {
    var replay := c.replays[i];
    var after := AcceptAll(c, page);
    var next := if |page| > 0 then page[|page| - 1].num else replay.before;
    var hasMore := next < replay.high;
    if hasMore && next > replay.before && after.seen < replay.high
    then after.(replays := c.replays[i := Replay(replay.high, after.seen)])
    else Flush(after.(replays := Without(c.replays, i)))
  }

  /** A failed page leaves the client buffering; only the next hello takes it out of that state. */
  function ReplayFails(c: Client, i: nat): Client
    requires i < |c.replays|
  {
    c.(replays := Without(c.replays, i))
  }

  /** After a page the replay asks for the next one exactly when the page made progress, stopped short of the target
      and left the client short of it; else it is over and the client goes live. */
  lemma PageDecides(c: Client, i: nat, page: seq<Row>)
    requires i < |c.replays|
    ensures var d, after, r := PageArrives(c, i, page), AcceptAll(c, page), c.replays[i];
      var goesOn := |page| > 0 && r.before < page[|page| - 1].num < r.high && after.seen < r.high;
      && (goesOn ==> d == after.(replays := c.replays[i := Replay(r.high, after.seen)]))
      && (!goesOn ==> !d.replaying && d.buffered == [] && d.replays == c.replays[..i] + c.replays[i + 1..])
  {
    KeepsReplays(c, page);
    var after := AcceptAll(c, page).(replays := Without(c.replays, i));
    KeepsReplays(after.(replaying := false), SortBySeq(after.buffered));
    hide AcceptAll, SortBySeq;
  }

  // ---------------------------------------------------------------- the client as an object

  class SequenceStore {
    var seen: nat
    var persisted: nat

    constructor (initial: nat)
      ensures seen == persisted == initial
    {
      seen, persisted := initial, initial;
    }

    method Accept(r: Row) returns (accepted: bool)
      requires seen == persisted
      modifies this
      ensures accepted == (r.num > old(seen)) && seen == persisted == if accepted then r.num else old(seen)
    {
      if r.num <= seen {
        return false;
      }
      seen := r.num;
      persisted := seen;
      return true;
    }
  }

  class Connection {
    const sequence: SequenceStore
    var applied: seq<Row>
    var buffered: seq<Row>
    var replaying: bool
    var replays: seq<Replay>

    ghost function View(): Client
      reads this, sequence
    {
      Client(sequence.seen, applied, buffered, replaying, replays)
    }

    ghost predicate Valid()
      reads this, sequence
    {
      sequence.seen == sequence.persisted
    }

    constructor (stored: nat)
      ensures Valid() && View() == Client(stored, [], [], false, []) && fresh(sequence)
    {
      sequence := new SequenceStore(stored);
      applied, buffered, replaying, replays := [], [], false, [];
    }

    method Apply(r: Row)
      requires Valid()
      modifies this`applied, sequence
      ensures Valid() && View() == Accept(old(View()), r)
    {
      var accepted := sequence.Accept(r);
      if accepted { applied := applied + [r]; }
    }

    method ApplyInOrder(rows: seq<Row>)
      requires Valid()
      modifies this`applied, sequence
      ensures Valid() && View() == AcceptAll(old(View()), rows)
    {
      for i := 0 to |rows|
        invariant Valid() && View() == AcceptAll(old(View()), rows[..i])
      {
        assert rows[..i + 1][..i] == rows[..i];
        Apply(rows[i]);
      }
      assert rows[..|rows|] == rows;
    }

    method GoLive()
      requires Valid()
      modifies this, sequence
      ensures Valid() && View() == Flush(old(View()))
    {
      replaying := false;
      ApplyInOrder(SortBySeq(buffered));
      buffered := [];
    }

    method ReplayThrough(high: nat)
      requires Valid()
      modifies this, sequence
      ensures Valid() && View() == StartReplay(old(View()), high)
    {
      replaying := true;
      if sequence.seen < high {
        replays := replays + [Replay(high, sequence.seen)];
      } else {
        GoLive();
      }
    }

    method Hello(watermark: nat)
      requires Valid()
      modifies this, sequence
      ensures Valid() && View() == ReceiveHello(old(View()), watermark)
    {
      ReplayThrough(watermark);
    }

    method Receive(r: Row)
      requires Valid()
      modifies this, sequence
      ensures Valid() && View() == ReceiveEvent(old(View()), r)
    {
      if replaying {
        buffered := buffered + [r];
      } else if r.num > sequence.seen + 1 {
        buffered := buffered + [r];
        ReplayThrough(r.num - 1);
      } else {
        Apply(r);
      }
    }

    method Page(i: nat, page: seq<Row>)
      requires Valid() && i < |replays|
      modifies this, sequence
      ensures Valid() && View() == PageArrives(old(View()), i, page)
    {
      var replay := replays[i];
      ghost var before := View();
      ApplyInOrder(page);
      assert View() == AcceptAll(before, page);
      KeepsReplays(before, page);
      var next := if |page| > 0 then page[|page| - 1].num else replay.before;
      if next < replay.high && next > replay.before && sequence.seen < replay.high {
        replays := replays[i := Replay(replay.high, sequence.seen)];
      } else {
        replays := Without(replays, i);
        GoLive();
      }
    }

    method Fail(i: nat)
      requires Valid() && i < |replays|
      modifies this
      ensures Valid() && View() == ReplayFails(old(View()), i)
    {
      replays := Without(replays, i);
    }
  }

  lemma {:induction false} KeepsReplays(c: Client, rows: seq<Row>)
    ensures var d := AcceptAll(c, rows);
      d.replays == c.replays && d.replaying == c.replaying && d.buffered == c.buffered
  {
    if |rows| > 0 { KeepsReplays(c, rows[..|rows| - 1]); }
  }

  // ---------------------------------------------------------------- what merging preserves

  /** The client has been handed exactly the committed rows after `start` up to its cursor, in order. */
  ghost predicate Exact(c: Client, rows: seq<Row>, start: nat) {
    start <= c.seen <= HighWatermark(rows) && c.applied == Select(rows, start, c.seen)
  }

  ghost predicate Sorted(rows: seq<Row>) {
    forall i, j :: 0 <= i <= j < |rows| ==> rows[i].num <= rows[j].num
  }

  lemma SortBySeqSorts(rows: seq<Row>)
    ensures Sorted(SortBySeq(rows))
    ensures forall x :: x in SortBySeq(rows) <==> x in rows
  {
    Sorting.SortSorts(rows, NotLater);
    Sorting.SameElements(SortBySeq(rows), rows);
  }

  lemma AcceptFirst(c: Client, rows: seq<Row>)
    requires |rows| > 0
    ensures AcceptAll(c, rows) == AcceptAll(Accept(c, rows[0]), rows[1..])
  {
    if |rows| == 1 {
      assert rows[..0] == [] && rows[1..] == [];
    } else {
      AcceptFirst(c, rows[..|rows| - 1]);
      assert rows[..|rows| - 1][1..] == rows[1..][..|rows| - 2];
    }
  }

  ghost predicate Within(batch: seq<Row>, rows: seq<Row>, bound: int) {
    forall r :: r in batch ==> r in rows && r.num <= bound
  }

  ghost predicate Covers(batch: seq<Row>, rows: seq<Row>, after: int, bound: int) {
    forall r :: r in rows && after < r.num <= bound ==> r in batch
  }

  /** No committed row lies between `after` and `bound`. */
  ghost predicate NoneMissing(rows: seq<Row>, after: int, bound: int) {
    forall r :: r in rows && after < r.num ==> bound < r.num
  }

  lemma SplitBatch(c: Client, rows: seq<Row>, start: nat, batch: seq<Row>, bound: int)
    requires Ordered(rows) && Exact(c, rows, start) && Sorted(batch) && |batch| > 0
    requires Within(batch, rows, bound) && Covers(batch, rows, c.seen, bound)
    ensures var d := Accept(c, batch[0]);
      Exact(d, rows, start) && Sorted(batch[1..]) && Within(batch[1..], rows, bound) && Covers(batch[1..], rows, d.seen, bound)
  {
    hide Exact, Ordered;
    var h, tail := batch[0], batch[1..];
    assert h in batch;
    assert forall r :: r in batch <==> r == h || r in tail;
    assert forall r :: r in batch ==> h.num <= r.num;
    if h.num > c.seen { OneMore(c, rows, start, h); }
  }

  /** A sorted batch of committed rows that leaves out no row between the cursor and `bound` keeps delivery exact. */
  lemma {:induction false} BatchIsExact(c: Client, rows: seq<Row>, start: nat, batch: seq<Row>, bound: int)
    requires Ordered(rows) && Exact(c, rows, start) && Sorted(batch)
    requires Within(batch, rows, bound) && Covers(batch, rows, c.seen, bound)
    ensures var d := AcceptAll(c, batch);
      && Exact(d, rows, start)
      && (d.seen == c.seen || d.seen <= bound) && c.seen <= d.seen
      && NoneMissing(rows, d.seen, bound)
    decreases |batch|
  {
    hide Exact, Ordered, Sorted;
    if |batch| > 0 {
      hide Covers, NoneMissing;
      AcceptFirst(c, batch);
      SplitBatch(c, rows, start, batch, bound);
      assert batch[0] in batch;
      BatchIsExact(Accept(c, batch[0]), rows, start, batch[1..], bound);
    }
  }

  /** Accepting the next committed row extends the delivered interval by exactly that row. */
  lemma OneMore(c: Client, rows: seq<Row>, start: nat, h: Row)
    requires Ordered(rows) && Exact(c, rows, start) && h in rows && h.num > c.seen
    requires NoneMissing(rows, c.seen, h.num - 1)
    ensures Exact(Accept(c, h), rows, start)
  {
    SelectSplits(rows, start, c.seen, h.num);
    OnlyRow(rows, c.seen, h);
  }

  lemma {:induction false} OnlyRow(rows: seq<Row>, after: int, h: Row)
    requires Ordered(rows) && h in rows && after < h.num
    requires NoneMissing(rows, after, h.num - 1)
    ensures Select(rows, after, h.num) == [h]
  {
    var chosen := Select(rows, after, h.num);
    SelectKeeps(rows, after, h.num, h);
    SelectAscends(rows, after, h.num);
    assert forall i :: 0 <= i < |chosen| ==> chosen[i].num == h.num;
    assert chosen[0].num == chosen[|chosen| - 1].num;
  }

  /** Flushing after a replay: the buffer holds every row from the replay's end up to `bound`. */
  lemma FlushIsExact(c: Client, rows: seq<Row>, start: nat, bound: int)
    requires Ordered(rows) && Exact(c, rows, start)
    requires Within(c.buffered, rows, bound) && Covers(c.buffered, rows, c.seen, bound)
    ensures var d := Flush(c);
      && Exact(d, rows, start)
      && (d.seen == c.seen || d.seen <= bound) && c.seen <= d.seen
      && NoneMissing(rows, d.seen, bound)
      && !d.replaying && d.replays == c.replays && d.buffered == []
  {
    SortBySeqSorts(c.buffered);
    var live := c.(replaying := false);
    BatchIsExact(live, rows, start, SortBySeq(c.buffered), bound);
    KeepsReplays(live, SortBySeq(c.buffered));
  }

  lemma CutPoint(head: seq<Row>, rest: seq<Row>, n: nat, cut: int)
    requires Ascending(head + rest) && 0 < n <= |head| + |rest| && (head + rest)[n - 1].num == cut
    requires forall i :: 0 <= i < |head| ==> head[i].num <= cut
    requires forall i :: 0 <= i < |rest| ==> cut < rest[i].num
    ensures |head| == n
  {
    var all := head + rest;
    assert |head| == 0 || all[|head| - 1] == head[|head| - 1];
  }

  /** A page cut off at the limit ends at a cursor from which the next page continues without a gap. */
  lemma PageIsSelect(rows: seq<Row>, after: int, high: int, limit: nat)
    requires Ordered(rows) && limit > 0
    ensures var page := Take(Select(rows, after, high), limit);
      && (|page| == 0 ==> Select(rows, after, high) == [])
      && (|page| > 0 ==> after < page[|page| - 1].num <= high)
      && (|page| > 0 ==> page == Select(rows, after, page[|page| - 1].num))
  {
    var all := Select(rows, after, high);
    var page := Take(all, limit);
    if |page| > 0 {
      var cut := page[|page| - 1].num;
      SelectAscends(rows, after, high);
      SelectSplits(rows, after, cut, high);
      var head := Select(rows, after, cut);
      assert all == head + Select(rows, cut, high);
      CutPoint(head, Select(rows, cut, high), |page|, cut);
      assert page == all[..|page|] == head;
    }
  }

  /** Applying such a page leaves delivery exact, with the cursor at the page's last row. */
  lemma PageIsExact(c: Client, rows: seq<Row>, start: nat, page: seq<Row>, high: nat)
    requires Ordered(rows) && Exact(c, rows, start)
    requires |page| > 0 && page == Select(rows, c.seen, page[|page| - 1].num) && page[|page| - 1].num <= high
    ensures var d := AcceptAll(c, page); Exact(d, rows, start) && d.seen == page[|page| - 1].num
  {
    var bound := page[|page| - 1].num;
    SelectAscends(rows, c.seen, bound);
    forall r | r in rows && c.seen < r.num <= bound ensures r in page { SelectKeeps(rows, c.seen, bound, r); }
    BatchIsExact(c, rows, start, page, bound);
    var last := page[|page| - 1];
    assert last in page && last in rows;
  }
}
