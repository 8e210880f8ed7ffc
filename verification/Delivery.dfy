/**
  From the outbox table to the page: a publisher that polls and broadcasts, a socket handler that
  forwards, paged replay over HTTP, and the client. Sockets close, publishers restart, receivers
  lag, pages come in any size and messages arrive while a page is awaited.
*/
module Delivery {
  import opened Wrappers
  import opened Outbox
  import opened RealtimeClient
  import Sorting

  datatype Message = Hello(watermark: nat) | Live(row: Row)

  /** The publisher's cursor and the rest of the batch it is sending. */
  datatype Hub = Hub(cursor: nat, batch: seq<Row>)

  /**
    One connection. `channel` is its broadcast receiver and `wire` what has been written to the
    socket. `taken` and `sent` are the last rows taken from the one and written to the other.
  */
  datatype Socket = Socket(
    watermark: Option<nat>, greeted: bool, channel: seq<Row>, lagged: bool, wire: seq<Message>, taken: nat, sent: nat)

  /** `handed` is how far the live messages given to the client reach. */
  datatype World = World(
    rows: seq<Row>, published: set<nat>, hub: Hub, socket: Option<Socket>, client: Client, handed: nat)

  datatype Action =
    | Grow(later: seq<Row>)
    | HubStart(readFails: bool) | Fetch | Send(marked: bool, lags: bool)
    | Subscribe | Welcome | Forward | Close
    | Deliver
    | Respond(replay: nat, limit: nat) | ReplayError(replay: nat) | Reload

  const BATCH := 256

  /** The sequence value just before the first unpublished row, or the watermark when there is none. */
  function PublisherCursor(rows: seq<Row>, published: set<nat>): (c: int)
    ensures c <= HighWatermark(rows)
  {
    if |rows| == 0 then 0
    else if rows[0].num !in published then rows[0].num - 1
    else
      var rest := PublisherCursor(rows[1..], published);
      assert forall i :: 0 <= i < |rows| - 1 ==> rows[1..][i] == rows[i + 1];
      assert rows[0].num <= HighWatermark(rows);
      if |rows| == 1 then rows[0].num else rest
  }

  function Lives(rows: seq<Row>): (m: seq<Message>)
    ensures |m| == |rows|
  {
    seq(|rows|, i requires 0 <= i < |rows| => Live(rows[i]))
  }

  function Backlog(w: World): seq<Row> {
    Select(w.rows, w.hub.cursor, HighWatermark(w.rows))
  }

  /** `overlap` says whether a hello may reach a client that still awaits a page of an earlier replay. */
  function Step(w: World, a: Action, overlap: bool): World {
    match a
    case Grow(later) => Grown(w, later)
    case HubStart(readFails) =>
      var c := PublisherCursor(w.rows, w.published);
      w.(hub := Hub(if readFails || c < 0 then 0 else c, []), socket := None)
    case Fetch => if |w.hub.batch| == 0 then w.(hub := Hub(w.hub.cursor, Take(Backlog(w), BATCH))) else w
    case Send(marked, lags) => Sent(w, marked, lags)
    case Subscribe =>
      if w.socket.None? then w.(socket := Some(Socket(None, false, [], false, [], w.hub.cursor, 0))) else w
    case Welcome => Welcomed(w)
    case Forward => Forwarded(w)
    case Close => w.(socket := None)
    case Deliver => Delivered(w, overlap)
    case Respond(i, limit) =>
      if i < |w.client.replays| && limit > 0 then
        var r := w.client.replays[i];
        w.(client := PageArrives(w.client, i, Take(Select(w.rows, r.before, r.high), limit)))
      else w
    case ReplayError(i) =>
      if i < |w.client.replays| then w.(client := ReplayFails(w.client, i), socket := Survivor(w.socket)) else w
    case Reload =>
      w.(client := w.client.(buffered := [], replaying := false, replays := []), socket := None)
  }

  /** A failed replay closes the socket it was started on: not one that still waits to deliver its hello. */
  function Survivor(socket: Option<Socket>): Option<Socket> {
    if socket.Some? && !socket.value.greeted then socket else None
  }

  function Grown(w: World, later: seq<Row>): World
  {
    if Continues(w.rows, later) then w.(rows := later) else w
  }

  /** Executable form of "an ordered continuation of `rows`". */
  predicate Continues(rows: seq<Row>, later: seq<Row>)
    ensures Continues(rows, later) && Ordered(rows) ==> Grows(rows, later) && Ordered(later)
  {
    && rows <= later
    && (forall i, j :: 0 <= i < j < |later| ==> later[i].num < later[j].num && later[i].event.key != later[j].event.key)
    && (forall i :: 0 <= i < |later| ==> later[i].num > 0)
  }

  function Sent(w: World, marked: bool, lags: bool): World {
    if |w.hub.batch| == 0 then w
    else
      var r := w.hub.batch[0];
      w.(hub := Hub(r.num, w.hub.batch[1..]),
         published := if marked then w.published + {r.num} else w.published,
         socket := match w.socket
                   case None => None
                   case Some(s) => Some(if lags then s.(lagged := true) else s.(channel := s.channel + [r])))
  }

  function Welcomed(w: World): World {
    if w.socket.Some? && w.socket.value.watermark.None? then
      var high := HighWatermark(w.rows);
      w.(socket := Some(w.socket.value.(watermark := Some(high), wire := [Hello(high)], sent := high)))
    else w
  }

  function Forwarded(w: World): World {
    if w.socket.Some? && w.socket.value.watermark.Some? && !w.socket.value.lagged && |w.socket.value.channel| > 0 then
      var s := w.socket.value;
      var r := s.channel[0];
      var t := s.(channel := s.channel[1..], taken := r.num);
      w.(socket := Some(if r.num > s.watermark.value then t.(wire := s.wire + [Live(r)], sent := r.num) else t))
    else w
  }

  function Delivered(w: World, overlap: bool): World {
    if w.socket.Some? && |w.socket.value.wire| > 0 then
      var s := w.socket.value;
      var rest := s.(wire := s.wire[1..]);
      match s.wire[0]
      case Hello(high) =>
        if !overlap && |w.client.replays| > 0 then w
        else w.(socket := Some(rest.(greeted := true)), client := ReceiveHello(w.client, high), handed := high)
      case Live(r) => w.(socket := Some(rest), client := ReceiveEvent(w.client, r), handed := r.num)
    else w
  }

  function StepAll(w: World, actions: seq<Action>, overlap: bool): World {
    if |actions| == 0 then w
    else Step(StepAll(w, actions[..|actions| - 1], overlap), actions[|actions| - 1], overlap)
  }

  // ---------------------------------------------------------------- restarts, marks and failures

  /** A restarted publisher drops every connection and its batch, and starts at its stored cursor, or at 0 when that
      cannot be read. */
  lemma RestartIs(w: World, readFails: bool)
    ensures var v := Step(w, HubStart(readFails), false);
      && v.socket.None? && v.hub.batch == [] && v.rows == w.rows && v.client == w.client
      && (readFails ==> v.hub.cursor == 0)
      && (!readFails && PublisherCursor(w.rows, w.published) >= 0 ==> v.hub.cursor == PublisherCursor(w.rows, w.published))
  {
    hide PublisherCursor;
  }

  /** Sending a row moves the cursor to it; a row is marked only when that succeeds, and reaches the channel of the
      socket unless that lags behind. */
  lemma SendIs(w: World, marked: bool, lags: bool)
    requires |w.hub.batch| > 0
    ensures var v, r := Step(w, Send(marked, lags), false), w.hub.batch[0];
      && v.hub == Hub(r.num, w.hub.batch[1..])
      && v.published == (if marked then w.published + {r.num} else w.published)
      && (w.socket.None? ==> v.socket.None?)
      && (w.socket.Some? && lags ==> v.socket == Some(w.socket.value.(lagged := true)))
      && (w.socket.Some? && !lags ==> v.socket == Some(w.socket.value.(channel := w.socket.value.channel + [r])))
  {
  }

  /** A failed page ends its replay and closes the socket that has said hello; one that has not stays. */
  lemma ReplayErrorIs(w: World, i: nat)
    requires i < |w.client.replays|
    ensures var v := Step(w, ReplayError(i), false);
      && v.client == w.client.(replays := w.client.replays[..i] + w.client.replays[i + 1..])
      && (w.socket.Some? && !w.socket.value.greeted ==> v.socket == w.socket)
      && (w.socket.None? || w.socket.value.greeted ==> v.socket.None?)
  {
  }

  // ---------------------------------------------------------------- the invariant

  function Max(a: int, b: int): int {
    if a < b then b else a
  }

  ghost predicate HubOk(w: World) {
    w.hub.cursor <= HighWatermark(w.rows) && w.hub.batch <= Backlog(w)
  }

  /** `n` is zero or the sequence value of a committed row. */
  ghost predicate IsMark(rows: seq<Row>, n: nat) {
    n == 0 || exists r :: r in rows && r.num == n
  }

  /** The one replay in flight asks for what the client lacks; the buffer holds what lies beyond it. */
  ghost predicate ReplayOk(w: World, r: Replay) {
    && r.before == w.client.seen < r.high <= HighWatermark(w.rows)
    && Within(w.client.buffered, w.rows, Max(r.high, w.handed))
    && Covers(w.client.buffered, w.rows, r.high, w.handed)
  }

  ghost predicate ClientOk(w: World, start: nat) {
    && Exact(w.client, w.rows, start)
    && IsMark(w.rows, w.handed) && w.handed <= HighWatermark(w.rows)
    && Within(w.client.buffered, w.rows, HighWatermark(w.rows))
    && |w.client.replays| <= 1
    && (|w.client.replays| == 1 ==> w.client.replaying && ReplayOk(w, w.client.replays[0]))
    && (!w.client.replaying ==> w.client.buffered == [])
  }

  ghost predicate ChannelOk(w: World, s: Socket) {
    !s.lagged ==>
      && s.taken <= w.hub.cursor
      && s.channel == Select(w.rows, s.taken, w.hub.cursor)
      && (s.watermark.Some? ==> s.sent == Max(s.watermark.value, s.taken))
  }

  /** Before the hello arrives, the watermark bounds everything the client has or still awaits. */
  ghost predicate UngreetedOk(w: World, s: Socket, high: nat) {
    && s.wire == [Hello(high)] + Lives(Select(w.rows, high, s.sent))
    && IsMark(w.rows, high) && high <= s.sent
    && w.client.seen <= high && w.handed <= high
    && Within(w.client.buffered, w.rows, high)
    && (|w.client.replays| == 1 ==> w.client.replays[0].high <= high)
  }

  /** After it, what is on the wire continues what the client was handed; when live, all of that is applied. */
  ghost predicate GreetedOk(w: World, s: Socket) {
    && s.wire == Lives(Select(w.rows, w.handed, s.sent))
    && w.handed <= s.sent
    && (!w.client.replaying ==> w.client.seen == w.handed)
    && (w.client.replaying ==> |w.client.replays| == 1 && w.client.replays[0].high <= w.handed)
  }

  ghost predicate SocketOk(w: World) {
    w.socket.Some? ==>
      var s := w.socket.value;
      && ChannelOk(w, s)
      && s.sent <= HighWatermark(w.rows)
      && (s.watermark.None? ==> !s.greeted && s.wire == [])
      && (s.watermark.Some? && !s.greeted ==> UngreetedOk(w, s, s.watermark.value))
      && (s.watermark.Some? && s.greeted ==> GreetedOk(w, s))
  }

  ghost predicate Safe(w: World, start: nat) {
    Ordered(w.rows) && HubOk(w) && ClientOk(w, start) && SocketOk(w)
  }

  // ---------------------------------------------------------------- reading ahead and behind

  lemma {:induction false} SelectMonotone(rows: seq<Row>, later: seq<Row>, after: int)
    requires Grows(rows, later) && Ordered(later)
    ensures Select(rows, after, HighWatermark(rows)) <= Select(later, after, HighWatermark(later))
    ensures HighWatermark(rows) <= HighWatermark(later)
  {
    WatermarkGrows(rows, later);
    if after <= HighWatermark(rows) {
      SelectSplits(later, after, HighWatermark(rows), HighWatermark(later));
      SelectIsStable(rows, later, after, HighWatermark(rows));
    } else {
      SelectNone(rows, after, HighWatermark(rows));
    }
  }

  lemma MemberIsVisible(rows: seq<Row>, r: Row)
    requires r in rows
    ensures r.num <= HighWatermark(rows)
  {
  }

  lemma WatermarkIsMark(rows: seq<Row>)
    ensures IsMark(rows, HighWatermark(rows))
  {
    if HighWatermark(rows) > 0 {
      var i :| 0 <= i < |rows| && rows[i].num == HighWatermark(rows);
      assert rows[i] in rows;
    }
  }

  /** The first selected row, and what is selected after it. */
  lemma SelectHead(rows: seq<Row>, after: int, through: int)
    requires Ordered(rows) && |Select(rows, after, through)| > 0
    ensures var all := Select(rows, after, through);
      && all[0] in rows && after < all[0].num <= through
      && Select(rows, after, all[0].num) == [all[0]]
      && Select(rows, all[0].num, through) == all[1..]
      && NoneMissing(rows, after, all[0].num - 1)
  {
    var all := Select(rows, after, through);
    var r := all[0];
    SelectAscends(rows, after, through);
    forall x | x in rows && after < x.num ensures r.num - 1 < x.num {
      SelectKeeps(rows, after, through, x);
      if x.num <= through { assert x in all; }
    }
    OnlyRow(rows, after, r);
    SelectSplits(rows, after, r.num, through);
  }

  // ---------------------------------------------------------------- every step is safe

  lemma WithinGrows(batch: seq<Row>, rows: seq<Row>, later: seq<Row>, bound: int)
    requires rows <= later && Within(batch, rows, bound)
    ensures Within(batch, later, bound)
  {
    forall r | r in batch ensures r in later {
      var i :| 0 <= i < |rows| && rows[i] == r;
      assert later[i] == r;
    }
  }

  lemma CoversGrows(batch: seq<Row>, rows: seq<Row>, later: seq<Row>, after: int, bound: int)
    requires Grows(rows, later) && Ordered(later) && Covers(batch, rows, after, bound) && bound <= HighWatermark(rows)
    ensures Covers(batch, later, after, bound)
  {
    assert forall i :: |rows| <= i < |later| ==> HighWatermark(rows) < later[i].num;
    forall r | r in later && after < r.num <= bound ensures r in batch {
      var i :| 0 <= i < |later| && later[i] == r;
      assert rows[i] == r;
    }
  }

  lemma MarkGrows(rows: seq<Row>, later: seq<Row>, n: nat)
    requires rows <= later && IsMark(rows, n)
    ensures IsMark(later, n)
  {
    if n > 0 {
      var r :| r in rows && r.num == n;
      WithinGrows([r], rows, later, n);
      assert r in later;
    }
  }

  lemma GrowKeepsClient(w: World, later: seq<Row>, start: nat)
    requires Ordered(w.rows) && Grows(w.rows, later) && Ordered(later) && ClientOk(w, start)
    ensures ClientOk(w.(rows := later), start)
  {
    hide Ordered, Grows, HighWatermark, Within, Covers, IsMark;
    var rows, c := w.rows, w.client;
    GrowsPrefix(rows, later);
    WatermarkGrows(rows, later);
    SelectIsStable(rows, later, start, c.seen);
    MarkGrows(rows, later, w.handed);
    WithinGrows(c.buffered, rows, later, HighWatermark(rows));
    WithinWeakens(c.buffered, later, HighWatermark(rows), HighWatermark(later));
    if |c.replays| == 1 {
      WithinGrows(c.buffered, rows, later, Max(c.replays[0].high, w.handed));
      CoversGrows(c.buffered, rows, later, c.replays[0].high, w.handed);
    }
  }

  lemma GrowsPrefix(rows: seq<Row>, later: seq<Row>)
    requires Grows(rows, later)
    ensures rows <= later
  {
  }

  lemma WithinWeakens(batch: seq<Row>, rows: seq<Row>, bound: int, more: int)
    requires Within(batch, rows, bound) && bound <= more
    ensures Within(batch, rows, more)
  {
  }

  lemma GrowKeepsSocket(w: World, later: seq<Row>, start: nat)
    requires Ordered(w.rows) && Grows(w.rows, later) && Ordered(later) && HubOk(w) && ClientOk(w, start) && SocketOk(w)
    ensures SocketOk(w.(rows := later))
  {
    hide Ordered, Grows, HighWatermark, Within, IsMark, Backlog, ReplayOk, Exact;
    if w.socket.Some? {
      var s, rows := w.socket.value, w.rows;
      GrowsPrefix(rows, later);
      WatermarkGrows(rows, later);
      if !s.lagged { SelectIsStable(rows, later, s.taken, w.hub.cursor); }
      if s.watermark.Some? && s.greeted { SelectIsStable(rows, later, w.handed, s.sent); }
      if s.watermark.Some? && !s.greeted {
        SelectIsStable(rows, later, s.watermark.value, s.sent);
        MarkGrows(rows, later, s.watermark.value);
        WithinGrows(w.client.buffered, rows, later, s.watermark.value);
      }
    }
  }

  lemma GrowKeepsSafe(w: World, later: seq<Row>, start: nat)
    requires Safe(w, start)
    ensures Safe(Grown(w, later), start)
  {
    hide Ordered, Grows, ClientOk, SocketOk, Continues;
    if Continues(w.rows, later) {
      SelectMonotone(w.rows, later, w.hub.cursor);
      GrowKeepsClient(w, later, start);
      GrowKeepsSocket(w, later, start);
    }
  }

  /** Nothing the client relies on mentions the publisher or the receiver's channel. */
  lemma SamePromises(w: World, s: Socket, v: World, t: Socket)
    requires v.rows == w.rows && v.client == w.client && v.handed == w.handed && t.wire == s.wire && t.sent == s.sent
    ensures GreetedOk(w, s) ==> GreetedOk(v, t)
    ensures forall high :: UngreetedOk(w, s, high) ==> UngreetedOk(v, t, high)
  {
  }

  lemma SameClient(w: World, v: World, start: nat)
    requires v.rows == w.rows && v.client == w.client && v.handed == w.handed && ClientOk(w, start)
    ensures ClientOk(v, start)
  {
  }

  lemma SendKeepsSocket(w: World, marked: bool, lags: bool)
    requires Ordered(w.rows) && HubOk(w) && SocketOk(w) && |w.hub.batch| > 0
    ensures SocketOk(Sent(w, marked, lags))
  {
    hide Ordered, HighWatermark, UngreetedOk, GreetedOk, Ascending, Backlog;
    if w.socket.Some? {
      var v := Sent(w, marked, lags);
      var s, t := w.socket.value, v.socket.value;
      SendHead(w);
      if !s.lagged {
        OrderedAscends(w.rows);
        SelectSplits(w.rows, s.taken, w.hub.cursor, v.hub.cursor);
      }
      SamePromises(w, s, v, t);
    }
  }

  /** The batch leads with the row that follows the publisher's cursor. */
  lemma SendHead(w: World)
    requires Ordered(w.rows) && HubOk(w) && |w.hub.batch| > 0
    ensures var r := w.hub.batch[0];
      && w.hub.cursor < r.num <= HighWatermark(w.rows)
      && Select(w.rows, w.hub.cursor, r.num) == [r]
      && w.hub.batch[1..] <= Select(w.rows, r.num, HighWatermark(w.rows))
  {
    SelectHead(w.rows, w.hub.cursor, HighWatermark(w.rows));
    assert w.hub.batch[0] == Backlog(w)[0];
  }

  lemma SendKeepsSafe(w: World, marked: bool, lags: bool, start: nat)
    requires Safe(w, start)
    ensures Safe(Sent(w, marked, lags), start)
  {
    hide Ordered, HighWatermark, ClientOk, SocketOk;
    if |w.hub.batch| > 0 {
      SendHead(w);
      SendKeepsSocket(w, marked, lags);
      SameClient(w, Sent(w, marked, lags), start);
    }
  }

  lemma SubscribeKeepsSafe(w: World, start: nat)
    requires Safe(w, start) && w.socket.None?
    ensures Safe(Step(w, Subscribe, false), start)
  {
    hide Ordered, HighWatermark, ClientOk;
    SameClient(w, Step(w, Subscribe, false), start);
    NothingBetween(w.rows, w.hub.cursor);
  }

  /** The watermark is read after the subscription, so the channel misses nothing beyond it. */
  lemma WelcomeKeepsSafe(w: World, start: nat)
    requires Safe(w, start)
    ensures Safe(Welcomed(w), start)
  {
    hide Ordered, HighWatermark, Within, Covers, IsMark, Select;
    if w.socket.Some? && w.socket.value.watermark.None? {
      SameClient(w, Welcomed(w), start);
      WatermarkIsMark(w.rows);
      NothingBetween(w.rows, HighWatermark(w.rows));
      var s := Welcomed(w).socket.value;
      assert s.wire == [Hello(HighWatermark(w.rows))] + Lives([]);
      assert UngreetedOk(Welcomed(w), s, HighWatermark(w.rows));
    }
  }

  /** Forwarding keeps the wire in step with the channel, dropping only what the replay will bring. */
  lemma ForwardKeepsSafe(w: World, start: nat)
    requires Safe(w, start)
    ensures Safe(Forwarded(w), start)
  {
    hide Ordered, HighWatermark, ClientOk, ChannelOk, UngreetedOk, GreetedOk;
    var v := Forwarded(w);
    if v != w {
      SameClient(w, v, start);
      ForwardKeepsChannel(w);
      ForwardKeepsWire(w);
    }
  }

  lemma ForwardKeepsChannel(w: World)
    requires Ordered(w.rows) && HubOk(w) && SocketOk(w) && Forwarded(w) != w
    ensures ChannelOk(Forwarded(w), Forwarded(w).socket.value)
    ensures Forwarded(w).socket.value.sent <= HighWatermark(w.rows)
  {
    hide Ordered, HighWatermark, UngreetedOk, GreetedOk, Backlog;
    SelectHead(w.rows, w.socket.value.taken, w.hub.cursor);
  }

  lemma LivesExtend(rows: seq<Row>, r: Row)
    ensures Lives(rows + [r]) == Lives(rows) + [Live(r)]
  {
  }

  lemma ForwardKeepsWire(w: World)
    requires Ordered(w.rows) && SocketOk(w) && Forwarded(w) != w
    ensures var s := Forwarded(w).socket.value;
      && (!s.greeted ==> UngreetedOk(Forwarded(w), s, s.watermark.value))
      && (s.greeted ==> GreetedOk(Forwarded(w), s))
  {
    hide Ordered, HighWatermark, Within, IsMark, Select, Lives, ReplayOk;
    var s, t := w.socket.value, Forwarded(w).socket.value;
    SamePromises(w, s, Forwarded(w), t.(wire := s.wire, sent := s.sent));
    WireExtends(w, if s.greeted then w.handed else s.watermark.value);
  }

  /** The wire grows by exactly the row taken from the channel, when that row lies beyond the watermark. */
  lemma WireExtends(w: World, from: int)
    requires Ordered(w.rows) && SocketOk(w) && Forwarded(w) != w && from <= w.socket.value.sent
    ensures var s, t := w.socket.value, Forwarded(w).socket.value;
      && s.sent <= t.sent
      && (t.wire == s.wire ==> t.sent == s.sent)
      && (t.wire != s.wire ==>
            exists r :: t.wire == s.wire + [Live(r)]
              && Lives(Select(w.rows, from, t.sent)) == Lives(Select(w.rows, from, s.sent)) + [Live(r)])
  {
    hide Ordered, HighWatermark, UngreetedOk, GreetedOk, Ascending;
    var s := w.socket.value;
    var r := s.channel[0];
    SelectHead(w.rows, s.taken, w.hub.cursor);
    OrderedAscends(w.rows);
    if r.num > s.watermark.value {
      SelectBeyondTaken(w.rows, s.taken, s.sent, r);
      SelectSplits(w.rows, from, s.sent, r.num);
      LivesExtend(Select(w.rows, from, s.sent), r);
    }
  }

  /** A row that is next after `taken` and lies beyond `sent` is next after `sent` too. */
  lemma SelectBeyondTaken(rows: seq<Row>, taken: int, sent: int, r: Row)
    requires Ordered(rows) && r in rows && taken <= sent < r.num && Select(rows, taken, r.num) == [r]
    ensures Select(rows, sent, r.num) == [r]
  {
    OrderedAscends(rows);
    SelectSplits(rows, taken, sent, r.num);
    SelectKeeps(rows, sent, r.num, r);
  }

  /** A mark that the client has passed without missing a row below it is where the client stands. */
  lemma StandsAtMark(rows: seq<Row>, seen: nat, mark: nat)
    requires IsMark(rows, mark) && NoneMissing(rows, seen, mark) && seen <= mark
    ensures seen == mark
  {
  }

  /** When the replay loop ends: everything up to its target is applied, the buffer holds the rest. */
  lemma FinishReplay(c: Client, rows: seq<Row>, start: nat, high: int, handed: nat)
    requires Ordered(rows) && Exact(c, rows, start) && NoneMissing(rows, c.seen, high)
    requires Within(c.buffered, rows, Max(high, handed)) && Covers(c.buffered, rows, high, handed)
    ensures var d := Flush(c);
      && Exact(d, rows, start) && c.seen <= d.seen && (d.seen == c.seen || d.seen <= Max(high, handed))
      && NoneMissing(rows, d.seen, handed)
      && !d.replaying && d.replays == c.replays && d.buffered == []
  {
    FlushIsExact(c, rows, start, Max(high, handed));
  }

  lemma HelloKeepsSafe(w: World, start: nat)
    requires Safe(w, start) && w.socket.Some? && |w.socket.value.wire| > 0 && w.socket.value.wire[0].Hello?
    requires |w.client.replays| == 0
    ensures Safe(Delivered(w, false), start)
  {
    hide Ordered, HighWatermark, Exact, Flush, Select, Lives;
    var s, high, c := w.socket.value, w.socket.value.wire[0].watermark, w.client;
    NoHelloAmongLives(w);
    assert !s.greeted && s.watermark == Some(high);
    var v := Delivered(w, false);
    assert v.socket.value.wire == Lives(Select(w.rows, high, s.sent));
    if c.seen < high {
      StartedOk(c, w.rows, start, high);
      assert ReplayOk(v, Replay(high, c.seen));
    } else {
      var d := c.(replaying := true);
      assert Exact(d, w.rows, start) by { SameDelivery(c, d, w.rows, start); }
      FinishReplay(d, w.rows, start, high, high);
      StandsAtMark(w.rows, v.client.seen, high);
    }
  }

  lemma SameDelivery(c: Client, d: Client, rows: seq<Row>, start: nat)
    requires Exact(c, rows, start) && d.seen == c.seen && d.applied == c.applied
    ensures Exact(d, rows, start)
  {
  }

  lemma StartedOk(c: Client, rows: seq<Row>, start: nat, high: nat)
    requires Exact(c, rows, start) && c.seen < high
    ensures Exact(StartReplay(c, high), rows, start)
  {
  }

  lemma NoHelloAmongLives(w: World)
    requires SocketOk(w) && w.socket.Some? && |w.socket.value.wire| > 0
    ensures var s := w.socket.value;
      && s.watermark.Some?
      && (s.wire[0].Hello? <==> !s.greeted)
      && (!s.greeted ==> s.wire[0] == Hello(s.watermark.value))
      && (!s.greeted ==> s.wire[1..] == Lives(Select(w.rows, s.watermark.value, s.sent)))
  {
  }

  lemma LivesTail(rows: seq<Row>)
    requires |rows| > 0
    ensures Lives(rows)[0] == Live(rows[0]) && Lives(rows)[1..] == Lives(rows[1..])
  {
  }

  /** A live message is the row that follows what the client was handed. */
  lemma LiveIsNext(w: World)
    requires Ordered(w.rows) && SocketOk(w) && w.socket.Some? && |w.socket.value.wire| > 0 && w.socket.value.wire[0].Live?
    ensures var s, r := w.socket.value, w.socket.value.wire[0].row;
      && s.greeted && GreetedOk(w, s) && s.sent <= HighWatermark(w.rows)
      && r in w.rows && w.handed < r.num <= s.sent
      && Select(w.rows, w.handed, r.num) == [r]
      && s.wire[1..] == Lives(Select(w.rows, r.num, s.sent))
      && NoneMissing(w.rows, w.handed, r.num - 1)
  {
    NoHelloAmongLives(w);
    LivesTail(Select(w.rows, w.handed, w.socket.value.sent));
    SelectHead(w.rows, w.handed, w.socket.value.sent);
  }

  lemma NumIsUnique(rows: seq<Row>, r: Row)
    requires Ordered(rows) && r in rows
    ensures forall x :: x in rows && x.num == r.num ==> x == r
  {
  }

  /** The next row joins a buffer that covers what was handed over so far. */
  lemma BufferGrows(batch: seq<Row>, rows: seq<Row>, high: nat, handed: nat, r: Row)
    requires r in rows && handed < r.num && (forall x :: x in rows && x.num == r.num ==> x == r)
    requires NoneMissing(rows, handed, r.num - 1) && Covers(batch, rows, high, handed)
    ensures Covers(batch + [r], rows, high, r.num)
    ensures forall bound :: r.num <= bound && Within(batch, rows, bound) ==> Within(batch + [r], rows, bound)
    ensures Within(batch, rows, handed) ==> Within(batch + [r], rows, r.num)
  {
  }

  ghost predicate NextRow(w: World, r: Row) {
    && r in w.rows && w.handed < r.num <= HighWatermark(w.rows)
    && (forall x :: x in w.rows && x.num == r.num ==> x == r)
    && NoneMissing(w.rows, w.handed, r.num - 1)
  }

  function Handed(w: World, r: Row): World {
    w.(client := ReceiveEvent(w.client, r), handed := r.num)
  }

  lemma LiveIsBuffered(w: World, start: nat, r: Row)
    requires ClientOk(w, start) && NextRow(w, r)
    requires w.client.replaying && |w.client.replays| == 1 && w.client.replays[0].high <= w.handed
    ensures ClientOk(Handed(w, r), start)
  {
    var c, v := w.client, Handed(w, r);
    SameDelivery(c, v.client, w.rows, start);
    BufferGrows(c.buffered, w.rows, c.replays[0].high, w.handed, r);
    hide HighWatermark, Exact, Covers, Within, NoneMissing;
    assert ReplayOk(v, c.replays[0]);
  }

  lemma GapStartsReplay(w: World, start: nat, r: Row)
    requires ClientOk(w, start) && NextRow(w, r)
    requires !w.client.replaying && w.client.seen == w.handed && r.num > w.client.seen + 1
    ensures ClientOk(Handed(w, r), start)
    ensures Handed(w, r).client.replaying && Handed(w, r).client.replays == [Replay(r.num - 1, w.client.seen)]
  {
    var c, v := w.client, Handed(w, r);
    assert c.buffered + [r] == [r] && [] + [Replay(r.num - 1, c.seen)] == [Replay(r.num - 1, c.seen)];
    StartedOk(c.(buffered := [r]), w.rows, start, r.num - 1);
    BufferGrows([], w.rows, r.num - 1, r.num - 1, r);
    hide HighWatermark, Exact, Covers, Within, NoneMissing, Flush;
    assert v.client == StartReplay(c.(buffered := [r]), r.num - 1);
    assert ReplayOk(v, Replay(r.num - 1, c.seen));
  }

  lemma LiveIsApplied(w: World, start: nat, r: Row)
    requires Ordered(w.rows) && ClientOk(w, start) && NextRow(w, r)
    requires !w.client.replaying && w.client.seen == w.handed && r.num <= w.client.seen + 1
    ensures ClientOk(Handed(w, r), start)
    ensures Handed(w, r).client == Accept(w.client, r)
  {
    OneMore(w.client, w.rows, start, r);
    hide Ordered, HighWatermark, Exact, Covers, Within, NoneMissing;
  }

  lemma LiveKeepsClient(w: World, start: nat)
    requires Safe(w, start) && w.socket.Some? && |w.socket.value.wire| > 0 && w.socket.value.wire[0].Live?
    ensures ClientOk(Delivered(w, false), start)
    ensures var v := Delivered(w, false);
      && (!v.client.replaying ==> v.client.seen == v.handed)
      && (v.client.replaying ==> |v.client.replays| == 1 && v.client.replays[0].high <= v.handed)
  {
    hide Ordered, HighWatermark, Flush, Select, Lives, UngreetedOk, ChannelOk, HubOk, NoneMissing, Covers, Within, Exact;
    LiveIsNext(w);
    var r, c := w.socket.value.wire[0].row, w.client;
    NumIsUnique(w.rows, r);
    MemberIsVisible(w.rows, r);
    assert NextRow(w, r);
    hide NextRow, ReplayOk, IsMark;
    if c.replaying {
      LiveIsBuffered(w, start, r);
    } else if r.num > c.seen + 1 {
      GapStartsReplay(w, start, r);
    } else {
      LiveIsApplied(w, start, r);
    }
  }

  lemma DeliverKeepsSafe(w: World, start: nat)
    requires Safe(w, start)
    ensures Safe(Delivered(w, false), start)
  {
    hide Ordered, HighWatermark, ClientOk, Select, Lives, UngreetedOk, ReceiveEvent, ReceiveHello;
    if w.socket.Some? && |w.socket.value.wire| > 0 {
      if w.socket.value.wire[0].Live? {
        LiveIsNext(w);
        LiveKeepsClient(w, start);
      } else if |w.client.replays| == 0 {
        HelloKeepsSafe(w, start);
      }
    }
  }

  /** The client's replay goes on, with a later request for the same target. */
  ghost predicate GoesOn(c: Client, d: Client) {
    |c.replays| == |d.replays| == 1 && d.replaying && d.replays[0].high == c.replays[0].high
    && d.buffered == c.buffered && c.seen <= d.seen < d.replays[0].high
  }

  /** The replay has ended and the client is live, everything it was handed being applied. */
  ghost predicate WentLive(c: Client, d: Client, rows: seq<Row>, handed: nat) {
    |c.replays| == 1 && d.replays == [] && !d.replaying && d.buffered == []
    && c.seen <= d.seen <= Max(c.replays[0].high, handed) && NoneMissing(rows, d.seen, handed)
  }

  lemma PageEndsReplay(w: World, start: nat, after: Client)
    requires Ordered(w.rows) && ClientOk(w, start) && |w.client.replays| == 1
    requires Exact(after, w.rows, start) && w.client.seen <= after.seen <= w.client.replays[0].high
    requires NoneMissing(w.rows, after.seen, w.client.replays[0].high)
    requires after.buffered == w.client.buffered && after.replays == []
    ensures ClientOk(w.(client := Flush(after)), start) && WentLive(w.client, Flush(after), w.rows, w.handed)
  {
    hide Ordered, HighWatermark, Flush, Select, Exact;
    FinishReplay(after, w.rows, start, w.client.replays[0].high, w.handed);
    EmptyIsWithin(w.rows, HighWatermark(w.rows));
  }

  lemma PageContinuesReplay(w: World, start: nat, after: Client)
    requires ClientOk(w, start) && |w.client.replays| == 1
    requires Exact(after, w.rows, start) && w.client.seen <= after.seen < w.client.replays[0].high
    requires after.buffered == w.client.buffered && after.replaying
    requires after.replays == [Replay(w.client.replays[0].high, after.seen)]
    ensures ClientOk(w.(client := after), start) && GoesOn(w.client, after)
  {
    hide Ordered, HighWatermark, Select, Exact;
    assert ReplayOk(w.(client := after), after.replays[0]);
  }

  /** A page either leads on to the next request or ends the replay; both ways nothing is lost. */
  lemma PageKeepsClient(w: World, start: nat, limit: nat)
    requires Ordered(w.rows) && ClientOk(w, start) && |w.client.replays| == 1 && limit > 0
    ensures var r := w.client.replays[0];
      var d := PageArrives(w.client, 0, Take(Select(w.rows, r.before, r.high), limit));
      ClientOk(w.(client := d), start) && (GoesOn(w.client, d) || WentLive(w.client, d, w.rows, w.handed))
  {
    hide Ordered, HighWatermark, Flush, Select, Within, Covers, GoesOn, WentLive, IsMark;
    var rows, c, r := w.rows, w.client, w.client.replays[0];
    var page := Take(Select(rows, r.before, r.high), limit);
    PageIsSelect(rows, r.before, r.high, limit);
    KeepsReplays(c, page);
    var after := AcceptAll(c, page);
    if |page| > 0 { PageIsExact(c, rows, start, page, r.high); }
    var next := if |page| > 0 then page[|page| - 1].num else r.before;
    assert Exact(after, rows, start) && after.seen == next <= r.high;
    if next < r.high && next > r.before {
      var on := after.(replays := [Replay(r.high, after.seen)]);
      assert c.replays[0 := Replay(r.high, after.seen)] == on.replays;
      SameDelivery(after, on, rows, start);
      PageContinuesReplay(w, start, on);
    } else {
      NothingLeft(rows, next, r.high, |page| == 0);
      var done := after.(replays := []);
      assert Without(c.replays, 0) == [];
      SameDelivery(after, done, rows, start);
      PageEndsReplay(w, start, done);
    }
  }

  lemma NothingLeft(rows: seq<Row>, next: int, high: int, empty: bool)
    requires empty ==> Select(rows, next, high) == []
    requires !empty ==> next >= high
    ensures NoneMissing(rows, next, high)
  {
    forall x | x in rows && next < x.num ensures high < x.num { SelectKeeps(rows, next, high, x); }
  }

  lemma RespondKeepsSafe(w: World, i: nat, limit: nat, start: nat)
    requires Safe(w, start)
    ensures Safe(Step(w, Respond(i, limit), false), start)
  {
    hide Ordered, HighWatermark, Select, Lives, PageArrives, Take, ChannelOk, HubOk;
    if i < |w.client.replays| && limit > 0 {
      PageKeepsClient(w, start, limit);
      var v := Step(w, Respond(i, limit), false);
      SameHub(w, v);
      if w.socket.Some? && w.socket.value.greeted && !v.client.replaying {
        StandsAtMark(w.rows, v.client.seen, w.handed);
      }
    }
  }

  /** What a waiting hello promises does not depend on the replay that failed. */
  lemma FewerPromises(w: World, v: World)
    requires v.rows == w.rows && v.hub == w.hub && v.handed == w.handed
    requires v.client.seen == w.client.seen && v.client.buffered == w.client.buffered && v.client.replays == []
    ensures forall s :: ChannelOk(w, s) ==> ChannelOk(v, s)
    ensures forall s, high :: UngreetedOk(w, s, high) ==> UngreetedOk(v, s, high)
  {
    hide Within, Select, Lives, IsMark;
  }

  lemma SameHub(w: World, v: World)
    requires v.rows == w.rows && v.hub == w.hub
    ensures HubOk(w) ==> HubOk(v)
    ensures forall s :: ChannelOk(w, s) ==> ChannelOk(v, s)
  {
  }

  /** Whatever else happens keeps the invariant too: publishers restart, sockets drop, pages fail or reload. */
  lemma OtherStepsKeepSafe(w: World, a: Action, start: nat)
    requires Safe(w, start) && (a.HubStart? || a.Fetch? || a.Close? || a.ReplayError? || a.Reload?)
    ensures Safe(Step(w, a, false), start)
  {
    hide Ordered, HighWatermark, Within, Covers, Select, GreetedOk, UngreetedOk, PublisherCursor;
    var v := Step(w, a, false);
    match a {
      case HubStart(readFails) => CursorIsVisible(w.rows, w.published); SameClient(w, v, start);
      case Fetch => SameClient(w, v, start); if w.socket.Some? { SamePromises(w, w.socket.value, v, w.socket.value); }
      case Close => SameClient(w, v, start);
      case ReplayError(i) =>
        if i < |w.client.replays| {
          SameDelivery(w.client, v.client, w.rows, start);
          FewerPromises(w, v);
        }
      case Reload => SameDelivery(w.client, v.client, w.rows, start); EmptyIsWithin(w.rows, HighWatermark(w.rows));
    }
  }

  lemma EmptyIsWithin(rows: seq<Row>, bound: int)
    ensures Within([], rows, bound)
  {
  }

  lemma CursorIsVisible(rows: seq<Row>, published: set<nat>)
    ensures PublisherCursor(rows, published) <= HighWatermark(rows)
  {
  }

  lemma StepKeepsSafe(w: World, a: Action, start: nat)
    requires Safe(w, start)
    ensures Safe(Step(w, a, false), start)
  {
    hide Safe, Grown, Sent, Welcomed, Forwarded, Delivered;
    match a {
      case Grow(later) => GrowKeepsSafe(w, later, start);
      case Send(marked, lags) => SendKeepsSafe(w, marked, lags, start);
      case Subscribe => if w.socket.None? { SubscribeKeepsSafe(w, start); }
      case Welcome => WelcomeKeepsSafe(w, start);
      case Forward => ForwardKeepsSafe(w, start);
      case Deliver => DeliverKeepsSafe(w, start);
      case Respond(i, limit) => RespondKeepsSafe(w, i, limit, start);
      case _ => OtherStepsKeepSafe(w, a, start);
    }
  }

  /** A page opened with a stored cursor while the publisher may be anywhere and nothing is connected. */
  function Opened(rows: seq<Row>, published: set<nat>, stored: nat): World {
    World(rows, published, Hub(0, []), None, Client(stored, [], [], false, []), 0)
  }

  lemma OpenedIsSafe(rows: seq<Row>, published: set<nat>, stored: nat)
    requires Ordered(rows) && stored <= HighWatermark(rows)
    ensures Safe(Opened(rows, published, stored), stored)
  {
    NothingBetween(rows, stored);
  }

  lemma {:induction false} RunIsSafe(w: World, actions: seq<Action>, start: nat)
    requires Safe(w, start)
    ensures Safe(StepAll(w, actions, false), start)
  {
    hide Safe, Step;
    if |actions| > 0 {
      RunIsSafe(w, actions[..|actions| - 1], start);
      StepKeepsSafe(StepAll(w, actions[..|actions| - 1], false), actions[|actions| - 1], start);
    }
  }

  /** End to end, over every run: the page has been handed exactly the committed rows between the
      cursor it started with and its current one, each once and in order. */
  lemma DeliveryIsExact(rows: seq<Row>, published: set<nat>, stored: nat, actions: seq<Action>)
    requires Ordered(rows) && stored <= HighWatermark(rows)
    ensures var w := StepAll(Opened(rows, published, stored), actions, false);
      && w.client.applied == Select(w.rows, stored, w.client.seen)
      && Ascending(w.client.applied)
      && stored <= w.client.seen <= HighWatermark(w.rows)
  {
    hide StepAll;
    OpenedIsSafe(rows, published, stored);
    RunIsSafe(Opened(rows, published, stored), actions, stored);
    var w := StepAll(Opened(rows, published, stored), actions, false);
    SelectAscends(w.rows, stored, w.client.seen);
  }

  /** Nothing is on its way: the publisher, the channel, the wire and the client are all idle. */
  ghost predicate Quiet(w: World) {
    && w.socket.Some? && w.socket.value.greeted && w.socket.value.watermark.Some?
    && !w.socket.value.lagged && w.socket.value.channel == [] && w.socket.value.wire == []
    && Backlog(w) == [] && !w.client.replaying
  }

  /** And nothing is held back: when the system is quiet the page has every committed row. */
  lemma QuietIsCaughtUp(w: World, start: nat)
    requires Safe(w, start) && Quiet(w)
    ensures w.client.seen == HighWatermark(w.rows)
    ensures w.client.applied == Select(w.rows, start, HighWatermark(w.rows))
  {
    hide Ordered, HighWatermark, ClientOk, Lives;
    var s, high := w.socket.value, HighWatermark(w.rows);
    LivesEmpty(Select(w.rows, w.handed, s.sent));
    assert ClientOk(w, start);
    ClientFacts(w, start);
    forall x | x in w.rows && w.handed < x.num ensures high < x.num {
      SelectKeeps(w.rows, w.handed, s.sent, x);
      SelectKeeps(w.rows, s.taken, w.hub.cursor, x);
      SelectKeeps(w.rows, w.hub.cursor, high, x);
    }
    WatermarkIsMark(w.rows);
    StandsAtMark(w.rows, w.handed, high);
  }

  lemma LivesEmpty(rows: seq<Row>)
    ensures |Lives(rows)| == 0 ==> rows == []
  {
  }

  lemma ClientFacts(w: World, start: nat)
    requires ClientOk(w, start)
    ensures w.handed <= HighWatermark(w.rows) && w.client.applied == Select(w.rows, start, w.client.seen)
  {
  }

  /** The page is reloaded, subscribes, gets its hello and, if it lacks something, one page of everything. */
  function Recovery(w: World): seq<Action> {
    [Reload, Subscribe, Welcome, Deliver]
    + if w.client.seen < HighWatermark(w.rows) then [Respond(0, |w.rows| + 1)] else []
  }

  lemma StepLast(w: World, actions: seq<Action>, a: Action)
    ensures StepAll(w, actions + [a], false) == Step(StepAll(w, actions, false), a, false)
  {
    hide Step;
    assert (actions + [a])[..|actions|] == actions;
  }

  /** What the client is after the hello of a recovery. */
  lemma HelloAfterReload(w: World, start: nat)
    requires ClientOk(w, start)
    ensures var v, high := StepAll(w, [Reload, Subscribe, Welcome, Deliver], false), HighWatermark(w.rows);
      && v.rows == w.rows && v.client.seen == w.client.seen
      && (w.client.seen < high ==> v.client.replays == [Replay(high, w.client.seen)])
  {
    var reloaded := w.client.(buffered := [], replaying := false, replays := []);
    FlushNothing(reloaded.(replaying := true));
    hide StepAll, Step, HighWatermark, ClientOk, Flush;
    FourSteps(w, Reload, Subscribe, Welcome, Deliver);
    var high := HighWatermark(w.rows);
    var w1 := w.(client := reloaded, socket := None);
    ReloadIs(w);
    var w3 := Connects(w1);
    HelloArrives(w3, high);
    assert [] + [Replay(high, w.client.seen)] == [Replay(high, w.client.seen)];
  }

  lemma ReloadIs(w: World)
    ensures Step(w, Reload, false)
      == w.(client := w.client.(buffered := [], replaying := false, replays := []), socket := None)
  {
  }

  /** A new socket and its hello. */
  lemma Connects(w: World) returns (v: World)
    requires w.socket.None?
    ensures v == Step(Step(w, Subscribe, false), Welcome, false)
    ensures var high := HighWatermark(w.rows);
      v == w.(socket := Some(Socket(Some(high), false, [], false, [Hello(high)], w.hub.cursor, high)))
  {
    hide HighWatermark;
    var subscribed := Step(w, Subscribe, false);
    assert subscribed == w.(socket := Some(Socket(None, false, [], false, [], w.hub.cursor, 0)));
    v := Step(subscribed, Welcome, false);
    assert v == Welcomed(subscribed);
  }

  lemma HelloArrives(w: World, high: nat)
    requires w.socket.Some? && w.socket.value.wire == [Hello(high)] && w.client.replays == []
    ensures Step(w, Deliver, false).rows == w.rows && Step(w, Deliver, false).client == ReceiveHello(w.client, high)
  {
    hide ReceiveHello, HighWatermark;
    assert Step(w, Deliver, false) == Delivered(w, false);
  }

  lemma FourSteps(w: World, a: Action, b: Action, c: Action, d: Action)
    ensures StepAll(w, [a, b, c, d], false) == Step(Step(Step(Step(w, a, false), b, false), c, false), d, false)
  {
    hide Step, StepAll;
    NothingDone(w);
    StepLast(w, [], a);
    StepLast(w, [a], b);
    StepLast(w, [a, b], c);
    StepLast(w, [a, b, c], d);
    assert [] + [a] == [a] && [a] + [b] == [a, b] && [a, b] + [c] == [a, b, c] && [a, b, c] + [d] == [a, b, c, d];
  }

  lemma NothingDone(w: World)
    ensures StepAll(w, [], false) == w
  {
  }

  lemma FlushNothing(c: Client)
    requires c.buffered == []
    ensures Flush(c).seen == c.seen
  {
    assert SortBySeq([]) == [];
  }

  /** The page of everything ends at the watermark. */
  lemma WholePage(c: Client, rows: seq<Row>, start: nat)
    requires Ordered(rows) && Exact(c, rows, start) && c.seen < HighWatermark(rows)
    requires c.replays == [Replay(HighWatermark(rows), c.seen)]
    ensures PageArrives(c, 0, Take(Select(rows, c.seen, HighWatermark(rows)), |rows| + 1)).seen >= HighWatermark(rows)
  {
    var high := HighWatermark(rows);
    var page := Select(rows, c.seen, high);
    SelectIsShort(rows, c.seen, high);
    TakeShort(page, |rows| + 1);
    WatermarkIsMark(rows);
    var r :| r in rows && r.num == high;
    SelectKeeps(rows, c.seen, high, r);
    PageIsSelect(rows, c.seen, high, |rows| + 1);
    SelectAscends(rows, c.seen, high);
    hide Select, HighWatermark, Flush, Ordered, Exact;
    assert page[|page| - 1].num == high;
    PageIsExact(c, rows, start, page, high);
    var after := AcceptAll(c, page).(replays := Without(c.replays, 0));
    FlushKeepsSeen(after);
  }

  lemma SelectIsShort(rows: seq<Row>, after: int, through: int)
    ensures |Select(rows, after, through)| <= |rows|
  {
    if |rows| > 0 {
      SelectIsShort(rows[..|rows| - 1], after, through);
    }
  }

  lemma FlushKeepsSeen(c: Client)
    ensures Flush(c).seen >= c.seen
  {
    SeenGrows(c.(replaying := false), SortBySeq(c.buffered));
  }

  lemma {:induction false} SeenGrows(c: Client, rows: seq<Row>)
    ensures AcceptAll(c, rows).seen >= c.seen
  {
    if |rows| > 0 {
      SeenGrows(c, rows[..|rows| - 1]);
    }
  }

  /** From every safe state the client can catch up: after a reload it is handed every committed row. */
  lemma CatchUpIsPossible(w: World, start: nat)
    requires Safe(w, start)
    ensures var v := StepAll(w, Recovery(w), false);
      && v.rows == w.rows && v.client.seen == HighWatermark(w.rows)
      && v.client.applied == Select(w.rows, start, HighWatermark(w.rows))
  {
    hide StepAll, Step, HighWatermark, SocketOk, HubOk, Ordered, PageArrives, ReplayOk;
    var hello := [Reload, Subscribe, Welcome, Deliver];
    RunIsSafe(w, hello, start);
    RunIsSafe(w, Recovery(w), start);
    HelloAfterReload(w, start);
    var v := StepAll(w, hello, false);
    ClientFacts(v, start);
    if w.client.seen < HighWatermark(w.rows) {
      StepLast(w, hello, Respond(0, |w.rows| + 1));
      WholePage(v.client, v.rows, start);
      RespondIs(v, |w.rows| + 1);
      ClientFacts(StepAll(w, Recovery(w), false), start);
    } else {
      assert Recovery(w) == hello;
    }
  }

  lemma RespondIs(w: World, limit: nat)
    requires |w.client.replays| == 1 && limit > 0
    ensures var r := w.client.replays[0];
      Step(w, Respond(0, limit), false) == w.(client := PageArrives(w.client, 0, Take(Select(w.rows, r.before, r.high), limit)))
  {
    hide PageArrives, Select, Take;
  }

  // ---------------------------------------------------------------- why one replay at a time

  ghost predicate Reaches(w: World, v: World) {
    exists actions :: StepAll(w, actions, true) == v
  }

  lemma ReachOneMore(w: World, v: World, a: Action)
    requires Reaches(w, v)
    ensures Reaches(w, Step(v, a, true))
  {
    hide Step;
    var actions :| StepAll(w, actions, true) == v;
    assert (actions + [a])[..|actions|] == actions;
    assert StepAll(w, actions + [a], true) == Step(v, a, true);
  }

  lemma ReachNone(w: World)
    ensures Reaches(w, w)
  {
    assert StepAll(w, [], true) == w;
  }

  lemma SelectOneMore(rows: seq<Row>, r: Row, after: int, through: int)
    ensures Select(rows + [r], after, through) == Select(rows, after, through) + Chosen(r, after, through)
  {
    assert (rows + [r])[..|rows|] == rows;
  }

  lemma SelectThree(a: Row, b: Row, c: Row, after: int, through: int)
    ensures Select([a], after, through) == Chosen(a, after, through)
    ensures Select([a, b], after, through) == Chosen(a, after, through) + Chosen(b, after, through)
    ensures Select([a, b, c], after, through)
         == Chosen(a, after, through) + Chosen(b, after, through) + Chosen(c, after, through)
  {
    assert Select([], after, through) == [];
    hide Select, Chosen;
    SelectOneMore([], a, after, through);
    SelectOneMore([a], b, after, through);
    SelectOneMore([a, b], c, after, through);
    assert [] + [a] == [a] && [a] + [b] == [a, b] && [a, b] + [c] == [a, b, c];
    assert [] + Chosen(a, after, through) == Chosen(a, after, through);
  }

  function Chosen(r: Row, after: int, through: int): seq<Row> {
    if after < r.num <= through then [r] else []
  }

  lemma WatermarkThree(a: Row, b: Row, c: Row)
    requires 0 < a.num < b.num < c.num
    ensures HighWatermark([a]) == a.num && HighWatermark([a, b]) == b.num && HighWatermark([a, b, c]) == c.num
  {
    assert [a][..0] == [] && [a, b][..1] == [a] && [a, b, c][..2] == [a, b];
  }

  ghost predicate ThreeRows(a: Row, b: Row, c: Row) {
    && a.num == 1 && b.num == 2 && c.num == 3
    && a.event.key != b.event.key && a.event.key != c.event.key && b.event.key != c.event.key
  }

  const BOTH := [Replay(1, 0), Replay(2, 0)]

  /** The first hello, with the page of its replay still awaited. */
  lemma FirstHello(a: Row, w: World)
    requires a.num == 1 && w == Opened([a], {}, 0)
    ensures Reaches(w, World([a], {}, Hub(0, []), Some(Socket(Some(1), true, [], false, [], 0, 1)),
      Client(0, [], [], true, [Replay(1, 0)]), 1))
  {
    hide StepAll, HighWatermark, Select, Reaches;
    WatermarkThree(a, Row(2, a.event), Row(3, a.event));
    ReachNone(w);
    var w1 := Step(w, Subscribe, true);
    ReachOneMore(w, w, Subscribe);
    var w2 := Step(w1, Welcome, true);
    ReachOneMore(w, w1, Welcome);
    var w3 := Step(w2, Deliver, true);
    ReachOneMore(w, w2, Deliver);
    assert [Hello(1)][1..] == [] && [] + [Replay(1, 0)] == [Replay(1, 0)];
    assert w3.socket == Some(Socket(Some(1), true, [], false, [], 0, 1));
  }

  /** The socket drops, row 2 commits, and the next hello arrives before that page. */
  lemma SecondHello(a: Row, b: Row, c: Row, w0: World, w: World)
    requires ThreeRows(a, b, c) && Reaches(w0, w)
    requires w == World([a], {}, Hub(0, []), Some(Socket(Some(1), true, [], false, [], 0, 1)),
      Client(0, [], [], true, [Replay(1, 0)]), 1)
    ensures Reaches(w0, World([a, b], {}, Hub(0, []), Some(Socket(Some(2), true, [], false, [], 0, 2)),
      Client(0, [], [], true, BOTH), 2))
  {
    hide StepAll, HighWatermark, Select, Reaches;
    WatermarkThree(a, b, c);
    var w1 := Step(w, Close, true);
    ReachOneMore(w0, w, Close);
    var w2 := Step(w1, Grow([a, b]), true);
    ReachOneMore(w0, w1, Grow([a, b]));
    var w3 := Step(w2, Subscribe, true);
    ReachOneMore(w0, w2, Subscribe);
    var w4 := Step(w3, Welcome, true);
    ReachOneMore(w0, w3, Welcome);
    var w5 := Step(w4, Deliver, true);
    ReachOneMore(w0, w4, Deliver);
    assert [Hello(2)][1..] == [] && [Replay(1, 0)] + [Replay(2, 0)] == BOTH;
    assert w5.socket == Some(Socket(Some(2), true, [], false, [], 0, 2));
  }

  /** One row of the batch goes out to the subscribed receiver. */
  lemma SendOne(w0: World, w: World, s: Socket, r: Row, rest: seq<Row>)
    requires Reaches(w0, w) && w.socket == Some(s) && w.hub.batch == [r] + rest
    ensures Reaches(w0, w.(hub := Hub(r.num, rest), published := w.published + {r.num},
                           socket := Some(s.(channel := s.channel + [r]))))
  {
    hide Reaches, StepAll;
    ReachOneMore(w0, w, Send(true, false));
    assert ([r] + rest)[1..] == rest;
  }

  /** Row 3 commits and the publisher sends all three rows. */
  lemma Broadcast(a: Row, b: Row, c: Row, w0: World, w: World)
    requires ThreeRows(a, b, c) && Reaches(w0, w)
    requires w == World([a, b], {}, Hub(0, []), Some(Socket(Some(2), true, [], false, [], 0, 2)),
      Client(0, [], [], true, BOTH), 2)
    ensures Reaches(w0, World([a, b, c], {1, 2, 3}, Hub(3, []), Some(Socket(Some(2), true, [a, b, c], false, [], 0, 2)),
      Client(0, [], [], true, BOTH), 2))
  {
    hide StepAll, HighWatermark, Select, Reaches, Take;
    WatermarkThree(a, b, c);
    SelectThree(a, b, c, 0, 3);
    TakeShort([a, b, c], BATCH);
    var w1 := w.(rows := [a, b, c]);
    assert [a, b] <= [a, b, c];
    ReachOneMore(w0, w, Grow([a, b, c]));
    assert Step(w, Grow([a, b, c]), true) == w1;
    assert Backlog(w1) == [a, b, c];
    var w2 := w1.(hub := Hub(0, [a, b, c]));
    ReachOneMore(w0, w1, Fetch);
    SendAll(a, b, c, w0, w2);
  }

  lemma SendAll(a: Row, b: Row, c: Row, w0: World, w: World)
    requires ThreeRows(a, b, c) && Reaches(w0, w)
    requires w == World([a, b, c], {}, Hub(0, [a, b, c]), Some(Socket(Some(2), true, [], false, [], 0, 2)),
      Client(0, [], [], true, BOTH), 2)
    ensures Reaches(w0, World([a, b, c], {1, 2, 3}, Hub(3, []), Some(Socket(Some(2), true, [a, b, c], false, [], 0, 2)),
      Client(0, [], [], true, BOTH), 2))
  {
    hide Reaches;
    var s := w.socket.value;
    assert [a, b, c] == [a] + [b, c] && [b, c] == [b] + [c] && [c] == [c] + [];
    assert [] + [a] == [a] && [a] + [b] == [a, b] && [a, b] + [c] == [a, b, c];
    assert {} + {1} == {1} && {1} + {2} == {1, 2} && {1, 2} + {3} == {1, 2, 3};
    SendOne(w0, w, s, a, [b, c]);
    var w1 := w.(hub := Hub(1, [b, c]), published := {1}, socket := Some(s.(channel := [a])));
    SendOne(w0, w1, s.(channel := [a]), b, [c]);
    var w2 := w1.(hub := Hub(2, [c]), published := {1, 2}, socket := Some(s.(channel := [a, b])));
    SendOne(w0, w2, s.(channel := [a, b]), c, []);
  }

  lemma TakeShort(rows: seq<Row>, limit: nat)
    requires |rows| <= limit
    ensures Take(rows, limit) == rows
  {
  }

  /** Only row 3 passes the watermark; the client buffers it. */
  lemma Buffering(a: Row, b: Row, c: Row, w0: World, w: World)
    requires ThreeRows(a, b, c) && Reaches(w0, w)
    requires w == World([a, b, c], {1, 2, 3}, Hub(3, []), Some(Socket(Some(2), true, [a, b, c], false, [], 0, 2)),
      Client(0, [], [], true, BOTH), 2)
    ensures Reaches(w0, World([a, b, c], {1, 2, 3}, Hub(3, []), Some(Socket(Some(2), true, [], false, [], 3, 3)),
      Client(0, [], [c], true, BOTH), 3))
  {
    hide StepAll, HighWatermark, Select, Reaches;
    var w1 := Step(w, Forward, true);
    ReachOneMore(w0, w, Forward);
    assert w1.socket.value.channel == [b, c];
    var w2 := Step(w1, Forward, true);
    ReachOneMore(w0, w1, Forward);
    assert w2.socket.value.channel == [c];
    var w3 := Step(w2, Forward, true);
    ReachOneMore(w0, w2, Forward);
    assert w3.socket.value.wire == [Live(c)] && w3.socket.value.channel == [];
    var w4 := Step(w3, Deliver, true);
    ReachOneMore(w0, w3, Deliver);
    assert [Live(c)][1..] == [] && [] + [c] == [c];
    assert w4.socket == Some(Socket(Some(2), true, [], false, [], 3, 3));
  }

  /** The page of the first replay ends the buffering. */
  lemma EarlyFlush(a: Row, c: Row)
    requires a.num == 1 && c.num == 3
    ensures PageArrives(Client(0, [], [c], true, BOTH), 0, [a]) == Client(3, [a, c], [], false, [Replay(2, 0)])
  {
    var before := Client(0, [], [c], true, BOTH);
    assert [a][..0] == [] && [c][..0] == [];
    assert AcceptAll(before, [a]) == Client(1, [a], [c], true, BOTH);
    assert Without(BOTH, 0) == [Replay(2, 0)];
    Sorting.SortOne(c, NotLater);
    assert SortBySeq([c]) == [c];
    assert AcceptAll(Client(1, [a], [c], false, [Replay(2, 0)]), [c]) == Client(3, [a, c], [c], false, [Replay(2, 0)]);
  }

  /** The page of the second replay comes too late for row 2. */
  lemma LatePage(a: Row, b: Row, c: Row)
    requires a.num == 1 && b.num == 2 && c.num == 3
    ensures PageArrives(Client(3, [a, c], [], false, [Replay(2, 0)]), 0, [a, b]) == Client(3, [a, c], [], false, [])
  {
    var before := Client(3, [a, c], [], false, [Replay(2, 0)]);
    assert [a, b][..1] == [a] && [a][..0] == [];
    assert AcceptAll(before, [a]) == before;
    assert AcceptAll(before, [a, b]) == before;
    var done := before.(replaying := false, replays := []);
    assert Without(before.replays, 0) == [] && SortBySeq([]) == [];
    assert Flush(done) == done;
  }

  lemma BothPages(a: Row, b: Row, c: Row, w0: World, w: World)
    requires ThreeRows(a, b, c) && Reaches(w0, w) && w.rows == [a, b, c] && w.client == Client(0, [], [c], true, BOTH)
    ensures Reaches(w0, w.(client := Client(3, [a, c], [], false, [])))
  {
    hide StepAll, Select, Reaches, PageArrives, Take;
    SelectThree(a, b, c, 0, 1);
    SelectThree(a, b, c, 0, 2);
    assert Select(w.rows, 0, 1) == [a] && Select(w.rows, 0, 2) == [a, b];
    TakeShort([a], 200);
    TakeShort([a, b], 200);
    EarlyFlush(a, c);
    LatePage(a, b, c);
    ReachOneMore(w0, w, Respond(0, 200));
    ReachOneMore(w0, Step(w, Respond(0, 200), true), Respond(0, 200));
  }

  /**
    A client still awaiting a page of an earlier hello when the next hello arrives: the old page ends
    the new replay's buffering, row 3 overtakes row 2, and row 2 is never handed to the page.
  */
  lemma OverlapLosesARow(a: Row, b: Row, c: Row)
    requires ThreeRows(a, b, c)
    ensures exists w ::
      Reaches(Opened([a], {}, 0), w) && w.rows == [a, b, c] && w.client == Client(3, [a, c], [], false, [])
  {
    hide Reaches;
    var w0 := Opened([a], {}, 0);
    FirstHello(a, w0);
    SecondHello(a, b, c, w0, World([a], {}, Hub(0, []), Some(Socket(Some(1), true, [], false, [], 0, 1)),
      Client(0, [], [], true, [Replay(1, 0)]), 1));
    Broadcast(a, b, c, w0, World([a, b], {}, Hub(0, []), Some(Socket(Some(2), true, [], false, [], 0, 2)),
      Client(0, [], [], true, BOTH), 2));
    Buffering(a, b, c, w0, World([a, b, c], {1, 2, 3}, Hub(3, []),
      Some(Socket(Some(2), true, [a, b, c], false, [], 0, 2)), Client(0, [], [], true, BOTH), 2));
    BothPages(a, b, c, w0, World([a, b, c], {1, 2, 3}, Hub(3, []),
      Some(Socket(Some(2), true, [], false, [], 3, 3)), Client(0, [], [c], true, BOTH), 3));
  }
}
