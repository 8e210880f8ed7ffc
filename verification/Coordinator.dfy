/**
  The backfill coordinator of one stream: chunked catch-up with saturating 64-bit block numbers,
  the handler before the durable cursor, and the switch between Live and ChainBackfill batches.
  RPC, handler and database outcomes are scripted, so every failure and crash point is a value.
*/
module Coordinator {
  import opened Wrappers
  import Sorting

  const U64_MAX: nat := 0xffff_ffff_ffff_ffff

  type Block = n: nat | n <= U64_MAX

  function SaturatingAdd(a: Block, b: Block): Block {
    if a + b > U64_MAX then U64_MAX else a + b
  }

  function SaturatingSub(a: Block, b: Block): Block {
    if a < b then 0 else a - b
  }

  function Min(a: Block, b: Block): Block {
    if a <= b then a else b
  }

  function Max(a: Block, b: Block): Block {
    if a >= b then a else b
  }

  datatype Source = Live | ChainBackfill

  datatype Batch = Batch(source: Source, from: Block, to: Block)

  datatype Cursor = Cursor(chain: nat, block: Block, hash: nat)

  /** What happened on the stream, in order: subscriptions, batches handed over, and ends of catch-up calls. */
  datatype Entry = Connected | Issued(batch: Batch, accepted: bool) | CaughtUp(head: Block) | Failed

  datatype Stream = Stream(cursor: Option<Cursor>, log: seq<Entry>)

  datatype Settings = Settings(chain: nat, start: Block, chunk: Block)

  datatype Error =
    | Rpc | Storage | Handler
    | WrongChain(expected: nat, actual: nat)
    | RpcBehindCursor(head: Block, cursor: Block)
    | MissingBlock(block: Block)
    | CursorHashMismatch(block: Block)

  /** How one chunk goes. An unacknowledged upsert is stored although its caller sees an error. */
  datatype Outcome =
    | NoLogs | NoTerminal | Rejected | UpsertFails
    | Unacknowledged(hash: nat) | Done(hash: nat)

  /** How the calls inside one catch-up go; `restored` is what the RPC answers for the cursor's block. */
  datatype Call = Call(loads: bool, restored: Result<Option<nat>, Error>, outcomes: nat -> Outcome)

  // ---------------------------------------------------------------- one catch-up

  function ChunkEnd(from: Block, head: Block, chunk: Block): (to: Block)
    requires from <= head
    ensures from <= to <= head
  {
    Min(SaturatingAdd(from, SaturatingSub(chunk, 1)), head)
  }

  function Attempt(s: Stream, chain: nat, b: Batch, o: Outcome): Stream {
    match o
    case NoLogs | NoTerminal => s
    case Rejected => s.(log := s.log + [Issued(b, false)])
    case UpsertFails => s.(log := s.log + [Issued(b, true)])
    case Unacknowledged(hash) => Stream(Some(Cursor(chain, b.to, hash)), s.log + [Issued(b, true)])
    case Done(hash) => Stream(Some(Cursor(chain, b.to, hash)), s.log + [Issued(b, true)])
  }

  function Ended(s: Stream, e: Entry): Stream {
    s.(log := s.log + [e])
  }

  function Chunks(s: Stream, from: nat, head: Block, st: Settings, source: Source, outcomes: nat -> Outcome, k: nat): Stream
    requires from <= head + 1
    decreases head + 1 - from
  {
    if from > head then Ended(s, CaughtUp(head))
    else
      var to := ChunkEnd(from, head, st.chunk);
      var next := Attempt(s, st.chain, Batch(source, from, to), outcomes(k));
      if !outcomes(k).Done? then Ended(next, Failed)
      else if to == U64_MAX then Ended(next, CaughtUp(head))
      else Chunks(next, to + 1, head, st, source, outcomes, k + 1)
  }

  function OutcomeError(o: Outcome, to: Block): Error {
    match o
    case NoLogs => Rpc
    case NoTerminal => MissingBlock(to)
    case Rejected => Handler
    case _ => Storage
  }

  /** The error that ends the chunk loop, if any. */
  function Failure(from: nat, head: Block, st: Settings, outcomes: nat -> Outcome, k: nat): Option<Error>
    decreases head + 1 - from
  {
    if from > head then None
    else
      var to := ChunkEnd(from, head, st.chunk);
      if !outcomes(k).Done? then Some(OutcomeError(outcomes(k), to))
      else if to == U64_MAX then None
      else Failure(to + 1, head, st, outcomes, k + 1)
  }

  /** A catch-up refuses to start without a readable cursor, or from one of another chain, ahead of the head, or whose
      block is missing or has another hash. */
  predicate Refuses(s: Stream, head: Block, st: Settings, call: Call) {
    !call.loads ||
    match s.cursor
    case None => false
    case Some(c) =>
      || c.chain != st.chain || head < c.block
      || match call.restored
         case Err(_) => true
         case Ok(None) => true
         case Ok(Some(hash)) => hash != c.hash
  }

  function FirstBlock(s: Stream, st: Settings): Block {
    match s.cursor
    case None => st.start
    case Some(c) => SaturatingAdd(c.block, 1)
  }

  /** One whole call of the catch-up, as a function of the stream. */
  function CatchUp(s: Stream, head: Block, source: Source, st: Settings, call: Call): Stream {
    if Refuses(s, head, st, call) then Ended(s, Failed)
    else if FirstBlock(s, st) > head then Ended(s, CaughtUp(head))
    else Chunks(s, FirstBlock(s, st), head, st, source, call.outcomes, 0)
  }

  // ---------------------------------------------------------------- which calls start

  /** A stored cursor that a call may continue from: of this chain, not ahead of the head, and its block still has
      the stored hash. */
  predicate Continuable(c: Cursor, head: Block, st: Settings, call: Call) {
    c.chain == st.chain && c.block <= head && call.restored == Ok(Some(c.hash))
  }

  /** A call starts exactly when the cursor can be read and, if there is one, continued from; any other leaves the
      stream as it was but for the failure. */
  lemma CallsThatStart(s: Stream, head: Block, source: Source, st: Settings, call: Call)
    ensures !call.loads || (s.cursor.Some? && !Continuable(s.cursor.value, head, st, call)) ==>
      CatchUp(s, head, source, st, call) == Stream(s.cursor, s.log + [Failed])
    ensures call.loads && (s.cursor.Some? ==> Continuable(s.cursor.value, head, st, call)) ==>
      var from := if s.cursor.None? then st.start else if s.cursor.value.block < U64_MAX then s.cursor.value.block + 1 else U64_MAX;
      CatchUp(s, head, source, st, call)
        == if from > head then Stream(s.cursor, s.log + [CaughtUp(head)])
           else Chunks(s, from, head, st, source, call.outcomes, 0)
  {
    hide Chunks;
  }

  /** The last block of the first `n` pieces, if any. */
  function Reached(from: nat, head: Block, size: nat, n: nat): int
    requires size >= 1
  {
    if n == 0 then from - 1 else Piece(from, head, size, n - 1).1
  }

  /** Log and cursor of a call that stored `n` chunks: it ended there, having reached the head, or at the chunk that went
      wrong. The cursor moves exactly past what was stored. */
  ghost predicate StopsAt(s: Stream, r: Stream, from: Block, head: Block, st: Settings, source: Source, outcomes: nat -> Outcome, k: nat, n: nat)
    requires forall i :: k <= i < k + n ==> outcomes(i).Done?
  {
    var size := PieceSize(st);
    var o, reached, next := outcomes(k + n), Reached(from, head, size, n), Piece(from, head, size, n);
    if reached == head then
      && |r.log| == |s.log| + n + 1 && r.log[|s.log| + n] == CaughtUp(head)
      && n > 0 && r.cursor == Some(Cursor(st.chain, head, outcomes(k + n - 1).hash))
    else
      && !o.Done? && reached < next.0 <= next.1 <= head && Last(r.log) == Failed
      && |r.log| == |s.log| + n + (if o.NoLogs? || o.NoTerminal? then 1 else 2)
      && (!o.NoLogs? && !o.NoTerminal? ==> r.log[|s.log| + n] == Issued(Batch(source, next.0, next.1), !o.Rejected?))
      && (o.Unacknowledged? ==> r.cursor == Some(Cursor(st.chain, next.1, o.hash)))
      && (!o.Unacknowledged? ==>
            r.cursor == if n == 0 then s.cursor else Some(Cursor(st.chain, reached, outcomes(k + n - 1).hash)))
  }

  lemma {:induction false} ChunksStop(s: Stream, from: Block, head: Block, st: Settings, source: Source, outcomes: nat -> Outcome, k: nat)
    returns (n: nat)
    requires from <= head
    ensures forall i :: k <= i < k + n ==> outcomes(i).Done?
    ensures StopsAt(s, Chunks(s, from, head, st, source, outcomes, k), from, head, st, source, outcomes, k, n)
    decreases head + 1 - from
  {
    hide StopsAt, Attempt, ChunkEnd;
    var to := ChunkEnd(from, head, st.chunk);
    var next := Attempt(s, st.chain, Batch(source, from, to), outcomes(k));
    if !outcomes(k).Done? {
      n := 0;
      StopsAtOnce(s, from, head, st, source, outcomes, k);
    } else if to == head {
      n := 1;
      StopsAtHead(s, from, head, st, source, outcomes, k);
    } else {
      var m := ChunksStop(next, to + 1, head, st, source, outcomes, k + 1);
      n := m + 1;
      StopShifts(s, Chunks(next, to + 1, head, st, source, outcomes, k + 1), from, head, st, source, outcomes, k, m);
    }
  }

  lemma StopsAtOnce(s: Stream, from: Block, head: Block, st: Settings, source: Source, outcomes: nat -> Outcome, k: nat)
    requires from <= head && !outcomes(k).Done?
    ensures StopsAt(s, Chunks(s, from, head, st, source, outcomes, k), from, head, st, source, outcomes, k, 0)
  {
    ChunkIsPiece(from, head, st);
    hide Piece, PieceSize, ChunkEnd;
  }

  lemma StopsAtHead(s: Stream, from: Block, head: Block, st: Settings, source: Source, outcomes: nat -> Outcome, k: nat)
    requires from <= head && outcomes(k).Done? && ChunkEnd(from, head, st.chunk) == head
    ensures StopsAt(s, Chunks(s, from, head, st, source, outcomes, k), from, head, st, source, outcomes, k, 1)
  {
    ChunkIsPiece(from, head, st);
    hide Piece, PieceSize, ChunkEnd;
  }

  lemma StopShifts(s: Stream, r: Stream, from: Block, head: Block, st: Settings, source: Source, outcomes: nat -> Outcome, k: nat, m: nat)
    requires from <= head && outcomes(k).Done? && ChunkEnd(from, head, st.chunk) < head
    requires forall i :: k < i <= k + m ==> outcomes(i).Done?
    requires var to := ChunkEnd(from, head, st.chunk);
      StopsAt(Attempt(s, st.chain, Batch(source, from, to), outcomes(k)), r, to + 1, head, st, source, outcomes, k + 1, m)
    ensures StopsAt(s, r, from, head, st, source, outcomes, k, m + 1)
  {
    ChunkIsPiece(from, head, st);
    FirstPieceEnd(from, head, PieceSize(st));
    PieceShift(from, head, PieceSize(st), m);
    if m > 0 {
      PieceShift(from, head, PieceSize(st), m - 1);
    }
    hide Piece, PieceSize, ChunkEnd;
  }

  lemma ReachedShift(from: nat, head: Block, size: nat, n: nat)
    requires size >= 1 && from + size <= head
    ensures Reached(from + size, head, size, n) == Reached(from, head, size, n + 1)
  {
    if n > 0 {
      PieceShift(from, head, size, n - 1);
    }
  }

  /** The error of a call is that of the first chunk that goes wrong. */
  lemma {:induction false} FailureIs(from: Block, head: Block, st: Settings, outcomes: nat -> Outcome, k: nat, n: nat)
    requires from <= head && forall i :: k <= i < k + n ==> outcomes(i).Done?
    requires Reached(from, head, PieceSize(st), n) < head && !outcomes(k + n).Done?
    ensures Piece(from, head, PieceSize(st), n).1 <= head
    ensures Failure(from, head, st, outcomes, k) == Some(OutcomeError(outcomes(k + n), Piece(from, head, PieceSize(st), n).1))
    decreases n
  {
    var size, to := PieceSize(st), ChunkEnd(from, head, st.chunk);
    ChunkIsPiece(from, head, st);
    if n > 0 {
      FirstPieceEnd(from, head, size);
      PastTheHead(from, head, size, n);
      ReachedShift(from, head, size, n - 1);
      PieceShift(from, head, size, n - 1);
      hide Piece, PieceSize, ChunkEnd, OutcomeError, Reached;
      FailureIs(to + 1, head, st, outcomes, k + 1, n - 1);
    }
  }

  lemma PastTheHead(from: Block, head: Block, size: nat, n: nat)
    requires size >= 1 && n > 0 && Reached(from, head, size, n) < head
    ensures Piece(from, head, size, 0).1 < head
  {
    assert n * size >= size;
  }

  lemma OutcomeErrors(o: Outcome, to: Block)
    requires !o.Done?
    ensures OutcomeError(o, to) == Rpc <==> o.NoLogs?
    ensures OutcomeError(o, to) == MissingBlock(to) <==> o.NoTerminal?
    ensures OutcomeError(o, to) == Handler <==> o.Rejected?
    ensures OutcomeError(o, to) == Storage <==> o.UpsertFails? || o.Unacknowledged?
  {
  }

  // ---------------------------------------------------------------- tiling

  function PieceSize(st: Settings): (n: nat)
    ensures 1 <= n <= U64_MAX
  {
    if st.chunk == 0 then 1 else st.chunk
  }

  /** The k-th piece of a range cut into pieces of a fixed size, in plain integers. */
  function Piece(from: nat, head: Block, size: nat, k: nat): (nat, nat)
    requires size >= 1
  {
    var last := from + (k + 1) * size - 1;
    (from + k * size, if last < head then last else head)
  }

  /** `n` pieces are exactly enough to reach the head. */
  predicate Exhausts(from: nat, head: Block, size: nat, n: nat) {
    && from + n * size > head
    && (n > 0 ==> from + (n - 1) * size <= head)
  }

  /** Log entries `at..at + n` are the first `n` pieces, all but perhaps the last accepted. */
  ghost predicate TilesFrom(log: seq<Entry>, at: nat, n: nat, from: nat, head: Block, size: nat, source: Source)
    requires size >= 1 && at + n <= |log|
  {
    forall i :: at <= i < at + n ==>
      && log[i].Issued?
      && log[i].batch.source == source
      && (log[i].batch.from, log[i].batch.to) == Piece(from, head, size, i - at)
      && (i < at + n - 1 ==> log[i].accepted)
  }

  predicate AllAccepted(log: seq<Entry>, at: nat) {
    forall k :: at <= k < |log| && log[k].Issued? ==> log[k].accepted
  }

  lemma PieceShift(from: nat, head: Block, size: nat, k: nat)
    requires size >= 1
    ensures Piece(from + size, head, size, k) == Piece(from, head, size, k + 1)
  {
    assert (k + 1) * size == k * size + size;
    assert (k + 2) * size == (k + 1) * size + size;
  }

  lemma ExhaustsShift(from: nat, head: Block, size: nat, m: nat)
    requires Exhausts(from + size, head, size, m) && from + size <= head
    ensures Exhausts(from, head, size, m + 1)
  {
    assert (m + 1) * size == m * size + size;
    if m > 0 {
      assert m * size == (m - 1) * size + size;
    }
  }

  /** The chunk that starts at `from` is the first piece, whatever saturates. */
  lemma ChunkIsPiece(from: Block, head: Block, st: Settings)
    requires from <= head
    ensures (from, ChunkEnd(from, head, st.chunk) as nat) == Piece(from, head, PieceSize(st), 0)
    ensures ChunkEnd(from, head, st.chunk) - from + 1 <= PieceSize(st)
  {
  }

  /**
    The batches of one call are the pieces of [from, head] in order: no gap, no overlap, none larger than
    max(1, chunk), including chunk 0 and a head of 2^64 - 1. A call that succeeds issued all of them.
  */
  lemma {:induction false} ChunksTile(s: Stream, from: nat, head: Block, st: Settings, source: Source, outcomes: nat -> Outcome, k: nat)
    returns (n: nat)
    requires from <= head + 1
    ensures var r := Chunks(s, from, head, st, source, outcomes, k);
      && |r.log| == |s.log| + n + 1
      && s.log <= r.log
      && TilesFrom(r.log, |s.log|, n, from, head, PieceSize(st), source)
    ensures var last := Chunks(s, from, head, st, source, outcomes, k).log[|s.log| + n];
      && (last == CaughtUp(head) || last == Failed)
      && (last == CaughtUp(head) ==> Exhausts(from, head, PieceSize(st), n) && AllAccepted(Chunks(s, from, head, st, source, outcomes, k).log, |s.log|))
    decreases head + 1 - from
  {
    hide Attempt, Piece, PieceSize, ChunkEnd, Exhausts;
    var size := PieceSize(st);
    ExhaustsAtOnce(from, head, size);
    if from > head {
      n := 0;
    } else {
      var to := ChunkEnd(from, head, st.chunk);
      var next := Attempt(s, st.chain, Batch(source, from, to), outcomes(k));
      ChunkIsPiece(from, head, st);
      AttemptLogs(s, st.chain, Batch(source, from, to), outcomes(k));
      FirstPieceEnd(from, head, size);
      if !outcomes(k).Done? || to == U64_MAX {
        n := |next.log| - |s.log|;
      } else if to == head {
        assert Chunks(next, to + 1, head, st, source, outcomes, k + 1) == Ended(next, CaughtUp(head));
        n := 1;
      } else {
        var m := ChunksTile(next, to + 1, head, st, source, outcomes, k + 1);
        if Exhausts(from + size, head, size, m) {
          ExhaustsShift(from, head, size, m);
        }
        n := m + 1;
        TilesShift(Chunks(next, to + 1, head, st, source, outcomes, k + 1).log, |s.log|, m, from, head, size, source);
      }
    }
  }

  lemma ExhaustsAtOnce(from: nat, head: Block, size: nat)
    requires from <= head + 1
    ensures from > head ==> Exhausts(from, head, size, 0)
    ensures from <= head < from + size ==> Exhausts(from, head, size, 1)
  {
  }

  /** The first piece ends at the head or is of full size. */
  lemma FirstPieceEnd(from: nat, head: Block, size: nat)
    requires size >= 1 && from <= head
    ensures var p := Piece(from, head, size, 0);
      && (p.1 == head ==> head + 1 - from <= size)
      && (p.1 != head ==> p.1 + 1 == from + size && from + size <= head)
  {
  }

  lemma AttemptLogs(s: Stream, chain: nat, b: Batch, o: Outcome)
    ensures var next := Attempt(s, chain, b, o);
      && (next.log == s.log || next.log == s.log + [Issued(b, true)] || next.log == s.log + [Issued(b, false)])
      && (o.Done? ==> next.log == s.log + [Issued(b, true)])
  {
  }

  lemma TilesShift(log: seq<Entry>, at: nat, m: nat, from: nat, head: Block, size: nat, source: Source)
    requires size >= 1 && at + 1 + m <= |log|
    requires TilesFrom(log, at + 1, m, from + size, head, size, source)
    requires log[at].Issued? && log[at].accepted && log[at].batch.source == source
    requires (log[at].batch.from, log[at].batch.to) == Piece(from, head, size, 0)
    ensures TilesFrom(log, at, m + 1, from, head, size, source)
  {
    hide Piece;
    forall i | at <= i < at + m + 1
      ensures log[i].Issued? && log[i].batch.source == source
      ensures (log[i].batch.from, log[i].batch.to) == Piece(from, head, size, i - at)
      ensures i < at + m ==> log[i].accepted
    {
      if i > at {
        PieceShift(from, head, size, i - (at + 1));
      }
    }
  }

  // ---------------------------------------------------------------- coverage

  /** A batch with block `b` was accepted by the handler. */
  ghost predicate Handled(log: seq<Entry>, b: nat) {
    exists i :: 0 <= i < |log| && log[i].Issued? && log[i].accepted && log[i].batch.from <= b <= log[i].batch.to
  }

  ghost predicate Covered(s: Stream, st: Settings) {
    s.cursor.Some? ==> forall b :: st.start <= b <= s.cursor.value.block ==> Handled(s.log, b)
  }

  lemma HandledGrows(log: seq<Entry>, more: seq<Entry>, b: nat)
    requires Handled(log, b)
    ensures Handled(log + more, b)
  {
    var i :| 0 <= i < |log| && log[i].Issued? && log[i].accepted && log[i].batch.from <= b <= log[i].batch.to;
    assert (log + more)[i] == log[i];
  }

  /** The next chunk starts right behind the covered range. */
  ghost predicate Adjoins(s: Stream, st: Settings, from: nat) {
    match s.cursor
    case None => from == st.start
    case Some(c) => from == c.block + 1 || (from == c.block == U64_MAX)
  }

  lemma AttemptCovers(s: Stream, st: Settings, b: Batch, o: Outcome)
    requires Covered(s, st) && Adjoins(s, st, b.from) && b.from <= b.to
    ensures Covered(Attempt(s, st.chain, b, o), st)
    ensures CursorBlock(s) <= CursorBlock(Attempt(s, st.chain, b, o))
    ensures o.Done? && b.to < U64_MAX ==> Adjoins(Attempt(s, st.chain, b, o), st, b.to + 1)
  {
    var next := Attempt(s, st.chain, b, o);
    if next.cursor.Some? {
      forall n | st.start <= n <= next.cursor.value.block ensures Handled(next.log, n) {
        if b.from <= n && next.cursor != s.cursor {
          assert next.log[|s.log|] == Issued(b, true);
        } else {
          HandledGrows(s.log, next.log[|s.log|..], n);
          assert s.log + next.log[|s.log|..] == next.log;
        }
      }
    }
  }

  /** The durable position, or -1 before the first. */
  function CursorBlock(s: Stream): int {
    if s.cursor.Some? then s.cursor.value.block else -1
  }

  lemma EndedCovers(s: Stream, st: Settings, e: Entry)
    requires Covered(s, st)
    ensures Covered(Ended(s, e), st)
  {
    hide Handled;
    forall b | Handled(s.log, b) ensures Handled(s.log + [e], b) {
      HandledGrows(s.log, [e], b);
    }
  }

  lemma {:induction false} ChunksCover(s: Stream, from: nat, head: Block, st: Settings, source: Source, outcomes: nat -> Outcome, k: nat)
    requires Covered(s, st) && from <= head + 1
    requires from <= head ==> Adjoins(s, st, from)
    ensures var r := Chunks(s, from, head, st, source, outcomes, k);
      Covered(r, st) && CursorBlock(s) <= CursorBlock(r)
    decreases head + 1 - from
  {
    hide Covered, Attempt, Adjoins;
    if from > head {
      EndedCovers(s, st, CaughtUp(head));
    } else {
      var to := ChunkEnd(from, head, st.chunk);
      var b := Batch(source, from, to);
      var next := Attempt(s, st.chain, b, outcomes(k));
      AttemptCovers(s, st, b, outcomes(k));
      EndedCovers(next, st, Failed);
      EndedCovers(next, st, CaughtUp(head));
      if outcomes(k).Done? && to != U64_MAX {
        ChunksCover(next, to + 1, head, st, source, outcomes, k + 1);
      }
    }
  }

  /** No call loses a block or moves the cursor back, however it fails. */
  lemma CatchUpCovers(s: Stream, head: Block, source: Source, st: Settings, call: Call)
    requires Covered(s, st)
    ensures var r := CatchUp(s, head, source, st, call);
      Covered(r, st) && CursorBlock(s) <= CursorBlock(r)
  {
    hide Covered, Chunks;
    EndedCovers(s, st, Failed);
    EndedCovers(s, st, CaughtUp(head));
    if FirstBlock(s, st) <= head {
      ChunksCover(s, FirstBlock(s, st), head, st, source, call.outcomes, 0);
    }
  }

  // ---------------------------------------------------------------- provenance

  /** The latest catch-up on the current subscription succeeded. */
  predicate Steady(log: seq<Entry>) {
    |log| > 0 &&
    match log[|log| - 1]
    case CaughtUp(_) => true
    case Issued(_, _) => Steady(log[..|log| - 1])
    case _ => false
  }

  predicate IsLive(e: Entry) {
    e.Issued? && e.batch.source == Live
  }

  /** Every Live batch was issued on a steady log. */
  ghost predicate LiveIsSteady(log: seq<Entry>) {
    forall i :: 0 <= i < |log| && IsLive(log[i]) ==> Steady(log[..i])
  }

  /** Every Live batch starts above all heads caught up with before it, but for the very last block number. */
  ghost predicate LiveIsAhead(log: seq<Entry>) {
    forall i, j :: 0 <= i < j < |log| && log[i].CaughtUp? && IsLive(log[j]) ==>
      log[j].batch.from > log[i].head || log[j].batch.from == U64_MAX
  }

  /** The cursor has reached every head caught up with, or nothing was due yet. */
  ghost predicate HeadsReached(s: Stream, st: Settings) {
    forall i :: 0 <= i < |s.log| && s.log[i].CaughtUp? ==>
      if s.cursor.Some? then s.log[i].head <= s.cursor.value.block || s.log[i].head < st.start
      else s.log[i].head < st.start
  }

  /** Cursors lie in the covered range. */
  ghost predicate CursorStarted(s: Stream, st: Settings) {
    s.cursor.Some? ==> s.cursor.value.block >= st.start
  }

  ghost predicate Labelled(s: Stream, st: Settings) {
    && LiveIsSteady(s.log)
    && LiveIsAhead(s.log)
    && HeadsReached(s, st)
    && CursorStarted(s, st)
  }

  /** What a steady log says: a successful catch-up, and neither a failed one nor a new subscription since. */
  lemma {:induction false} SteadyMeans(log: seq<Entry>) returns (j: nat)
    requires Steady(log)
    ensures j < |log| && log[j].CaughtUp?
    ensures forall k :: j < k < |log| ==> log[k].Issued?
  {
    j := |log| - 1;
    if log[j].Issued? {
      j := SteadyMeans(log[..|log| - 1]);
    }
  }

  lemma AppendSteady(log: seq<Entry>, e: Entry)
    requires LiveIsSteady(log) && (IsLive(e) ==> Steady(log))
    ensures LiveIsSteady(log + [e])
    ensures e.Issued? && Steady(log) ==> Steady(log + [e])
    ensures e.CaughtUp? ==> Steady(log + [e])
  {
    hide Steady;
    forall i | 0 <= i < |log + [e]| && IsLive((log + [e])[i]) ensures Steady((log + [e])[..i]) {
      assert (log + [e])[..i] == log[..i];
      assert log[..|log|] == log;
    }
    StepSteady(log, e);
  }

  lemma StepSteady(log: seq<Entry>, e: Entry)
    ensures e.Issued? && Steady(log) ==> Steady(log + [e])
    ensures e.CaughtUp? ==> Steady(log + [e])
  {
    assert (log + [e])[..|log|] == log;
  }

  lemma AttemptLabels(s: Stream, st: Settings, b: Batch, o: Outcome)
    requires Labelled(s, st) && Adjoins(s, st, b.from) && b.from <= b.to
    requires b.source == Live ==> Steady(s.log)
    ensures var next := Attempt(s, st.chain, b, o);
      && Labelled(next, st)
      && (Steady(s.log) ==> Steady(next.log))
      && (o.Done? ==> next.cursor.Some? && next.cursor.value.block == b.to)
  {
    hide Steady, LiveIsSteady;
    AppendSteady(s.log, Issued(b, true));
    AppendSteady(s.log, Issued(b, false));
  }

  lemma EndLabels(s: Stream, st: Settings, e: Entry)
    requires Labelled(s, st) && !e.Issued?
    requires e.CaughtUp? ==> (s.cursor.Some? && e.head <= s.cursor.value.block) || e.head < st.start
    ensures Labelled(Ended(s, e), st)
    ensures e.CaughtUp? ==> Steady(Ended(s, e).log)
  {
    hide Steady, LiveIsSteady;
    AppendSteady(s.log, e);
  }

  lemma {:induction false} ChunksLabel(s: Stream, from: Block, head: Block, st: Settings, source: Source, outcomes: nat -> Outcome, k: nat)
    requires Labelled(s, st) && from <= head && Adjoins(s, st, from)
    requires source == Live ==> Steady(s.log)
    ensures var r := Chunks(s, from, head, st, source, outcomes, k);
      Labelled(r, st) && (Last(r.log).CaughtUp? ==> Steady(r.log))
    decreases head + 1 - from
  {
    hide Labelled, Attempt, Steady;
    var to := ChunkEnd(from, head, st.chunk);
    var b := Batch(source, from, to);
    var next := Attempt(s, st.chain, b, outcomes(k));
    AttemptLabels(s, st, b, outcomes(k));
    if !outcomes(k).Done? {
      EndLabels(next, st, Failed);
    } else if to == head {
      EndLabels(next, st, CaughtUp(head));
    } else {
      ChunksLabel(next, to + 1, head, st, source, outcomes, k + 1);
    }
  }

  function Last(log: seq<Entry>): Entry {
    if |log| == 0 then Failed else log[|log| - 1]
  }

  /** A call with the Live label needs a steady stream; every call keeps the labels right. */
  lemma CatchUpLabels(s: Stream, head: Block, source: Source, st: Settings, call: Call)
    requires Labelled(s, st)
    requires source == Live ==> Steady(s.log)
    ensures var r := CatchUp(s, head, source, st, call);
      Labelled(r, st) && (Last(r.log).CaughtUp? ==> Steady(r.log))
  {
    hide Labelled, Chunks, Steady;
    EndLabels(s, st, Failed);
    if !Refuses(s, head, st, call) {
      if FirstBlock(s, st) > head {
        EndLabels(s, st, CaughtUp(head));
      } else {
        ChunksLabel(s, FirstBlock(s, st), head, st, source, call.outcomes, 0);
      }
    }
  }

  /** In any run, a Live batch follows a catch-up on its own subscription with nothing failed since, and starts
      above the head that catch-up reached unless block numbers are exhausted. */
  lemma LiveIsEarned(s: Stream, st: Settings, i: nat) returns (j: nat)
    requires Labelled(s, st) && i < |s.log| && IsLive(s.log[i])
    ensures j < i && s.log[j].CaughtUp?
    ensures forall k :: j < k < i ==> s.log[k] != Failed && s.log[k] != Connected
    ensures s.log[i].batch.from > s.log[j].head || s.log[i].batch.from == U64_MAX
  {
    j := SteadyMeans(s.log[..i]);
    forall k | j < k < i ensures s.log[k] != Failed && s.log[k] != Connected {
      assert s.log[..i][k] == s.log[k];
    }
  }

  /** The converse reading: without such a catch-up the log is not steady. */
  lemma StepUnsteady(log: seq<Entry>, e: Entry)
    requires e == Failed || e == Connected
    ensures !Steady(log + [e])
  {
  }

  lemma ConnectLabels(s: Stream, st: Settings)
    requires Labelled(s, st) && Covered(s, st)
    ensures Labelled(Ended(s, Connected), st) && Covered(Ended(s, Connected), st)
    ensures !Steady(Ended(s, Connected).log)
  {
    hide Labelled, Covered, Steady;
    EndLabels(s, st, Connected);
    EndedCovers(s, st, Connected);
    StepUnsteady(s.log, Connected);
  }

  // ---------------------------------------------------------------- any sequence of calls

  datatype Request = Request(head: Block, source: Source, call: Call)

  function CatchUpAll(s: Stream, requests: seq<Request>, st: Settings): Stream {
    if |requests| == 0 then s
    else
      var r := requests[|requests| - 1];
      CatchUp(CatchUpAll(s, requests[..|requests| - 1], st), r.head, r.source, st, r.call)
  }

  /** Any calls, failures and crashes: up to the durable cursor every block from the start was accepted. */
  lemma {:induction false} NoBlockIsLost(requests: seq<Request>, st: Settings)
    ensures Covered(CatchUpAll(Stream(None, []), requests, st), st)
    ensures |requests| > 0 ==>
      CursorBlock(CatchUpAll(Stream(None, []), requests[..|requests| - 1], st)) <= CursorBlock(CatchUpAll(Stream(None, []), requests, st))
  {
    hide CatchUp;
    if |requests| > 0 {
      hide Covered;
      var r := requests[|requests| - 1];
      NoBlockIsLost(requests[..|requests| - 1], st);
      CatchUpCovers(CatchUpAll(Stream(None, []), requests[..|requests| - 1], st), r.head, r.source, st, r.call);
    }
  }

  /** A cursor at the last block number makes a call hand that one block over again, and nothing else. */
  lemma LastBlockIsRedelivered(s: Stream, source: Source, st: Settings, call: Call, hash: nat)
    requires s.cursor.Some? && s.cursor.value.block == U64_MAX
    requires call.loads && Continuable(s.cursor.value, U64_MAX, st, call) && call.outcomes(0) == Done(hash)
    ensures CatchUp(s, U64_MAX, source, st, call).log
         == s.log + [Issued(Batch(source, U64_MAX, U64_MAX), true)] + [CaughtUp(U64_MAX)]
  {
  }

  // ---------------------------------------------------------------- the order of logs in a batch

  datatype Log = Log(block: nat, txIndex: Option<nat>, index: nat, txHash: nat, data: seq<int>)

  /** `transaction_index` is optional in RPC answers; the log index stands in for it. */
  function TxKey(l: Log): nat {
    if l.txIndex.Some? then l.txIndex.value else l.index
  }

  predicate NotAfter(a: Log, b: Log) {
    if a.block != b.block then a.block < b.block
    else if TxKey(a) != TxKey(b) then TxKey(a) < TxKey(b)
    else if a.index != b.index then a.index < b.index
    else a.txHash <= b.txHash
  }

  function Ordered(logs: seq<Log>): seq<Log> {
    Sorting.Sort(logs, NotAfter)
  }

  /** No two logs of the answer share block, index and transaction. */
  ghost predicate DistinctPositions(logs: seq<Log>) {
    forall a, b :: a in logs && b in logs && a.block == b.block && a.index == b.index && a.txHash == b.txHash ==> a == b
  }

  /** The handler sees the logs in chain order and the same way whatever order the RPC returned them in. */
  lemma BatchOrderIsCanonical(logs: seq<Log>, answer: seq<Log>)
    requires multiset(logs) == multiset(answer) && DistinctPositions(logs)
    ensures Ordered(answer) == Ordered(logs) && multiset(Ordered(logs)) == multiset(logs)
    ensures Sorting.Sorted(Ordered(logs), NotAfter)
  {
    assert Sorting.NoTies(logs, NotAfter);
    Sorting.SortIgnoresOrder(logs, answer, NotAfter);
    Sorting.SortSorts(logs, NotAfter);
  }

  /** In that order block numbers never fall, within a block the transaction indices (log indices where those are
      missing) never fall, then the log indices, then the hashes. */
  lemma BatchAscends(logs: seq<Log>, i: nat, j: nat)
    requires i < j < |Ordered(logs)|
    ensures var a, b := Ordered(logs)[i], Ordered(logs)[j];
      var tx, ty := if a.txIndex.Some? then a.txIndex.value else a.index, if b.txIndex.Some? then b.txIndex.value else b.index;
      && a.block <= b.block
      && (a.block == b.block ==> tx <= ty)
      && (a.block == b.block && tx == ty ==> a.index <= b.index)
      && (a.block == b.block && tx == ty && a.index == b.index ==> a.txHash <= b.txHash)
  {
    Sorting.SortSorts(logs, NotAfter);
  }

  // ---------------------------------------------------------------- reconnect delays

  function Shifted(n: nat): nat {
    if n == 0 then 1 else 2 * Shifted(n - 1)
  }

  /** Delays double with every attempt, up to 31 times and up to the maximum; products saturate at `limit`. */
  function Delay(minimum: nat, maximum: nat, limit: nat, attempt: nat): nat {
    var scaled := minimum * Shifted(if attempt < 31 then attempt else 31);
    var saturated := if scaled > limit then limit else scaled;
    if saturated < maximum then saturated else maximum
  }

  /** The first delay is the minimum, and doubling stops after 31 attempts. */
  lemma FirstAndLastDelay(minimum: nat, maximum: nat, limit: nat, attempt: nat)
    requires maximum <= limit
    ensures Delay(minimum, maximum, limit, 0) == if minimum < maximum then minimum else maximum
    ensures attempt >= 31 ==> Delay(minimum, maximum, limit, attempt) == Delay(minimum, maximum, limit, 31)
  {
    assert Shifted(0) == 1;
    hide Shifted;
  }

  lemma ShiftDoubles(minimum: nat, n: nat)
    ensures minimum * Shifted(n + 1) == 2 * (minimum * Shifted(n))
  {
  }

  lemma NextDelay(minimum: nat, maximum: nat, limit: nat, a: nat)
    requires maximum <= limit
    ensures Delay(minimum, maximum, limit, a) <= Delay(minimum, maximum, limit, a + 1)
    ensures a < 31 && Delay(minimum, maximum, limit, a + 1) < maximum ==>
      Delay(minimum, maximum, limit, a + 1) == 2 * Delay(minimum, maximum, limit, a)
  {
    hide Shifted;
    ShiftDoubles(minimum, a);
  }

  /** A later attempt never waits less, none waits longer than the maximum, and below it the wait doubles. */
  lemma {:induction false} DelaysGrow(minimum: nat, maximum: nat, limit: nat, a: nat, b: nat)
    requires a <= b && maximum <= limit
    ensures Delay(minimum, maximum, limit, a) <= Delay(minimum, maximum, limit, b) <= maximum
    ensures a < 31 && Delay(minimum, maximum, limit, a + 1) < maximum ==>
      Delay(minimum, maximum, limit, a + 1) == 2 * Delay(minimum, maximum, limit, a)
    decreases b - a
  {
    hide Shifted;
    NextDelay(minimum, maximum, limit, a);
    if a < b {
      hide Delay;
      DelaysGrow(minimum, maximum, limit, a + 1, b);
    }
  }

  // ---------------------------------------------------------------- the running coordinator

  datatype Sync = Sync(head: Option<Block>, call: Call)

  datatype Connection = Subscribed | Refused | ForeignChain

  /** A notification with the burst drained behind it; `drops` when the burst ends the subscription. */
  datatype Wakeup = Wakeup(target: Block, burst: seq<Block>, drops: bool, head: Option<Block>, call: Call)

  /** One round of the reconnect loop; the subscription ends, or the run is cancelled, after its wakeups. */
  datatype Session = Session(before: Sync, connection: Connection, after: Sync, wakeups: seq<Wakeup>)

  function Highest(target: Block, burst: seq<Block>): Block {
    if |burst| == 0 then target else Max(Highest(target, burst[..|burst| - 1]), burst[|burst| - 1])
  }

  function Synced(s: Stream, sync: Sync, st: Settings): Stream {
    if sync.head.None? then Ended(s, Failed) else CatchUp(s, sync.head.value, ChainBackfill, st, sync.call)
  }

  /** A notification: Live on a steady stream, else ChainBackfill up to the target or the current head. */
  function Notified(s: Stream, w: Wakeup, st: Settings): Stream {
    var target := Highest(w.target, w.burst);
    if Steady(s.log) then CatchUp(s, target, Live, st, w.call)
    else CatchUp(s, if w.head.Some? then Max(w.head.value, target) else target, ChainBackfill, st, w.call)
  }

  function Attended(s: Stream, wakeups: seq<Wakeup>, st: Settings): Stream
    decreases |wakeups|
  {
    if |wakeups| == 0 then s
    else
      var next := Notified(s, wakeups[0], st);
      if wakeups[0].drops then next else Attended(next, wakeups[1..], st)
  }

  function Served(s: Stream, session: Session, st: Settings): Stream {
    var synced := Synced(s, session.before, st);
    if session.connection.Subscribed?
    then Attended(Synced(Ended(synced, Connected), session.after, st), session.wakeups, st)
    else synced
  }

  function Run(s: Stream, sessions: seq<Session>, st: Settings): Stream
    decreases |sessions|
  {
    if |sessions| == 0 then s
    else
      var next := Served(s, sessions[0], st);
      if sessions[0].connection.ForeignChain? then next else Run(next, sessions[1..], st)
  }

  /** What every step of a run keeps. */
  ghost predicate Good(s: Stream, st: Settings) {
    Covered(s, st) && Labelled(s, st)
  }

  ghost predicate Grown(s: Stream, r: Stream) {
    s.log <= r.log && CursorBlock(s) <= CursorBlock(r)
  }

  lemma CatchUpIsGood(s: Stream, head: Block, source: Source, st: Settings, call: Call)
    requires Good(s, st) && (source == Live ==> Steady(s.log))
    ensures var r := CatchUp(s, head, source, st, call);
      Good(r, st) && Grown(s, r) && (Last(r.log).CaughtUp? <==> Steady(r.log))
  {
    hide CatchUp, Covered, Labelled, Steady;
    CatchUpCovers(s, head, source, st, call);
    CatchUpLabels(s, head, source, st, call);
    CatchUpExtends(s, head, source, st, call);
  }

  lemma SyncedIsGood(s: Stream, sync: Sync, st: Settings)
    requires Good(s, st)
    ensures Good(Synced(s, sync, st), st) && Grown(s, Synced(s, sync, st))
    ensures Last(Synced(s, sync, st).log).CaughtUp? <==> Steady(Synced(s, sync, st).log)
  {
    hide CatchUp, Covered, Labelled, Steady;
    if sync.head.None? {
      EndLabels(s, st, Failed);
      EndedCovers(s, st, Failed);
      StepUnsteady(s.log, Failed);
    } else {
      CatchUpIsGood(s, sync.head.value, ChainBackfill, st, sync.call);
    }
  }

  lemma NotifiedIsGood(s: Stream, w: Wakeup, st: Settings)
    requires Good(s, st)
    ensures Good(Notified(s, w, st), st) && Grown(s, Notified(s, w, st))
    ensures Last(Notified(s, w, st).log).CaughtUp? <==> Steady(Notified(s, w, st).log)
  {
    hide CatchUp, Good, Grown, Steady, Highest;
    var target := Highest(w.target, w.burst);
    if Steady(s.log) {
      CatchUpIsGood(s, target, Live, st, w.call);
    } else {
      CatchUpIsGood(s, if w.head.Some? then Max(w.head.value, target) else target, ChainBackfill, st, w.call);
    }
  }

  lemma {:induction false} AttendedIsGood(s: Stream, wakeups: seq<Wakeup>, st: Settings)
    requires Good(s, st)
    ensures Good(Attended(s, wakeups, st), st) && Grown(s, Attended(s, wakeups, st))
    decreases |wakeups|
  {
    hide Notified, Good;
    if |wakeups| > 0 {
      var next := Notified(s, wakeups[0], st);
      NotifiedIsGood(s, wakeups[0], st);
      if !wakeups[0].drops {
        AttendedIsGood(next, wakeups[1..], st);
      }
    }
  }

  lemma ServedIsGood(s: Stream, session: Session, st: Settings)
    requires Good(s, st)
    ensures Good(Served(s, session, st), st) && Grown(s, Served(s, session, st))
  {
    hide Synced, Attended, Covered, Labelled, Steady;
    var synced := Synced(s, session.before, st);
    SyncedIsGood(s, session.before, st);
    if session.connection.Subscribed? {
      ConnectLabels(synced, st);
      SyncedIsGood(Ended(synced, Connected), session.after, st);
      AttendedIsGood(Synced(Ended(synced, Connected), session.after, st), session.wakeups, st);
    }
  }

  /** Whole runs of the reconnect loop, whatever fails and wherever they are stopped and restarted, lose no
      block, never move the cursor back, and label batches Live only as `LiveIsEarned` says. */
  lemma {:induction false} RunIsGood(s: Stream, sessions: seq<Session>, st: Settings)
    requires Good(s, st)
    ensures Good(Run(s, sessions, st), st) && Grown(s, Run(s, sessions, st))
    decreases |sessions|
  {
    hide Served, Good;
    if |sessions| > 0 {
      ServedIsGood(s, sessions[0], st);
      if !sessions[0].connection.ForeignChain? {
        RunIsGood(Served(s, sessions[0], st), sessions[1..], st);
      }
    }
  }

  /** A notification on a steady stream is Live, any other one ChainBackfill. */
  lemma NotifiedSource(s: Stream, w: Wakeup, st: Settings, i: nat)
    requires |s.log| <= i < |Notified(s, w, st).log| && Notified(s, w, st).log[i].Issued?
    ensures Notified(s, w, st).log[i].batch.source == if Steady(s.log) then Live else ChainBackfill
  {
    hide CatchUp, Steady, Highest;
    var source := if Steady(s.log) then Live else ChainBackfill;
    var target := Highest(w.target, w.burst);
    var head := if Steady(s.log) || w.head.None? then target else Max(w.head.value, target);
    CatchUpSource(s, head, source, st, w.call, i);
  }

  lemma CatchUpSource(s: Stream, head: Block, source: Source, st: Settings, call: Call, i: nat)
    requires |s.log| <= i < |CatchUp(s, head, source, st, call).log| && CatchUp(s, head, source, st, call).log[i].Issued?
    ensures CatchUp(s, head, source, st, call).log[i].batch.source == source
  {
    hide Chunks;
    var r := CatchUp(s, head, source, st, call);
    if !Refuses(s, head, st, call) && FirstBlock(s, st) <= head {
      var n := ChunksTile(s, FirstBlock(s, st), head, st, source, call.outcomes, 0);
      assert i < |s.log| + n;
    }
  }

  /** A notification asks for the greatest block of its burst, on an unsteady stream also for the current head. */
  lemma NotifiedHead(s: Stream, w: Wakeup, st: Settings)
    ensures var r := Notified(s, w, st);
      Last(r.log) == Failed
      || (Last(r.log).CaughtUp? && var head := Last(r.log).head;
          && head >= w.target && (forall i :: 0 <= i < |w.burst| ==> head >= w.burst[i])
          && (!Steady(s.log) && w.head.Some? ==> head >= w.head.value)
          && (head == w.target || head in w.burst || (!Steady(s.log) && w.head == Some(head))))
  {
    hide CatchUp, Steady, Highest;
    HighestIs(w.target, w.burst);
    var target := Highest(w.target, w.burst);
    CatchUpExtends(s, target, Live, st, w.call);
    CatchUpExtends(s, if w.head.Some? then Max(w.head.value, target) else target, ChainBackfill, st, w.call);
  }

  lemma {:induction false} HighestIs(target: Block, burst: seq<Block>)
    ensures var h := Highest(target, burst);
      h >= target && (forall i :: 0 <= i < |burst| ==> h >= burst[i]) && (h == target || h in burst)
  {
    if |burst| > 0 {
      HighestIs(target, burst[..|burst| - 1]);
    }
  }

  /** A reconciliation fails without a head, and otherwise only issues ChainBackfill batches, up to that head. */
  lemma SyncedReaches(s: Stream, sync: Sync, st: Settings, i: nat)
    ensures var r := Synced(s, sync, st);
      && (sync.head.None? ==> r == Stream(s.cursor, s.log + [Failed]))
      && (sync.head.Some? ==> Last(r.log) == Failed || Last(r.log) == CaughtUp(sync.head.value))
      && (|s.log| <= i < |r.log| && r.log[i].Issued? ==> r.log[i].batch.source == ChainBackfill)
  {
    hide CatchUp;
    if sync.head.Some? {
      CatchUpExtends(s, sync.head.value, ChainBackfill, st, sync.call);
      var r := Synced(s, sync, st);
      if |s.log| <= i < |r.log| && r.log[i].Issued? {
        CatchUpSource(s, sync.head.value, ChainBackfill, st, sync.call, i);
      }
    }
  }

  /** Every wakeup is attended to, in order, up to and including the first that drops the subscription. */
  lemma {:induction false} AttendedInOrder(s: Stream, wakeups: seq<Wakeup>, w: Wakeup, rest: seq<Wakeup>, st: Settings)
    requires forall i :: 0 <= i < |wakeups| ==> !wakeups[i].drops
    ensures Attended(s, wakeups + [w], st) == Notified(Attended(s, wakeups, st), w, st)
    ensures w.drops ==> Attended(s, wakeups + [w] + rest, st) == Attended(s, wakeups + [w], st)
    decreases |wakeups|
  {
    hide Notified;
    if |wakeups| > 0 {
      AttendedInOrder(Notified(s, wakeups[0], st), wakeups[1..], w, rest, st);
      assert (wakeups + [w])[1..] == wakeups[1..] + [w];
      assert (wakeups + [w] + rest)[1..] == wakeups[1..] + [w] + rest;
    } else {
      assert (wakeups + [w])[1..] == [];
    }
  }

  /** A session reconciles before it connects and, once subscribed, again before it attends to anything. */
  lemma SessionSyncs(s: Stream, session: Session, st: Settings)
    requires Good(s, st)
    ensures var r, synced := Served(s, session, st), Synced(s, session.before, st);
      && (!session.connection.Subscribed? ==> r == synced)
      && (session.connection.Subscribed? ==>
            && synced.log + [Connected] <= r.log
            && Synced(Ended(synced, Connected), session.after, st).log <= r.log
            && (session.wakeups == [] ==> r == Synced(Ended(synced, Connected), session.after, st)))
  {
    hide Synced, Attended, Covered, Labelled, Steady;
    var synced := Synced(s, session.before, st);
    SyncedIsGood(s, session.before, st);
    if session.connection.Subscribed? {
      ConnectLabels(synced, st);
      SyncedIsGood(Ended(synced, Connected), session.after, st);
      AttendedIsGood(Synced(Ended(synced, Connected), session.after, st), session.wakeups, st);
      AttendedNothing(Synced(Ended(synced, Connected), session.after, st), st);
    }
  }

  lemma AttendedNothing(s: Stream, st: Settings)
    ensures Attended(s, [], st) == s
  {
  }

  /** Sessions follow one another until a foreign chain ends the run. */
  lemma {:induction false} SessionsInOrder(s: Stream, sessions: seq<Session>, x: Session, rest: seq<Session>, st: Settings)
    requires forall i :: 0 <= i < |sessions| ==> !sessions[i].connection.ForeignChain?
    ensures Run(s, sessions + [x], st) == Served(Run(s, sessions, st), x, st)
    ensures x.connection.ForeignChain? ==> Run(s, sessions + [x] + rest, st) == Run(s, sessions + [x], st)
    decreases |sessions|
  {
    hide Served;
    if |sessions| > 0 {
      SessionsInOrder(Served(s, sessions[0], st), sessions[1..], x, rest, st);
      assert (sessions + [x])[1..] == sessions[1..] + [x];
      assert (sessions + [x] + rest)[1..] == sessions[1..] + [x] + rest;
    } else {
      assert (sessions + [x])[1..] == [];
    }
  }

  /** When nothing fails a call reaches the head. */
  lemma CleanCallReachesHead(s: Stream, head: Block, source: Source, st: Settings, call: Call)
    requires call.loads && (s.cursor.Some? ==> Continuable(s.cursor.value, head, st, call))
    requires forall k :: call.outcomes(k).Done?
    ensures var r := CatchUp(s, head, source, st, call);
      && Last(r.log) == CaughtUp(head)
      && (s.cursor.Some? || st.start <= head ==> CursorBlock(r) == head)
  {
    if FirstBlock(s, st) <= head {
      CleanChunks(s, FirstBlock(s, st), head, st, source, call.outcomes, 0);
    }
  }

  lemma {:induction false} CleanChunks(s: Stream, from: Block, head: Block, st: Settings, source: Source, outcomes: nat -> Outcome, k: nat)
    requires from <= head && forall i :: outcomes(i).Done?
    ensures var r := Chunks(s, from, head, st, source, outcomes, k);
      Last(r.log) == CaughtUp(head) && CursorBlock(r) == head
    decreases head + 1 - from
  {
    var to := ChunkEnd(from, head, st.chunk);
    if to < head {
      CleanChunks(Attempt(s, st.chain, Batch(source, from, to), outcomes(k)), to + 1, head, st, source, outcomes, k + 1);
    }
  }

  lemma {:induction false} ChunksExtend(s: Stream, from: nat, head: Block, st: Settings, source: Source, outcomes: nat -> Outcome, k: nat)
    requires from <= head + 1
    ensures var r := Chunks(s, from, head, st, source, outcomes, k);
      s.log < r.log && (Last(r.log) == CaughtUp(head) || Last(r.log) == Failed)
    decreases head + 1 - from
  {
    var n := ChunksTile(s, from, head, st, source, outcomes, k);
  }

  lemma CatchUpExtends(s: Stream, head: Block, source: Source, st: Settings, call: Call)
    ensures var r := CatchUp(s, head, source, st, call);
      && s.log < r.log
      && (Last(r.log) == CaughtUp(head) || Last(r.log) == Failed)
      && (Last(r.log) == Failed ==> !Steady(r.log))
  {
    hide Chunks;
    if !Refuses(s, head, st, call) && FirstBlock(s, st) <= head {
      ChunksExtend(s, FirstBlock(s, st), head, st, source, call.outcomes, 0);
    }
  }

  class Coordinator {
    const st: Settings
    var cursor: Option<Cursor>
    ghost var log: seq<Entry>

    ghost function View(): Stream
      reads this
    {
      Stream(cursor, log)
    }

    constructor (st: Settings)
      ensures this.st == st && View() == Stream(None, []) && Good(View(), st)
    {
      this.st := st;
      cursor := None;
      log := [];
    }

    method CatchUpTo(head: Block, source: Source, call: Call) returns (r: Result<(), Error>)
      modifies this
      ensures View() == CatchUp(old(View()), head, source, st, call)
      ensures r.Ok? <==> |log| > 0 && log[|log| - 1].CaughtUp?
      ensures r.Ok? ==> call.loads && (old(cursor).Some? ==> Continuable(old(cursor).value, head, st, call))
      ensures !call.loads ==> r == Err(Storage)
      ensures call.loads && old(cursor).Some? ==>
        var c := old(cursor).value;
        && (c.chain != st.chain ==> r == Err(WrongChain(st.chain, c.chain)))
        && (c.chain == st.chain && head < c.block ==> r == Err(RpcBehindCursor(head, c.block)))
        && (c.chain == st.chain && c.block <= head ==>
              && (call.restored.Err? ==> r == Err(call.restored.error))
              && (call.restored == Ok(None) ==> r == Err(MissingBlock(c.block)))
              && (call.restored.Ok? && call.restored.value.Some? && call.restored.value.value != c.hash ==>
                    r == Err(CursorHashMismatch(c.block))))
      ensures call.loads && (old(cursor).Some? ==> Continuable(old(cursor).value, head, st, call)) ==>
        r == match Failure(FirstBlock(old(View()), st), head, st, call.outcomes, 0) case None => Ok(()) case Some(e) => Err(e)
    {
      if !call.loads {
        log := log + [Failed];
        return Err(Storage);
      }
      var from: Block := st.start;
      if cursor.Some? {
        var refusal: Option<Error> := None;
        if cursor.value.chain != st.chain {
          refusal := Some(WrongChain(st.chain, cursor.value.chain));
        } else if head < cursor.value.block {
          refusal := Some(RpcBehindCursor(head, cursor.value.block));
        } else {
          match call.restored {
            case Err(e) => refusal := Some(e);
            case Ok(None) => refusal := Some(MissingBlock(cursor.value.block));
            case Ok(Some(hash)) =>
              if hash != cursor.value.hash {
                refusal := Some(CursorHashMismatch(cursor.value.block));
              }
          }
        }
        if refusal.Some? {
          log := log + [Failed];
          return Err(refusal.value);
        }
        from := SaturatingAdd(cursor.value.block, 1);
      }
      r := Deliver(from, head, source, call.outcomes);
    }

    /** One chunk: its logs and last block are fetched, the handler runs, then the cursor is stored. */
    method HandOver(b: Batch, o: Outcome) returns (ok: bool)
      modifies this
      ensures View() == Attempt(old(View()), st.chain, b, o) && ok == o.Done?
    {
      if o.NoLogs? || o.NoTerminal? {
        return false;
      }
      log := log + [Issued(b, !o.Rejected?)];
      if o.Done? || o.Unacknowledged? {
        cursor := Some(Cursor(st.chain, b.to, o.hash));
      }
      ok := o.Done?;
    }

    /** The chunk loop. */
    method Deliver(first: Block, head: Block, source: Source, outcomes: nat -> Outcome) returns (r: Result<(), Error>)
      modifies this
      ensures first <= head ==> View() == Chunks(old(View()), first, head, st, source, outcomes, 0)
      ensures first > head ==> View() == Ended(old(View()), CaughtUp(head))
      ensures r == match Failure(first, head, st, outcomes, 0) case None => Ok(()) case Some(e) => Err(e)
      ensures r.Ok? <==> |log| > 0 && log[|log| - 1].CaughtUp?
    {
      hide Attempt, OutcomeError;
      ghost var goal := if first <= head then Chunks(View(), first, head, st, source, outcomes, 0)
                        else Ended(View(), CaughtUp(head));
      ghost var failure := Failure(first, head, st, outcomes, 0);
      var from := first;
      var k := 0;
      while from <= head
        invariant from <= head ==> goal == Chunks(View(), from, head, st, source, outcomes, k)
        invariant from > head ==> goal == Ended(View(), CaughtUp(head))
        invariant failure == Failure(from, head, st, outcomes, k)
        decreases head + 1 - from
      {
        var to := Min(SaturatingAdd(from, SaturatingSub(st.chunk, 1)), head);
        var ok := HandOver(Batch(source, from, to), outcomes(k));
        if !ok {
          log := log + [Failed];
          return Err(OutcomeError(outcomes(k), to));
        }
        if to == U64_MAX {
          break;
        }
        from := to + 1;
        k := k + 1;
      }
      log := log + [CaughtUp(head)];
      r := Ok(());
    }

    method SyncOnce(sync: Sync) returns (ok: bool)
      modifies this
      ensures View() == Synced(old(View()), sync, st)
      ensures ok == Last(View().log).CaughtUp?
    {
      hide CatchUp;
      if sync.head.None? {
        log := log + [Failed];
        return false;
      }
      var r := CatchUpTo(sync.head.value, ChainBackfill, sync.call);
      ok := r.Ok?;
    }

    static method Coalesce(target: Block, burst: seq<Block>) returns (highest: Block)
      ensures highest == Highest(target, burst)
      ensures highest >= target && forall j :: 0 <= j < |burst| ==> burst[j] <= highest
      ensures highest == target || highest in burst
    {
      highest := target;
      for i := 0 to |burst|
        invariant highest == Highest(target, burst[..i])
        invariant highest >= target && forall j :: 0 <= j < i ==> burst[j] <= highest
        invariant highest == target || highest in burst[..i]
      {
        assert burst[..i + 1][..i] == burst[..i];
        highest := Max(highest, burst[i]);
      }
      assert burst[..|burst|] == burst;
    }

    method Notice(w: Wakeup, steadyLive: bool) returns (steady: bool)
      requires Good(View(), st) && steadyLive == Steady(log)
      modifies this
      ensures View() == Notified(old(View()), w, st) && Good(View(), st)
      ensures steady == Steady(log)
    {
      hide CatchUp, Good, Steady, Highest;
      NotifiedIsGood(View(), w, st);
      var target := Coalesce(w.target, w.burst);
      if steadyLive {
        var r := CatchUpTo(target, Live, w.call);
        steady := r.Ok?;
      } else {
        var head := if w.head.Some? then Max(w.head.value, target) else target;
        var r := CatchUpTo(head, ChainBackfill, w.call);
        steady := r.Ok?;
      }
    }

    method Attend(wakeups: seq<Wakeup>, live: bool)
      requires Good(View(), st) && live == Steady(log)
      modifies this
      ensures View() == Attended(old(View()), wakeups, st) && Good(View(), st)
    {
      hide Notified, Good, Steady;
      var steady := live;
      ghost var goal := Attended(View(), wakeups, st);
      assert wakeups[0..] == wakeups;
      for i := 0 to |wakeups|
        invariant goal == Attended(View(), wakeups[i..], st)
        invariant Good(View(), st) && steady == Steady(log)
      {
        assert wakeups[i..][1..] == wakeups[i + 1..];
        steady := Notice(wakeups[i], steady);
        if wakeups[i].drops {
          return;
        }
      }
    }

    /** The reconnect loop; it returns early only on a foreign chain. */
    method RunUntil(chainOk: bool, sessions: seq<Session>) returns (foreign: bool)
      requires Good(View(), st)
      modifies this
      ensures View() == if chainOk then Run(old(View()), sessions, st) else old(View())
      ensures foreign <==> !chainOk || exists i :: 0 <= i < |sessions| && sessions[i].connection.ForeignChain?
      ensures Good(View(), st) && Grown(old(View()), View())
    {
      if !chainOk {
        return true;
      }
      hide Synced, Attended, Good, Steady, Grown;
      ghost var goal := Run(View(), sessions, st);
      RunIsGood(View(), sessions, st);
      assert sessions[0..] == sessions;
      for i := 0 to |sessions|
        invariant goal == Run(View(), sessions[i..], st) && Good(View(), st)
        invariant forall j :: 0 <= j < i ==> !sessions[j].connection.ForeignChain?
      {
        assert sessions[i..][1..] == sessions[i + 1..];
        var session := sessions[i];
        ServedIsGood(View(), session, st);
        SyncedIsGood(View(), session.before, st);
        var ok := SyncOnce(session.before);
        if session.connection.ForeignChain? {
          return true;
        }
        if session.connection.Subscribed? {
          Subscribe();
          SyncedIsGood(View(), session.after, st);
          var steady := SyncOnce(session.after);
          Attend(session.wakeups, steady);
        }
      }
      foreign := false;
    }

    method Subscribe()
      requires Good(View(), st)
      modifies this
      ensures View() == Ended(old(View()), Connected) && Good(View(), st)
    {
      hide Covered, Labelled, Steady;
      ConnectLabels(View(), st);
      log := log + [Connected];
    }
  }
}
