# Pons indexer: verified model

A Dafny 4.11 model of the parts of the blockchain indexer whose correctness is not visible from any one
function: the signal engine, the event log with its two consumers (alert engine, browser client), the
generation-stamped rebuild queues, the backfill coordinator, the derived ledgers, and three self-contained
algorithms. `dafny verify dfyconfig.toml` checks all of it.

| file | models |
|---|---|
| `Timeline.dfy`, `Signals.dfy`, `SignalSummary.dfy`, `SignalHistory.dfy`, `SignalWindows.dfy` | the signal engine and what holds of every history it writes |
| `Outbox.dfy`, `OutboxTable.dfy` | the event log, its locking, its readers, the replay endpoint and the publisher |
| `AlertEngine.dfy`, `AlertRuns.dfy` | classification and upsert; the cursor consumer under every interleaving |
| `RealtimeClient.dfy`, `Delivery.dfy` | the browser client; publisher, socket, paged replay and client together |
| `RebuildQueue.dfy` | claims, stalls, late persists and retries of one rebuild job |
| `Coordinator.dfy` | chunked catch-up, durable cursor, Live and ChainBackfill batches |
| `Positions.dfy`, `Episodes.dfy`, `ExitRatio.dfy`, `Ranks.dfy`, `Holders.dfy` | the derived ledgers |
| `Shards.dfy`, `CanonicalJson.dfy`, `JsonText.dfy`, `CurveMath.dfy` | stable sharding, canonical JSON, fixed-scale curve arithmetic |
| `Wrappers.dfy`, `Sorting.dfy`, `Sets.dfy`, `Quotients.dfy`, `DecimalText.dfy` | shared vocabulary |

Conventions. Loops and objects of the source are methods and classes, each proved equal to a function; the
lemmas are about those functions. Protocols (the database under concurrent transactions, delivery, the
rebuild queue) are step relations over values, with every crash, wait and late commit an explicit action;
SQL statements are atomic steps. Instants are microseconds, decimals are reals, 256-bit amounts are natural
numbers with an explicit overflow, 64-bit block numbers saturate as written.

Some results are about where the code does not do what its documentation or names suggest; each comes with a
concrete run or input. The first two show that a hypothesis of the log and delivery results is needed; the others
come with the exact condition under which the code does what is expected.

* `Outbox.LockIsNeeded`: without the table lock a lower sequence value can commit after a higher one.
* `Delivery.OverlapLosesARow`: a replay that outlives its socket and overlaps the next one makes the client
  drop a committed row.
* `RebuildQueue.LatePersistStrandsTheJob`: because signal rows are unique per token and generation
  (`migrations/0017_phase_11_consensus_signals.sql:35`), a worker that persists late puts a completed signal job
  into a retry that cannot succeed until the next input write. `CompletionIsPossible` gives the exact condition.
* `RebuildQueue.CompletedIsFreshExactly`: the signal rebuild also reads a trader's tier and a wallet's identity
  confidence (`crates/storage/src/repositories/signals.rs:186-189`), whose updates
  (`crates/storage/src/repositories/traders.rs:116` and `:164`) do not touch the job. With such writes COMPLETED
  means fresh in all runs if and only if the rebuild ignores what they change; `StaleRun` is a run that ends
  COMPLETED with stale rows when it does not.
* `Episodes.ZeroPurchaseOpensTwice`: purchases of amount zero break the event grammar and the episodes.
  `Positions.GrammarExactly` and `Episodes.EpisodesAreProper` give the exact conditions, and
  `Positions.EventsMatchHoldings` the one for events that also match what is held at every prefix.
* `ExitRatio.EmptySaleOvershoots`: a sale of amount zero before any purchase can push the exit ratio above 1.
  `ExitRatio.ClosersAreBuyersExactly` gives the exact condition for exited wallets to be among the entered ones, and
  `Positions.CloseFollowsBuy` the one for a CLOSE to have an earlier BUY.
* `Holders.SkippedDebitInflatesHolders`: after a skipped debit the index and the snapshots can count different holders.
  `Holders.HolderCountsAgree` gives the exact condition.
* `SignalHistory.ValidMayOverflow`: a validated configuration can overflow the 32-bit sum of its weights.
  `SignalHistory.ValidIsUsable` gives the exact condition.

## Model

| member | source | states |
|---|---|---|
| Signals.Evaluate | crates/pons_v2/src/signals.rs:181-393 | The run loop, with its growing lists, streaks and state, computes exactly the replay of the input's instants and fails only without windows |
| Signals.CollectPoints | crates/pons_v2/src/signals.rs:186-196 | The three filling loops give the ascending set of all instants |
| Signals.SummariseWindows | crates/pons_v2/src/signals.rs:203-241 | One consensus row per configured window; the last window's summary is the one scored |
| Signals.ConsensusAt | crates/pons_v2/src/signals.rs:396-507 | The summary of a window is always produced: no stored row can make it fail |
| Signals.CountPositions | crates/pons_v2/src/signals.rs:424-437 | The counter map holds, for every event kind, the number of events of that kind |
| Signals.WeighBuyers | crates/pons_v2/src/signals.rs:458-479 | The weighting loop sums every qualified buy's contribution and lists its timing and rank rows in order |
| Signals.AssessAt | crates/pons_v2/src/signals.rs:244-315 | Score, confidence and both rules, with components lacking data left out of the renormalised average |
| SignalSummary.SummaryCounts | crates/pons_v2/src/signals.rs:396-456 | Every count and volume of a summary as a set or sum over the raw trades and position events of the window |
| SignalSummary.NetIsBoughtMinusSold | crates/pons_v2/src/signals.rs:593-602 | The net text reads back as bought minus sold quote, and is positive exactly when more was bought |
| SignalSummary.ExitsAreRatios | crates/pons_v2/src/signals.rs:438-457 | Exit ratios are exited over entered wallets and sold over bought quote, in that order |
| SignalSummary.WeightsAddUp | crates/pons_v2/src/signals.rs:458-479 | The weighted consensus is the sum, over the window's purchases by known buyers, of tier, identity, timing, rank and conviction multiplied |
| SignalSummary.AgesOfPurchases | crates/pons_v2/src/signals.rs:420-423 | The ages are those of the window's purchases, each as often as it occurs |
| SignalSummary.WeightTables | crates/pons_v2/src/signals.rs:562-587 | Which weight each age, rank and tier gets, boundaries included |
| SignalSummary.ComponentsAre | crates/pons_v2/src/signals.rs:256-262 | What each of the five components is worth, and when it is missing |
| SignalSummary.ScoreIsWeightedMean | crates/pons_v2/src/signals.rs:244-299 | The score is the mean of the available components weighted with their own weights, from the snapshots of this instant and of 15 minutes before |
| SignalSummary.ConfidenceIs | crates/pons_v2/src/signals.rs:300-308 | Confidence is 40% sample size, 35% market evidence and 25% available weight |
| SignalSummary.RulesAre | crates/pons_v2/src/signals.rs:309-315 | When the high-priority and the distribution rule match |
| SignalSummary.OriginIs | crates/pons_v2/src/signals.rs:508-519 | An instant is named after its first trade, and is realtime exactly when it is the eligible job's live trigger |
| SignalHistory.NoLookahead | crates/pons_v2/src/signals.rs:181-393 | For every input and cutoff: evaluating only what happened up to the cutoff gives exactly the consensus, signals and transitions up to it of the full evaluation |
| SignalHistory.ValidIsUsable | crates/pons_v2/src/signals.rs:137-148 | A validated configuration meets every condition under which the engine cannot fail if and only if its weights sum to less than 2^32 |
| SignalHistory.ValidMayOverflow | crates/pons_v2/src/signals.rs:303-303 | Any two weights that together reach 2^32 give a validated configuration whose sum overflows |
| SignalHistory.ReplayLinked | crates/pons_v2/src/signals.rs:317-349 | One signal per instant, each following from the one before by one step of counters and automaton |
| SignalHistory.SignalsTell | crates/pons_v2/src/signals.rs:242-361 | Signal `n` carries instant `n`, the longest window's summary, its assessment and its origin |
| SignalHistory.RowPerWindow | crates/pons_v2/src/signals.rs:203-241 | Each instant adds one consensus row per window, in order |
| SignalHistory.StreaksCount | crates/pons_v2/src/signals.rs:317-326 | Each streak is the exact length of the unbroken block of qualifying instants ending here |
| SignalHistory.HighWithinStrong | crates/pons_v2/src/signals.rs:317-326 | The high streak never exceeds the strong streak |
| SignalHistory.EntryRules | crates/pons_v2/src/signals.rs:327-349 | From which state, and on what evidence over two instants, each state can be entered |
| SignalHistory.StatesFollow | crates/pons_v2/src/signals.rs:317-349 | From the state before and the scores of at most two instants: exactly when each state is entered, kept and left |
| SignalHistory.HistoryFollows | crates/pons_v2/src/signals.rs:181-393 | Every history the engine writes is the run of that table |
| SignalHistory.ExitIsFinal | crates/pons_v2/src/signals.rs:327-349 | Once in DISTRIBUTION or CLOSED always there; NO_SIGNAL is never re-entered |
| SignalHistory.HistoryHysteresis | crates/pons_v2/src/signals.rs:317-349 | All of the above for every history a validated configuration produces; HIGH_PRIORITY never before the third point |
| SignalHistory.TransitionLog | crates/pons_v2/src/signals.rs:351-383 | The transitions are one path from NO_SIGNAL with increasing indices, each with the scores and origin of its signal, and replaying them gives the state of every signal |
| SignalHistory.RealtimeIsTheTrigger | crates/pons_v2/src/signals.rs:508-519 | A signal is realtime if and only if it is live and at the trigger instant of an eligible job |
| SignalHistory.OneEventPerRebuild | crates/storage/src/repositories/signals.rs:225-257 | One rebuild appends at most one signal event to the outbox |
| SignalHistory.ScoresArePercentages | crates/pons_v2/src/signals.rs:256-307 | Scores and confidences stay within 0..100, as the tables they are stored in demand |
| SignalHistory.SignedAgrees | crates/pons_v2/src/signals.rs:593-602 | The sign test on the stored text agrees with the volumes it was written from |
| SignalHistory.RatioBigAccuracy | crates/pons_v2/src/signals.rs:603-609 | The truncated ratio is within a millionth exactly when it is representable; else it reads zero |
| SignalHistory.UnrepresentableReadsZero | crates/pons_v2/src/signals.rs:603-609 | For every denominator there is a numerator whose positive ratio reads zero |
| SignalWindows.WindowsNest | crates/pons_v2/src/signals.rs:396-456 | A longer window counts at least what a shorter one does, qualified buyers are buyers, the exit ratio is the same in all windows |
| SignalWindows.AgesAreOrderStatistics | crates/pons_v2/src/signals.rs:420-423 | First age is the least and the median splits the sorted ages of the window's buys |
| SignalWindows.LatestIsLast | crates/pons_v2/src/signals.rs:244-255 | The snapshot scored is the last of those with the greatest time |
| SignalWindows.ScoresRise | crates/pons_v2/src/signals.rs:520-561 | Momentum, capital and holder scores never fall when the snapshot gets no worse |
| SignalWindows.EarlierRanksWeighMore | crates/pons_v2/src/signals.rs:571-578 | Rank weights fall with the rank; no rank weighs least |
| SignalWindows.EarlierBuysWeighMore | crates/pons_v2/src/signals.rs:562-570 | Timing weights fall with the age when the configured ones do; an unknown age weighs as the latest |
| Outbox.ScheduleIsSafe | crates/storage/src/repositories/outbox.rs:61-88 | Under every schedule of locks, inserts, commits and rollbacks the log stays ordered with unique keys |
| Outbox.StepIsSafe | crates/storage/src/repositories/outbox.rs:61-88 | Every statement only ever extends the visible rows at the end |
| Outbox.StatementEffects | crates/storage/src/repositories/outbox.rs:61-88 | What every statement does to the visible rows, the lock and the sequence |
| Outbox.PendingEffects | crates/storage/src/repositories/outbox.rs:61-88 | and to the rows not yet visible: an insert adds exactly one unless its key exists |
| Outbox.NoLateCommit | crates/storage/src/repositories/outbox.rs:69-73 | No row ever becomes visible at or below a sequence value already visible |
| Outbox.LockIsNeeded | crates/storage/src/repositories/outbox.rs:69-73 | Without the lock two writers commit sequence 2 before 1 |
| Outbox.SelectSplits | crates/storage/src/repositories/outbox.rs:104-125 | Reading a range in two stages loses and repeats nothing |
| Outbox.SelectIsStable | crates/storage/src/repositories/outbox.rs:104-125 | What was read up to a visible value is not disturbed by later commits |
| Outbox.WatermarkGrows | crates/storage/src/repositories/outbox.rs:132-136 | The watermark never falls |
| OutboxTable.EventOutbox.AppendInTransaction | crates/storage/src/repositories/outbox.rs:61-88 | Lock then insert: a new key gets the next sequence value, a known key gives back its row and spends the value |
| OutboxTable.EventOutbox.Commit | crates/storage/src/repositories/outbox.rs:46-51 | A commit makes the pending rows visible behind all others |
| OutboxTable.EventOutbox.After | crates/storage/src/repositories/outbox.rs:96-98 | The first rows behind a cursor, in order |
| OutboxTable.EventOutbox.MarkPublished | crates/storage/src/repositories/outbox.rs:154-162 | Marks that row and nothing else |
| OutboxTable.EventOutbox.ReplayEvents | crates/app/src/server.rs:1268-1299 | A page is the first rows behind the cursor, as many as the clamped limit allows, complete when `has_more` is false, never empty while a row is left, and rejected exactly for invalid cursors |
| OutboxTable.PageReachesHigh | crates/app/src/server.rs:1289-1298 | A page that reaches the watermark is the last |
| OutboxTable.EventHub.constructor | crates/app/src/realtime.rs:140-141 | The publisher starts where every row is published and the next is not, or at 0 when reading its cursor fails |
| OutboxTable.CursorIs | crates/storage/src/repositories/outbox.rs:139-147 | Every row up to the publisher's cursor is published, the row behind it, if any, is not |
| OutboxTable.EventHub.Tick | crates/app/src/realtime.rs:146-153 | Whatever marks fail: what has been broadcast is exactly the rows from the start to the cursor, and a tick that does not reach the watermark sends a full batch |
| OutboxTable.BatchFacts | crates/app/src/realtime.rs:146-153 | A batch is exactly the rows up to its last, and a short one reaches the watermark |
| OutboxTable.CommitsKeepFaith | crates/app/src/realtime.rs:140-156 | Rows committed between ticks never invalidate what was broadcast |
| AlertEngine.FoldShows | crates/storage/src/repositories/alerts.rs:89-145 | An alert exists for a key exactly when a consumed row is about it, keeps what the first such row set and shows what the last one says |
| AlertEngine.SharedAlerts | crates/storage/src/repositories/alerts.rs:132-145 | Rows share an alert if and only if they raise the same type and are about one smart trade, whatever their event keys, or, not being about one, have one event key |
| AlertEngine.OneAlertPerTrade | crates/storage/src/repositories/alerts.rs:132-145 | All rows of one type about one smart trade make one alert, created by the first and showing chain and retraction of the last |
| AlertEngine.AlertTells | crates/storage/src/repositories/alerts.rs:89-131 | What a new alert says; never realtime for a backfilled row |
| AlertEngine.DeliveryTells | crates/storage/src/repositories/alerts.rs:145-162 | The announcement retracts exactly for orphaned rows and names the alert the row shares |
| AlertEngine.ClassifiedIsRaised | crates/storage/src/repositories/alerts.rs:192-286 | Which events raise which alert at which severity, and no others |
| AlertEngine.NeverClashes | crates/storage/src/repositories/alerts.rs:145-145 | The upsert never meets another unique column |
| AlertEngine.DeliveriesAreNotClassified | crates/storage/src/repositories/alerts.rs:192-286 | No row the engine appends is classified |
| AlertRuns.EveryRunIsFaithful | crates/storage/src/repositories/alerts.rs:81-170 | Over every interleaving with writers, waits, rollbacks and crashes: each committed row is consumed once and in order, the alert table is the fold of exactly those rows, and every classified one is announced |
| AlertRuns.StepKeepsFaith | crates/storage/src/repositories/alerts.rs:81-170 | Each single step of the engine or another transaction keeps that |
| AlertRuns.MovesOfOthers | crates/storage/src/repositories/outbox.rs:61-73 | Other transactions run their statements at any point; the engine takes the lock only to announce a classified row it has read |
| AlertRuns.InsertNeverFails | crates/storage/src/repositories/alerts.rs:145-145 | In no run can the alert insert fail on a unique column |
| AlertRuns.CallConsumesOne | crates/storage/src/repositories/alerts.rs:81-170 | An undisturbed call is the run of its four steps, consumes exactly the first unread row, and appends its announcement if it is classified and not yet announced |
| AlertRuns.UnreadMeans | crates/storage/src/repositories/alerts.rs:88-88 | Nothing is unread if and only if no committed row lies beyond the cursor; else the least such row is next |
| AlertRuns.CallShrinksWork | crates/app/src/alerts.rs:5-10 | Twice the pending classified rows plus the other pending rows strictly shrinks with every call |
| AlertRuns.AlertProcess.ProcessNext | crates/storage/src/repositories/alerts.rs:81-170 | The call on the process's fields; false exactly when nothing is unread |
| AlertRuns.AlertProcess.Drain | crates/app/src/alerts.rs:5-10 | The inner loop ends although it feeds its own source, with nothing left unread |
| RealtimeClient.SequenceStore.Accept | frontend/src/realtime.ts:34-44 | Accepts exactly greater sequence values, and what is persisted is what was seen |
| RealtimeClient.Connection.Receive | frontend/src/realtime.ts:99-108 | A live message is applied, buffered, or buffered behind a replay of the gap before it |
| RealtimeClient.Connection.Hello | frontend/src/realtime.ts:88-98 | A hello starts a replay up to its watermark, or goes live at once when there is nothing to replay |
| RealtimeClient.Connection.Page | frontend/src/realtime.ts:111-120 | A page is applied in order; the replay goes on from there or ends and flushes the buffer |
| RealtimeClient.Connection.Fail | frontend/src/realtime.ts:111-116 | A page request that fails ends its replay, with nothing applied and the buffer kept |
| RealtimeClient.PageDecides | frontend/src/realtime.ts:111-120 | A replay goes on exactly while its page made progress, stopped short of the target and left the client short of it; else the client goes live |
| RealtimeClient.BatchIsExact | frontend/src/realtime.ts:122-122 | Applying an ordered batch with repeats and stale rows adds exactly the missing rows |
| RealtimeClient.FlushIsExact | frontend/src/realtime.ts:94-96 | Flushing the sorted buffer leaves no gap up to the last live row |
| RealtimeClient.PageIsSelect | crates/storage/src/repositories/outbox.rs:104-125 | A page cut at its limit ends at a cursor from which the next continues without a gap |
| RealtimeClient.PageIsExact | frontend/src/realtime.ts:111-120 | Applying a page keeps delivery exact with the cursor at its last row |
| Delivery.DeliveryIsExact | frontend/src/realtime.ts:34-122 | End to end, over any run of disconnects, restarts, lag, page sizes and messages arriving during replay: the client has applied exactly the committed rows between its starting and current cursor, ascending, once each |
| Delivery.StepKeepsSafe | crates/app/src/server.rs:1316-1362 | Every step of writers, publisher, socket handler, replay endpoint and client keeps the invariant that implies it |
| Delivery.SendIs | crates/app/src/realtime.rs:148-153 | Sending a row moves the cursor, marks the row unless that fails, and reaches the socket's channel unless it lags |
| Delivery.RestartIs | crates/app/src/realtime.rs:140-144 | A restarted publisher drops connections and batch and starts at its stored cursor, or at 0 |
| Delivery.ReplayErrorIs | frontend/src/realtime.ts:81-86 | A failed replay closes its own socket only |
| Delivery.QuietIsCaughtUp | crates/app/src/server.rs:1301-1314 | When nothing is in transit the client has every committed row |
| Delivery.CatchUpIsPossible | frontend/src/realtime.ts:76-120 | From every reachable state a reload, a hello and a page hand the client every committed row |
| Delivery.OverlapLosesARow | frontend/src/realtime.ts:84-98 | With two replays in flight a run exists in which a committed row is never applied |
| RebuildQueue.CompletedIsFresh | crates/storage/src/repositories/signals.rs:199-277 | With any number of workers, late persists and unmarked writes that the rebuild ignores, COMPLETED implies the stored rows are the rebuild of the current inputs |
| RebuildQueue.CompletedIsFreshExactly | crates/storage/src/repositories/signals.rs:180-277 | That holds in all runs whose unmarked writes stay within given inputs if and only if the rebuild ignores those inputs |
| RebuildQueue.StepKeepsFresh | crates/storage/src/repositories/market.rs:136-186 | Every single statement of a writer or worker keeps that |
| RebuildQueue.ClaimlessSteps | crates/storage/src/repositories/signals.rs:171-179 | A crash only forgets the claim; without a claim nothing can be read, persisted or put back |
| RebuildQueue.LockedRebuildCompletes | crates/storage/src/repositories/positions.rs:98-200 | A rebuild under the row lock completes with the current inputs |
| RebuildQueue.StaleIsClaimable | crates/storage/src/repositories/signals.rs:165-170 | Stale rows are never stranded: from a definite time on the job can be claimed |
| RebuildQueue.ClaimIs | crates/storage/src/repositories/signals.rs:165-170 | A claim changes nothing while the job is completed, not due or claimed within 300 seconds, and takes it otherwise |
| RebuildQueue.ClaimsExclude | crates/storage/src/repositories/market.rs:83-88 | In every run more than 300 seconds pass between two claims that take the job with nothing settling it or putting it back |
| RebuildQueue.CompletionIsPossible | crates/storage/src/repositories/signals.rs:199-277 | Without another write a job can complete if and only if some claim of its generation, open or still to come, would persist rows that clash with none stored and with none of their own |
| RebuildQueue.LatePersistStrandsTheJob | crates/storage/src/repositories/signals.rs:171-179 | A stalled worker that persists late brings a completed job into a state from which it cannot complete |
| RebuildQueue.StuckForever | crates/storage/src/repositories/signals.rs:199-277 | and no claims, retries or crashes change that until an input is written |
| RebuildQueue.RebuildJob.MarkDirty | crates/storage/src/repositories/positions.rs:72-81 | An input write bumps the generation and makes the job pending in the same transaction |
| RebuildQueue.RebuildJob.ClaimDue | crates/storage/src/repositories/market.rs:83-88 | Takes the job at the current generation exactly when it is due or its lock is older than 300 seconds, and else changes nothing |
| RebuildQueue.RebuildJob.Load | crates/storage/src/repositories/signals.rs:180-197 | Reading part by part ends with the current inputs under the old claim |
| RebuildQueue.RebuildJob.Persist | crates/storage/src/repositories/signals.rs:199-277 | Replaces the rows and completes exactly when the claim is of the current generation, or changes nothing because a row's key is taken in its generation |
| RebuildQueue.RebuildJob.Retry | crates/storage/src/repositories/market.rs:126-134 | Puts the job back with a due time |
| Coordinator.ChunksTile | crates/chain/src/coordinator.rs:180-233 | The batches of one call are the consecutive pieces of the range of max(1, chunk) blocks, all but a failing last one accepted, and a successful call issues all of them, chunk 0 and head 2^64 - 1 included |
| Coordinator.CallsThatStart | crates/chain/src/coordinator.rs:139-178 | A call starts if and only if the cursor can be read and, if there is one, is of this chain, not ahead of the head and still has its block's hash; any other only fails |
| Coordinator.ChunksStop | crates/chain/src/coordinator.rs:180-233 | A call ends at the head or at the chunk that goes wrong, with the cursor exactly past what was stored |
| Coordinator.FailureIs | crates/chain/src/coordinator.rs:180-233 | It reports the error of that chunk |
| Coordinator.CatchUpCovers | crates/chain/src/coordinator.rs:139-241 | However a call fails, every block up to the durable cursor was accepted and the cursor does not move back |
| Coordinator.NoBlockIsLost | crates/chain/src/coordinator.rs:139-241 | The same for any sequence of calls, errors and crashes |
| Coordinator.CleanCallReachesHead | crates/chain/src/coordinator.rs:139-241 | A call in which nothing fails ends with the cursor at the head |
| Coordinator.LastBlockIsRedelivered | crates/chain/src/coordinator.rs:172-231 | A cursor at 2^64 - 1 makes a call deliver that one block again and stop |
| Coordinator.CatchUpLabels | crates/chain/src/coordinator.rs:139-241 | Calls keep every Live batch above all heads caught up with and on a steady stream |
| Coordinator.LiveIsEarned | crates/chain/src/coordinator.rs:283-328 | A Live batch follows a successful catch-up on the same subscription, with no failure since, and starts above the head it reached unless block numbers are exhausted |
| Coordinator.NotifiedSource | crates/chain/src/coordinator.rs:307-323 | A notification is Live on a steady stream and ChainBackfill otherwise |
| Coordinator.NotifiedHead | crates/chain/src/coordinator.rs:295-323 | A notification catches up to the greatest block of its burst, on an unsteady stream at least to the current head |
| Coordinator.SyncedReaches | crates/chain/src/coordinator.rs:134-137 | A reconciliation issues only ChainBackfill batches, up to the current head, and fails without one |
| Coordinator.AttendedInOrder | crates/chain/src/coordinator.rs:289-328 | Every wakeup is attended to in order, up to the first that drops the subscription |
| Coordinator.SessionSyncs | crates/chain/src/coordinator.rs:253-287 | A session reconciles before it connects and again before it attends to anything |
| Coordinator.SessionsInOrder | crates/chain/src/coordinator.rs:249-338 | Sessions follow one another until a foreign chain ends the run |
| Coordinator.RunIsGood | crates/chain/src/coordinator.rs:249-338 | Whole runs of the reconnect loop, stopped and restarted anywhere, keep all of the above |
| Coordinator.BatchOrderIsCanonical | crates/chain/src/coordinator.rs:191-206 | The handler sees the logs in chain order whatever order the RPC returned them in |
| Coordinator.BatchAscends | crates/chain/src/coordinator.rs:191-206 | In that order block numbers, then transaction indices, then log indices, then hashes never fall |
| Coordinator.DelaysGrow | crates/chain/src/coordinator.rs:57-63 | Reconnect delays never shrink, never exceed the maximum, and double below it |
| Coordinator.FirstAndLastDelay | crates/chain/src/coordinator.rs:57-63 | The first delay is the minimum, cut at the maximum; doubling stops after 31 attempts |
| Coordinator.Coordinator.CatchUpTo | crates/chain/src/coordinator.rs:139-241 | The call on the durable cursor, the error of each refused start and of the chunk that goes wrong |
| Coordinator.Coordinator.Deliver | crates/chain/src/coordinator.rs:180-233 | The chunk loop, which ends for every chunk size and head |
| Coordinator.Coordinator.SyncOnce | crates/chain/src/coordinator.rs:134-137 | Reconciles to the current head as ChainBackfill; true exactly when it caught up |
| Coordinator.Coordinator.Coalesce | crates/chain/src/coordinator.rs:295-306 | The target of a burst is the greatest block in it |
| Coordinator.Coordinator.Notice | crates/chain/src/coordinator.rs:307-323 | The flag it returns says whether the stream is steady |
| Coordinator.Coordinator.RunUntil | crates/chain/src/coordinator.rs:249-338 | The reconnect loop performs exactly such a run |
| Positions.Rebuild | crates/storage/src/repositories/positions.rs:128-195 | The checked loop succeeds exactly when every prefix fits 256 bits, with the plain ledger as result; else with the overflow that comes first |
| Positions.OverflowOrder | crates/storage/src/repositories/positions.rs:139-170 | Which overflow is reported: the balance before the quotes, a purchase's quote before a sale's |
| Positions.LedgerIsNet | crates/storage/src/repositories/positions.rs:133-179 | Before and after every event the balance is the net of what was not refused, and that net decides which of the five kinds the event is |
| Positions.LedgerTotals | crates/storage/src/repositories/positions.rs:133-195 | Quote in, quote out and warnings are the sums over purchases, over sales of no more than is held, and the number of other sales |
| Positions.EventsMatchHoldings | crates/storage/src/repositories/positions.rs:133-179 | The events follow (OPEN (ADD or REDUCE)* CLOSE)* and a position is open exactly while something is held, if and only if no zero amount is traded with nothing held |
| Positions.GrammarExactly | crates/storage/src/repositories/positions.rs:133-179 | The events follow (OPEN (ADD or REDUCE)* CLOSE)* if and only if every zero purchase made with nothing held is answered by a zero sale before the next purchase and no other zero sale is made with nothing held |
| Positions.NoZeroIsAnswered | crates/storage/src/repositories/positions.rs:133-179 | Ledgers without zero amounts while nothing is held, such as all of positive amounts, meet that condition |
| Positions.CloseFollowsBuy | crates/storage/src/repositories/positions.rs:133-179 | Every CLOSE has an earlier BUY if and only if no zero-amount sale precedes all purchases |
| Episodes.EpisodesAreProper | crates/storage/src/repositories/analytics.rs:94-94 | Episodes are numbered 1..k, start with their only OPEN, can only end with CLOSE, net to zero when closed, and only the last can be open, exactly when something is held: all this if and only if the ledger meets the grammar's condition and leaves no zero purchase unanswered at its end |
| Episodes.GroupsAreEpisodes | crates/storage/src/repositories/analytics.rs:94-94 | For any events without warnings: every group starts with its only OPEN and can only end with CLOSE if and only if the events follow the grammar |
| Episodes.GroupsPartition | crates/storage/src/repositories/analytics.rs:94-94 | Grouping neither loses, repeats nor reorders an event |
| Episodes.CountIs | crates/storage/src/repositories/analytics.rs:94-94 | There is one episode per CLOSE and one more exactly when something is held, if and only if no zero purchase is left unanswered |
| Episodes.ZeroPurchaseOpensTwice | crates/storage/src/repositories/positions.rs:145-151 | A zero-amount purchase gives one episode two OPEN events |
| ExitRatio.ExitRatioIsProportion | crates/pons_v2/src/signals.rs:438-456 | On inputs loaded from ledgers whose zero sales before all purchases share their time with a purchase, the exit ratio is in [0, 1] at every instant |
| ExitRatio.CloserIsBuyer | crates/pons_v2/src/signals.rs:438-456 | On such inputs a wallet that has closed by an instant has bought by it |
| ExitRatio.ClosersAreBuyersExactly | crates/pons_v2/src/signals.rs:438-456 | On inputs loaded exactly, the exited wallets are among the entered ones at every instant if and only if every zero sale before all purchases of its ledger shares its time with one of them |
| ExitRatio.EmptySaleOvershoots | crates/pons_v2/src/signals.rs:438-456 | On an exactly loaded input with any other such sale the ratio can be 2 |
| Ranks.SmartRanksArePermutation | crates/storage/src/repositories/positions.rs:252-259 | The smart ranks are 1..k, each once, in the order of first purchases |
| Ranks.SmartRankAtMostBuyerRank | crates/storage/src/repositories/positions.rs:252-259 | A smart wallet ranks among smart buyers no later than among all buyers, given that a purchase belongs to its recipient |
| Ranks.BuyerRankCounts | crates/storage/src/repositories/positions.rs:252-259 | A buyer rank is the number of recipients with a purchase at or before that position |
| Ranks.GeneralFirstIsFirst | crates/storage/src/repositories/positions.rs:252-259 | Exactly the recipients that bought have a recorded first; it is one of their purchases and none precedes it |
| Ranks.SmartFirstIsFirst | crates/storage/src/repositories/positions.rs:252-259 | The same for smart wallets and their confirmed purchases |
| Holders.Fold | crates/storage/src/repositories/market.rs:147-165 | The fold fails exactly when a tracked balance outgrows 256 bits, else holds every wallet's tracked balance and the warning flag |
| Holders.TransferLands | crates/storage/src/repositories/market.rs:147-165 | One more transfer debits its sender, unless that exceeds the balance, before it credits its receiver |
| Holders.WarningMeansNegative | crates/storage/src/repositories/market.rs:148-165 | The integrity warning is raised exactly when some wallet's net sum goes negative at some prefix |
| Holders.TrackedIsNetPlusSkipped | crates/storage/src/repositories/market.rs:148-165 | A tracked balance is the wallet's net sum plus exactly its skipped debits |
| Holders.CleanBalancesAreNet | crates/storage/src/repositories/market.rs:148-165 | Without a warning it is the net sum |
| Holders.SupplyIsConserved | crates/storage/src/repositories/market.rs:147-165 | All balances add up to mints minus burns plus the skipped debits, which are none exactly without a warning |
| Holders.CountHolders | crates/storage/src/repositories/market.rs:170-182 | The stored rows and the holder count over the balance map |
| Holders.HolderCountsAgree | crates/storage/src/repositories/market.rs:221-221 | The snapshot's grouped query never counts a wallet the index does not, and both count the same if and only if every counted wallet's skipped debits are less than its tracked balance |
| Holders.CleanCountsAgree | crates/storage/src/repositories/market.rs:221-221 | Without a warning both count the same |
| Holders.RebuildBalances | crates/storage/src/repositories/market.rs:147-182 | Fold and count together: the stored holder count is that of the index, and equals the query's exactly under that condition |
| Holders.SkippedDebitInflatesHolders | crates/storage/src/repositories/market.rs:221-221 | After a skipped debit the index can count a holder the query does not |
| Shards.StableCurveShards | crates/pons_v2/src/trades.rs:137-166 | The bucket loop gives the sorted non-empty shards |
| Shards.ShardsPartition | crates/pons_v2/src/trades.rs:137-166 | The shards together hold every curve exactly as often as the input |
| Shards.ShardsAreSorted | crates/pons_v2/src/trades.rs:157-165 | Indices ascend and each shard is the sorted set of the curves its index stands for |
| Shards.ShardOfCurve | crates/pons_v2/src/trades.rs:137-166 | A shard holds exactly the curves whose hash is its index modulo the count, ascending by address |
| Shards.KnownHashes | crates/pons_v2/src/trades.rs:149-152 | The hash has the published values of 64-bit FNV-1a |
| Shards.BytesAreDigits | crates/pons_v2/src/trades.rs:146-148 | It is taken over the address bytes, the highest first |
| Shards.ShardsIgnoreOrder | crates/pons_v2/src/trades.rs:137-166 | The shards do not depend on the order of the registry |
| Shards.BoundedCurveShards | crates/pons_v2/src/trades.rs:172-190 | The search that starts at the pigeonhole bound ends with the smallest of all shard counts that fit |
| Shards.TooFewShards | crates/pons_v2/src/trades.rs:179-179 | Pigeonhole: a count that fits is at least the starting one |
| Shards.SearchEndsWithoutCrowd | crates/pons_v2/src/trades.rs:180-189 | Some count fits if and only if no 64-bit hash is shared by more curves than the bound |
| Shards.BoundedShardsIgnoreOrder | crates/pons_v2/src/trades.rs:172-190 | Two registries with the same curves get the same count and shards |
| CanonicalJson.CanonicalDecidesEquality | crates/app/src/ai.rs:292-330 | Canonical texts are equal if and only if the values are equal up to member order |
| CanonicalJson.CanonicalIsInjective | crates/app/src/ai.rs:292-330 | Even inside longer texts, different values have different texts |
| CanonicalJson.QuotedIsInjective | crates/app/src/ai.rs:299-299 | String escaping is injective and self-delimiting |
| JsonText.QuotedReads | crates/app/src/ai.rs:299-299 | A reader of JSON strings gets back what was quoted and stops right behind it |
| JsonText.EscapesAre | crates/app/src/ai.rs:299-299 | Only what has to be escaped is, the short way where there is one |
| JsonText.LeafTexts | crates/app/src/ai.rs:295-299 | The text of null, booleans, numbers and strings |
| JsonText.ArrayText | crates/app/src/ai.rs:300-309 | An array is its items' texts with commas between them, in brackets |
| JsonText.ObjectText | crates/app/src/ai.rs:310-324 | An object is one entry per member in braces, keys ascending by code point |
| CanonicalJson.Write | crates/app/src/ai.rs:293-326 | The recursive writer appends exactly the canonical text |
| CanonicalJson.WriteArray | crates/app/src/ai.rs:300-309 | The array loop with its commas |
| CanonicalJson.WriteObject | crates/app/src/ai.rs:310-324 | The loop over sorted keys with a lookup per key |
| CanonicalJson.PreimageIsEvidence | crates/app/src/ai.rs:332-338 | Two packages are hashed alike if and only if they differ at most in the top-level generation time and in member order |
| CurveMath.FormatRoundTrip | crates/pons_v2/src/market.rs:513-530 | Reading undoes formatting at every scale not below the format's; below it the digits are not cut |
| CurveMath.FormatParts | crates/pons_v2/src/market.rs:513-521 | A scaled number is written with exactly that many decimals and no leading zeros |
| CurveMath.ReadsDecimals | crates/pons_v2/src/market.rs:522-530 | Digits around a point read as the number they make, padded to the wanted scale |
| CurveMath.RatioRoundTrip | crates/pons_v2/src/market.rs:499-521 | Reading a quotient's text gives the truncated scaled quotient |
| CurveMath.CurveMathIs | crates/pons_v2/src/market.rs:458-495 | A result exactly when the guards hold, and what each of its four texts reads back as |
| CurveMath.AmountsAreRead | crates/pons_v2/src/market.rs:458-475 | Each amount is read from its own text, and all must be numbers |
| CurveMath.RatioIsAccurate | crates/pons_v2/src/market.rs:499-512 | A quotient's text is below the exact value by less than 10^-18 |
| CurveMath.ProgressIsProportion | crates/pons_v2/src/market.rs:482-482 | Token progress is in [0, 1], below the exact one by less than 10^-18 |
| CurveMath.FdvIsAccurate | crates/pons_v2/src/market.rs:484-493 | The twice-truncated valuation is at most the exact one and misses less than supply / 10^decimals + 1 |
| CurveMath.DivergenceIsExact | crates/pons_v2/src/market.rs:433-442 | The warning is raised only for exact gaps above 5%, and for all gaps of 5% and one last decimal |

## Left out

- Transports, RPC decoding, SQL text, authentication, hashing, configuration files, pages and alert sounds: calls into code outside the model.
- JSON payloads, content hashes, rule descriptions and titles stored beside consensus, signal and alert rows: derived data that nothing reads back.
- Rounding and panics of the decimal type: decimals are reals; the fallback to zero of an unrepresentable ratio is modelled.
- `i64` conversions with `unwrap_or(i64::MAX)` of set sizes and counters: sizes are unbounded.
- Re-sharding coverage and more than one owner per stream: one coordinator with a fixed filter is modelled.
- Health reporting, sleeping and heartbeats: they do not influence which batches or rows are delivered.
- Backtests, web read models, metadata, content and AI workers, the release updater.
- Outbox.ScheduleIsSafe: rows are never deleted, and identifiers other than `seq` and the dedupe key are not modelled.
- AlertRuns.EveryRunIsFaithful: the smart trades an event refers to are a fixed table during a run.
- Delivery.DeliveryIsExact: one replay in flight and no deleted rows are hypotheses; `OverlapLosesARow` shows the first is needed.
- RebuildQueue.CompletedIsFresh: which inputs are written marked is assumed. Triggers of migrations 0013, 0015 and 0017 mark trades, snapshots, position events and finality; `traders.manual_tier`, `trader_wallets.identity_confidence` and `buyer_rank` (`positions.rs:257`) have none of their own. Inputs of the market rebuild that change with the clock are writes by `enqueue_due_snapshots`.
- RebuildQueue.RebuildJob.Persist: the loops over consensus, signal and transition rows are one loop over rows with one kind of key, and the whole transaction is one step.
- ExitRatio.ExitRatioIsProportion: one direction only, since the ratio compares sizes over all wallets; `ClosersAreBuyersExactly` is the exact statement about the wallets.
- Positions.Rebuild: amounts are parsed numbers; a text that is not a 256-bit number is not modelled.
- Holders.Fold: the same.
- Ranks.SmartRankAtMostBuyerRank: a smart trade's position is that of the token trade it was classified from. That the wallet of a BUY is its recipient is a hypothesis, established where smart trades are stored (`crates/pons_v2/src/trades.rs:326-329`, `crates/storage/src/repositories/classifications.rs:109`); `SharedRecipientBreaksRanks` only shows that the proof needs it.
- Shards.BoundedCurveShards: requires that no hash is crowded, since the search provably never ends otherwise; shard counts are unbounded, so the `usize` limit at 2^64 is not modelled.
- CanonicalJson.CanonicalDecidesEquality: numbers are the tokens they print as, so two floats that compare equal but print differently (0.0 and -0.0) count as different.
- CurveMath.CurveMathIs: texts are digit strings; a leading `+` or `_` that the big integer parser also accepts is not modelled.
- Coordinator.BatchOrderIsCanonical: needs that block, log index and transaction hash identify a log.
- SignalHistory.NoLookahead: reason lists and JSON inputs of a row are left out of the compared rows.
