/**
  One job of a generation-stamped rebuild queue. Workers claim it, read the inputs in several
  statements, stall past the lock timeout, are superseded, crash, and persist late. A marked write of an
  input bumps the generation in its own transaction; an unmarked one changes the input only.

  The signal queue reads its inputs before it persists and inserts rows whose key is unique in their
  generation (`unique`); the market queue replaces its rows; the position queue reads under the job's
  row lock.
*/
module RebuildQueue {
  import opened Wrappers
  import opened Sets

  datatype Status = Pending | Processing | Retrying | Completed

  /** A derived row: its key within a generation, and the rest. */
  datatype Row = Row(key: int, value: int)

  type Rebuilding = seq<int> -> seq<Row>

  /** A claim: the generation it was taken at and the inputs read so far. */
  datatype Work = Work(generation: nat, read: seq<int>)

  /** `derived` are the rows shown, `stamped` the generation and key of every row ever inserted. */
  datatype Queue = Queue(
    now: int, inputs: seq<int>, generation: nat, status: Status, due: int, lockedAt: int,
    workers: map<nat, Work>, derived: seq<Row>, stamped: set<(nat, int)>)

  datatype Action =
    | Write(part: nat, value: int)
    | Unmarked(part: nat, value: int)
    | Tick(seconds: nat)
    | Claim(worker: nat)
    | Read(worker: nat)
    | Persist(worker: nat)
    | Retry(worker: nat, delay: nat)
    | Crash(worker: nat)
    | RebuildLocked

  const LOCK_TIMEOUT := 300

  predicate Claimable(q: Queue) {
    || ((q.status == Pending || q.status == Retrying) && q.due <= q.now)
    || (q.status == Processing && q.lockedAt < q.now - LOCK_TIMEOUT)
  }

  function Step(q: Queue, a: Action, rebuild: Rebuilding, unique: bool): Queue {
    match a
    case Write(part, value) =>
      if part < |q.inputs|
      then q.(inputs := q.inputs[part := value], generation := q.generation + 1, status := Pending, due := q.now)
      else q
    case Unmarked(part, value) =>
      if part < |q.inputs| then q.(inputs := q.inputs[part := value]) else q
    case Tick(seconds) => q.(now := q.now + seconds)
    case Claim(w) =>
      if Claimable(q)
      then q.(status := Processing, lockedAt := q.now, workers := q.workers[w := Work(q.generation, [])])
      else q
    case Read(w) =>
      if w in q.workers && |q.workers[w].read| < |q.inputs|
      then
        var work := q.workers[w];
        q.(workers := q.workers[w := work.(read := work.read + [q.inputs[|work.read|]])])
      else q
    case Persist(w) =>
      if w in q.workers && |q.workers[w].read| == |q.inputs| then Persisted(q, w, rebuild, unique) else q
    case Retry(w, delay) =>
      if w in q.workers
      then q.(status := Retrying, due := q.now + delay, workers := q.workers - {w})
      else q
    case Crash(w) => q.(workers := q.workers - {w})
    case RebuildLocked =>
      if unique then q else q.(derived := rebuild(q.inputs), status := Completed)
  }

  function Keys(generation: nat, rows: seq<Row>): set<(nat, int)> {
    set i | 0 <= i < |rows| :: (generation, rows[i].key)
  }

  /** Rows that can be inserted into an empty table. */
  predicate Storable(rows: seq<Row>, unique: bool) {
    unique ==> forall i, j :: 0 <= i < j < |rows| ==> rows[i].key != rows[j].key
  }

  /** Inserting a key that its generation already has fails, and nothing of the transaction remains. */
  predicate Conflicts(q: Queue, generation: nat, rows: seq<Row>, unique: bool) {
    !Storable(rows, unique) || (unique && Keys(generation, rows) * q.stamped != {})
  }

  function Persisted(q: Queue, w: nat, rebuild: Rebuilding, unique: bool): Queue
    requires w in q.workers
  {
    var work := q.workers[w];
    var rows := rebuild(work.read);
    if Conflicts(q, work.generation, rows, unique) then q
    else q.(derived := rows, status := if q.generation == work.generation then Completed else Pending,
            workers := q.workers - {w}, stamped := q.stamped + Keys(work.generation, rows))
  }

  function StepAll(q: Queue, actions: seq<Action>, rebuild: Rebuilding, unique: bool): Queue {
    if |actions| == 0 then q
    else Step(StepAll(q, actions[..|actions| - 1], rebuild, unique), actions[|actions| - 1], rebuild, unique)
  }

  /** A job as first enqueued. */
  function Enqueued(inputs: seq<int>, now: int): Queue {
    Queue(now, inputs, 1, Pending, now, now, map[], [], {})
  }

  lemma EmptyRun(q: Queue, rebuild: Rebuilding, unique: bool)
    ensures StepAll(q, [], rebuild, unique) == q
  {
  }

  lemma StepLast(q: Queue, actions: seq<Action>, a: Action, rebuild: Rebuilding, unique: bool)
    ensures StepAll(q, actions + [a], rebuild, unique) == Step(StepAll(q, actions, rebuild, unique), a, rebuild, unique)
  {
    hide Step;
    assert (actions + [a])[..|actions|] == actions;
  }

  lemma {:induction false} StepMore(q: Queue, before: seq<Action>, after: seq<Action>, rebuild: Rebuilding, unique: bool)
    ensures StepAll(q, before + after, rebuild, unique) == StepAll(StepAll(q, before, rebuild, unique), after, rebuild, unique)
  {
    hide Step;
    if |after| == 0 {
      assert before + after == before;
    } else {
      var init, last := after[..|after| - 1], after[|after| - 1];
      StepMore(q, before, init, rebuild, unique);
      StepLast(q, before + init, last, rebuild, unique);
      assert before + after == before + init + [last];
    }
  }

  /** A crash only forgets the worker's claim; a worker without a claim can neither read, persist nor put the job back. */
  lemma ClaimlessSteps(q: Queue, w: nat, delay: nat, rebuild: Rebuilding, unique: bool)
    ensures Step(q, Crash(w), rebuild, unique) == q.(workers := q.workers - {w})
    ensures w !in q.workers ==>
      && Step(q, Crash(w), rebuild, unique) == q && Step(q, Read(w), rebuild, unique) == q
      && Step(q, Persist(w), rebuild, unique) == q && Step(q, Retry(w, delay), rebuild, unique) == q
  {
    if w !in q.workers {
      assert q.workers - {w} == q.workers;
    }
  }

  /** A rebuild under the row lock, as of positions, completes at once with the current inputs. */
  lemma LockedRebuildCompletes(q: Queue, rebuild: Rebuilding)
    ensures var r := Step(q, RebuildLocked, rebuild, false);
      r.derived == rebuild(q.inputs) && r.status == Completed && r.inputs == q.inputs && r.generation == q.generation
  {
  }

  // ---------------------------------------------------------------- completed means fresh

  /** What has been read are the inputs, except perhaps for some parts. */
  predicate Agrees(read: seq<int>, inputs: seq<int>, parts: set<nat>) {
    |read| <= |inputs| && forall i :: 0 <= i < |read| && i !in parts ==> read[i] == inputs[i]
  }

  /** Inputs that differ at most in these parts rebuild to the same rows. */
  ghost predicate Ignores(rebuild: Rebuilding, parts: set<nat>, unique: bool) {
    forall s, t :: |s| == |t| && Agrees(s, t, parts) && Storable(rebuild(s), unique) ==> rebuild(s) == rebuild(t)
  }

  /** A claim of the current generation has read the current inputs, however many statements that took, except for
      parts that were written unmarked. */
  ghost predicate ReadsAgree(q: Queue, parts: set<nat>) {
    forall w :: w in q.workers ==>
      && q.workers[w].generation <= q.generation && |q.workers[w].read| <= |q.inputs|
      && (q.workers[w].generation == q.generation ==> Agrees(q.workers[w].read, q.inputs, parts))
  }

  ghost predicate Fresh(q: Queue, rebuild: Rebuilding, unique: bool, parts: set<nat>) {
    && ReadsAgree(q, parts)
    && (q.status == Completed ==> q.derived == rebuild(q.inputs) && Storable(q.derived, unique))
  }

  predicate UnmarkedWithin(actions: seq<Action>, parts: set<nat>) {
    forall i :: 0 <= i < |actions| && actions[i].Unmarked? ==> actions[i].part in parts
  }

  lemma StepKeepsFresh(q: Queue, a: Action, rebuild: Rebuilding, unique: bool, parts: set<nat>)
    requires Fresh(q, rebuild, unique, parts) && Ignores(rebuild, parts, unique)
    requires a.Unmarked? ==> a.part in parts
    ensures Fresh(Step(q, a, rebuild, unique), rebuild, unique, parts)
  {
    hide Conflicts, Keys;
    StepKeepsReads(q, a, rebuild, unique, parts);
    if a.Persist? {
      if a.worker in q.workers && |q.workers[a.worker].read| == |q.inputs| && q.workers[a.worker].generation == q.generation {
        PersistIsFresh(q, a.worker, rebuild, unique, parts);
      }
    } else if a.Unmarked? && a.part < |q.inputs| {
      hide Storable;
      assert Agrees(q.inputs, q.inputs[a.part := a.value], parts);
    }
  }

  lemma PersistIsFresh(q: Queue, w: nat, rebuild: Rebuilding, unique: bool, parts: set<nat>)
    requires ReadsAgree(q, parts) && Ignores(rebuild, parts, unique) && w in q.workers
    requires |q.workers[w].read| == |q.inputs| && q.workers[w].generation == q.generation
    ensures var rows := rebuild(q.workers[w].read);
      Conflicts(q, q.generation, rows, unique) || (rows == rebuild(q.inputs) && Storable(rows, unique))
  {
  }

  lemma StepKeepsReads(q: Queue, a: Action, rebuild: Rebuilding, unique: bool, parts: set<nat>)
    requires ReadsAgree(q, parts) && (a.Unmarked? ==> a.part in parts)
    ensures ReadsAgree(Step(q, a, rebuild, unique), parts)
  {
    hide Conflicts, Keys;
    var r := Step(q, a, rebuild, unique);
    forall w | w in r.workers ensures
      && r.workers[w].generation <= r.generation && |r.workers[w].read| <= |r.inputs|
      && (r.workers[w].generation == r.generation ==> Agrees(r.workers[w].read, r.inputs, parts))
    {
      if a.Write? || a.Unmarked? {
        assert w in q.workers;
      }
    }
  }

  /** Over every run of writers and workers: COMPLETED implies the stored rows are those of the current inputs, as
      long as the rebuild ignores whatever is written unmarked. */
  lemma {:induction false} CompletedIsFresh(inputs: seq<int>, now: int, actions: seq<Action>, rebuild: Rebuilding, unique: bool, parts: set<nat>)
    requires UnmarkedWithin(actions, parts) && Ignores(rebuild, parts, unique)
    ensures Fresh(StepAll(Enqueued(inputs, now), actions, rebuild, unique), rebuild, unique, parts)
  {
    hide Step, Ignores;
    if |actions| > 0 {
      var init := actions[..|actions| - 1];
      CompletedIsFresh(inputs, now, init, rebuild, unique, parts);
      StepKeepsFresh(StepAll(Enqueued(inputs, now), init, rebuild, unique), actions[|actions| - 1], rebuild, unique, parts);
    }
  }

  /** Marked writes alone keep the stored rows fresh whatever the rebuild. */
  lemma NothingIsIgnored(rebuild: Rebuilding, unique: bool)
    ensures Ignores(rebuild, {}, unique)
  {
    forall s, t | |s| == |t| && Agrees(s, t, {}) ensures rebuild(s) == rebuild(t) {
      assert s == t;
    }
  }

  /** When a job that is not completed can be claimed again. */
  function DueAt(q: Queue): int {
    if q.status == Processing then q.lockedAt + LOCK_TIMEOUT + 1 else q.due
  }

  /** Stale rows are never stranded: from the due time on `claim_due` takes the job. */
  lemma StaleIsClaimable(inputs: seq<int>, now: int, actions: seq<Action>, rebuild: Rebuilding, unique: bool, parts: set<nat>, later: int)
    requires UnmarkedWithin(actions, parts) && Ignores(rebuild, parts, unique)
    ensures var q := StepAll(Enqueued(inputs, now), actions, rebuild, unique);
      q.derived != rebuild(q.inputs) && later >= DueAt(q) ==> Claimable(q.(now := later))
  {
    CompletedIsFresh(inputs, now, actions, rebuild, unique, parts);
  }

  // ---------------------------------------------------------------- one claim at a time

  /** A claim changes nothing while the job is completed, not due, or held by a claim of the last 300 seconds; in every
      other case it takes the job. */
  lemma ClaimIs(q: Queue, w: nat, rebuild: Rebuilding, unique: bool)
    ensures var held := q.status == Processing && q.now - q.lockedAt <= 300;
      var waiting := (q.status == Pending || q.status == Retrying) && q.due > q.now;
      Step(q, Claim(w), rebuild, unique) ==
        if q.status == Completed || held || waiting then q else Taken(q, w)
  {
  }

  function Taken(q: Queue, w: nat): Queue {
    q.(status := Processing, lockedAt := q.now, workers := q.workers[w := Work(q.generation, [])])
  }

  /** No statement that settles the job or puts it back. */
  predicate Undisturbed(actions: seq<Action>) {
    forall i :: 0 <= i < |actions| ==>
      !actions[i].Write? && !actions[i].Retry? && !actions[i].Persist? && !actions[i].RebuildLocked?
  }

  lemma {:induction false} TimePasses(q: Queue, actions: seq<Action>, rebuild: Rebuilding, unique: bool)
    ensures StepAll(q, actions, rebuild, unique).now >= q.now
  {
    if |actions| > 0 {
      TimePasses(q, actions[..|actions| - 1], rebuild, unique);
      hide Conflicts, Keys;
    }
  }

  lemma {:induction false} ClaimHolds(q: Queue, actions: seq<Action>, rebuild: Rebuilding, unique: bool)
    requires q.status == Processing && Undisturbed(actions)
    requires StepAll(q, actions, rebuild, unique).now - q.lockedAt <= 300
    ensures var r := StepAll(q, actions, rebuild, unique);
      r.status == Processing && r.lockedAt == q.lockedAt && r.workers.Keys <= q.workers.Keys
  {
    hide Conflicts, Keys;
    if |actions| > 0 {
      var init, last := actions[..|actions| - 1], actions[|actions| - 1];
      EmptyRun(StepAll(q, init, rebuild, unique), rebuild, unique);
      StepLast(StepAll(q, init, rebuild, unique), [], last, rebuild, unique);
      TimePasses(StepAll(q, init, rebuild, unique), [last], rebuild, unique);
      assert [] + [last] == [last];
      ClaimHolds(q, init, rebuild, unique);
      if last.Claim? {
        ClaimIs(StepAll(q, init, rebuild, unique), last.worker, rebuild, unique);
      }
    }
  }

  /** Between two claims that take the job, with nothing settling it or putting it back in between, more than 300
      seconds pass. */
  lemma ClaimsExclude(q: Queue, w: nat, v: nat, actions: seq<Action>, rebuild: Rebuilding, unique: bool)
    requires Step(q, Claim(w), rebuild, unique) != q && Undisturbed(actions)
    ensures var r := StepAll(Step(q, Claim(w), rebuild, unique), actions, rebuild, unique);
      Step(r, Claim(v), rebuild, unique) != r ==> r.now - q.now > 300
  {
    ClaimIs(q, w, rebuild, unique);
    var taken := Step(q, Claim(w), rebuild, unique);
    var r := StepAll(taken, actions, rebuild, unique);
    ClaimIs(r, v, rebuild, unique);
    hide Step, StepAll;
    if r.now - taken.lockedAt <= 300 {
      ClaimHolds(taken, actions, rebuild, unique);
    }
  }

  // ---------------------------------------------------------------- when a job can still complete

  predicate NoWrites(actions: seq<Action>) {
    forall i :: 0 <= i < |actions| ==> !actions[i].Write? && !actions[i].Unmarked?
  }

  /** What `ReadsAgree` keeps in every run. */
  predicate ReadsFit(q: Queue) {
    forall w :: w in q.workers ==> |q.workers[w].read| <= |q.inputs|
  }

  /** What a claim that has read this much will have read in the end if nothing more is written. */
  function Finished(q: Queue, read: seq<int>): seq<int>
    requires |read| <= |q.inputs|
  {
    read + q.inputs[|read|..]
  }

  /** The rows of a claim of the current generation would clash with stored ones. */
  predicate Clashes(q: Queue, read: seq<int>, rebuild: Rebuilding)
    requires |read| <= |q.inputs|
  {
    Conflicts(q, q.generation, rebuild(Finished(q, read)), true)
  }

  /** So would those of every claim of the current generation, open or still to come. */
  predicate Blocked(q: Queue, rebuild: Rebuilding)
    requires ReadsFit(q)
  {
    Clashes(q, [], rebuild)
    && forall w :: w in q.workers && q.workers[w].generation == q.generation ==> Clashes(q, q.workers[w].read, rebuild)
  }

  ghost predicate Stuck(q: Queue, rebuild: Rebuilding) {
    ReadsFit(q) && Blocked(q, rebuild) && q.status != Completed
  }

  lemma StuckStays(q: Queue, a: Action, rebuild: Rebuilding)
    requires Stuck(q, rebuild) && !a.Write? && !a.Unmarked?
    ensures Stuck(Step(q, a, rebuild, true), rebuild) && Step(q, a, rebuild, true).inputs == q.inputs
  {
    hide Conflicts, Storable, Keys;
    var r := Step(q, a, rebuild, true);
    if a.Persist? && a.worker in q.workers && |q.workers[a.worker].read| == |q.inputs| {
      var work := q.workers[a.worker];
      assert Finished(q, work.read) == work.read;
      StampsStay(q, r, rebuild);
    } else if a.Read? && a.worker in q.workers && |q.workers[a.worker].read| < |q.inputs| {
      var read := q.workers[a.worker].read;
      assert Finished(r, read + [q.inputs[|read|]]) == Finished(q, read);
      ClashesStay(q, r, rebuild);
    } else {
      ClashesStay(q, r, rebuild);
    }
  }

  /** Clashes depend on the inputs, the generation and the stored keys only. */
  lemma ClashesStay(q: Queue, r: Queue, rebuild: Rebuilding)
    requires q.inputs == r.inputs && q.generation == r.generation && q.stamped == r.stamped
    ensures forall read :: |read| <= |q.inputs| ==> Clashes(q, read, rebuild) == Clashes(r, read, rebuild)
  {
  }

  lemma StampsStay(q: Queue, r: Queue, rebuild: Rebuilding)
    requires q.inputs == r.inputs && q.generation == r.generation && q.stamped <= r.stamped
    ensures forall read :: |read| <= |q.inputs| && Clashes(q, read, rebuild) ==> Clashes(r, read, rebuild)
  {
  }

  lemma {:induction false} StuckForever(q: Queue, actions: seq<Action>, rebuild: Rebuilding)
    requires Stuck(q, rebuild) && NoWrites(actions)
    ensures Stuck(StepAll(q, actions, rebuild, true), rebuild)
  {
    hide Step, Stuck;
    if |actions| > 0 {
      StuckForever(q, actions[..|actions| - 1], rebuild);
      StuckStays(StepAll(q, actions[..|actions| - 1], rebuild, true), actions[|actions| - 1], rebuild);
    }
  }

  /** `n` reads of one worker. */
  function Reads(w: nat, n: nat): seq<Action> {
    if n == 0 then [] else Reads(w, n - 1) + [Read(w)]
  }

  lemma {:induction false} ReadsRead(q: Queue, w: nat, n: nat, rebuild: Rebuilding, unique: bool)
    requires w in q.workers && |q.workers[w].read| + n <= |q.inputs|
    ensures NoWrites(Reads(w, n)) && UnmarkedWithin(Reads(w, n), {})
    ensures var Work(generation, read) := q.workers[w];
      StepAll(q, Reads(w, n), rebuild, unique)
        == q.(workers := q.workers[w := Work(generation, read + q.inputs[|read|..|read| + n])])
  {
    hide StepAll;
    var Work(generation, read) := q.workers[w];
    if n == 0 {
      EmptyRun(q, rebuild, unique);
      assert read + q.inputs[|read|..|read|] == read;
      assert q.workers[w := q.workers[w]] == q.workers;
    } else {
      ReadsRead(q, w, n - 1, rebuild, unique);
      StepLast(q, Reads(w, n - 1), Read(w), rebuild, unique);
      var m := |read| + n - 1;
      assert read + q.inputs[|read|..m] + [q.inputs[m]] == read + q.inputs[|read|..m + 1];
      assert q.workers[w := Work(generation, read + q.inputs[|read|..m])][w := Work(generation, read + q.inputs[|read|..m + 1])]
          == q.workers[w := Work(generation, read + q.inputs[|read|..m + 1])];
    }
  }

  /** A claim of the current generation that does not clash reads on and completes the job. */
  lemma WorkCompletes(q: Queue, w: nat, rebuild: Rebuilding, unique: bool) returns (actions: seq<Action>)
    requires w in q.workers && q.workers[w].generation == q.generation && |q.workers[w].read| <= |q.inputs|
    requires !Conflicts(q, q.generation, rebuild(Finished(q, q.workers[w].read)), unique)
    ensures NoWrites(actions) && UnmarkedWithin(actions, {})
    ensures var r := StepAll(q, actions, rebuild, unique);
      r.status == Completed && r.inputs == q.inputs && r.derived == rebuild(Finished(q, q.workers[w].read))
  {
    hide StepAll, Conflicts, Keys;
    var n := |q.inputs| - |q.workers[w].read|;
    ReadsRead(q, w, n, rebuild, unique);
    assert q.inputs[|q.workers[w].read|..|q.inputs|] == q.inputs[|q.workers[w].read|..];
    StepLast(q, Reads(w, n), Persist(w), rebuild, unique);
    SameConflicts(q, StepAll(q, Reads(w, n), rebuild, unique), rebuild(Finished(q, q.workers[w].read)), unique);
    actions := Reads(w, n) + [Persist(w)];
  }

  lemma SameConflicts(q: Queue, r: Queue, rows: seq<Row>, unique: bool)
    requires q.stamped == r.stamped && q.generation == r.generation
    ensures Conflicts(q, q.generation, rows, unique) == Conflicts(r, r.generation, rows, unique)
  {
  }

  /** And so does a new claim, once the job is due. */
  lemma ClaimCompletes(q: Queue, rebuild: Rebuilding, unique: bool) returns (actions: seq<Action>)
    requires q.status != Completed && !Conflicts(q, q.generation, rebuild(q.inputs), unique)
    ensures NoWrites(actions) && UnmarkedWithin(actions, {})
    ensures var r := StepAll(q, actions, rebuild, unique);
      r.status == Completed && r.inputs == q.inputs && r.derived == rebuild(q.inputs)
  {
    hide StepAll, Conflicts, Keys;
    var wait := Tick(if DueAt(q) > q.now then DueAt(q) - q.now else 0);
    EmptyRun(q, rebuild, unique);
    StepLast(q, [], wait, rebuild, unique);
    StepLast(q, [wait], Claim(0), rebuild, unique);
    assert [] + [wait] == [wait];
    assert Claimable(Step(q, wait, rebuild, unique));
    var r := StepAll(q, [wait] + [Claim(0)], rebuild, unique);
    assert Finished(r, []) == q.inputs;
    SameConflicts(q, r, rebuild(q.inputs), unique);
    var rest := WorkCompletes(r, 0, rebuild, unique);
    StepMore(q, [wait] + [Claim(0)], rest, rebuild, unique);
    actions := [wait] + [Claim(0)] + rest;
  }

  /** Without another input write a signal job can complete exactly when the rows of some claim of its generation,
      open or still to come, do not clash with stored ones. */
  lemma CompletionIsPossible(q: Queue, rebuild: Rebuilding)
    requires ReadsFit(q) && q.status != Completed
    ensures (exists actions :: NoWrites(actions) && StepAll(q, actions, rebuild, true).status == Completed)
        <==> !Blocked(q, rebuild)
  {
    hide StepAll, NoWrites, Conflicts;
    if Blocked(q, rebuild) {
      forall actions | NoWrites(actions) ensures StepAll(q, actions, rebuild, true).status != Completed {
        StuckForever(q, actions, rebuild);
      }
    } else {
      var actions: seq<Action>;
      if Clashes(q, [], rebuild) {
        var w :| w in q.workers && q.workers[w].generation == q.generation && !Clashes(q, q.workers[w].read, rebuild);
        actions := WorkCompletes(q, w, rebuild, true);
      } else {
        assert Finished(q, []) == q.inputs;
        actions := ClaimCompletes(q, rebuild, true);
      }
      assert NoWrites(actions) && StepAll(q, actions, rebuild, true).status == Completed;
    }
  }

  /** A blocked job is reachable: a stalled worker persists after another has completed the same generation. */
  lemma LatePersistStrandsTheJob(input: int, rebuild: Rebuilding)
    requires |rebuild([input])| > 0 && Storable(rebuild([input]), true)
    ensures var completed := [Claim(1), Read(1), Tick(301), Claim(2), Read(2), Persist(2)];
      && StepAll(Enqueued([input], 0), completed, rebuild, true).status == Completed
      && Stuck(StepAll(Enqueued([input], 0), completed + [Persist(1)] + [Retry(1, 1)], rebuild, true), rebuild)
  {
    hide StepAll;
    var q := Enqueued([input], 0);
    EmptyRun(q, rebuild, true);
    var q1 := Claims(q, [], 1, rebuild);
    assert [] + [Claim(1)] + [Read(1)] == [Claim(1), Read(1)];
    StepLast(q, [Claim(1), Read(1)], Tick(301), rebuild, true);
    assert [Claim(1), Read(1)] + [Tick(301)] == [Claim(1), Read(1), Tick(301)];
    var s := [Claim(1), Read(1), Tick(301)];
    var q2 := Claims(q, s, 2, rebuild);
    var t := s + [Claim(2)] + [Read(2)];
    var completed := [Claim(1), Read(1), Tick(301), Claim(2), Read(2), Persist(2)];
    assert t + [Persist(2)] == completed;
    StepLast(q, t, Persist(2), rebuild, true);
    StepLast(q, completed, Persist(1), rebuild, true);
    StepLast(q, completed + [Persist(1)], Retry(1, 1), rebuild, true);
    var done := StepAll(q, completed, rebuild, true);
    assert done.status == Completed && done.workers == map[1 := Work(1, [input])] && done.inputs == [input];
    SecondInsertClashes(done, 1, rebuild([input]));
    var r := Step(Step(done, Persist(1), rebuild, true), Retry(1, 1), rebuild, true);
    assert Finished(r, []) == [input];
    SameConflicts(done, r, rebuild([input]), true);
  }

  lemma SecondInsertClashes(q: Queue, generation: nat, rows: seq<Row>)
    requires |rows| > 0 && Keys(generation, rows) <= q.stamped
    ensures Conflicts(q, generation, rows, true)
  {
    assert (generation, rows[0].key) in Keys(generation, rows) * q.stamped;
  }

  /** A worker claims the one-part job and reads it. */
  lemma Claims(q: Queue, before: seq<Action>, w: nat, rebuild: Rebuilding) returns (r: Queue)
    requires Claimable(StepAll(q, before, rebuild, true)) && |StepAll(q, before, rebuild, true).inputs| == 1
    ensures r == StepAll(q, before + [Claim(w)] + [Read(w)], rebuild, true)
    ensures var p := StepAll(q, before, rebuild, true);
      r == p.(status := Processing, lockedAt := p.now, workers := p.workers[w := Work(p.generation, [p.inputs[0]])])
  {
    hide StepAll;
    StepLast(q, before, Claim(w), rebuild, true);
    StepLast(q, before + [Claim(w)], Read(w), rebuild, true);
    r := StepAll(q, before + [Claim(w)] + [Read(w)], rebuild, true);
    var p := StepAll(q, before, rebuild, true);
    assert [] + [p.inputs[0]] == [p.inputs[0]];
    assert p.workers[w := Work(p.generation, [])][w := Work(p.generation, [p.inputs[0]])]
        == p.workers[w := Work(p.generation, [p.inputs[0]])];
  }

  // ---------------------------------------------------------------- unmarked writes

  /** The unmarked writes that turn the first `n` inputs into those of `t`. */
  function Turning(s: seq<int>, t: seq<int>, n: nat): seq<Action>
    requires n <= |s| == |t|
  {
    if n == 0 then []
    else if s[n - 1] == t[n - 1] then Turning(s, t, n - 1)
    else Turning(s, t, n - 1) + [Unmarked(n - 1, t[n - 1])]
  }

  lemma {:induction false} TurningTurns(q: Queue, t: seq<int>, n: nat, rebuild: Rebuilding, unique: bool, parts: set<nat>)
    requires n <= |t| == |q.inputs| && Agrees(q.inputs, t, parts)
    ensures UnmarkedWithin(Turning(q.inputs, t, n), parts)
    ensures StepAll(q, Turning(q.inputs, t, n), rebuild, unique) == q.(inputs := t[..n] + q.inputs[n..])
  {
    hide StepAll;
    if n == 0 {
      EmptyRun(q, rebuild, unique);
      assert t[..0] + q.inputs[0..] == q.inputs;
    } else {
      TurningTurns(q, t, n - 1, rebuild, unique, parts);
      assert (t[..n - 1] + q.inputs[n - 1..])[n - 1 := t[n - 1]] == t[..n] + q.inputs[n..];
      StepLast(q, Turning(q.inputs, t, n - 1), Unmarked(n - 1, t[n - 1]), rebuild, unique);
    }
  }

  lemma FirstInsertFits(q: Queue, rows: seq<Row>, unique: bool)
    requires q.stamped == {} && Storable(rows, unique)
    ensures !Conflicts(q, q.generation, rows, unique)
  {
  }

  /** Complete with inputs `s`, then turn them into `t`. */
  lemma StaleRun(s: seq<int>, t: seq<int>, now: int, rebuild: Rebuilding, unique: bool, parts: set<nat>) returns (actions: seq<Action>)
    requires |s| == |t| && Agrees(s, t, parts) && Storable(rebuild(s), unique)
    ensures UnmarkedWithin(actions, parts)
    ensures var q := StepAll(Enqueued(s, now), actions, rebuild, unique);
      q.status == Completed && q.derived == rebuild(s) && q.inputs == t
  {
    hide StepAll, Conflicts, Storable, Agrees, Turning;
    var q := Enqueued(s, now);
    assert s[0..] == s;
    FirstInsertFits(q, rebuild(s), unique);
    var done := ClaimCompletes(q, rebuild, unique);
    TurningTurns(StepAll(q, done, rebuild, unique), t, |t|, rebuild, unique, parts);
    assert t[..|t|] + s[|s|..] == t;
    actions := done + Turning(s, t, |t|);
    StepMore(q, done, Turning(s, t, |t|), rebuild, unique);
  }

  ghost predicate FreshAfter(inputs: seq<int>, now: int, actions: seq<Action>, rebuild: Rebuilding, unique: bool) {
    var q := StepAll(Enqueued(inputs, now), actions, rebuild, unique);
    q.status == Completed ==> q.derived == rebuild(q.inputs)
  }

  /** That hypothesis is exact: COMPLETED means fresh in all runs whose unmarked writes stay within `parts` if and
      only if the rebuild ignores those parts. */
  lemma CompletedIsFreshExactly(now: int, rebuild: Rebuilding, unique: bool, parts: set<nat>)
    ensures (forall inputs, actions :: UnmarkedWithin(actions, parts) ==> FreshAfter(inputs, now, actions, rebuild, unique))
       <==> Ignores(rebuild, parts, unique)
  {
    hide StepAll, UnmarkedWithin, Storable;
    if Ignores(rebuild, parts, unique) {
      forall inputs, actions | UnmarkedWithin(actions, parts) ensures FreshAfter(inputs, now, actions, rebuild, unique) {
        CompletedIsFresh(inputs, now, actions, rebuild, unique, parts);
      }
    } else {
      var s, t :| |s| == |t| && Agrees(s, t, parts) && Storable(rebuild(s), unique) && rebuild(s) != rebuild(t);
      var actions := StaleRun(s, t, now, rebuild, unique, parts);
      assert !FreshAfter(s, now, actions, rebuild, unique);
    }
  }

  // ---------------------------------------------------------------- the job row

  lemma MarkedKeepsFresh(q: Queue, a: Action, rebuild: Rebuilding, unique: bool)
    requires Fresh(q, rebuild, unique, {}) && !a.Unmarked?
    ensures Fresh(Step(q, a, rebuild, unique), rebuild, unique, {})
  {
    NothingIsIgnored(rebuild, unique);
    StepKeepsFresh(q, a, rebuild, unique, {});
  }

  lemma ConflictIs(q: Queue, generation: nat, rows: seq<Row>, unique: bool)
    ensures Conflicts(q, generation, rows, unique) <==>
      unique && ((exists i, j :: 0 <= i < j < |rows| && rows[i].key == rows[j].key)
                 || exists i :: 0 <= i < |rows| && (generation, rows[i].key) in q.stamped)
  {
    if unique && Keys(generation, rows) * q.stamped != {} {
      var k :| k in Keys(generation, rows) * q.stamped;
    }
    forall i | 0 <= i < |rows| && (generation, rows[i].key) in q.stamped ensures Keys(generation, rows) * q.stamped != {} {
      assert (generation, rows[i].key) in Keys(generation, rows) * q.stamped;
    }
  }

  lemma NextKey(generation: nat, rows: seq<Row>, i: nat)
    requires i < |rows|
    ensures Keys(generation, rows[..i + 1]) == Keys(generation, rows[..i]) + {(generation, rows[i].key)}
  {
    forall k | k in Keys(generation, rows[..i]) + {(generation, rows[i].key)} ensures k in Keys(generation, rows[..i + 1]) {
      var j :| 0 <= j <= i && k == (generation, rows[j].key);
      assert rows[..i + 1][j] == rows[j];
    }
  }

  lemma NothingInserted(q: Queue, generation: nat, rows: seq<Row>, unique: bool)
    ensures Keys(generation, rows[..0]) == {} && !Conflicts(q, generation, rows[..0], unique)
  {
  }

  /** The rows up to the next clash exactly when those before do or its key is taken. */
  lemma NextConflict(q: Queue, generation: nat, rows: seq<Row>, i: nat, unique: bool)
    requires i < |rows|
    ensures Conflicts(q, generation, rows[..i + 1], unique)
       <==> Conflicts(q, generation, rows[..i], unique)
            || (unique && (generation, rows[i].key) in q.stamped + Keys(generation, rows[..i]))
  {
    NextKey(generation, rows, i);
    NextStorable(generation, rows, i, unique);
    AddDisjoint(Keys(generation, rows[..i]), (generation, rows[i].key), q.stamped);
    hide Keys, Storable;
  }

  lemma NextStorable(generation: nat, rows: seq<Row>, i: nat, unique: bool)
    requires i < |rows|
    ensures Storable(rows[..i + 1], unique)
       <==> Storable(rows[..i], unique) && (unique ==> (generation, rows[i].key) !in Keys(generation, rows[..i]))
  {
    var s := rows[..i + 1];
    assert forall j :: 0 <= j < i ==> rows[..i][j] == s[j];
    if unique && Storable(rows[..i], true) && (generation, rows[i].key) !in Keys(generation, rows[..i]) {
      forall j, k | 0 <= j < k < |s| ensures s[j].key != s[k].key {
        assert s[j] == rows[..i][j];
        assert (generation, rows[..i][j].key) in Keys(generation, rows[..i]);
      }
    }
  }

  /** A clash among the first rows is one among all. */
  lemma PrefixConflicts(q: Queue, generation: nat, rows: seq<Row>, n: nat, unique: bool)
    requires n <= |rows| && Conflicts(q, generation, rows[..n], unique)
    ensures Conflicts(q, generation, rows, unique)
  {
    var s := rows[..n];
    assert forall j :: 0 <= j < n ==> s[j] == rows[j];
    forall k | k in Keys(generation, s) ensures k in Keys(generation, rows) {
      var j :| 0 <= j < n && k == (generation, s[j].key);
      assert k == (generation, rows[j].key);
    }
  }

  /** The job's statements; `Fresh` is what every one of them keeps when all writes are marked. */
  class RebuildJob {
    var queue: Queue
    const rebuild: Rebuilding
    const unique: bool

    ghost predicate Valid()
      reads this
    {
      Fresh(queue, rebuild, unique, {})
    }

    constructor (inputs: seq<int>, now: int, rebuild: Rebuilding, unique: bool)
      ensures queue == Enqueued(inputs, now) && this.rebuild == rebuild && this.unique == unique && Valid()
    {
      queue := Enqueued(inputs, now);
      this.rebuild := rebuild;
      this.unique := unique;
    }

    /** An input row changes; its transaction bumps the generation and makes the job due. */
    method MarkDirty(part: nat, value: int)
      requires Valid() && part < |queue.inputs|
      modifies this
      ensures queue == Step(old(queue), Action.Write(part, value), rebuild, unique) && Valid()
      ensures queue.inputs == old(queue).inputs[part := value] && queue.generation == old(queue).generation + 1
      ensures queue.status == Pending && queue.due == queue.now == old(queue).now
      ensures queue.workers == old(queue).workers && queue.derived == old(queue).derived && queue.stamped == old(queue).stamped
    {
      MarkedKeepsFresh(queue, Action.Write(part, value), rebuild, unique);
      queue := queue.(inputs := queue.inputs[part := value]);
      queue := queue.(generation := queue.generation + 1, status := Pending, due := queue.now);
    }

    method ClaimDue(worker: nat) returns (generation: Option<nat>)
      requires Valid()
      modifies this
      ensures queue == Step(old(queue), Claim(worker), rebuild, unique) && Valid()
      ensures generation == None <==>
        || old(queue).status == Completed
        || (old(queue).status == Processing && old(queue).now - old(queue).lockedAt <= 300)
        || ((old(queue).status == Pending || old(queue).status == Retrying) && old(queue).due > old(queue).now)
      ensures generation == None ==> queue == old(queue)
      ensures generation.Some? ==> generation.value == old(queue).generation && queue == Taken(old(queue), worker)
    {
      MarkedKeepsFresh(queue, Claim(worker), rebuild, unique);
      if !Claimable(queue) {
        return None;
      }
      generation := Some(queue.generation);
      queue := queue.(status := Processing, lockedAt := queue.now);
      queue := queue.(workers := queue.workers[worker := Work(queue.generation, [])]);
    }

    /** Reads the inputs part by part; other statements may run before and after. */
    method Load(worker: nat)
      requires Valid() && worker in queue.workers && queue.workers[worker].read == []
      modifies this
      ensures Valid() && worker in queue.workers
      ensures queue == old(queue).(workers := old(queue).workers[worker := Work(old(queue).workers[worker].generation, old(queue).inputs)])
    {
      ghost var was := queue;
      while |queue.workers[worker].read| < |queue.inputs|
        invariant worker in queue.workers && Valid() && |queue.workers[worker].read| <= |was.inputs|
        invariant queue == was.(workers := was.workers[worker := Work(was.workers[worker].generation, was.inputs[..|queue.workers[worker].read|])])
        decreases |queue.inputs| - |queue.workers[worker].read|
      {
        MarkedKeepsFresh(queue, Read(worker), rebuild, unique);
        var work := queue.workers[worker];
        ghost var n := |work.read|;
        assert was.inputs[..n] + [was.inputs[n]] == was.inputs[..n + 1];
        queue := queue.(workers := queue.workers[worker := Work(work.generation, work.read + [queue.inputs[|work.read|]])]);
      }
      assert was.inputs[..|was.inputs|] == was.inputs;
    }

    /** Replaces the stored rows and settles the status by the generation; false when a row already exists. */
    method Persist(worker: nat) returns (ok: bool)
      requires Valid() && worker in queue.workers && |queue.workers[worker].read| == |queue.inputs|
      modifies this
      ensures queue == Step(old(queue), Action.Persist(worker), rebuild, unique) && Valid()
      ensures var rows, generation := rebuild(old(queue).workers[worker].read), old(queue).workers[worker].generation;
        ok <==> (unique ==>
          && (forall i, j :: 0 <= i < j < |rows| ==> rows[i].key != rows[j].key)
          && (forall i :: 0 <= i < |rows| ==> (generation, rows[i].key) !in old(queue).stamped))
      ensures ok ==> queue.derived == rebuild(old(queue).workers[worker].read)
      ensures ok ==> (queue.status == Completed <==> old(queue).workers[worker].generation == old(queue).generation)
      ensures ok ==> queue.status in {Completed, Pending} && worker !in queue.workers
      ensures !ok ==> queue == old(queue)
    {
      MarkedKeepsFresh(queue, Action.Persist(worker), rebuild, unique);
      var work := queue.workers[worker];
      var rows := rebuild(work.read);
      ConflictIs(queue, work.generation, rows, unique);
      hide Conflicts, Keys, Fresh;
      var stored: seq<Row> := [];
      NothingInserted(queue, work.generation, rows, unique);
      var taken := queue.stamped;
      for i := 0 to |rows|
        invariant queue == old(queue) && stored == rows[..i] && taken == queue.stamped + Keys(work.generation, rows[..i])
        invariant !Conflicts(queue, work.generation, rows[..i], unique)
      {
        NextKey(work.generation, rows, i);
        NextConflict(queue, work.generation, rows, i, unique);
        if unique && (work.generation, rows[i].key) in taken {
          PrefixConflicts(queue, work.generation, rows, i + 1, unique);
          return false;
        }
        taken := taken + {(work.generation, rows[i].key)};
        stored := stored + [rows[i]];
      }
      assert rows[..|rows|] == rows;
      queue := queue.(derived := stored, status := if queue.generation == work.generation then Completed else Pending,
                      workers := queue.workers - {worker}, stamped := taken);
      ok := true;
    }

    method Retry(worker: nat, delay: nat)
      requires Valid() && worker in queue.workers
      modifies this
      ensures queue == Step(old(queue), Action.Retry(worker, delay), rebuild, unique) && Valid()
      ensures queue == old(queue).(status := Retrying, due := old(queue).now + delay, workers := old(queue).workers - {worker})
    {
      MarkedKeepsFresh(queue, Action.Retry(worker, delay), rebuild, unique);
      queue := queue.(status := Retrying, due := queue.now + delay, workers := queue.workers - {worker});
    }
  }
}
