/** What holds of whole signal histories: no lookahead, hysteresis, the transition log. */
module SignalHistory {
  import opened Wrappers
  import opened Timeline
  import opened Signals
  import DecimalText
  import Quotients

  // ---------------------------------------------------------------- no lookahead

  /** The history as it was known at `cut`: everything stamped later is gone. */
  function Cut(input: Input, cut: int): Input {
    input.(trades := UpTo(input.trades, cut), market := UpTo(input.market, cut),
           positions := UpTo(input.positions, cut))
  }

  lemma CutConsensus(input: Input, cut: int, at: int, window: nat, cfg: Config)
    requires cfg.Usable() && at <= cut
    ensures Consensus(Cut(input, cut), at, window, cfg) == Consensus(input, at, window, cfg)
  {
    hide RatioBig, RatioInt, Weighted, TimingRows, RankRows, OfSide, Qualified, Volume, Signed, SortAges, Ages;
    hide CountKind, Wallets, Closers, UpTo, Between, HasAdded;
    var start := at - 1_000_000 * window;
    ViewsIgnoreTheFuture(input.trades, cut, start, at);
    ViewsIgnoreTheFuture(input.positions, cut, start, at);
  }

  lemma CutAssess(input: Input, cut: int, at: int, s: Summary, cfg: Config)
    requires cfg.Usable() && at <= cut
    ensures Assess(Cut(input, cut), at, s, cfg) == Assess(input, at, s, cfg)
  {
    hide Confidence, Components, Used, Available;
    ViewsIgnoreTheFuture(input.market, cut, at, at);
    ViewsIgnoreTheFuture(input.market, cut, at, at - 900_000_000);
    assert AgeSeconds(Cut(input, cut), at) == AgeSeconds(input, at);
  }

  lemma CutOrigin(input: Input, job: Job, cut: int, at: int)
    requires at <= cut
    ensures Origin(Cut(input, cut), job, at) == Origin(input, job, at)
  {
    ViewsIgnoreTheFuture(input.trades, cut, at, at);
  }

  lemma {:induction false} CutRows(input: Input, job: Job, cfg: Config, cut: int, at: int, windows: seq<nat>)
    requires cfg.Usable() && at <= cut
    ensures ConsensusRows(Cut(input, cut), job, cfg, at, windows) == ConsensusRows(input, job, cfg, at, windows)
  {
    hide Consensus, Origin, Cut;
    if |windows| > 0 {
      CutRows(input, job, cfg, cut, at, windows[..|windows| - 1]);
      CutConsensus(input, cut, at, windows[|windows| - 1], cfg);
      CutOrigin(input, job, cut, at);
    }
  }

  lemma CutAdvance(run: Run, input: Input, job: Job, cfg: Config, cut: int, at: int)
    requires cfg.Usable() && |cfg.windows| > 0 && at <= cut
    ensures Advance(run, Cut(input, cut), job, cfg, at) == Advance(run, input, job, cfg, at)
  {
    hide Consensus, Origin, Cut, Assess, ConsensusRows, NextState;
    CutOrigin(input, job, cut, at);
    CutRows(input, job, cfg, cut, at, cfg.windows);
    var w := cfg.windows[|cfg.windows| - 1];
    CutConsensus(input, cut, at, w, cfg);
    CutAssess(input, cut, at, Consensus(input, at, w, cfg), cfg);
  }

  lemma {:induction false} CutReplay(input: Input, job: Job, cfg: Config, cut: int, points: seq<int>)
    requires cfg.Usable() && |cfg.windows| > 0
    requires forall i :: 0 <= i < |points| ==> points[i] <= cut
    ensures Replay(Cut(input, cut), job, cfg, points) == Replay(input, job, cfg, points)
  {
    hide Advance, Cut;
    if |points| > 0 {
      CutReplay(input, job, cfg, cut, points[..|points| - 1]);
      CutAdvance(Replay(input, job, cfg, points[..|points| - 1]), input, job, cfg, cut, points[|points| - 1]);
    }
  }

  ghost predicate Stamps<T>(s: seq<Timed<T>>, t: int) {
    exists i :: 0 <= i < |s| && s[i].at == t
  }

  lemma {:induction false} UpToStamps<T>(s: seq<Timed<T>>, cut: int, t: int)
    ensures Stamps(UpTo(s, cut), t) <==> Stamps(s, t) && t <= cut
  {
    if Stamps(UpTo(s, cut), t) {
      var i :| 0 <= i < |UpTo(s, cut)| && UpTo(s, cut)[i].at == t;
      UpToKeeps(s, cut, UpTo(s, cut)[i]);
    }
    if Stamps(s, t) && t <= cut {
      var i :| 0 <= i < |s| && s[i].at == t;
      UpToKeeps(s, cut, s[i]);
    }
  }

  lemma PointsAre(input: Input, t: int)
    ensures t in Points(input)
        <==> Stamps(input.trades, t) || Stamps(input.market, t) || Stamps(input.positions, t)
  {
  }

  /** The instants of the cut history are the first instants of the full one. */
  lemma CutPoints(input: Input, cut: int)
    ensures Points(Cut(input, cut)) == Points(input)[..CountUpTo(Points(input), cut)]
  {
    hide Points;
    var full, part := Points(input), Points(Cut(input, cut));
    var head := full[..CountUpTo(full, cut)];
    forall t ensures t in part <==> t in head {
      PointsAre(input, t);
      PointsAre(Cut(input, cut), t);
      UpToStamps(input.trades, cut, t);
      UpToStamps(input.market, cut, t);
      UpToStamps(input.positions, cut, t);
      assert full == head + full[|head|..];
      assert t in full <==> t in head || t in full[|head|..];
    }
    AscendingUnique(part, head);
  }

  /** `part` is exactly what `full` says about the instants up to `cut`, in all three lists. */
  ghost predicate KnownBy(part: Run, full: Run, cut: int) {
    && part.consensus <= full.consensus
    && (forall i :: 0 <= i < |full.consensus| ==> (i < |part.consensus| <==> full.consensus[i].at <= cut))
    && part.signals <= full.signals
    && (forall i :: 0 <= i < |full.signals| ==> (i < |part.signals| <==> full.signals[i].at <= cut))
    && part.transitions <= full.transitions
    && (forall i :: 0 <= i < |full.transitions| ==> (i < |part.transitions| <==> full.transitions[i].at <= cut))
  }

  lemma AdvanceStamps(run: Run, input: Input, job: Job, cfg: Config, at: int)
    requires cfg.Usable() && |cfg.windows| > 0
    ensures var next := Advance(run, input, job, cfg, at);
      && run.consensus <= next.consensus && run.signals <= next.signals && run.transitions <= next.transitions
      && (forall i :: |run.consensus| <= i < |next.consensus| ==> next.consensus[i].at == at)
      && (forall i :: |run.signals| <= i < |next.signals| ==> next.signals[i].at == at)
      && (forall i :: |run.transitions| <= i < |next.transitions| ==> next.transitions[i].at == at)
  {
    hide Consensus, Assess, NextState;
  }

  lemma {:induction false} ReplayIsKnown(input: Input, job: Job, cfg: Config, points: seq<int>, cut: int)
    requires cfg.Usable() && |cfg.windows| > 0 && Ascending(points)
    ensures KnownBy(Replay(input, job, cfg, points[..CountUpTo(points, cut)]), Replay(input, job, cfg, points), cut)
  {
    hide Advance;
    if |points| == 0 {
      assert points[..0] == points;
    } else {
      var init, at := points[..|points| - 1], points[|points| - 1];
      ReplayIsKnown(input, job, cfg, init, cut);
      AdvanceStamps(Replay(input, job, cfg, init), input, job, cfg, at);
      if at <= cut {
        assert points[..|points|] == points;
        assert CountUpTo(init, cut) == |init| && init[..|init|] == init;
      } else {
        assert points[..CountUpTo(points, cut)] == init[..CountUpTo(init, cut)];
      }
    }
  }

  /** Nothing a history says about an instant depends on what happened after it. */
  lemma NoLookahead(input: Input, job: Job, cfg: Config, cut: int)
    requires cfg.Usable() && |cfg.windows| > 0
    ensures KnownBy(Replay(Cut(input, cut), job, cfg, Points(Cut(input, cut))),
                    Replay(input, job, cfg, Points(input)), cut)
  {
    hide Points, Replay, Cut;
    var points := Points(input);
    CutPoints(input, cut);
    CutReplay(input, job, cfg, cut, points[..CountUpTo(points, cut)]);
    ReplayIsKnown(input, job, cfg, points, cut);
  }

  /** A validated configuration is usable exactly when its weights add up within 32 bits; then no stored history
      can make the engine fail. */
  lemma {:induction false} ValidIsUsable(cfg: Config)
    requires cfg.Valid() && |cfg.weights| == |cfg.timing| == |cfg.tiers| == 5
    ensures cfg.Usable() <==> Total(cfg.weights) <= U32_MAX
    ensures |cfg.windows| > 0
  {
    var i :| 0 <= i < |cfg.weights| && cfg.weights[i] != 0;
    TotalPositive(cfg.weights, i);
  }

  /** Validation alone does not give that: two weights may pass it and overflow their sum. */
  lemma ValidMayOverflow(cfg: Config, weight: nat, other: nat)
    requires cfg.Valid() && 0 < weight <= U32_MAX && other <= U32_MAX && weight + other > U32_MAX
    ensures var c := cfg.(weights := [weight, other, 0, 0, 0]);
      c.Valid() && !c.Usable()
  {
    var weights := [weight, other, 0, 0, 0];
    assert weights[0] != 0;
    TotalAtLeast(weights, 2);
    var two, one := weights[..2], weights[..1];
    assert two[..1] == one && one[..0] == [];
    assert Total(one) == Total(one[..0]) + weight;
    assert Total(two) == Total(one) + other;
  }

  lemma {:induction false} TotalAtLeast(weights: seq<nat>, k: nat)
    requires k <= |weights|
    ensures Total(weights[..k]) <= Total(weights)
  {
    if k == |weights| {
      assert weights[..k] == weights;
    } else {
      var init := weights[..|weights| - 1];
      TotalAtLeast(init, k);
      assert init[..k] == weights[..k];
    }
  }

  lemma {:induction false} TotalPositive(weights: seq<nat>, i: nat)
    requires i < |weights| && weights[i] > 0
    ensures Total(weights) > 0
  {
    if i < |weights| - 1 { TotalPositive(weights[..|weights| - 1], i); }
  }

  // ---------------------------------------------------------------- hysteresis

  function StateBefore(signals: seq<Signal>, i: nat): State
    requires i <= |signals|
  {
    if i == 0 then NoSignal else signals[i - 1].state
  }

  /** Signal `i` follows from signal `i - 1` by one step of the streak counters and the automaton. */
  ghost predicate Linked(signals: seq<Signal>, cfg: Config, i: nat)
    requires i < |signals|
  {
    var g := signals[i];
    && g.strongStreak == StrongStreak(if i == 0 then 0 else signals[i - 1].strongStreak, g.facts, cfg)
    && g.highStreak == HighStreak(if i == 0 then 0 else signals[i - 1].highStreak, g.facts, cfg)
    && g.state == NextState(StateBefore(signals, i), g.strongStreak, g.highStreak, g.summary, g.facts, cfg)
  }

  ghost predicate AllLinked(signals: seq<Signal>, cfg: Config) {
    forall i :: 0 <= i < |signals| ==> Linked(signals, cfg, i)
  }

  lemma {:induction false} ReplayLinked(input: Input, job: Job, cfg: Config, points: seq<int>)
    requires cfg.Usable() && |cfg.windows| > 0
    ensures var run := Replay(input, job, cfg, points);
      && AllLinked(run.signals, cfg)
      && |run.signals| == |points|
      && (forall i :: 0 <= i < |points| ==> run.signals[i].at == points[i])
      && run.state == StateBefore(run.signals, |run.signals|)
      && run.strongStreak == (if |points| == 0 then 0 else run.signals[|points| - 1].strongStreak)
      && run.highStreak == (if |points| == 0 then 0 else run.signals[|points| - 1].highStreak)
  {
    hide Consensus, Assess, NextState, Origin, ConsensusRows, StrongStreak, HighStreak;
    if |points| > 0 {
      var n := |points| - 1;
      ReplayLinked(input, job, cfg, points[..n]);
      var before, run := Replay(input, job, cfg, points[..n]), Replay(input, job, cfg, points);
      forall i | 0 <= i < |points| ensures Linked(run.signals, cfg, i) {
        if i < n { assert Linked(before.signals, cfg, i); }
      }
    }
  }

  /** Signal `n` is about instant `n` as the longest window summarises it. */
  ghost predicate Tells(g: Signal, input: Input, job: Job, cfg: Config, at: int)
    requires cfg.Usable() && |cfg.windows| > 0
  {
    && g.at == at && g.summary == Consensus(input, at, cfg.windows[|cfg.windows| - 1], cfg)
    && g.facts == Assess(input, at, g.summary, cfg)
    && (g.origin, g.realtime) == Origin(input, job, at)
  }

  lemma {:induction false} SignalsTell(input: Input, job: Job, cfg: Config, points: seq<int>)
    requires cfg.Usable() && |cfg.windows| > 0
    ensures var signals := Replay(input, job, cfg, points).signals;
      |signals| == |points| && forall i :: 0 <= i < |points| ==> Tells(signals[i], input, job, cfg, points[i])
  {
    hide Consensus, Assess, NextState, Origin, ConsensusRows, StrongStreak, HighStreak;
    if |points| > 0 {
      var n := |points| - 1;
      SignalsTell(input, job, cfg, points[..n]);
      var before, signals := Replay(input, job, cfg, points[..n]).signals, Replay(input, job, cfg, points).signals;
      forall i | 0 <= i < |points| ensures Tells(signals[i], input, job, cfg, points[i]) {
        if i < n { assert Tells(before[i], input, job, cfg, points[..n][i]); }
      }
    }
  }

  /** Instant `n` adds one consensus row per window, behind those of the instants before it. */
  lemma {:induction false} RowPerWindow(input: Input, job: Job, cfg: Config, points: seq<int>, n: nat, w: nat)
    requires cfg.Usable() && n < |points| && w < |cfg.windows|
    ensures var earlier, rows := Replay(input, job, cfg, points[..n]).consensus, Replay(input, job, cfg, points).consensus;
      && earlier <= rows && |earlier| + w < |rows|
      && (n == |points| - 1 ==> |rows| == |earlier| + |cfg.windows|)
      && var (origin, realtime) := Origin(input, job, points[n]);
      && rows[|earlier| + w]
        == ConsensusRow(points[n], cfg.windows[w], Consensus(input, points[n], cfg.windows[w], cfg), origin, realtime)
  {
    hide Consensus, Assess, NextState, Origin, StrongStreak, HighStreak, ConsensusRows;
    var init := points[..|points| - 1];
    if n < |init| {
      RowPerWindow(input, job, cfg, init, n, w);
      assert init[..n] == points[..n];
    } else {
      WindowRow(input, job, cfg, points[n], cfg.windows, w);
    }
  }

  lemma {:induction false} WindowRow(input: Input, job: Job, cfg: Config, at: int, windows: seq<nat>, w: nat)
    requires cfg.Usable() && w < |windows|
    ensures var (origin, realtime) := Origin(input, job, at);
      ConsensusRows(input, job, cfg, at, windows)[w] == ConsensusRow(at, windows[w], Consensus(input, at, windows[w], cfg), origin, realtime)
  {
    hide Consensus, Origin;
    if w < |windows| - 1 {
      WindowRow(input, job, cfg, at, windows[..|windows| - 1], w);
    }
  }

  /** A streak is the length of the unbroken block of qualifying instants ending here. */
  lemma {:induction false} StreaksCount(signals: seq<Signal>, cfg: Config, i: nat)
    requires AllLinked(signals, cfg) && i < |signals|
    ensures var k := signals[i].strongStreak;
      && k <= i + 1
      && (forall j :: i - k < j <= i ==> signals[j].facts.score >= cfg.strong)
      && (k <= i ==> signals[i - k].facts.score < cfg.strong)
    ensures var k := signals[i].highStreak;
      && k <= i + 1
      && (forall j :: i - k < j <= i ==> signals[j].facts.score >= cfg.high && signals[j].facts.highRule)
      && (k <= i ==> !(signals[i - k].facts.score >= cfg.high && signals[i - k].facts.highRule))
  {
    assert Linked(signals, cfg, i);
    if i > 0 { StreaksCount(signals, cfg, i - 1); }
  }

  lemma {:induction false} HighWithinStrong(signals: seq<Signal>, cfg: Config, i: nat)
    requires AllLinked(signals, cfg) && i < |signals| && cfg.strong < cfg.high
    ensures signals[i].highStreak <= signals[i].strongStreak
  {
    assert Linked(signals, cfg, i);
    if i > 0 { HighWithinStrong(signals, cfg, i - 1); }
  }

  ghost predicate Enters(signals: seq<Signal>, i: nat, state: State)
    requires i < |signals|
  {
    signals[i].state == state && StateBefore(signals, i) != state
  }

  ghost predicate MeetsHigh(g: Signal, cfg: Config) {
    g.facts.score >= cfg.high && g.facts.highRule
  }

  /** Which states each state may be entered from, and on what evidence. */
  lemma EntryRules(signals: seq<Signal>, cfg: Config, i: nat)
    requires AllLinked(signals, cfg) && i < |signals|
    ensures Enters(signals, i, HighPriority) ==>
      i >= 2 && signals[i - 1].state == StrongWatch && MeetsHigh(signals[i - 1], cfg) && MeetsHigh(signals[i], cfg)
    ensures Enters(signals, i, StrongWatch) ==>
      && i >= 1 && (signals[i - 1].state == Watch || signals[i - 1].state == Cooling)
      && signals[i - 1].facts.score >= cfg.strong && signals[i].facts.score >= cfg.strong
    ensures Enters(signals, i, Cooling) ==> i >= 1 && signals[i - 1].state == HighPriority
    ensures Enters(signals, i, Closed) ==> i >= 1 && signals[i - 1].state == Distribution
    ensures Enters(signals, i, Distribution) ==> signals[i].facts.distribution
    ensures !Enters(signals, i, NoSignal)
  {
    assert Linked(signals, cfg, i);
    StreaksCount(signals, cfg, i);
    if i > 0 { assert Linked(signals, cfg, i - 1); }
    if i == 1 { StreaksCount(signals, cfg, 0); }
  }

  ghost predicate StrongTwice(signals: seq<Signal>, cfg: Config, i: nat)
    requires i < |signals|
  {
    i > 0 && signals[i - 1].facts.score >= cfg.strong && signals[i].facts.score >= cfg.strong
  }

  ghost predicate HighTwice(signals: seq<Signal>, cfg: Config, i: nat)
    requires i < |signals|
  {
    i > 0 && MeetsHigh(signals[i - 1], cfg) && MeetsHigh(signals[i], cfg)
  }

  /** When a signal that has lost its evidence cools. */
  predicate Cools(g: Signal, cfg: Config) {
    g.facts.score < cfg.cooling || g.summary.walletExit >= cfg.coolingExit || g.summary.buy <= g.summary.sell
  }

  /** The state of signal `i`, from the state before it and the evidence of at most two instants. */
  ghost predicate Follows(signals: seq<Signal>, cfg: Config, i: nat)
    requires i < |signals|
  {
    var g, before := signals[i], StateBefore(signals, i);
    if before == Distribution then
      g.state == if g.summary.walletExit >= 1.0 && g.summary.buy <= g.summary.sell then Closed else Distribution
    else if g.facts.distribution then g.state == Distribution
    else
      && (before == NoSignal ==> g.state == if g.facts.score >= cfg.watch && g.summary.qualified > 0 then Watch else NoSignal)
      && (before == Watch ==> g.state == if StrongTwice(signals, cfg, i) then StrongWatch else Watch)
      && (before == StrongWatch ==> g.state == if HighTwice(signals, cfg, i) then HighPriority else StrongWatch)
      && (before == HighPriority ==> g.state == if Cools(g, cfg) then Cooling else HighPriority)
      && (before == Cooling ==>
            g.state == if StrongTwice(signals, cfg, i) && g.summary.walletExit < cfg.coolingExit then StrongWatch else Cooling)
      && (before == Closed ==> g.state == Closed)
  }

  /** When each state is entered and left, without streak counters. */
  lemma StatesFollow(signals: seq<Signal>, cfg: Config, i: nat)
    requires AllLinked(signals, cfg) && i < |signals|
    requires SignedPositive(signals[i].summary.net) <==> signals[i].summary.buy > signals[i].summary.sell
    ensures Follows(signals, cfg, i)
  {
    hide SignedPositive;
    assert Linked(signals, cfg, i);
    StreaksCount(signals, cfg, i);
    if i > 0 { assert Linked(signals, cfg, i - 1); }
    if i == 1 { StreaksCount(signals, cfg, 0); }
  }

  /** Every history the engine writes is the run of that table. */
  lemma HistoryFollows(input: Input, job: Job, cfg: Config, i: nat)
    requires cfg.Usable() && |cfg.windows| > 0 && i < |Points(input)|
    ensures var signals := Replay(input, job, cfg, Points(input)).signals;
      |signals| == |Points(input)| && Follows(signals, cfg, i)
  {
    hide Points, Replay, Linked, Follows, Consensus, Assess, Origin, Signed, SignedPositive;
    ReplayLinked(input, job, cfg, Points(input));
    SignalsTell(input, job, cfg, Points(input));
    var signals := Replay(input, job, cfg, Points(input)).signals;
    assert Tells(signals[i], input, job, cfg, Points(input)[i]);
    NetAgrees(input, signals[i].at, cfg.windows[|cfg.windows| - 1], cfg);
    StatesFollow(signals, cfg, i);
  }

  lemma NetAgrees(input: Input, at: int, window: nat, cfg: Config)
    requires cfg.Usable()
    ensures var s := Consensus(input, at, window, cfg);
      SignedPositive(s.net) <==> s.buy > s.sell
  {
    hide OfSide, Between, Qualified, Wallets, Volume, CountKind, Signed, SortAges, Ages, Weighted, TimingRows, RankRows, WalletExit, RatioBig, SignedPositive;
    var s := Consensus(input, at, window, cfg);
    assert s.net == Signed(s.buy, s.sell);
    SignedAgrees(s.buy, s.sell);
  }

  predicate Exited(s: State) {
    s == Distribution || s == Closed
  }

  /** Once distribution has begun a history never leaves {DISTRIBUTION, CLOSED}; nothing returns to NO_SIGNAL. */
  lemma {:induction false} ExitIsFinal(signals: seq<Signal>, cfg: Config, i: nat, j: nat)
    requires AllLinked(signals, cfg) && i <= j < |signals|
    ensures Exited(signals[i].state) ==> Exited(signals[j].state)
    ensures signals[i].state != NoSignal ==> signals[j].state != NoSignal
  {
    assert Linked(signals, cfg, j);
    if i < j { ExitIsFinal(signals, cfg, i, j - 1); }
  }

  /** The guarantees above for every history the engine writes. */
  lemma HistoryHysteresis(input: Input, job: Job, cfg: Config, i: nat, j: nat)
    requires cfg.Usable() && cfg.Valid() && i <= j < |Points(input)|
    ensures var signals := Replay(input, job, cfg, Points(input)).signals;
      && |signals| == |Points(input)|
      && (Enters(signals, j, HighPriority) ==>
            && j >= 2 && signals[j - 1].state == StrongWatch
            && MeetsHigh(signals[j - 1], cfg) && MeetsHigh(signals[j], cfg))
      && (Enters(signals, j, Closed) ==> j >= 1 && signals[j - 1].state == Distribution)
      && signals[j].highStreak <= signals[j].strongStreak
      && (Exited(signals[i].state) ==> Exited(signals[j].state))
      && (signals[i].state != NoSignal ==> signals[j].state != NoSignal)
  {
    hide Points, Replay, Linked;
    ReplayLinked(input, job, cfg, Points(input));
    var signals := Replay(input, job, cfg, Points(input)).signals;
    EntryRules(signals, cfg, j);
    HighWithinStrong(signals, cfg, j);
    ExitIsFinal(signals, cfg, i, j);
  }

  // ---------------------------------------------------------------- the transition log

  /** The state reached by replaying the logged transitions up to signal `i`. */
  function StateAfter(transitions: seq<Transition>, i: int): State {
    if |transitions| == 0 then NoSignal
    else
      var last := transitions[|transitions| - 1];
      if last.index <= i then last.to else StateAfter(transitions[..|transitions| - 1], i)
  }

  /** The entry carries the instant, the scores and the origin of the signal. */
  ghost predicate SameEvidence(t: Transition, g: Signal) {
    t.at == g.at && t.score == g.facts.score && t.confidence == g.facts.confidence && t.origin == g.origin && t.realtime == g.realtime
  }

  /** Each entry records one change of state, at the signal where it happened. */
  ghost predicate EntriesMatch(transitions: seq<Transition>, signals: seq<Signal>) {
    forall j :: 0 <= j < |transitions| ==>
      && transitions[j].index < |signals|
      && transitions[j].from == StateBefore(signals, transitions[j].index)
      && transitions[j].to == signals[transitions[j].index].state
      && transitions[j].from != transitions[j].to
      && SameEvidence(transitions[j], signals[transitions[j].index])
  }

  function EndOf(transitions: seq<Transition>): State {
    if |transitions| == 0 then NoSignal else transitions[|transitions| - 1].to
  }

  /** Where the first `j` entries end. */
  function EndBefore(transitions: seq<Transition>, j: nat): State
    requires j <= |transitions|
  {
    if j == 0 then NoSignal else transitions[j - 1].to
  }

  /** The entries form one path from NO_SIGNAL through strictly later signals. */
  ghost predicate OnePath(transitions: seq<Transition>) {
    Later(transitions) && Connected(transitions)
  }

  ghost predicate Later(transitions: seq<Transition>) {
    forall j, k :: 0 <= j < k < |transitions| ==> transitions[j].index < transitions[k].index
  }

  ghost predicate Connected(transitions: seq<Transition>) {
    forall j :: 0 <= j < |transitions| ==> transitions[j].from == EndBefore(transitions, j)
  }

  /** Replaying the log gives back the state of every signal. */
  ghost predicate Reconstructs(transitions: seq<Transition>, signals: seq<Signal>) {
    forall i :: 0 <= i < |signals| ==> StateAfter(transitions, i) == signals[i].state
  }

  ghost predicate LogMatches(transitions: seq<Transition>, signals: seq<Signal>) {
    EntriesMatch(transitions, signals) && OnePath(transitions) && Reconstructs(transitions, signals)
  }

  lemma ExtendSignals(transitions: seq<Transition>, signals: seq<Signal>, g: Signal)
    requires LogMatches(transitions, signals) && g.state == EndOf(transitions)
    ensures LogMatches(transitions, signals + [g])
  {
    assert forall i :: 0 <= i < |signals| ==> StateBefore(signals + [g], i) == StateBefore(signals, i);
    if |transitions| > 0 { assert transitions[|transitions| - 1].index < |signals|; }
  }

  lemma ExtendPath(transitions: seq<Transition>, t: Transition)
    requires OnePath(transitions) && t.from == EndOf(transitions)
    requires |transitions| > 0 ==> transitions[|transitions| - 1].index < t.index
    ensures OnePath(transitions + [t])
  {
    ExtendLater(transitions, t);
    ExtendConnected(transitions, t);
  }

  lemma ExtendLater(transitions: seq<Transition>, t: Transition)
    requires Later(transitions)
    requires |transitions| > 0 ==> transitions[|transitions| - 1].index < t.index
    ensures Later(transitions + [t])
  {
    var n, log := |transitions|, transitions + [t];
    forall j, k | 0 <= j < k < |log| ensures log[j].index < log[k].index {
      Extended(transitions, t, j);
      Extended(transitions, t, k);
      if k == n && j < n - 1 {
        assert transitions[j].index < transitions[n - 1].index;
      }
    }
  }

  lemma ExtendConnected(transitions: seq<Transition>, t: Transition)
    requires Connected(transitions) && t.from == EndOf(transitions)
    ensures Connected(transitions + [t])
  {
    var log := transitions + [t];
    forall j | 0 <= j < |log| ensures log[j].from == EndBefore(log, j) {
      Extended(transitions, t, j);
      if j > 0 {
        Extended(transitions, t, j - 1);
      }
      if j < |transitions| {
        assert transitions[j].from == EndBefore(transitions, j);
      }
    }
  }

  lemma Extended(transitions: seq<Transition>, t: Transition, j: nat)
    requires j <= |transitions|
    ensures (transitions + [t])[j] == if j < |transitions| then transitions[j] else t
  {
  }

  lemma ExtendReplay(transitions: seq<Transition>, signals: seq<Signal>, g: Signal, t: Transition)
    requires Reconstructs(transitions, signals) && t.index == |signals| && t.to == g.state
    ensures Reconstructs(transitions + [t], signals + [g])
  {
    hide StateAfter;
    var all := signals + [g];
    forall i | 0 <= i < |all| ensures StateAfter(transitions + [t], i) == all[i].state {
      StateWithLast(transitions, t, i);
      if i < |signals| {
        assert StateAfter(transitions, i) == signals[i].state && all[i] == signals[i];
      }
    }
  }

  lemma StateWithLast(transitions: seq<Transition>, t: Transition, i: int)
    ensures StateAfter(transitions + [t], i) == if t.index <= i then t.to else StateAfter(transitions, i)
  {
    var log := transitions + [t];
    assert log[..|log| - 1] == transitions && log[|log| - 1] == t;
  }

  lemma ExtendLog(transitions: seq<Transition>, signals: seq<Signal>, g: Signal, t: Transition)
    requires LogMatches(transitions, signals) && EndOf(transitions) == StateBefore(signals, |signals|)
    requires t.index == |signals| && SameEvidence(t, g) && t.from == EndOf(transitions) != t.to == g.state
    ensures LogMatches(transitions + [t], signals + [g])
  {
    hide OnePath, Reconstructs, StateAfter;
    assert forall i :: 0 <= i <= |signals| ==> StateBefore(signals + [g], i) == StateBefore(signals, i);
    ExtendPath(transitions, t);
    ExtendReplay(transitions, signals, g, t);
  }

  lemma LogEndsAtState(transitions: seq<Transition>, signals: seq<Signal>)
    requires LogMatches(transitions, signals)
    ensures StateBefore(signals, |signals|) == EndOf(transitions)
  {
    if |signals| > 0 {
      assert StateAfter(transitions, |signals| - 1) == signals[|signals| - 1].state;
    }
  }

  lemma {:induction false} TransitionLog(input: Input, job: Job, cfg: Config, points: seq<int>)
    requires cfg.Usable() && |cfg.windows| > 0
    ensures var run := Replay(input, job, cfg, points); LogMatches(run.transitions, run.signals)
  {
    hide Consensus, Assess, NextState, Origin, ConsensusRows, LogMatches, StrongStreak, HighStreak;
    if |points| == 0 {
      EmptyLog();
    } else {
      var before, run := Replay(input, job, cfg, points[..|points| - 1]), Replay(input, job, cfg, points);
      TransitionLog(input, job, cfg, points[..|points| - 1]);
      ReplayLinked(input, job, cfg, points[..|points| - 1]);
      LogEndsAtState(before.transitions, before.signals);
      var g := run.signals[|before.signals|];
      var t := Transition(|before.signals|, g.at, before.state, g.state, g.facts.score, g.facts.confidence, g.origin, g.realtime);
      assert run.signals == before.signals + [g];
      if g.state == before.state {
        assert run.transitions == before.transitions;
        ExtendSignals(before.transitions, before.signals, g);
      } else {
        ExtendLog(before.transitions, before.signals, g, t);
      }
    }
  }

  lemma EmptyLog()
    ensures LogMatches([], [])
  {
  }

  /** The transitions `persist` announces in the outbox. */
  function Announced(transitions: seq<Transition>): (r: seq<Transition>)
    ensures forall i :: 0 <= i < |r| ==> r[i].realtime && r[i] in transitions
    ensures forall i :: 0 <= i < |transitions| && transitions[i].realtime ==> transitions[i] in r
  {
    if |transitions| == 0 then []
    else
      var init, last := Announced(transitions[..|transitions| - 1]), transitions[|transitions| - 1];
      if last.realtime then init + [last] else init
  }

  lemma OriginIsTheTrigger(input: Input, job: Job, at: int)
    ensures Origin(input, job, at).1 <==> job.eligible && job.trigger == Some(at) && Origin(input, job, at).0 == "LIVE"
  {
  }

  lemma RealtimeIsTheTrigger(input: Input, job: Job, cfg: Config, points: seq<int>)
    requires cfg.Usable() && |cfg.windows| > 0
    ensures var signals := Replay(input, job, cfg, points).signals;
      forall i :: 0 <= i < |signals| ==>
        (signals[i].realtime <==> job.eligible && job.trigger == Some(signals[i].at) && signals[i].origin == "LIVE")
  {
    hide Consensus, Assess, Origin, Replay;
    SignalsTell(input, job, cfg, points);
    var signals := Replay(input, job, cfg, points).signals;
    forall i | 0 <= i < |signals|
      ensures signals[i].realtime <==> job.eligible && job.trigger == Some(signals[i].at) && signals[i].origin == "LIVE"
    {
      assert Tells(signals[i], input, job, cfg, points[i]);
      OriginIsTheTrigger(input, job, points[i]);
    }
  }

  lemma {:induction false} AnnouncedOnce(transitions: seq<Transition>, trigger: Option<int>)
    requires forall j, k :: 0 <= j < k < |transitions| ==> transitions[j].at < transitions[k].at
    requires forall j :: 0 <= j < |transitions| && transitions[j].realtime ==> trigger == Some(transitions[j].at)
    ensures |Announced(transitions)| <= 1
  {
    if |transitions| > 0 {
      var init := transitions[..|transitions| - 1];
      AnnouncedOnce(init, trigger);
      var last, earlier := transitions[|transitions| - 1], Announced(init);
      assert forall t :: t in init ==> t.at < last.at && (t.realtime ==> trigger == Some(t.at));
      assert |earlier| == 0 || earlier[0] in init;
    }
  }

  /** One rebuild appends at most one signal event to the outbox. */
  lemma OneEventPerRebuild(input: Input, job: Job, cfg: Config)
    requires cfg.Usable() && |cfg.windows| > 0
    ensures |Announced(Replay(input, job, cfg, Points(input)).transitions)| <= 1
  {
    hide Points, Replay, Announced;
    var points := Points(input);
    var run := Replay(input, job, cfg, points);
    TransitionLog(input, job, cfg, points);
    ReplayLinked(input, job, cfg, points);
    RealtimeIsTheTrigger(input, job, cfg, points);
    AnnouncedOnce(run.transitions, job.trigger);
  }

  // ---------------------------------------------------------------- scores

  ghost predicate Percentages(components: seq<Option<real>>) {
    forall i :: 0 <= i < |components| && components[i].Some? ==> 0.0 <= components[i].value <= 100.0
  }

  lemma MassBound(component: Option<real>, w: nat)
    requires component.Some? ==> 0.0 <= component.value <= 100.0
    ensures 0.0 <= Mass(component, w) <= 100.0 * (if component.Some? then w else 0) as real
  {
    if component.Some? {
      assert component.value * w as real >= 0.0;
      assert (100.0 - component.value) * w as real >= 0.0;
    }
  }

  lemma {:induction false} UsedIsWeighted(components: seq<Option<real>>, weights: seq<nat>)
    requires |components| == |weights| && Percentages(components)
    ensures 0.0 <= Used(components, weights) <= 100.0 * Available(components, weights) as real
  {
    hide Mass;
    if |weights| > 0 {
      var n := |weights| - 1;
      var c, w := components[..n], weights[..n];
      UsedIsWeighted(c, w);
      MassBound(components[n], weights[n]);
      assert Available(components, weights) as real
          == Available(c, w) as real + (if components[n].Some? then weights[n] else 0) as real;
    }
  }

  lemma {:induction false} AvailableWithinTotal(components: seq<Option<real>>, weights: seq<nat>)
    requires |components| == |weights|
    ensures Available(components, weights) <= Total(weights)
  {
    if |weights| > 0 { AvailableWithinTotal(components[..|weights| - 1], weights[..|weights| - 1]); }
  }

  lemma AverageIsPercentage(used: real, total: nat)
    requires total > 0 && 0.0 <= used <= 100.0 * total as real
    ensures 0.0 <= used / total as real <= 100.0
  {
    var t := total as real;
    assert used / t <= (100.0 * t) / t;
  }

  lemma ShareIsPercentage(part: nat, total: nat)
    requires part <= total && total > 0
    ensures 0.0 <= part as real / total as real * 100.0 <= 100.0
  {
    var share := part as real / total as real;
    assert share * total as real == part as real;
    assert total as real == 1.0 * total as real && 0.0 * total as real == 0.0;
    Quotients.Cancel(1.0, share, total as real);
    Quotients.Cancel(share, 0.0, total as real);
  }

  /** Scores and confidences always satisfy the 0..100 checks of the tables they are stored in. */
  lemma ScoresArePercentages(input: Input, at: int, s: Summary, cfg: Config)
    requires cfg.Usable()
    ensures 0.0 <= Assess(input, at, s, cfg).score <= 100.0
    ensures 0.0 <= Assess(input, at, s, cfg).confidence <= 100.0
  {
    hide Used, Available, Total, SignedPositive, AgeSeconds, Latest, UpTo, Clamp;
    var facts := Assess(input, at, s, cfg);
    var components := Components(s, facts.latest, facts.previous);
    assert Percentages(components);
    UsedIsWeighted(components, cfg.weights);
    AvailableWithinTotal(components, cfg.weights);
    var total := Available(components, cfg.weights);
    if total > 0 { AverageIsPercentage(Used(components, cfg.weights), total); }
    ShareIsPercentage(total, Total(cfg.weights));
  }

  /** The stored sign test agrees with the volumes it was written from. */
  lemma SignedAgrees(a: nat, b: nat)
    ensures SignedPositive(Signed(a, b)) <==> a > b
  {
    if a >= b {
      DecimalText.ToTextDigits(a - b);
      assert DecimalText.ToText(0) == "0";
    }
  }

  /** The truncated quotient is within a millionth of the exact one exactly when it is representable. */
  lemma RatioBigAccuracy(a: nat, b: nat)
    requires b > 0
    ensures RatioBig(a, b) <= a as real / b as real < RatioBig(a, b) + 0.000001
        <==> a * 1_000_000 / b <= DECIMAL_MAX
  {
    var scaled := Quotients.Floor(a * 1_000_000, b);
    Quotients.FloorBounds(a * 1_000_000, b);
    Quotients.ScaledQuotient(a, b, 1_000_000);
    if scaled > DECIMAL_MAX { assert RatioBig(a, b) == 0.0; }
  }

  /** The limits are those of 96-bit decimals and 32-bit weights. */
  lemma Limits()
    ensures DECIMAL_MAX + 1 == 0x1_0000_0000_0000_0000_0000_0000 && U32_MAX + 1 == 0x1_0000_0000
  {
  }

  /** Such ratios exist for every divisor, and read as zero. */
  lemma UnrepresentableReadsZero(b: nat)
    requires b > 0
    ensures var a := b * (DECIMAL_MAX + 1);
      RatioBig(a, b) == 0.0 && a as real / b as real > 0.0
  {
    var a, scaled := b * (DECIMAL_MAX + 1), (DECIMAL_MAX + 1) * 1_000_000;
    ProductsAgree(b, DECIMAL_MAX + 1, 1_000_000);
    Quotients.FloorOfMultiple(scaled, b);
    Quotients.QuotientIsPositive(a, b);
  }

  lemma ProductsAgree(a: nat, b: nat, c: nat)
    ensures a * b * c == b * c * a
  {
  }
}
