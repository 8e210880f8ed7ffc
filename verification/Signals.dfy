/**
  The signal engine: a token's history is replayed instant by instant, each instant being
  summarised over several trailing windows, scored, and fed to a seven-state automaton.

  `Consensus`, `Assess`, `NextState` and `Advance` say what one instant means; the methods
  `ConsensusAt` and `Evaluate` are the engine's loops, proved to compute exactly that.
*/
module Signals {
  import opened Wrappers
  import opened Timeline
  import DecimalText
  import Sorting

  type Wallet = nat

  /** Greatest integer a 96-bit decimal can hold. */
  const DECIMAL_MAX := 79228162514264337593543950335
  const NO_AGE := 9223372036854775807
  const U32_MAX := 4294967295

  datatype Side = Buy | Sell

  datatype Trade = Trade(
    id: nat, wallet: Wallet, side: Side, quote: Option<nat>, launchAge: Option<int>,
    buyerRank: Option<int>, smartRank: Option<int>, source: string, identity: Option<real>,
    tier: Option<string>, confirmed: bool)

  datatype Snapshot = Snapshot(
    uniqueBuyers: int, buyCount: int, sellCount: int, netFlow: Option<real>,
    holderCount: int, progress: Option<real>, blockExact: bool, integrityOk: bool)

  datatype PositionKind = Open | Add | Reduce | Close | IntegrityWarning

  datatype PositionEvent = PositionEvent(kind: PositionKind, wallet: Wallet)

  datatype Input = Input(
    launch: int, trades: seq<Timed<Trade>>, market: seq<Timed<Snapshot>>,
    positions: seq<Timed<PositionEvent>>)

  datatype Job = Job(trigger: Option<int>, eligible: bool)

  datatype Config = Config(
    windows: seq<nat>, minimumIndependent: int, minimumQualified: int, minimumIdentity: real,
    watch: real, strong: real, high: real, cooling: real, coolingExit: real,
    distributionExit: real, minimumConfidence: real, highMaxAge: int,
    weights: seq<nat>, timing: seq<real>, tiers: seq<real>)
  {
    /** What the array types say, and that the 32-bit sum `evaluate` divides by neither overflows nor is zero. */
    ghost predicate Usable() {
      |weights| == |timing| == |tiers| == 5 && 0 < Total(weights) <= U32_MAX
    }

    /** `SignalEngineConfig::validate`. */
    predicate Valid() {
      && windows == [30, 60, 180, 300, 900]
      && (exists i :: 0 <= i < |weights| && weights[i] != 0)
      && watch < strong < high
    }
  }

  datatype State = NoSignal | Watch | StrongWatch | HighPriority | Cooling | Distribution | Closed

  datatype Summary = Summary(
    raw: nat, qualified: nat, independent: nat, buy: nat, sell: nat, net: string,
    first: Option<int>, median: Option<int>, open: nat, add: nat, reduce: nat, close: nat,
    walletExit: real, quoteExit: real, weighted: real,
    timing: seq<(nat, Option<int>, real)>, rank: seq<(Option<int>, Option<int>, real)>,
    confirmed: bool)

  datatype ConsensusRow = ConsensusRow(
    at: int, window: nat, summary: Summary, origin: string, realtime: bool)

  datatype Assessment = Assessment(
    latest: Option<Timed<Snapshot>>, previous: Option<Timed<Snapshot>>,
    components: seq<Option<real>>, denominator: nat, score: real, confidence: real,
    highRule: bool, distribution: bool)

  datatype Signal = Signal(
    at: int, state: State, summary: Summary, facts: Assessment, strongStreak: nat, highStreak: nat,
    origin: string, realtime: bool)

  datatype Transition = Transition(
    index: nat, at: int, from: State, to: State, score: real, confidence: real,
    origin: string, realtime: bool)

  datatype Run = Run(
    state: State, strongStreak: nat, highStreak: nat,
    consensus: seq<ConsensusRow>, signals: seq<Signal>, transitions: seq<Transition>)

  datatype SignalError = MissingWindow | BadDecimal

  const START := Run(NoSignal, 0, 0, [], [], [])

  // ---------------------------------------------------------------- one window

  function OfSide(s: seq<Timed<Trade>>, side: Side): seq<Timed<Trade>> {
    if |s| == 0 then []
    else
      var init, last := OfSide(s[..|s| - 1], side), s[|s| - 1];
      if last.row.side == side then init + [last] else init
  }

  function Qualified(s: seq<Timed<Trade>>, minimum: real): (r: seq<Timed<Trade>>)
    ensures forall i :: 0 <= i < |r| ==> r[i].row.identity.Some?
  {
    if |s| == 0 then []
    else
      var init, last := Qualified(s[..|s| - 1], minimum), s[|s| - 1];
      if last.row.identity.Some? && last.row.identity.value >= minimum then init + [last] else init
  }

  function Wallets(s: seq<Timed<Trade>>): set<Wallet> {
    set i | 0 <= i < |s| :: s[i].row.wallet
  }

  function Closers(s: seq<Timed<PositionEvent>>): set<Wallet> {
    set i | 0 <= i < |s| && s[i].row.kind == Close :: s[i].row.wallet
  }

  /** Sum of the parsable quote amounts. */
  function Volume(s: seq<Timed<Trade>>): nat {
    if |s| == 0 then 0
    else Volume(s[..|s| - 1]) + (match s[|s| - 1].row.quote case Some(q) => q case None => 0)
  }

  function Ages(s: seq<Timed<Trade>>): seq<int> {
    if |s| == 0 then []
    else Ages(s[..|s| - 1]) + (match s[|s| - 1].row.launchAge case Some(a) => [a] case None => [])
  }

  predicate NotOlder(a: int, b: int) {
    a <= b
  }

  function SortAges(s: seq<int>): seq<int> {
    Sorting.Sort(s, NotOlder)
  }

  function CountKind(s: seq<Timed<PositionEvent>>, kind: PositionKind): nat {
    if |s| == 0 then 0
    else CountKind(s[..|s| - 1], kind) + (if s[|s| - 1].row.kind == kind then 1 else 0)
  }

  function HasAdded(s: seq<Timed<PositionEvent>>, wallet: Wallet): bool {
    exists i :: 0 <= i < |s| && s[i].row.wallet == wallet && s[i].row.kind == Add
  }

  function TimingWeight(age: int, cfg: Config): real
    requires cfg.Usable()
  {
    if age <= 60_000 then cfg.timing[0]
    else if age <= 180_000 then cfg.timing[1]
    else if age <= 300_000 then cfg.timing[2]
    else if age <= 900_000 then cfg.timing[3]
    else cfg.timing[4]
  }

  function RankWeight(rank: Option<int>): real {
    match rank
    case None => 0.40
    case Some(r) => if r <= 10 then 1.0 else if r <= 50 then 0.85 else if r <= 200 then 0.65 else 0.40
  }

  function TierWeight(tier: Option<string>, cfg: Config): real
    requires cfg.Usable()
  {
    if tier == Some("S") then cfg.tiers[0]
    else if tier == Some("A") then cfg.tiers[1]
    else if tier == Some("B") then cfg.tiers[2]
    else if tier == Some("C") then cfg.tiers[3]
    else cfg.tiers[4]
  }

  function AgeOf(t: Trade): int {
    match t.launchAge case Some(a) => a case None => NO_AGE
  }

  function Contribution(t: Trade, past: seq<Timed<PositionEvent>>, cfg: Config): real
    requires cfg.Usable() && t.identity.Some?
  {
    TierWeight(t.tier, cfg) * t.identity.value * TimingWeight(AgeOf(t), cfg) * RankWeight(t.buyerRank)
    * (if HasAdded(past, t.wallet) then 1.10 else 1.0)
  }

  function Weighted(s: seq<Timed<Trade>>, past: seq<Timed<PositionEvent>>, cfg: Config): real
    requires cfg.Usable() && forall i :: 0 <= i < |s| ==> s[i].row.identity.Some?
  {
    if |s| == 0 then 0.0
    else Weighted(s[..|s| - 1], past, cfg) + Contribution(s[|s| - 1].row, past, cfg)
  }

  function TimingRows(s: seq<Timed<Trade>>, cfg: Config): seq<(nat, Option<int>, real)>
    requires cfg.Usable()
  {
    seq(|s|, i requires 0 <= i < |s| =>
      (s[i].row.id, s[i].row.launchAge, TimingWeight(AgeOf(s[i].row), cfg)))
  }

  function RankRows(s: seq<Timed<Trade>>): seq<(Option<int>, Option<int>, real)> {
    seq(|s|, i requires 0 <= i < |s| =>
      (s[i].row.buyerRank, s[i].row.smartRank, RankWeight(s[i].row.buyerRank)))
  }

  /** Difference of two volumes, written the way the engine stores it. */
  function Signed(a: nat, b: nat): string {
    if a >= b then DecimalText.ToText(a - b) else "-" + DecimalText.ToText(b - a)
  }

  predicate SignedPositive(v: string) {
    !(|v| > 0 && v[0] == '-') && v != "0"
  }

  /** Quotient truncated to six decimals; an unrepresentable quotient reads as zero. */
  function RatioBig(a: nat, b: nat): real {
    if b == 0 then 0.0
    else
      var scaled := a * 1_000_000 / b;
      (if scaled <= DECIMAL_MAX then scaled as real else 0.0) / 1_000_000.0
  }

  function RatioInt(a: int, b: int): real {
    if b <= 0 then 0.0 else a as real / b as real
  }

  function Consensus(input: Input, at: int, window: nat, cfg: Config): Summary
    requires cfg.Usable()
  {
    var start := at - 1_000_000 * window;
    var rows := Between(input.trades, start, at);
    var buys, sells := OfSide(rows, Buy), OfSide(rows, Sell);
    var qualifiedRows := Qualified(buys, cfg.minimumIdentity);
    var ages := SortAges(Ages(buys));
    var events, past := Between(input.positions, start, at), UpTo(input.positions, at);
    Summary(
      |Wallets(buys)|, |Wallets(qualifiedRows)|, |Wallets(qualifiedRows)|,
      Volume(buys), Volume(sells), Signed(Volume(buys), Volume(sells)),
      if |ages| > 0 then Some(ages[0]) else None,
      if |ages| > 0 then Some(ages[|ages| / 2]) else None,
      CountKind(events, Open), CountKind(events, Add), CountKind(events, Reduce), CountKind(events, Close),
      WalletExit(input, at), RatioBig(Volume(sells), Volume(buys)),
      Weighted(qualifiedRows, past, cfg), TimingRows(qualifiedRows, cfg), RankRows(qualifiedRows),
      forall i :: 0 <= i < |rows| ==> rows[i].row.confirmed)
  }

  /** Wallets that have closed a position, over wallets that have bought. */
  function WalletExit(input: Input, at: int): real {
    RatioInt(|Closers(UpTo(input.positions, at))|, |Wallets(OfSide(UpTo(input.trades, at), Buy))|)
  }

  /** The position counters of `consensus_at`. */
  method CountPositions(events: seq<Timed<PositionEvent>>) returns (counts: map<PositionKind, nat>)
    ensures forall k :: Count(counts, k) == CountKind(events, k)
  {
    counts := map[];
    for i := 0 to |events|
      invariant forall k :: Count(counts, k) == CountKind(events[..i], k)
    {
      var kind := events[i].row.kind;
      assert events[..i + 1][..i] == events[..i];
      counts := counts[kind := Count(counts, kind) + 1];
    }
    assert events[..|events|] == events;
  }

  /** The weighting loop of `consensus_at` over the qualified buys. */
  method WeighBuyers(rows: seq<Timed<Trade>>, past: seq<Timed<PositionEvent>>, cfg: Config)
    returns (weighted: real, timingRows: seq<(nat, Option<int>, real)>, rankRows: seq<(Option<int>, Option<int>, real)>)
    requires cfg.Usable() && forall i :: 0 <= i < |rows| ==> rows[i].row.identity.Some?
    ensures weighted == Weighted(rows, past, cfg)
    ensures timingRows == TimingRows(rows, cfg) && rankRows == RankRows(rows)
  {
    weighted, timingRows, rankRows := 0.0, [], [];
    for i := 0 to |rows|
      invariant weighted == Weighted(rows[..i], past, cfg)
      invariant timingRows == TimingRows(rows, cfg)[..i]
      invariant rankRows == RankRows(rows)[..i]
    {
      var v := rows[i].row;
      assert rows[..i + 1][..i] == rows[..i];
      weighted := weighted + Contribution(v, past, cfg);
      timingRows := timingRows + [(v.id, v.launchAge, TimingWeight(AgeOf(v), cfg))];
      rankRows := rankRows + [(v.buyerRank, v.smartRank, RankWeight(v.buyerRank))];
    }
    assert rows[..|rows|] == rows;
  }

  /** `consensus_at`: every qualified row has a parsable identity, so no error can arise. */
  method ConsensusAt(input: Input, at: int, window: nat, cfg: Config)
    returns (r: Result<Summary, SignalError>)
    requires cfg.Usable()
    ensures r == Ok(Consensus(input, at, window, cfg))
  {
    var start := at - 1_000_000 * window;
    var rows := Between(input.trades, start, at);
    var buys, sells := OfSide(rows, Buy), OfSide(rows, Sell);
    var qualifiedRows := Qualified(buys, cfg.minimumIdentity);
    var ages := SortAges(Ages(buys));
    var counts := CountPositions(Between(input.positions, start, at));
    var weighted, timingRows, rankRows := WeighBuyers(qualifiedRows, UpTo(input.positions, at), cfg);
    r := Ok(Summary(
      |Wallets(buys)|, |Wallets(qualifiedRows)|, |Wallets(qualifiedRows)|,
      Volume(buys), Volume(sells), Signed(Volume(buys), Volume(sells)),
      if |ages| > 0 then Some(ages[0]) else None,
      if |ages| > 0 then Some(ages[|ages| / 2]) else None,
      Count(counts, Open), Count(counts, Add), Count(counts, Reduce), Count(counts, Close),
      WalletExit(input, at), RatioBig(Volume(sells), Volume(buys)),
      weighted, timingRows, rankRows,
      forall i :: 0 <= i < |rows| ==> rows[i].row.confirmed));
  }

  function Count(counts: map<PositionKind, nat>, kind: PositionKind): nat {
    if kind in counts then counts[kind] else 0
  }

  // ---------------------------------------------------------------- one instant

  function Origin(input: Input, job: Job, at: int): (string, bool) {
    var here := At(input.trades, at);
    var source := if |here| > 0 then here[0].row.source else "MARKET_SNAPSHOT";
    (source, job.eligible && job.trigger == Some(at) && source == "LIVE")
  }

  /** The last of the latest snapshots. */
  function Latest(s: seq<Timed<Snapshot>>): Option<Timed<Snapshot>> {
    if |s| == 0 then None
    else
      var init, last := Latest(s[..|s| - 1]), s[|s| - 1];
      if init.None? || init.value.at <= last.at then Some(last) else init
  }

  function Clamp(v: real): (c: real)
    ensures 0.0 <= c <= 100.0
  {
    if v < 0.0 then 0.0 else if v > 100.0 then 100.0 else v
  }

  function Max0(v: int): nat {
    if v < 0 then 0 else v
  }

  function MarketMomentum(latest: Option<Timed<Snapshot>>, previous: Option<Timed<Snapshot>>): Option<real> {
    if latest.None? || previous.None? then None
    else
      var l, p := latest.value.row, previous.value.row;
      var buyers, activity := Max0(l.uniqueBuyers - p.uniqueBuyers), Max0(l.buyCount - l.sellCount);
      var progress := match l.progress case Some(v) => v case None => 0.0;
      Some(Clamp((buyers * 15 + activity * 5) as real + progress * 50.0))
  }

  function CapitalScore(latest: Option<Timed<Snapshot>>): Option<real> {
    if latest.None? || latest.value.row.netFlow.None? then None
    else
      var n := latest.value.row.netFlow.value;
      Some(if n > 0.0 then 75.0 else if n < 0.0 then 20.0 else 50.0)
  }

  function HolderScore(latest: Option<Timed<Snapshot>>, previous: Option<Timed<Snapshot>>): Option<real> {
    if latest.None? || previous.None? then None
    else Some(Clamp((50 + (latest.value.row.holderCount - previous.value.row.holderCount) * 10) as real))
  }

  function Total(weights: seq<nat>): nat {
    if |weights| == 0 then 0 else Total(weights[..|weights| - 1]) + weights[|weights| - 1]
  }

  function Mass(component: Option<real>, weight: nat): real {
    match component case Some(v) => v * weight as real case None => 0.0
  }

  /** Score mass of the available components. */
  function Used(components: seq<Option<real>>, weights: seq<nat>): real
    requires |components| == |weights|
  {
    if |weights| == 0 then 0.0
    else
      var n := |weights| - 1;
      Used(components[..n], weights[..n]) + Mass(components[n], weights[n])
  }

  /** Weight of the available components. */
  function Available(components: seq<Option<real>>, weights: seq<nat>): nat
    requires |components| == |weights|
  {
    if |weights| == 0 then 0
    else
      var n := |weights| - 1;
      Available(components[..n], weights[..n]) + (if components[n].Some? then weights[n] else 0)
  }

  function AgeSeconds(input: Input, at: int): nat {
    if at <= input.launch then 0 else (at - input.launch) / 1_000_000
  }

  function Components(s: Summary, latest: Option<Timed<Snapshot>>, previous: Option<Timed<Snapshot>>): (c: seq<Option<real>>)
    ensures |c| == 5
  {
    [Some(Clamp(s.weighted * 100.0 / 3.0)), MarketMomentum(latest, previous), CapitalScore(latest),
     HolderScore(latest, previous), None]
  }

  function Confidence(s: Summary, latest: Option<Timed<Snapshot>>, available: nat, cfg: Config): real
    requires cfg.Usable()
  {
    var exact := latest.Some? && latest.value.row.blockExact && latest.value.row.integrityOk;
    var sample := Clamp(s.qualified as real * 100.0 / 3.0);
    var availability := available as real / Total(cfg.weights) as real * 100.0;
    (sample * 40.0 + (if exact then 100.0 else 50.0) * 35.0 + availability * 25.0) / 100.0
  }

  function Assess(input: Input, at: int, s: Summary, cfg: Config): Assessment
    requires cfg.Usable()
  {
    var latest := Latest(UpTo(input.market, at));
    var previous := if latest.None? then None else Latest(UpTo(input.market, at - 900_000_000));
    var components := Components(s, latest, previous);
    var used, total := Used(components, cfg.weights), Available(components, cfg.weights);
    var score := if total == 0 then 0.0 else used / total as real;
    var confidence := Confidence(s, latest, total, cfg);
    Assessment(latest, previous, components, total, score, confidence,
      && s.independent >= cfg.minimumIndependent && s.qualified >= cfg.minimumQualified
      && SignedPositive(s.net) && AgeSeconds(input, at) <= cfg.highMaxAge
      && confidence >= cfg.minimumConfidence,
      || s.walletExit >= cfg.distributionExit
      || (s.quoteExit >= cfg.distributionExit && s.reduce + s.close >= 2))
  }

  function StrongStreak(before: nat, facts: Assessment, cfg: Config): nat {
    if facts.score >= cfg.strong then before + 1 else 0
  }

  function HighStreak(before: nat, facts: Assessment, cfg: Config): nat {
    if facts.score >= cfg.high && facts.highRule then before + 1 else 0
  }

  /** The automaton, with the streaks already counting the current instant. */
  function NextState(state: State, strong: nat, high: nat, s: Summary, facts: Assessment, cfg: Config): State {
    if state == Distribution && s.walletExit >= 1.0 && !SignedPositive(s.net) then Closed
    else if facts.distribution then Distribution
    else
      match state
      case NoSignal => if facts.score >= cfg.watch && s.qualified > 0 then Watch else state
      case Watch => if strong >= 2 then StrongWatch else state
      case StrongWatch => if high >= 2 then HighPriority else state
      case HighPriority =>
        if facts.score < cfg.cooling || s.walletExit >= cfg.coolingExit || !SignedPositive(s.net)
        then Cooling else state
      case Cooling => if strong >= 2 && s.walletExit < cfg.coolingExit then StrongWatch else state
      case Distribution => state
      case Closed => state
  }

  function ConsensusRows(input: Input, job: Job, cfg: Config, at: int, windows: seq<nat>): (r: seq<ConsensusRow>)
    requires cfg.Usable()
    ensures |r| == |windows|
    ensures forall i :: 0 <= i < |r| ==> r[i].at == at && r[i].realtime == Origin(input, job, at).1
  {
    if |windows| == 0 then []
    else
      var w := windows[|windows| - 1];
      ConsensusRows(input, job, cfg, at, windows[..|windows| - 1])
      + [ConsensusRow(at, w, Consensus(input, at, w, cfg), Origin(input, job, at).0, Origin(input, job, at).1)]
  }

  /** Everything one instant adds to a run. */
  function Advance(run: Run, input: Input, job: Job, cfg: Config, at: int): Run
    requires cfg.Usable() && |cfg.windows| > 0
  {
    var (origin, realtime) := Origin(input, job, at);
    var s := Consensus(input, at, cfg.windows[|cfg.windows| - 1], cfg);
    var facts := Assess(input, at, s, cfg);
    var strong, high := StrongStreak(run.strongStreak, facts, cfg), HighStreak(run.highStreak, facts, cfg);
    var next := NextState(run.state, strong, high, s, facts, cfg);
    Run(next, strong, high,
      run.consensus + ConsensusRows(input, job, cfg, at, cfg.windows),
      run.signals + [Signal(at, next, s, facts, strong, high, origin, realtime)],
      run.transitions
      + (if next == run.state then []
         else [Transition(|run.signals|, at, run.state, next, facts.score, facts.confidence, origin, realtime)]))
  }

  /** Every instant at which something happened, in order. */
  function Points(input: Input): (points: seq<int>)
    ensures Ascending(points)
  {
    InsertAll(InsertAll(InsertAll([], input.trades), input.market), input.positions)
  }

  function Replay(input: Input, job: Job, cfg: Config, points: seq<int>): Run
    requires cfg.Usable() && |cfg.windows| > 0
  {
    if |points| == 0 then START
    else Advance(Replay(input, job, cfg, points[..|points| - 1]), input, job, cfg, points[|points| - 1])
  }

  /** The window loop of `evaluate`: one row per window, the last window's summary being kept. */
  method SummariseWindows(input: Input, job: Job, cfg: Config, at: int)
    returns (rows: seq<ConsensusRow>, selected: Option<Summary>)
    requires cfg.Usable()
    ensures rows == ConsensusRows(input, job, cfg, at, cfg.windows)
    ensures selected == if |cfg.windows| == 0 then None
                        else Some(Consensus(input, at, cfg.windows[|cfg.windows| - 1], cfg))
  {
    hide Consensus;
    var (origin, realtime) := Origin(input, job, at);
    rows, selected := [], None;
    for w := 0 to |cfg.windows|
      invariant rows == ConsensusRows(input, job, cfg, at, cfg.windows[..w])
      invariant selected == if w == 0 then None else Some(Consensus(input, at, cfg.windows[w - 1], cfg))
    {
      assert cfg.windows[..w + 1][..w] == cfg.windows[..w];
      var found := ConsensusAt(input, at, cfg.windows[w], cfg);
      rows := rows + [ConsensusRow(at, cfg.windows[w], found.value, origin, realtime)];
      selected := Some(found.value);
    }
    assert cfg.windows[..|cfg.windows|] == cfg.windows;
  }

  /** The run loop of `evaluate`. Only a configuration without windows can make it fail. */
  method Evaluate(input: Input, job: Job, cfg: Config) returns (r: Result<Run, SignalError>)
    requires cfg.Usable()
    ensures |cfg.windows| > 0 ==> r == Ok(Replay(input, job, cfg, Points(input)))
    ensures |cfg.windows| == 0 ==> r == if |Points(input)| == 0 then Ok(START) else Err(MissingWindow)
  {
    hide Consensus, Assess, Points, NextState, Origin, ConsensusRows;
    var points := CollectPoints(input);
    var state, strongStreak, highStreak := NoSignal, 0, 0;
    var consensus: seq<ConsensusRow>, signals: seq<Signal>, transitions: seq<Transition> := [], [], [];
    for n := 0 to |points|
      invariant n > 0 ==> |cfg.windows| > 0
      invariant |cfg.windows| > 0 ==>
        Run(state, strongStreak, highStreak, consensus, signals, transitions) == Replay(input, job, cfg, points[..n])
      invariant n == 0 ==>
        Run(state, strongStreak, highStreak, consensus, signals, transitions) == START
    {
      var at := points[n];
      assert points[..n + 1][..n] == points[..n];
      var (origin, realtime) := Origin(input, job, at);
      var rows, selected := SummariseWindows(input, job, cfg, at);
      if selected.None? {
        return Err(MissingWindow);
      }
      consensus := consensus + rows;
      var s := selected.value;
      var facts := AssessAt(input, at, s, cfg);
      strongStreak := if facts.score >= cfg.strong then strongStreak + 1 else 0;
      highStreak := if facts.score >= cfg.high && facts.highRule then highStreak + 1 else 0;
      var next := NextState(state, strongStreak, highStreak, s, facts, cfg);
      var index := |signals|;
      signals := signals + [Signal(at, next, s, facts, strongStreak, highStreak, origin, realtime)];
      if next != state {
        transitions := transitions
          + [Transition(index, at, state, next, facts.score, facts.confidence, origin, realtime)];
        state := next;
      }
    }
    assert points[..|points|] == points;
    r := Ok(Run(state, strongStreak, highStreak, consensus, signals, transitions));
  }

  /** The ordered set of instants, filled from the three sources in turn. */
  method CollectPoints(input: Input) returns (points: seq<int>)
    ensures points == Points(input)
  {
    points := [];
    for i := 0 to |input.trades|
      invariant Ascending(points) && points == InsertAll([], input.trades[..i])
    {
      assert input.trades[..i + 1][..i] == input.trades[..i];
      points := Insert(points, input.trades[i].at);
    }
    assert input.trades[..|input.trades|] == input.trades;
    ghost var p1 := points;
    for i := 0 to |input.market|
      invariant Ascending(points) && points == InsertAll(p1, input.market[..i])
    {
      assert input.market[..i + 1][..i] == input.market[..i];
      points := Insert(points, input.market[i].at);
    }
    assert input.market[..|input.market|] == input.market;
    ghost var p2 := points;
    for i := 0 to |input.positions|
      invariant Ascending(points) && points == InsertAll(p2, input.positions[..i])
    {
      assert input.positions[..i + 1][..i] == input.positions[..i];
      points := Insert(points, input.positions[i].at);
    }
    assert input.positions[..|input.positions|] == input.positions;
  }

  /** The weighting loop: components without data are left out and the rest renormalised. */
  method AssessAt(input: Input, at: int, s: Summary, cfg: Config) returns (facts: Assessment)
    requires cfg.Usable()
    ensures facts == Assess(input, at, s, cfg)
  {
    hide Components, Confidence, Latest, UpTo, SignedPositive, AgeSeconds, Total;
    var latest := Latest(UpTo(input.market, at));
    var previous := if latest.None? then None else Latest(UpTo(input.market, at - 900_000_000));
    var components := Components(s, latest, previous);
    var used, total := 0.0, 0;
    for i := 0 to 5
      invariant used == Used(components[..i], cfg.weights[..i])
      invariant total == Available(components[..i], cfg.weights[..i])
    {
      assert components[..i + 1][..i] == components[..i] && cfg.weights[..i + 1][..i] == cfg.weights[..i];
      match components[i] {
        case Some(v) =>
          used := used + v * cfg.weights[i] as real;
          total := total + cfg.weights[i];
        case None =>
      }
    }
    assert components[..5] == components && cfg.weights[..5] == cfg.weights;
    var score := if total == 0 then 0.0 else used / total as real;
    var confidence := Confidence(s, latest, total, cfg);
    var highRule := s.independent >= cfg.minimumIndependent && s.qualified >= cfg.minimumQualified
      && SignedPositive(s.net) && AgeSeconds(input, at) <= cfg.highMaxAge
      && confidence >= cfg.minimumConfidence;
    var distribution := s.walletExit >= cfg.distributionExit
      || (s.quoteExit >= cfg.distributionExit && s.reduce + s.close >= 2);
    facts := Assessment(latest, previous, components, total, score, confidence, highRule, distribution);
  }
}
