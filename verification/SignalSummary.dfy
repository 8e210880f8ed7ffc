/**
  What the engine stores about one instant, said of the raw input alone: every member of a summary as a set, a
  count or a sum over the token's trades and position events, and every member of an assessment as a condition.
*/
module SignalSummary {
  import opened Wrappers
  import opened Timeline
  import opened Signals
  import opened SignalWindows
  import opened SignalHistory
  import DecimalText
  import Quotients

  // ---------------------------------------------------------------- a summary

  /** The wallets that bought in (lo, hi], all of them or those known well enough. */
  function BuyersIn(trades: seq<Timed<Trade>>, lo: int, hi: int): set<Wallet> {
    set i | 0 <= i < |trades| && lo < trades[i].at <= hi && trades[i].row.side == Buy :: trades[i].row.wallet
  }

  predicate Known(t: Trade, minimum: real) {
    t.identity.Some? && t.identity.value >= minimum
  }

  function KnownBuyersIn(trades: seq<Timed<Trade>>, lo: int, hi: int, minimum: real): set<Wallet> {
    set i | 0 <= i < |trades| && lo < trades[i].at <= hi && trades[i].row.side == Buy && Known(trades[i].row, minimum)
      :: trades[i].row.wallet
  }

  /** The quote amounts traded on one side in (lo, hi]; a text that is no number counts nothing. */
  function QuoteIn(trades: seq<Timed<Trade>>, side: Side, lo: int, hi: int): nat {
    if |trades| == 0 then 0
    else
      var t := trades[|trades| - 1];
      QuoteIn(trades[..|trades| - 1], side, lo, hi)
      + (if lo < t.at <= hi && t.row.side == side && t.row.quote.Some? then t.row.quote.value else 0)
  }

  function EventsIn(positions: seq<Timed<PositionEvent>>, kind: PositionKind, lo: int, hi: int): nat {
    if |positions| == 0 then 0
    else
      var e := positions[|positions| - 1];
      EventsIn(positions[..|positions| - 1], kind, lo, hi) + (if lo < e.at <= hi && e.row.kind == kind then 1 else 0)
  }

  /** How many purchases in (lo, hi] have this launch age. */
  function AgedIn(trades: seq<Timed<Trade>>, age: int, lo: int, hi: int): nat {
    if |trades| == 0 then 0
    else
      var t := trades[|trades| - 1];
      AgedIn(trades[..|trades| - 1], age, lo, hi)
      + (if lo < t.at <= hi && t.row.side == Buy && t.row.launchAge == Some(age) then 1 else 0)
  }

  function ClosedUpTo(positions: seq<Timed<PositionEvent>>, at: int): set<Wallet> {
    set i | 0 <= i < |positions| && positions[i].at <= at && positions[i].row.kind == Close :: positions[i].row.wallet
  }

  function BoughtUpTo(trades: seq<Timed<Trade>>, at: int): set<Wallet> {
    set i | 0 <= i < |trades| && trades[i].at <= at && trades[i].row.side == Buy :: trades[i].row.wallet
  }

  predicate AddedUpTo(positions: seq<Timed<PositionEvent>>, wallet: Wallet, at: int) {
    exists i :: 0 <= i < |positions| && positions[i].at <= at && positions[i].row.wallet == wallet && positions[i].row.kind == Add
  }

  /** What one purchase by a known buyer adds to the consensus. */
  function WeightOf(t: Trade, positions: seq<Timed<PositionEvent>>, at: int, cfg: Config): real
    requires cfg.Usable() && t.identity.Some?
  {
    TierWeight(t.tier, cfg) * t.identity.value * TimingWeight(if t.launchAge.Some? then t.launchAge.value else NO_AGE, cfg)
    * RankWeight(t.buyerRank) * (if AddedUpTo(positions, t.wallet, at) then 1.1 else 1.0)
  }

  predicate Weighs(t: Timed<Trade>, lo: int, hi: int, minimum: real)
    ensures Weighs(t, lo, hi, minimum) ==> t.row.identity.Some?
  {
    lo < t.at <= hi && t.row.side == Buy && Known(t.row, minimum)
  }

  /** The weighted consensus with its evidence rows, in one pass over all trades. */
  function WeightsIn(trades: seq<Timed<Trade>>, positions: seq<Timed<PositionEvent>>, lo: int, hi: int, cfg: Config)
    : (real, seq<(nat, Option<int>, real)>, seq<(Option<int>, Option<int>, real)>)
    requires cfg.Usable()
  {
    if |trades| == 0 then (0.0, [], [])
    else
      var (weight, timing, rank) := WeightsIn(trades[..|trades| - 1], positions, lo, hi, cfg);
      var t := trades[|trades| - 1];
      if !Weighs(t, lo, hi, cfg.minimumIdentity) then (weight, timing, rank)
      else
        (weight + WeightOf(t.row, positions, hi, cfg),
         timing + [(t.row.id, t.row.launchAge, TimingWeight(if t.row.launchAge.Some? then t.row.launchAge.value else NO_AGE, cfg))],
         rank + [(t.row.buyerRank, t.row.smartRank, RankWeight(t.row.buyerRank))])
  }

  lemma SameBuyers(trades: seq<Timed<Trade>>, lo: int, hi: int, minimum: real)
    ensures var buys := OfSide(Between(trades, lo, hi), Buy);
      Wallets(buys) == BuyersIn(trades, lo, hi) && Wallets(Qualified(buys, minimum)) == KnownBuyersIn(trades, lo, hi, minimum)
  {
    hide OfSide, Between, Qualified;
    var buys := OfSide(Between(trades, lo, hi), Buy);
    var known := Qualified(buys, minimum);
    forall t ensures t in buys <==> t in trades && lo < t.at <= hi && t.row.side == Buy {
      OfSideKeeps(Between(trades, lo, hi), Buy, t);
      BetweenKeeps(trades, lo, hi, t);
    }
    forall t ensures t in known <==> t in buys && Known(t.row, minimum) {
      QualifiedKeeps(buys, minimum, t);
    }
    WalletsOf(buys, BuyersIn(trades, lo, hi), trades, (t: Timed<Trade>) => lo < t.at <= hi && t.row.side == Buy);
    WalletsOf(known, KnownBuyersIn(trades, lo, hi, minimum), trades,
      (t: Timed<Trade>) => lo < t.at <= hi && t.row.side == Buy && Known(t.row, minimum));
  }

  lemma WalletsOf(rows: seq<Timed<Trade>>, wallets: set<Wallet>, trades: seq<Timed<Trade>>, p: Timed<Trade> -> bool)
    requires forall t :: t in rows <==> t in trades && p(t)
    requires wallets == set i | 0 <= i < |trades| && p(trades[i]) :: trades[i].row.wallet
    ensures Wallets(rows) == wallets
  {
    forall w | w in Wallets(rows) ensures w in wallets {
      var i :| 0 <= i < |rows| && rows[i].row.wallet == w;
      assert rows[i] in rows;
      var j :| 0 <= j < |trades| && trades[j] == rows[i];
    }
    forall w | w in wallets ensures w in Wallets(rows) {
      var i :| 0 <= i < |trades| && p(trades[i]) && trades[i].row.wallet == w;
      assert trades[i] in rows;
      var j :| 0 <= j < |rows| && rows[j] == trades[i];
    }
  }

  lemma {:induction false} SameQuotes(trades: seq<Timed<Trade>>, side: Side, lo: int, hi: int)
    ensures Volume(OfSide(Between(trades, lo, hi), side)) == QuoteIn(trades, side, lo, hi)
  {
    hide Volume, OfSide;
    if |trades| == 0 {
      NothingTraded(side);
    } else {
      var init, t := trades[..|trades| - 1], trades[|trades| - 1];
      SameQuotes(init, side, lo, hi);
      OfSideNext(Between(init, lo, hi), t, side);
      VolumeNext(OfSide(Between(init, lo, hi), side), t);
    }
  }

  lemma NothingTraded(side: Side)
    ensures OfSide([], side) == [] && Volume([]) == 0 && Ages([]) == []
  {
  }

  lemma {:induction false} SameEvents(positions: seq<Timed<PositionEvent>>, kind: PositionKind, lo: int, hi: int)
    ensures CountKind(Between(positions, lo, hi), kind) == EventsIn(positions, kind, lo, hi)
  {
    hide CountKind;
    if |positions| == 0 {
      NothingHappened(kind);
    } else {
      var init, e := positions[..|positions| - 1], positions[|positions| - 1];
      SameEvents(init, kind, lo, hi);
      CountKindNext(Between(init, lo, hi), e, kind);
    }
  }

  lemma NothingHappened(kind: PositionKind)
    ensures CountKind([], kind) == 0
  {
  }

  lemma {:induction false} SameAges(trades: seq<Timed<Trade>>, age: int, lo: int, hi: int)
    ensures multiset(Ages(OfSide(Between(trades, lo, hi), Buy)))[age] == AgedIn(trades, age, lo, hi)
  {
    hide Ages, OfSide;
    if |trades| == 0 {
      NothingTraded(Buy);
    } else {
      var init, t := trades[..|trades| - 1], trades[|trades| - 1];
      SameAges(init, age, lo, hi);
      OfSideNext(Between(init, lo, hi), t, Buy);
      AgesNext(OfSide(Between(init, lo, hi), Buy), t);
    }
  }

  lemma AgesNext(s: seq<Timed<Trade>>, t: Timed<Trade>)
    ensures Ages(s + [t]) == Ages(s) + (match t.row.launchAge case Some(a) => [a] case None => [])
  {
    assert (s + [t])[..|s|] == s;
  }

  lemma SameExit(input: Input, at: int)
    ensures Closers(UpTo(input.positions, at)) == ClosedUpTo(input.positions, at)
    ensures Wallets(OfSide(UpTo(input.trades, at), Buy)) == BoughtUpTo(input.trades, at)
  {
    hide OfSide, UpTo;
    var past, buys := UpTo(input.positions, at), OfSide(UpTo(input.trades, at), Buy);
    forall e ensures e in past <==> e in input.positions && e.at <= at {
      UpToKeeps(input.positions, at, e);
    }
    ClosersOf(past, input.positions, at);
    forall t ensures t in buys <==> t in input.trades && t.at <= at && t.row.side == Buy {
      OfSideKeeps(UpTo(input.trades, at), Buy, t);
      UpToKeeps(input.trades, at, t);
    }
    WalletsOf(buys, BoughtUpTo(input.trades, at), input.trades, (t: Timed<Trade>) => t.at <= at && t.row.side == Buy);
  }

  lemma ClosersOf(past: seq<Timed<PositionEvent>>, positions: seq<Timed<PositionEvent>>, at: int)
    requires forall e :: e in past <==> e in positions && e.at <= at
    ensures Closers(past) == ClosedUpTo(positions, at)
  {
    forall w | w in Closers(past) ensures w in ClosedUpTo(positions, at) {
      var i :| 0 <= i < |past| && past[i].row.kind == Close && past[i].row.wallet == w;
      assert past[i] in past;
      var j :| 0 <= j < |positions| && positions[j] == past[i];
    }
    forall w | w in ClosedUpTo(positions, at) ensures w in Closers(past) {
      var i :| 0 <= i < |positions| && positions[i].at <= at && positions[i].row.kind == Close && positions[i].row.wallet == w;
      assert positions[i] in past;
      var j :| 0 <= j < |past| && past[j] == positions[i];
    }
  }

  predicate AllConfirmed(rows: seq<Timed<Trade>>) {
    forall i :: 0 <= i < |rows| ==> rows[i].row.confirmed
  }

  predicate ConfirmedIn(trades: seq<Timed<Trade>>, lo: int, hi: int) {
    forall i :: 0 <= i < |trades| && lo < trades[i].at <= hi ==> trades[i].row.confirmed
  }

  lemma SameConfirmed(trades: seq<Timed<Trade>>, lo: int, hi: int)
    ensures AllConfirmed(Between(trades, lo, hi)) <==> ConfirmedIn(trades, lo, hi)
  {
    hide Between, AllConfirmed, ConfirmedIn;
    forall t ensures t in Between(trades, lo, hi) <==> t in trades && lo < t.at <= hi {
      BetweenKeeps(trades, lo, hi, t);
    }
    ConfirmedOf(Between(trades, lo, hi), trades, lo, hi);
  }

  lemma ConfirmedOf(rows: seq<Timed<Trade>>, trades: seq<Timed<Trade>>, lo: int, hi: int)
    requires forall t :: t in rows <==> t in trades && lo < t.at <= hi
    ensures AllConfirmed(rows) <==> ConfirmedIn(trades, lo, hi)
  {
    if AllConfirmed(rows) {
      forall i | 0 <= i < |trades| && lo < trades[i].at <= hi ensures trades[i].row.confirmed {
        assert trades[i] in rows;
        var j :| 0 <= j < |rows| && rows[j] == trades[i];
      }
    }
    if ConfirmedIn(trades, lo, hi) {
      forall i | 0 <= i < |rows| ensures rows[i].row.confirmed {
        assert rows[i] in rows;
        var j :| 0 <= j < |trades| && trades[j] == rows[i];
      }
    }
  }

  lemma SameAdded(positions: seq<Timed<PositionEvent>>, wallet: Wallet, at: int)
    ensures HasAdded(UpTo(positions, at), wallet) <==> AddedUpTo(positions, wallet, at)
  {
    hide UpTo, HasAdded, AddedUpTo;
    forall e ensures e in UpTo(positions, at) <==> e in positions && e.at <= at {
      UpToKeeps(positions, at, e);
    }
    AddedOf(UpTo(positions, at), positions, wallet, at);
  }

  lemma AddedOf(past: seq<Timed<PositionEvent>>, positions: seq<Timed<PositionEvent>>, wallet: Wallet, at: int)
    requires forall e :: e in past <==> e in positions && e.at <= at
    ensures HasAdded(past, wallet) <==> AddedUpTo(positions, wallet, at)
  {
    if AddedUpTo(positions, wallet, at) {
      var i :| 0 <= i < |positions| && positions[i].at <= at && positions[i].row.wallet == wallet && positions[i].row.kind == Add;
      assert positions[i] in past;
      var j :| 0 <= j < |past| && past[j] == positions[i];
    }
    if HasAdded(past, wallet) {
      var i :| 0 <= i < |past| && past[i].row.wallet == wallet && past[i].row.kind == Add;
      assert past[i] in past;
      var j :| 0 <= j < |positions| && positions[j] == past[i];
    }
  }

  lemma SameWeight(t: Trade, positions: seq<Timed<PositionEvent>>, at: int, cfg: Config)
    requires cfg.Usable() && t.identity.Some?
    ensures Contribution(t, UpTo(positions, at), cfg) == WeightOf(t, positions, at, cfg)
  {
    SameAdded(positions, t.wallet, at);
    hide HasAdded, AddedUpTo, TierWeight, TimingWeight, RankWeight;
  }

  lemma WeightedNext(s: seq<Timed<Trade>>, t: Timed<Trade>, past: seq<Timed<PositionEvent>>, cfg: Config)
    requires cfg.Usable() && t.row.identity.Some? && forall i :: 0 <= i < |s| ==> s[i].row.identity.Some?
    ensures Weighted(s + [t], past, cfg) == Weighted(s, past, cfg) + Contribution(t.row, past, cfg)
  {
    hide Contribution;
    assert (s + [t])[..|s|] == s;
  }

  lemma TimingNext(s: seq<Timed<Trade>>, t: Timed<Trade>, cfg: Config)
    requires cfg.Usable()
    ensures TimingRows(s + [t], cfg) == TimingRows(s, cfg) + [(t.row.id, t.row.launchAge, TimingWeight(AgeOf(t.row), cfg))]
  {
    hide TimingWeight;
  }

  lemma RankNext(s: seq<Timed<Trade>>, t: Timed<Trade>)
    ensures RankRows(s + [t]) == RankRows(s) + [(t.row.buyerRank, t.row.smartRank, RankWeight(t.row.buyerRank))]
  {
    hide RankWeight;
  }

  lemma QualifiedNext(s: seq<Timed<Trade>>, t: Timed<Trade>, minimum: real)
    ensures Qualified(s + [t], minimum) == if Known(t.row, minimum) then Qualified(s, minimum) + [t] else Qualified(s, minimum)
  {
    assert (s + [t])[..|s|] == s;
  }

  lemma {:induction false} SameWeights(trades: seq<Timed<Trade>>, positions: seq<Timed<PositionEvent>>, lo: int, hi: int, cfg: Config)
    requires cfg.Usable()
    ensures var known := Qualified(OfSide(Between(trades, lo, hi), Buy), cfg.minimumIdentity);
      WeightsIn(trades, positions, lo, hi, cfg)
        == (Weighted(known, UpTo(positions, hi), cfg), TimingRows(known, cfg), RankRows(known))
  {
    hide Weighted, TimingRows, RankRows, Qualified, OfSide, UpTo, Contribution, WeightOf, TimingWeight, RankWeight;
    if |trades| == 0 {
      NothingWeighs(UpTo(positions, hi), cfg);
    } else {
      var init, t := trades[..|trades| - 1], trades[|trades| - 1];
      SameWeights(init, positions, lo, hi, cfg);
      var rows := Between(init, lo, hi);
      OfSideNext(rows, t, Buy);
      QualifiedNext(OfSide(rows, Buy), t, cfg.minimumIdentity);
      if Weighs(t, lo, hi, cfg.minimumIdentity) {
        SameWeight(t.row, positions, hi, cfg);
        var known := Qualified(OfSide(rows, Buy), cfg.minimumIdentity);
        WeightedNext(known, t, UpTo(positions, hi), cfg);
        TimingNext(known, t, cfg);
        RankNext(known, t);
      }
    }
  }

  lemma NothingWeighs(past: seq<Timed<PositionEvent>>, cfg: Config)
    requires cfg.Usable()
    ensures OfSide([], Buy) == [] && Qualified([], cfg.minimumIdentity) == []
    ensures Weighted([], past, cfg) == 0.0 && TimingRows([], cfg) == [] && RankRows([]) == []
  {
  }

  /** A signed decimal text: a sign exactly for negative numbers, then digits that read back as the magnitude. */
  ghost predicate IsSigned(text: string, n: int) {
    if n < 0 then |text| > 1 && text[0] == '-' && DecimalText.Parse(text[1..]) == Some(-n)
    else DecimalText.Parse(text) == Some(n)
  }

  lemma SignedReads(a: nat, b: nat)
    ensures IsSigned(Signed(a, b), a - b)
  {
    DecimalText.ToTextParses(if a >= b then a - b else b - a);
    hide DecimalText.Parse, DecimalText.ToText;
    if a < b {
      assert ("-" + DecimalText.ToText(b - a))[1..] == DecimalText.ToText(b - a);
    }
  }

  /** The counts, volumes and ratios of a summary. */
  lemma SummaryCounts(input: Input, at: int, window: nat, cfg: Config)
    requires cfg.Usable()
    ensures var s, lo := Consensus(input, at, window, cfg), at - 1_000_000 * window;
      && s.raw == |BuyersIn(input.trades, lo, at)|
      && s.qualified == s.independent == |KnownBuyersIn(input.trades, lo, at, cfg.minimumIdentity)|
      && s.buy == QuoteIn(input.trades, Buy, lo, at) && s.sell == QuoteIn(input.trades, Sell, lo, at)
      && s.open == EventsIn(input.positions, Open, lo, at) && s.add == EventsIn(input.positions, Add, lo, at)
      && s.reduce == EventsIn(input.positions, Reduce, lo, at) && s.close == EventsIn(input.positions, Close, lo, at)
      && (s.confirmed <==> ConfirmedIn(input.trades, lo, at))
  {
    hide OfSide, Between, Qualified, Wallets, Volume, CountKind, Signed, SortAges, Ages, Weighted, TimingRows, RankRows, WalletExit, RatioBig;
    var s, lo := Consensus(input, at, window, cfg), at - 1_000_000 * window;
    SameBuyers(input.trades, lo, at, cfg.minimumIdentity);
    SameQuotes(input.trades, Buy, lo, at);
    SameQuotes(input.trades, Sell, lo, at);
    SameEvents(input.positions, Open, lo, at);
    SameEvents(input.positions, Add, lo, at);
    SameEvents(input.positions, Reduce, lo, at);
    SameEvents(input.positions, Close, lo, at);
    SameConfirmed(input.trades, lo, at);
    hide ConfirmedIn;
    assert s.confirmed == AllConfirmed(Between(input.trades, lo, at));
  }

  /** The net flow is positive exactly when the window bought more than it sold, and its text is the difference. */
  lemma NetIsBoughtMinusSold(input: Input, at: int, window: nat, cfg: Config)
    requires cfg.Usable()
    ensures var s := Consensus(input, at, window, cfg);
      IsSigned(s.net, s.buy - s.sell) && (SignedPositive(s.net) <==> s.buy > s.sell)
  {
    hide OfSide, Between, Qualified, Wallets, Volume, CountKind, Signed, SortAges, Ages, Weighted, TimingRows, RankRows, WalletExit, RatioBig, SignedPositive, IsSigned;
    var s := Consensus(input, at, window, cfg);
    assert s.net == Signed(s.buy, s.sell);
    SignedReads(s.buy, s.sell);
    NetAgrees(input, at, window, cfg);
  }

  /** Exited over entered wallets, and sold over bought quote truncated to six decimals. */
  lemma ExitsAreRatios(input: Input, at: int, window: nat, cfg: Config)
    requires cfg.Usable()
    ensures var s, entered := Consensus(input, at, window, cfg), |BoughtUpTo(input.trades, at)|;
      && (entered > 0 ==> s.walletExit * entered as real == |ClosedUpTo(input.positions, at)| as real)
      && (entered == 0 ==> s.walletExit == 0.0)
      && (s.buy == 0 ==> s.quoteExit == 0.0)
      && (s.buy > 0 ==> (s.quoteExit <= s.sell as real / s.buy as real < s.quoteExit + 0.000001
                         <==> s.sell * 1_000_000 / s.buy <= DECIMAL_MAX))
  {
    hide OfSide, Between, Qualified, Volume, CountKind, Signed, SortAges, Ages, Weighted, TimingRows, RankRows, UpTo;
    var s := Consensus(input, at, window, cfg);
    SameExit(input, at);
    assert s.quoteExit == RatioBig(s.sell, s.buy);
    if s.buy > 0 {
      RatioBigAccuracy(s.sell, s.buy);
    }
    hide RatioBig, Closers, Wallets, ClosedUpTo, BoughtUpTo;
    var entered, exited := |BoughtUpTo(input.trades, at)|, |ClosedUpTo(input.positions, at)|;
    assert s.walletExit == RatioInt(exited, entered);
    if entered > 0 {
      var x := Quotients.TimesBack(exited as real, entered as real);
    }
  }

  /** The weighted consensus and its evidence rows. */
  lemma WeightsAddUp(input: Input, at: int, window: nat, cfg: Config)
    requires cfg.Usable()
    ensures var s := Consensus(input, at, window, cfg);
      (s.weighted, s.timing, s.rank) == WeightsIn(input.trades, input.positions, at - 1_000_000 * window, at, cfg)
  {
    hide OfSide, Between, Qualified, Wallets, Volume, CountKind, Signed, SortAges, Ages, Weighted, TimingRows, RankRows, WalletExit, RatioBig;
    hide WeightsIn, UpTo;
    SameWeights(input.trades, input.positions, at - 1_000_000 * window, at, cfg);
  }

  /** The ages of which first and median are taken are those of the window's purchases, each as often as it occurs. */
  lemma AgesOfPurchases(input: Input, at: int, window: nat, age: int)
    ensures var lo := at - 1_000_000 * window;
      multiset(SortAges(Ages(OfSide(Between(input.trades, lo, at), Buy))))[age] == AgedIn(input.trades, age, lo, at)
  {
    hide Ages, OfSide, Between, SortAges, AgedIn;
    var lo := at - 1_000_000 * window;
    SortAgesSorts(Ages(OfSide(Between(input.trades, lo, at), Buy)));
    SameAges(input.trades, age, lo, at);
  }

  /** Which weight a purchase gets: timing by how many of the four bounds its age exceeds, rank and tier by value. */
  lemma WeightTables(age: int, rank: Option<int>, tier: Option<string>, cfg: Config)
    requires cfg.Usable()
    ensures TimingWeight(age, cfg)
      == cfg.timing[(if age > 60_000 then 1 else 0) + (if age > 180_000 then 1 else 0) + (if age > 300_000 then 1 else 0) + (if age > 900_000 then 1 else 0)]
    ensures RankWeight(rank) == 1.0 <==> rank.Some? && rank.value <= 10
    ensures RankWeight(rank) >= 0.85 <==> rank.Some? && rank.value <= 50
    ensures RankWeight(rank) >= 0.65 <==> rank.Some? && rank.value <= 200
    ensures RankWeight(rank) in {1.0, 0.85, 0.65, 0.4}
    ensures forall i :: 0 <= i < 4 && tier == Some(["S", "A", "B", "C"][i]) ==> TierWeight(tier, cfg) == cfg.tiers[i]
    ensures (tier.None? || tier.value !in {"S", "A", "B", "C"}) ==> TierWeight(tier, cfg) == cfg.tiers[4]
  {
    assert "S"[0] != "A"[0] && "S"[0] != "B"[0] && "S"[0] != "C"[0];
    assert "A"[0] != "B"[0] && "A"[0] != "C"[0] && "B"[0] != "C"[0];
  }

  // ---------------------------------------------------------------- an assessment

  /** `v` limited to 0..100. */
  ghost predicate IsClamped(c: real, v: real) {
    0.0 <= c <= 100.0 && (0.0 <= v <= 100.0 ==> c == v) && (v < 0.0 ==> c == 0.0) && (v > 100.0 ==> c == 100.0)
  }

  /** `found` is the last of the snapshots at or before `at` with the greatest time. */
  ghost predicate IsLatestBy(found: Option<Timed<Snapshot>>, market: seq<Timed<Snapshot>>, at: int) {
    if found.None? then forall j :: 0 <= j < |market| ==> market[j].at > at
    else exists i :: 0 <= i < |market| && market[i] == found.value && IsLastUpTo(market, at, i)
  }

  ghost predicate IsLastUpTo(market: seq<Timed<Snapshot>>, at: int, i: nat)
    requires i < |market|
  {
    && market[i].at <= at
    && (forall j :: 0 <= j < |market| && market[j].at <= at ==> market[j].at <= market[i].at)
    && (forall j :: i < j < |market| ==> market[j].at != market[i].at)
  }

  lemma {:induction false} LatestBy(market: seq<Timed<Snapshot>>, at: int)
    ensures IsLatestBy(Latest(UpTo(market, at)), market, at)
  {
    if |market| > 0 {
      var init, last := market[..|market| - 1], market[|market| - 1];
      LatestBy(init, at);
      LatestNext(UpTo(init, at), last);
      hide Latest, IsLatestBy;
      assert market == init + [last];
      LatestByNext(Latest(UpTo(init, at)), init, last, at);
    }
  }

  lemma LatestNext(s: seq<Timed<Snapshot>>, last: Timed<Snapshot>)
    ensures Latest(s + [last]) == Later(Latest(s), last)
  {
    assert (s + [last])[..|s|] == s;
  }

  function Later(found: Option<Timed<Snapshot>>, last: Timed<Snapshot>): Option<Timed<Snapshot>> {
    if found.None? || found.value.at <= last.at then Some(last) else found
  }

  lemma LatestByNext(found: Option<Timed<Snapshot>>, init: seq<Timed<Snapshot>>, last: Timed<Snapshot>, at: int)
    requires IsLatestBy(found, init, at)
    ensures IsLatestBy(if last.at <= at then Later(found, last) else found, init + [last], at)
  {
    var market, n := init + [last], |init|;
    assert forall j :: 0 <= j < n ==> market[j] == init[j];
    if last.at <= at && Later(found, last) == Some(last) {
      assert market[n] == last && IsLastUpTo(market, at, n);
    } else if found.Some? {
      hide Later;
      var i :| 0 <= i < n && init[i] == found.value && IsLastUpTo(init, at, i);
      assert market[i] == found.value && IsLastUpTo(market, at, i);
    }
  }

  /** Each of the five components, and when it is missing. */
  lemma ComponentsAre(s: Summary, latest: Option<Timed<Snapshot>>, previous: Option<Timed<Snapshot>>)
    ensures var c := Components(s, latest, previous);
      && c[0].Some? && IsClamped(c[0].value, s.weighted * 100.0 / 3.0)
      && (c[1].Some? <==> latest.Some? && previous.Some?)
      && (c[2].Some? <==> latest.Some? && latest.value.row.netFlow.Some?)
      && (c[3].Some? <==> latest.Some? && previous.Some?)
      && c[4].None?
    ensures var c := Components(s, latest, previous);
      latest.Some? && previous.Some? ==>
        var l, p := latest.value.row, previous.value.row;
        var buyers := if l.uniqueBuyers > p.uniqueBuyers then l.uniqueBuyers - p.uniqueBuyers else 0;
        var activity := if l.buyCount > l.sellCount then l.buyCount - l.sellCount else 0;
        var progress := if l.progress.Some? then l.progress.value else 0.0;
        && IsClamped(c[1].value, (15 * buyers + 5 * activity) as real + 50.0 * progress)
        && IsClamped(c[3].value, (50 + 10 * (l.holderCount - p.holderCount)) as real)
    ensures var c := Components(s, latest, previous);
      latest.Some? && latest.value.row.netFlow.Some? ==>
        var flow := latest.value.row.netFlow.value;
        && c[2].value in {20.0, 50.0, 75.0}
        && (c[2].value == 75.0 <==> flow > 0.0) && (c[2].value == 20.0 <==> flow < 0.0)
  {
  }

  function Share(component: Option<real>, weight: nat): real {
    if component.Some? then component.value * weight as real else 0.0
  }

  function Counts(component: Option<real>, weight: nat): nat {
    if component.Some? then weight else 0
  }

  lemma FiveShares(c: seq<Option<real>>, w: seq<nat>)
    requires |c| == |w| == 5
    ensures Available(c, w) == Counts(c[0], w[0]) + Counts(c[1], w[1]) + Counts(c[2], w[2]) + Counts(c[3], w[3]) + Counts(c[4], w[4])
    ensures Used(c, w) == Share(c[0], w[0]) + Share(c[1], w[1]) + Share(c[2], w[2]) + Share(c[3], w[3]) + Share(c[4], w[4])
    ensures Total(w) == w[0] + w[1] + w[2] + w[3] + w[4]
  {
    FirstShares(c, w, 0);
    FirstShares(c, w, 1);
    FirstShares(c, w, 2);
    FirstShares(c, w, 3);
    FirstShares(c, w, 4);
    assert c[..5] == c && w[..5] == w;
    hide Mass, Share, Counts;
    assert Available(c[..0], w[..0]) == 0 && Used(c[..0], w[..0]) == 0.0 && Total(w[..0]) == 0;
  }

  lemma FirstShares(c: seq<Option<real>>, w: seq<nat>, n: nat)
    requires n < |c| == |w|
    ensures Available(c[..n + 1], w[..n + 1]) == Available(c[..n], w[..n]) + Counts(c[n], w[n])
    ensures Used(c[..n + 1], w[..n + 1]) == Used(c[..n], w[..n]) + Share(c[n], w[n])
    ensures Total(w[..n + 1]) == Total(w[..n]) + w[n]
  {
    assert c[..n + 1][..n] == c[..n] && w[..n + 1][..n] == w[..n];
  }

  /** The score is the mean of the available components weighted with the configured weights, zero without any. */
  lemma ScoreIsWeightedMean(input: Input, at: int, s: Summary, cfg: Config)
    requires cfg.Usable()
    ensures var f, w := Assess(input, at, s, cfg), cfg.weights;
      var c := f.components;
      && c == Components(s, f.latest, f.previous)
      && IsLatestBy(f.latest, input.market, at)
      && (f.latest.Some? ==> IsLatestBy(f.previous, input.market, at - 900_000_000)) && (f.latest.None? ==> f.previous.None?)
      && f.denominator == w[0] + Counts(c[1], w[1]) + Counts(c[2], w[2]) + Counts(c[3], w[3])
      && (f.denominator == 0 ==> f.score == 0.0)
      && (f.denominator > 0 ==>
            f.score * f.denominator as real == Share(c[0], w[0]) + Share(c[1], w[1]) + Share(c[2], w[2]) + Share(c[3], w[3]))
  {
    hide Latest, UpTo, SignedPositive, AgeSeconds, Total, Clamp, Confidence, Used, Available, Mass, IsLatestBy;
    var f, w := Assess(input, at, s, cfg), cfg.weights;
    var c := Components(s, f.latest, f.previous);
    LatestBy(input.market, at);
    LatestBy(input.market, at - 900_000_000);
    FiveShares(c, w);
    hide MarketMomentum, CapitalScore, HolderScore;
    if f.denominator > 0 {
      var x := Quotients.TimesBack(Used(c, w), f.denominator as real);
    }
  }

  /** Confidence is 40% sample size, 35% market evidence and 25% available weight. */
  lemma ConfidenceIs(input: Input, at: int, s: Summary, cfg: Config) returns (sample: real, availability: real)
    requires cfg.Usable()
    ensures IsClamped(sample, s.qualified as real * 100.0 / 3.0)
    ensures var f := Assess(input, at, s, cfg);
      && availability * Total(cfg.weights) as real == 100.0 * f.denominator as real
      && var exact := f.latest.Some? && f.latest.value.row.blockExact && f.latest.value.row.integrityOk;
      && f.confidence == 0.4 * sample + 0.35 * (if exact then 100.0 else 50.0) + 0.25 * availability
  {
    hide Confidence, Clamp;
    var f := Assess(input, at, s, cfg);
    sample, availability := ConfidenceParts(s, f.latest, f.denominator, cfg);
    hide Latest, UpTo, SignedPositive, AgeSeconds, Used, Available, Mass, Components, Total, Confidence, IsClamped;
  }

  lemma ConfidenceParts(s: Summary, latest: Option<Timed<Snapshot>>, available: nat, cfg: Config) returns (sample: real, availability: real)
    requires cfg.Usable()
    ensures IsClamped(sample, s.qualified as real * 100.0 / 3.0)
    ensures availability * Total(cfg.weights) as real == 100.0 * available as real
    ensures var exact := latest.Some? && latest.value.row.blockExact && latest.value.row.integrityOk;
      Confidence(s, latest, available, cfg) == 0.4 * sample + 0.35 * (if exact then 100.0 else 50.0) + 0.25 * availability
  {
    hide Total;
    sample := Clamp(s.qualified as real * 100.0 / 3.0);
    var share := Quotients.TimesBack(available as real, Total(cfg.weights) as real);
    Hundredfold(share, Total(cfg.weights) as real, available as real);
    availability := share * 100.0;
  }

  lemma Hundredfold(share: real, total: real, part: real)
    requires share * total == part
    ensures share * 100.0 * total == 100.0 * part
  {
  }

  /** The two rules. */
  lemma RulesAre(input: Input, at: int, window: nat, cfg: Config)
    requires cfg.Usable()
    ensures var s := Consensus(input, at, window, cfg);
      var f := Assess(input, at, s, cfg);
      && (f.highRule <==>
            && s.independent >= cfg.minimumIndependent && s.qualified >= cfg.minimumQualified && s.buy > s.sell
            && cfg.highMaxAge >= 0 && at - input.launch < 1_000_000 * (cfg.highMaxAge + 1)
            && f.confidence >= cfg.minimumConfidence)
      && (f.distribution <==>
            s.walletExit >= cfg.distributionExit || (s.quoteExit >= cfg.distributionExit && s.reduce + s.close >= 2))
  {
    NetIsBoughtMinusSold(input, at, window, cfg);
    AgeInSeconds(input, at, cfg.highMaxAge);
    hide Consensus, Components, Confidence, Used, Available, Latest, UpTo, SignedPositive, AgeSeconds, IsSigned;
  }

  lemma AgeInSeconds(input: Input, at: int, most: int)
    ensures AgeSeconds(input, at) <= most <==> most >= 0 && at - input.launch < 1_000_000 * (most + 1)
  {
  }

  /** A point is named after its first trade, and is realtime exactly when that is the live trigger of the job. */
  lemma OriginIs(input: Input, job: Job, at: int)
    ensures var (source, realtime) := Origin(input, job, at);
      && ((forall i :: 0 <= i < |input.trades| ==> input.trades[i].at != at) ==> source == "MARKET_SNAPSHOT")
      && (forall i :: 0 <= i < |input.trades| && input.trades[i].at == at && (forall j :: 0 <= j < i ==> input.trades[j].at != at)
            ==> source == input.trades[i].row.source)
      && (realtime <==> job.eligible && job.trigger == Some(at) && source == "LIVE")
  {
    FirstAt(input.trades, at);
  }

  lemma {:induction false} FirstAt(s: seq<Timed<Trade>>, at: int)
    ensures |At(s, at)| == 0 <==> forall i :: 0 <= i < |s| ==> s[i].at != at
    ensures forall i :: 0 <= i < |s| && s[i].at == at && (forall j :: 0 <= j < i ==> s[j].at != at) ==> |At(s, at)| > 0 && At(s, at)[0] == s[i]
  {
    if |s| > 0 {
      var n := |s| - 1;
      FirstAt(s[..n], at);
      assert forall i :: 0 <= i < n ==> s[..n][i] == s[i];
    }
  }
}
