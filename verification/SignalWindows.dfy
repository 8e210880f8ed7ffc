/** How the trailing windows of one instant relate, and what the ordered parts of a summary mean. */
module SignalWindows {
  import opened Wrappers
  import opened Sets
  import opened Timeline
  import opened Signals
  import Sorting

  // ---------------------------------------------------------------- a longer window sees at least as much

  lemma {:induction false} BetweenKeeps<T>(s: seq<Timed<T>>, lo: int, hi: int, x: Timed<T>)
    ensures x in Between(s, lo, hi) <==> x in s && lo < x.at <= hi
  {
    if |s| > 0 {
      BetweenKeeps(s[..|s| - 1], lo, hi, x);
      assert s == s[..|s| - 1] + [s[|s| - 1]];
    }
  }

  lemma {:induction false} OfSideKeeps(s: seq<Timed<Trade>>, side: Side, t: Timed<Trade>)
    ensures t in OfSide(s, side) <==> t in s && t.row.side == side
  {
    if |s| > 0 {
      OfSideKeeps(s[..|s| - 1], side, t);
      assert s == s[..|s| - 1] + [s[|s| - 1]];
    }
  }

  lemma {:induction false} QualifiedKeeps(s: seq<Timed<Trade>>, minimum: real, t: Timed<Trade>)
    ensures t in Qualified(s, minimum) <==> t in s && t.row.identity.Some? && t.row.identity.value >= minimum
  {
    if |s| > 0 {
      QualifiedKeeps(s[..|s| - 1], minimum, t);
      assert s == s[..|s| - 1] + [s[|s| - 1]];
    }
  }

  lemma WalletsOfMore(a: seq<Timed<Trade>>, b: seq<Timed<Trade>>)
    requires forall t :: t in a ==> t in b
    ensures Wallets(a) <= Wallets(b) && |Wallets(a)| <= |Wallets(b)|
  {
    forall w | w in Wallets(a) ensures w in Wallets(b) {
      var i :| 0 <= i < |a| && a[i].row.wallet == w;
      assert a[i] in b;
      var j :| 0 <= j < |b| && b[j] == a[i];
    }
    SubsetIsSmaller(Wallets(a), Wallets(b));
  }

  lemma OfSideNext(s: seq<Timed<Trade>>, t: Timed<Trade>, side: Side)
    ensures OfSide(s + [t], side) == if t.row.side == side then OfSide(s, side) + [t] else OfSide(s, side)
  {
    assert (s + [t])[..|s|] == s;
  }

  lemma VolumeNext(s: seq<Timed<Trade>>, t: Timed<Trade>)
    ensures Volume(s + [t]) == Volume(s) + (match t.row.quote case Some(q) => q case None => 0)
  {
    assert (s + [t])[..|s|] == s;
  }

  lemma CountKindNext(s: seq<Timed<PositionEvent>>, e: Timed<PositionEvent>, kind: PositionKind)
    ensures CountKind(s + [e], kind) == CountKind(s, kind) + (if e.row.kind == kind then 1 else 0)
  {
    assert (s + [e])[..|s|] == s;
  }

  lemma {:induction false} VolumeOfLonger(s: seq<Timed<Trade>>, side: Side, lo: int, more: int, hi: int)
    requires more <= lo
    ensures Volume(OfSide(Between(s, lo, hi), side)) <= Volume(OfSide(Between(s, more, hi), side))
  {
    hide Volume, OfSide;
    if |s| > 0 {
      var init, t := s[..|s| - 1], s[|s| - 1];
      VolumeOfLonger(init, side, lo, more, hi);
      var a, b := Between(init, lo, hi), Between(init, more, hi);
      OfSideNext(a, t, side);
      OfSideNext(b, t, side);
      VolumeNext(OfSide(a, side), t);
      VolumeNext(OfSide(b, side), t);
    }
  }

  lemma {:induction false} CountOfLonger(s: seq<Timed<PositionEvent>>, kind: PositionKind, lo: int, more: int, hi: int)
    requires more <= lo
    ensures CountKind(Between(s, lo, hi), kind) <= CountKind(Between(s, more, hi), kind)
  {
    hide CountKind;
    if |s| > 0 {
      var init, e := s[..|s| - 1], s[|s| - 1];
      CountOfLonger(init, kind, lo, more, hi);
      CountKindNext(Between(init, lo, hi), e, kind);
      CountKindNext(Between(init, more, hi), e, kind);
    }
  }

  lemma BuyersOfLonger(s: seq<Timed<Trade>>, lo: int, more: int, hi: int, minimum: real)
    requires more <= lo
    ensures var a, b := OfSide(Between(s, lo, hi), Buy), OfSide(Between(s, more, hi), Buy);
      && |Wallets(a)| <= |Wallets(b)|
      && |Wallets(Qualified(a, minimum))| <= |Wallets(Qualified(b, minimum))|
      && |Wallets(Qualified(a, minimum))| <= |Wallets(a)|
  {
    hide OfSide, Between, Qualified, Wallets;
    var a, b := OfSide(Between(s, lo, hi), Buy), OfSide(Between(s, more, hi), Buy);
    forall t | t in a ensures t in b {
      OfSideKeeps(Between(s, lo, hi), Buy, t);
      OfSideKeeps(Between(s, more, hi), Buy, t);
      BetweenKeeps(s, lo, hi, t);
      BetweenKeeps(s, more, hi, t);
    }
    var p, q := Qualified(a, minimum), Qualified(b, minimum);
    forall t | t in p ensures t in q && t in a {
      QualifiedKeeps(a, minimum, t);
      QualifiedKeeps(b, minimum, t);
    }
    WalletsOfMore(a, b);
    WalletsOfMore(p, q);
    WalletsOfMore(p, a);
  }

  /** A longer window counts at least what a shorter one does; the exit ratio does not depend on the window. */
  lemma WindowsNest(input: Input, at: int, short: nat, long: nat, cfg: Config)
    requires cfg.Usable() && short <= long
    ensures var a, b := Consensus(input, at, short, cfg), Consensus(input, at, long, cfg);
      && a.raw <= b.raw && a.qualified <= b.qualified && a.independent <= b.independent
      && a.qualified <= a.raw
      && a.buy <= b.buy && a.sell <= b.sell
      && a.open <= b.open && a.add <= b.add && a.reduce <= b.reduce && a.close <= b.close
      && a.walletExit == b.walletExit
      && (b.confirmed ==> a.confirmed)
  {
    hide OfSide, Between, Qualified, Wallets, Volume, CountKind, Signed, SortAges, Ages, Weighted, TimingRows, RankRows, WalletExit, RatioBig;
    var lo, more := at - 1_000_000 * short, at - 1_000_000 * long;
    BuyersOfLonger(input.trades, lo, more, at, cfg.minimumIdentity);
    VolumeOfLonger(input.trades, Buy, lo, more, at);
    VolumeOfLonger(input.trades, Sell, lo, more, at);
    CountOfLonger(input.positions, Open, lo, more, at);
    CountOfLonger(input.positions, Add, lo, more, at);
    CountOfLonger(input.positions, Reduce, lo, more, at);
    CountOfLonger(input.positions, Close, lo, more, at);
    ConfirmedOfLonger(input.trades, lo, more, at);
  }

  lemma ConfirmedOfLonger(s: seq<Timed<Trade>>, lo: int, more: int, hi: int)
    requires more <= lo
    ensures (forall i :: 0 <= i < |Between(s, more, hi)| ==> Between(s, more, hi)[i].row.confirmed)
        ==> (forall i :: 0 <= i < |Between(s, lo, hi)| ==> Between(s, lo, hi)[i].row.confirmed)
  {
    hide Between;
    var a, b := Between(s, lo, hi), Between(s, more, hi);
    forall i | 0 <= i < |a| ensures a[i] in b {
      BetweenKeeps(s, lo, hi, a[i]);
      BetweenKeeps(s, more, hi, a[i]);
    }
  }

  // ---------------------------------------------------------------- ages and weights

  lemma SortAgesSorts(s: seq<int>)
    ensures Sorting.Sorted(SortAges(s), NotOlder) && multiset(SortAges(s)) == multiset(s)
  {
    Sorting.SortSorts(s, NotOlder);
  }

  /** The first age is the least of the window's purchases, the median splits them in half. */
  lemma AgesAreOrderStatistics(input: Input, at: int, window: nat, cfg: Config)
    requires cfg.Usable()
    ensures var s := Consensus(input, at, window, cfg);
      var ages := SortAges(Ages(OfSide(Between(input.trades, at - 1_000_000 * window, at), Buy)));
      && multiset(ages) == multiset(Ages(OfSide(Between(input.trades, at - 1_000_000 * window, at), Buy)))
      && (s.first.Some? <==> |ages| > 0) && (s.median.Some? <==> |ages| > 0)
      && (s.first.Some? ==> forall i :: 0 <= i < |ages| ==> s.first.value <= ages[i])
      && (s.median.Some? ==> forall i :: 0 <= i < |ages| ==>
            (i <= |ages| / 2 ==> ages[i] <= s.median.value) && (i >= |ages| / 2 ==> ages[i] >= s.median.value))
  {
    SortAgesSorts(Ages(OfSide(Between(input.trades, at - 1_000_000 * window, at), Buy)));
    hide OfSide, Between, Ages, SortAges, Qualified, Wallets, Volume, CountKind, Signed, Weighted, TimingRows, RankRows, WalletExit, RatioBig;
  }

  /** An earlier buyer never weighs less, an unranked one no more than any. */
  lemma EarlierRanksWeighMore(a: int, b: int)
    ensures a <= b ==> RankWeight(Some(a)) >= RankWeight(Some(b))
    ensures RankWeight(None) <= RankWeight(Some(a))
  {
  }

  /** With falling timing weights an earlier purchase never weighs less, and an unknown age weighs as the latest. */
  lemma EarlierBuysWeighMore(a: int, b: int, cfg: Config)
    requires cfg.Usable() && forall i, j :: 0 <= i < j < 5 ==> cfg.timing[i] >= cfg.timing[j]
    ensures a <= b ==> TimingWeight(a, cfg) >= TimingWeight(b, cfg)
    ensures TimingWeight(NO_AGE, cfg) <= TimingWeight(a, cfg)
  {
  }

  /** `m` is no worse a snapshot than `l`. */
  predicate NoWorse(l: Snapshot, m: Snapshot) {
    && l.uniqueBuyers <= m.uniqueBuyers
    && l.buyCount - l.sellCount <= m.buyCount - m.sellCount
    && l.holderCount <= m.holderCount
    && l.progress.Some? && m.progress.Some? && l.progress.value <= m.progress.value
    && l.netFlow.Some? && m.netFlow.Some? && l.netFlow.value <= m.netFlow.value
  }

  /** Momentum, capital and holder scores never fall when the snapshot gets no worse. */
  lemma ScoresRise(l: Timed<Snapshot>, m: Timed<Snapshot>, previous: Timed<Snapshot>)
    requires NoWorse(l.row, m.row)
    ensures MarketMomentum(Some(l), Some(previous)).value <= MarketMomentum(Some(m), Some(previous)).value
    ensures CapitalScore(Some(l)).value <= CapitalScore(Some(m)).value
    ensures HolderScore(Some(l), Some(previous)).value <= HolderScore(Some(m), Some(previous)).value
  {
    hide Clamp;
    var p := previous.row;
    ClampRises(
      (Max0(l.row.uniqueBuyers - p.uniqueBuyers) * 15 + Max0(l.row.buyCount - l.row.sellCount) * 5) as real + l.row.progress.value * 50.0,
      (Max0(m.row.uniqueBuyers - p.uniqueBuyers) * 15 + Max0(m.row.buyCount - m.row.sellCount) * 5) as real + m.row.progress.value * 50.0);
    ClampRises((50 + (l.row.holderCount - p.holderCount) * 10) as real, (50 + (m.row.holderCount - p.holderCount) * 10) as real);
  }

  lemma ClampRises(a: real, b: real)
    requires a <= b
    ensures Clamp(a) <= Clamp(b)
  {
  }

  /** Row `i` is the last of those with the greatest time. */
  ghost predicate IsLatest(s: seq<Timed<Snapshot>>, i: nat) {
    && i < |s|
    && (forall j :: 0 <= j < |s| ==> s[j].at <= s[i].at)
    && (forall j :: i < j < |s| ==> s[j].at < s[i].at)
  }

  lemma {:induction false} LatestIsLast(s: seq<Timed<Snapshot>>) returns (i: nat)
    ensures Latest(s).Some? <==> |s| > 0
    ensures Latest(s).Some? ==> IsLatest(s, i) && s[i] == Latest(s).value
  {
    i := 0;
    if |s| > 0 {
      var init, last := s[..|s| - 1], s[|s| - 1];
      i := LatestIsLast(init);
      if |init| == 0 || init[i].at <= last.at {
        i := |init|;
      }
      assert forall j :: 0 <= j < |init| ==> s[j] == init[j];
    }
  }
}
