/**
  The wallet exit ratio of the signal engine over the position events the ledgers derive: closing
  wallets over buying wallets.
*/
module ExitRatio {
  import opened Wrappers
  import opened Sets
  import opened Timeline
  import Signals
  import Positions

  type Ledgers = map<Signals.Wallet, seq<Positions.Trade>>

  function RowKind(k: Positions.Kind): Signals.PositionKind {
    match k
    case Open => Signals.Open
    case Add => Signals.Add
    case Reduce => Signals.Reduce
    case Close => Signals.Close
    case IntegrityWarning => Signals.IntegrityWarning
  }

  /** A row has the kind of its event. */
  lemma RowKindsAgree(k: Positions.Kind)
    ensures RowKind(k) == Signals.Open <==> k == Positions.Open
    ensures RowKind(k) == Signals.Add <==> k == Positions.Add
    ensures RowKind(k) == Signals.Reduce <==> k == Positions.Reduce
    ensures RowKind(k) == Signals.Close <==> k == Positions.Close
  {
  }

  /** The position event rows of one wallet. */
  function Rows(wallet: Signals.Wallet, trades: seq<Positions.Trade>): seq<Timed<Signals.PositionEvent>> {
    var events := Positions.Derive(trades).events;
    seq(|trades|, i requires 0 <= i < |trades| =>
      Timed(trades[i].time, Signals.PositionEvent(RowKind(events[i].kind), wallet)))
  }

  /** The smart trade row of a purchase is among the engine's trades. */
  ghost predicate Listed(input: Signals.Input, wallet: Signals.Wallet, t: Positions.Trade) {
    exists i :: 0 <= i < |input.trades| && input.trades[i].at == t.time
             && input.trades[i].row.wallet == wallet && input.trades[i].row.side == Signals.Buy
  }

  /** The engine's input was loaded from these ledgers, whose trades are in time order. */
  ghost predicate LoadedFrom(input: Signals.Input, ledgers: Ledgers) {
    && (forall k :: 0 <= k < |input.positions| ==>
          input.positions[k].row.wallet in ledgers
          && input.positions[k] in Rows(input.positions[k].row.wallet, ledgers[input.positions[k].row.wallet]))
    && (forall w, i :: w in ledgers && 0 <= i < |ledgers[w]| && ledgers[w][i].side == Positions.Buy ==>
          Listed(input, w, ledgers[w][i]))
    && (forall w, i, j :: w in ledgers && 0 <= i < j < |ledgers[w]| ==> ledgers[w][i].time <= ledgers[w][j].time)
  }

  predicate EmptySale(t: Positions.Trade) {
    t.side == Positions.Sell && t.amount == 0
  }

  /** The trade shares its time with a purchase of its ledger. */
  predicate Tied(trades: seq<Positions.Trade>, i: nat)
    requires i < |trades|
  {
    exists j :: 0 <= j < |trades| && trades[j].side == Positions.Buy && trades[j].time == trades[i].time
  }

  /** A ledger that sells zero before its first purchase makes that purchase at the same time. */
  ghost predicate FirstSalesAreTied(ledgers: Ledgers) {
    forall w, i :: w in ledgers && 0 <= i < |ledgers[w]| && EmptySale(ledgers[w][i]) && !Positions.Bought(ledgers[w][..i])
      ==> Tied(ledgers[w], i)
  }

  ghost predicate Purchased(ledgers: Ledgers, t: Timed<Signals.Trade>) {
    t.row.wallet in ledgers &&
    exists i :: 0 <= i < |ledgers[t.row.wallet]|
             && ledgers[t.row.wallet][i].side == Positions.Buy && ledgers[t.row.wallet][i].time == t.at
  }

  /** And nothing is missing: every event of the ledgers is there, and every purchase row is one of theirs. */
  ghost predicate LoadedExactly(input: Signals.Input, ledgers: Ledgers) {
    && LoadedFrom(input, ledgers)
    && (forall w, i :: w in ledgers && 0 <= i < |ledgers[w]| ==> Rows(w, ledgers[w])[i] in input.positions)
    && (forall k :: 0 <= k < |input.trades| && input.trades[k].row.side == Signals.Buy ==> Purchased(ledgers, input.trades[k]))
  }

  /** The wallets the exit ratio counts as exited by an instant. */
  function ClosedBy(input: Signals.Input, at: int): set<Signals.Wallet> {
    Signals.Closers(UpTo(input.positions, at))
  }

  /** And those it counts as entered. */
  function BoughtBy(input: Signals.Input, at: int): set<Signals.Wallet> {
    Signals.Wallets(Signals.OfSide(UpTo(input.trades, at), Signals.Buy))
  }

  lemma {:induction false} BuysAreKept(s: seq<Timed<Signals.Trade>>, t: Timed<Signals.Trade>)
    requires t in s && t.row.side == Signals.Buy
    ensures t in Signals.OfSide(s, Signals.Buy)
  {
    var init, last := s[..|s| - 1], s[|s| - 1];
    assert s == init + [last];
    if t != last {
      BuysAreKept(init, t);
    }
  }

  lemma {:induction false} KeptAreBuys(s: seq<Timed<Signals.Trade>>)
    ensures forall t :: t in Signals.OfSide(s, Signals.Buy) ==> t in s && t.row.side == Signals.Buy
  {
    if |s| > 0 {
      KeptAreBuys(s[..|s| - 1]);
    }
  }

  lemma BuyerCounts(input: Signals.Input, wallet: Signals.Wallet, t: Positions.Trade, at: int)
    requires Listed(input, wallet, t) && t.time <= at
    ensures wallet in BoughtBy(input, at)
  {
    var i :| 0 <= i < |input.trades| && input.trades[i].at == t.time
          && input.trades[i].row.wallet == wallet && input.trades[i].row.side == Signals.Buy;
    UpToKeeps(input.trades, at, input.trades[i]);
    BuysAreKept(UpTo(input.trades, at), input.trades[i]);
  }

  /** A wallet that counts as entered has a purchase by then in its ledger. */
  lemma CountedBuyer(input: Signals.Input, ledgers: Ledgers, wallet: Signals.Wallet, at: int) returns (j: nat)
    requires LoadedExactly(input, ledgers) && wallet in BoughtBy(input, at)
    ensures wallet in ledgers && j < |ledgers[wallet]|
    ensures ledgers[wallet][j].side == Positions.Buy && ledgers[wallet][j].time <= at
  {
    hide UpTo, Signals.OfSide, LoadedFrom;
    var buys := Signals.OfSide(UpTo(input.trades, at), Signals.Buy);
    var k :| 0 <= k < |buys| && buys[k].row.wallet == wallet;
    KeptAreBuys(UpTo(input.trades, at));
    assert buys[k] in buys;
    UpToKeeps(input.trades, at, buys[k]);
    assert Purchased(ledgers, buys[k]);
    j :| 0 <= j < |ledgers[wallet]| && ledgers[wallet][j].side == Positions.Buy && ledgers[wallet][j].time == buys[k].at;
  }

  /** A wallet that counts as exited has a CLOSE by then in its ledger. */
  lemma CountedCloser(input: Signals.Input, ledgers: Ledgers, wallet: Signals.Wallet, at: int) returns (i: nat)
    requires LoadedFrom(input, ledgers) && wallet in ClosedBy(input, at)
    ensures wallet in ledgers && i < |ledgers[wallet]| && ledgers[wallet][i].time <= at
    ensures Positions.Derive(ledgers[wallet]).events[i].kind == Positions.Close
  {
    hide UpTo, Positions.Derive, Listed;
    var past := UpTo(input.positions, at);
    var k :| 0 <= k < |past| && past[k].row.kind == Signals.Close && past[k].row.wallet == wallet;
    UpToKeeps(input.positions, at, past[k]);
    i :| 0 <= i < |ledgers[wallet]| && Rows(wallet, ledgers[wallet])[i] == past[k];
  }

  lemma CloserCounts(input: Signals.Input, ledgers: Ledgers, wallet: Signals.Wallet, i: nat)
    requires LoadedExactly(input, ledgers) && wallet in ledgers && i < |ledgers[wallet]|
    requires Positions.Derive(ledgers[wallet]).events[i].kind == Positions.Close
    ensures wallet in ClosedBy(input, ledgers[wallet][i].time)
  {
    hide UpTo, Positions.Derive, LoadedFrom, Purchased;
    var row := Rows(wallet, ledgers[wallet])[i];
    var past := UpTo(input.positions, row.at);
    UpToKeeps(input.positions, row.at, row);
    var k :| 0 <= k < |past| && past[k] == row;
  }

  /** A wallet that has closed by some instant has bought by then. */
  lemma CloserIsBuyer(input: Signals.Input, ledgers: Ledgers, at: int, wallet: Signals.Wallet)
    requires LoadedFrom(input, ledgers) && FirstSalesAreTied(ledgers)
    requires wallet in ClosedBy(input, at)
    ensures wallet in BoughtBy(input, at)
  {
    hide UpTo, Signals.OfSide, Positions.Derive, Listed, ClosedBy, BoughtBy;
    var i := CountedCloser(input, ledgers, wallet, at);
    var trades := ledgers[wallet];
    var j: nat;
    if Positions.Bought(trades[..i]) {
      j :| 0 <= j < |trades[..i]| && trades[..i][j].side == Positions.Buy;
      assert trades[..i][j] == trades[j];
    } else {
      Positions.CloseBeforeBuying(trades, i);
      assert EmptySale(trades[i]);
      j :| 0 <= j < |trades| && trades[j].side == Positions.Buy && trades[j].time == trades[i].time;
    }
    BuyerCounts(input, wallet, trades[j], at);
  }

  /** A sale of zero before all purchases closes a position, so a buyer it counts as buys at that very time. */
  lemma CountedSaleIsTied(input: Signals.Input, ledgers: Ledgers, wallet: Signals.Wallet, i: nat)
    requires LoadedExactly(input, ledgers) && wallet in ledgers && i < |ledgers[wallet]|
    requires EmptySale(ledgers[wallet][i]) && !Positions.Bought(ledgers[wallet][..i])
    requires ClosedBy(input, ledgers[wallet][i].time) <= BoughtBy(input, ledgers[wallet][i].time)
    ensures Tied(ledgers[wallet], i)
  {
    hide UpTo, Signals.OfSide, Positions.Derive, Listed, ClosedBy, BoughtBy, Purchased;
    var trades := ledgers[wallet];
    Positions.CloseBeforeBuying(trades, i);
    CloserCounts(input, ledgers, wallet, i);
    var j := CountedBuyer(input, ledgers, wallet, trades[i].time);
    Positions.BoughtBefore(trades, i, j);
    assert trades[j].time == trades[i].time;
  }

  /** At every instant the exited wallets are among the entered ones exactly when every sale of zero before the first
      purchase has that purchase's time. */
  lemma ClosersAreBuyersExactly(input: Signals.Input, ledgers: Ledgers)
    requires LoadedExactly(input, ledgers)
    ensures (forall at :: ClosedBy(input, at) <= BoughtBy(input, at)) <==> FirstSalesAreTied(ledgers)
  {
    hide ClosedBy, BoughtBy, Tied, EmptySale;
    if forall at :: ClosedBy(input, at) <= BoughtBy(input, at) {
      forall w, i | w in ledgers && 0 <= i < |ledgers[w]| && EmptySale(ledgers[w][i]) && !Positions.Bought(ledgers[w][..i])
        ensures Tied(ledgers[w], i)
      {
        assert ClosedBy(input, ledgers[w][i].time) <= BoughtBy(input, ledgers[w][i].time);
        CountedSaleIsTied(input, ledgers, w, i);
      }
    }
    if FirstSalesAreTied(ledgers) {
      forall at ensures ClosedBy(input, at) <= BoughtBy(input, at) {
        forall w | w in ClosedBy(input, at) ensures w in BoughtBy(input, at) {
          CloserIsBuyer(input, ledgers, at, w);
        }
      }
    }
  }

  /** At every instant the exit ratio is then a proportion. */
  lemma ExitRatioIsProportion(input: Signals.Input, ledgers: Ledgers, at: int)
    requires LoadedFrom(input, ledgers) && FirstSalesAreTied(ledgers)
    ensures 0.0 <= Signals.WalletExit(input, at) <= 1.0
  {
    var exited, entered := ClosedBy(input, at), BoughtBy(input, at);
    forall w | w in exited ensures w in entered {
      CloserIsBuyer(input, ledgers, at, w);
    }
    SubsetIsSmaller(exited, entered);
    RatioOfSmaller(|exited|, |entered|);
  }

  lemma RatioOfSmaller(a: nat, b: nat)
    requires a <= b
    ensures 0.0 <= Signals.RatioInt(a, b) <= 1.0
  {
    if b > 0 {
      assert (a as real) / (b as real) * (b as real) == a as real;
    }
  }

  /** Without that condition it need not be: a wallet that only ever sold zero closes a position it never had. */
  lemma EmptySaleOvershoots(buyer: Signals.Wallet, seller: Signals.Wallet, amount: Positions.U256, quote: Positions.U256, row: Signals.Trade, at: int)
    returns (input: Signals.Input, ledgers: Ledgers)
    requires buyer != seller && amount > 0 && row.wallet == buyer && row.side == Signals.Buy
    ensures LoadedExactly(input, ledgers) && !FirstSalesAreTied(ledgers)
    ensures Signals.WalletExit(input, at) == 2.0
  {
    hide UpTo, Signals.OfSide, Signals.Closers, Signals.Wallets, LoadedExactly, FirstSalesAreTied;
    var buy := Positions.Trade(0, Positions.Buy, amount, quote, at);
    var sale := Positions.Trade(1, Positions.Sell, amount, quote, at);
    var empty := Positions.Trade(2, Positions.Sell, 0, quote, at);
    ledgers := map[buyer := [buy, sale], seller := [empty]];
    var a := Timed(at, Signals.PositionEvent(Signals.Open, buyer));
    var b := Timed(at, Signals.PositionEvent(Signals.Close, buyer));
    var c := Timed(at, Signals.PositionEvent(Signals.Close, seller));
    input := Signals.Input(at, [Timed(at, row)], [], [a, b, c]);
    CounterexampleIsLoaded(input, ledgers, buy, sale, empty, buyer, seller, at);
    TwoClosers(a, b, c, at);
    OneBuyer(Timed(at, row), at);
    assert |{buyer, seller}| == 2 && |{buyer}| == 1;
    assert Signals.RatioInt(2, 1) == 2.0;
  }

  lemma CounterexampleIsLoaded(
    input: Signals.Input, ledgers: Ledgers, buy: Positions.Trade, sale: Positions.Trade, empty: Positions.Trade,
    buyer: Signals.Wallet, seller: Signals.Wallet, at: int)
    requires buyer != seller && ledgers == map[buyer := [buy, sale], seller := [empty]]
    requires buy.side == Positions.Buy && sale.side == Positions.Sell && buy.amount == sale.amount > 0
    requires EmptySale(empty) && buy.time == sale.time == empty.time == at
    requires |input.trades| == 1 && input.trades[0].at == at
    requires input.trades[0].row.wallet == buyer && input.trades[0].row.side == Signals.Buy
    requires input.positions == [Timed(at, Signals.PositionEvent(Signals.Open, buyer)),
                                 Timed(at, Signals.PositionEvent(Signals.Close, buyer)),
                                 Timed(at, Signals.PositionEvent(Signals.Close, seller))]
    ensures LoadedExactly(input, ledgers) && !FirstSalesAreTied(ledgers)
  {
    hide Positions.Derive;
    TwoTrades(buy, sale);
    OneSale(empty);
    assert Rows(buyer, [buy, sale])[0] == input.positions[0];
    assert Rows(buyer, [buy, sale])[1] == input.positions[1];
    assert Rows(seller, [empty])[0] == input.positions[2];
    assert Listed(input, buyer, buy);
    assert ledgers[buyer][0] == buy;
    assert EmptySale(ledgers[seller][0]) && !Positions.Bought(ledgers[seller][..0]) && !Tied(ledgers[seller], 0);
  }

  lemma TwoTrades(buy: Positions.Trade, sale: Positions.Trade)
    requires buy.side == Positions.Buy && sale.side == Positions.Sell && buy.amount == sale.amount > 0
    ensures Positions.Derive([buy, sale]).events[0].kind == Positions.Open
    ensures Positions.Derive([buy, sale]).events[1].kind == Positions.Close
  {
    assert [buy, sale][..1] == [buy] && [buy][..0] == [];
    assert Positions.Derive([buy]) == Positions.Applied(Positions.Derive([]), buy);
  }

  lemma OneSale(empty: Positions.Trade)
    requires empty.side == Positions.Sell && empty.amount == 0
    ensures Positions.Derive([empty]).events[0].kind == Positions.Close
  {
    assert [empty][..0] == [];
  }

  lemma TwoClosers(a: Timed<Signals.PositionEvent>, b: Timed<Signals.PositionEvent>, c: Timed<Signals.PositionEvent>, at: int)
    requires a.at == b.at == c.at == at && a.row.kind != Signals.Close && b.row.kind == c.row.kind == Signals.Close
    ensures Signals.Closers(UpTo([a, b, c], at)) == {b.row.wallet, c.row.wallet}
  {
    var s := [a, b, c];
    AllUpTo(s, at);
    assert s[1].row.wallet in Signals.Closers(s) && s[2].row.wallet in Signals.Closers(s);
  }

  lemma {:induction false} AllUpTo<T>(s: seq<Timed<T>>, at: int)
    requires forall i :: 0 <= i < |s| ==> s[i].at <= at
    ensures UpTo(s, at) == s
  {
    if |s| > 0 {
      AllUpTo(s[..|s| - 1], at);
    }
  }

  lemma OneBuyer(t: Timed<Signals.Trade>, at: int)
    requires t.at == at && t.row.side == Signals.Buy
    ensures Signals.Wallets(Signals.OfSide(UpTo([t], at), Signals.Buy)) == {t.row.wallet}
  {
    hide UpTo, Signals.OfSide;
    AllUpTo([t], at);
    OneBuy(t);
    var s := [t];
    assert s[0].row.wallet in Signals.Wallets(s);
  }

  lemma OneBuy(t: Timed<Signals.Trade>)
    requires t.row.side == Signals.Buy
    ensures Signals.OfSide([t], Signals.Buy) == [t]
  {
    assert [t][..0] == [];
  }
}
