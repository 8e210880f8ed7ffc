/**
  Buyer ranks of one token: the first purchase of every recipient, the first confirmed purchase of every
  smart wallet, and where the latter falls in both orders.
*/
module Ranks {
  import opened Sets

  type Wallet = nat

  /** Block, transaction index (or log index where the RPC left it out), log index. */
  datatype Position = Position(block: nat, tx: nat, log: nat)

  datatype TokenTrade = TokenTrade(position: Position, recipient: Wallet, buy: bool, orphaned: bool)

  /** A smart trade and the token trade it was classified from. */
  datatype SmartTrade = SmartTrade(wallet: Wallet, buy: bool, confirmed: bool, trade: TokenTrade)

  predicate NotAfter(a: Position, b: Position) {
    if a.block != b.block then a.block < b.block
    else if a.tx != b.tx then a.tx < b.tx
    else a.log <= b.log
  }

  type Firsts = map<Wallet, Position>

  function Earlier(m: Firsts, w: Wallet, p: Position): Firsts {
    if w in m && NotAfter(m[w], p) then m else m[w := p]
  }

  /** DISTINCT ON(recipient): every recipient's first purchase. */
  function GeneralFirst(trades: seq<TokenTrade>): Firsts {
    if |trades| == 0 then map[]
    else
      var m, t := GeneralFirst(trades[..|trades| - 1]), trades[|trades| - 1];
      if t.buy && !t.orphaned then Earlier(m, t.recipient, t.position) else m
  }

  predicate Eligible(s: SmartTrade) {
    s.buy && s.confirmed && !s.trade.orphaned
  }

  /** DISTINCT ON(wallet_address): every smart wallet's first confirmed purchase. */
  function SmartFirst(trades: seq<SmartTrade>): Firsts {
    if |trades| == 0 then map[]
    else
      var m, s := SmartFirst(trades[..|trades| - 1]), trades[|trades| - 1];
      if Eligible(s) then Earlier(m, s.wallet, s.trade.position) else m
  }

  predicate Precedes(m: Firsts, v: Wallet, w: Wallet)
    requires v in m && w in m
  {
    if m[v] != m[w] then NotAfter(m[v], m[w]) else v <= w
  }

  function Before(m: Firsts, w: Wallet): set<Wallet>
    requires w in m
  {
    set v | v in m && Precedes(m, v, w)
  }

  /** row_number() in the order of first purchases, ties by address. */
  function SmartRank(m: Firsts, w: Wallet): nat
    requires w in m
  {
    |Before(m, w)|
  }

  function Until(general: Firsts, p: Position): set<Wallet> {
    set v | v in general && NotAfter(general[v], p)
  }

  /** How many recipients had bought by then. */
  function BuyerRank(general: Firsts, p: Position): nat {
    |Until(general, p)|
  }

  /** Block numbers, then transaction indices, then log indices never fall from `a` to `b`. */
  predicate InOrder(a: Position, b: Position) {
    a.block <= b.block && (a.block == b.block ==> a.tx <= b.tx) && (a.block == b.block && a.tx == b.tx ==> a.log <= b.log)
  }

  lemma OrderIs(a: Position, b: Position)
    ensures NotAfter(a, b) <==> InOrder(a, b)
  {
  }

  // ---------------------------------------------------------------- row numbers

  lemma RanksIncrease(m: Firsts, v: Wallet, w: Wallet)
    requires v in m && w in m && v != w && Precedes(m, v, w)
    ensures SmartRank(m, v) < SmartRank(m, w)
  {
    assert Before(m, v) <= Before(m, w);
    assert w in Before(m, w) && w !in Before(m, v);
    SubsetIsSmaller(Before(m, v), Before(m, w));
  }

  function UpTo(k: nat): set<nat> {
    if k == 0 then {} else UpTo(k - 1) + {k}
  }

  lemma {:induction false} UpToHas(k: nat, i: nat)
    ensures i in UpTo(k) <==> 1 <= i <= k
  {
    if k > 0 {
      UpToHas(k - 1, i);
    }
  }

  lemma {:induction false} UpToSize(k: nat)
    ensures |UpTo(k)| == k
  {
    if k > 0 {
      UpToSize(k - 1);
      UpToHas(k - 1, k);
    }
  }

  function RanksOf(m: Firsts, ws: set<Wallet>): set<nat>
    requires ws <= m.Keys
  {
    set w | w in ws :: SmartRank(m, w)
  }

  lemma {:induction false} RanksAreDistinct(m: Firsts, ws: set<Wallet>)
    requires ws <= m.Keys
    ensures |RanksOf(m, ws)| == |ws|
    decreases |ws|
  {
    hide SmartRank;
    if ws == {} {
      assert RanksOf(m, ws) == {};
    } else {
      var w :| w in ws;
      RanksAreDistinct(m, ws - {w});
      forall v | v in ws - {w} ensures SmartRank(m, v) != SmartRank(m, w) {
        if Precedes(m, v, w) {
          RanksIncrease(m, v, w);
        } else {
          RanksIncrease(m, w, v);
        }
      }
      assert RanksOf(m, ws) == RanksOf(m, ws - {w}) + {SmartRank(m, w)};
    }
  }

  /** The smart ranks are a permutation of 1..k, in the order of first purchases. */
  lemma SmartRanksArePermutation(m: Firsts)
    ensures RanksOf(m, m.Keys) == UpTo(|m|)
    ensures forall v, w :: v in m && w in m && v != w ==>
      (SmartRank(m, v) < SmartRank(m, w) <==> InOrder(m[v], m[w]) && (m[v] == m[w] ==> v < w))
  {
    hide SmartRank, UpTo;
    forall w | w in m ensures SmartRank(m, w) in UpTo(|m|) {
      RankInRange(m, w);
      UpToHas(|m|, SmartRank(m, w));
    }
    RanksAreDistinct(m, m.Keys);
    UpToSize(|m|);
    SubsetIsSmaller(RanksOf(m, m.Keys), UpTo(|m|));
    forall v, w | v in m && w in m && v != w
      ensures SmartRank(m, v) < SmartRank(m, w) <==> InOrder(m[v], m[w]) && (m[v] == m[w] ==> v < w)
    {
      OrderIs(m[v], m[w]);
      if Precedes(m, v, w) {
        RanksIncrease(m, v, w);
      } else {
        RanksIncrease(m, w, v);
      }
    }
  }

  lemma RankInRange(m: Firsts, w: Wallet)
    requires w in m
    ensures 1 <= SmartRank(m, w) <= |m|
  {
    assert w in Before(m, w);
    SubsetIsSmaller({w}, Before(m, w));
    SubsetIsSmaller(Before(m, w), m.Keys);
  }

  // ---------------------------------------------------------------- smart against general

  lemma {:induction false} GeneralFirstNotAfter(trades: seq<TokenTrade>, i: nat)
    requires i < |trades| && trades[i].buy && !trades[i].orphaned
    ensures trades[i].recipient in GeneralFirst(trades)
    ensures NotAfter(GeneralFirst(trades)[trades[i].recipient], trades[i].position)
  {
    var n := |trades| - 1;
    if i < n {
      GeneralFirstNotAfter(trades[..n], i);
    }
  }

  lemma {:induction false} GeneralFirstIsBought(trades: seq<TokenTrade>, w: Wallet) returns (i: nat)
    requires w in GeneralFirst(trades)
    ensures i < |trades| && trades[i].buy && !trades[i].orphaned && trades[i].recipient == w
    ensures trades[i].position == GeneralFirst(trades)[w]
  {
    var n := |trades| - 1;
    var m := GeneralFirst(trades[..n]);
    if w in m && m[w] == GeneralFirst(trades)[w] {
      i := GeneralFirstIsBought(trades[..n], w);
    } else {
      i := n;
    }
  }

  predicate IsPurchase(t: TokenTrade, w: Wallet) {
    t.buy && !t.orphaned && t.recipient == w
  }

  /** Exactly the recipients that bought have a first purchase; it is one of theirs and none precedes it. */
  lemma {:induction false} GeneralFirstIsFirst(trades: seq<TokenTrade>, w: Wallet)
    ensures w in GeneralFirst(trades) <==> exists i :: 0 <= i < |trades| && IsPurchase(trades[i], w)
    ensures w in GeneralFirst(trades) ==> exists i :: 0 <= i < |trades| && IsPurchase(trades[i], w) && trades[i].position == GeneralFirst(trades)[w]
    ensures w in GeneralFirst(trades) ==> forall i :: 0 <= i < |trades| && IsPurchase(trades[i], w) ==> InOrder(GeneralFirst(trades)[w], trades[i].position)
  {
    hide GeneralFirst, NotAfter, InOrder;
    if w in GeneralFirst(trades) {
      var i := GeneralFirstIsBought(trades, w);
      assert IsPurchase(trades[i], w);
    }
    forall i | 0 <= i < |trades| && IsPurchase(trades[i], w)
      ensures w in GeneralFirst(trades) && InOrder(GeneralFirst(trades)[w], trades[i].position)
    {
      GeneralFirstNotAfter(trades, i);
      OrderIs(GeneralFirst(trades)[w], trades[i].position);
    }
  }

  /** The recipients with a purchase at or before a position. */
  function BuyersUntil(trades: seq<TokenTrade>, p: Position): set<Wallet> {
    set i | 0 <= i < |trades| && trades[i].buy && !trades[i].orphaned && InOrder(trades[i].position, p) :: trades[i].recipient
  }

  /** A buyer rank counts exactly those. */
  lemma BuyerRankCounts(trades: seq<TokenTrade>, p: Position)
    ensures BuyerRank(GeneralFirst(trades), p) == |BuyersUntil(trades, p)|
  {
    var general := GeneralFirst(trades);
    hide GeneralFirst;
    forall w ensures w in Until(general, p) <==> w in BuyersUntil(trades, p) {
      GeneralFirstIsFirst(trades, w);
      if w in Until(general, p) {
        OrderIs(general[w], p);
        var i :| 0 <= i < |trades| && IsPurchase(trades[i], w) && trades[i].position == general[w];
      }
      if w in BuyersUntil(trades, p) {
        var i :| 0 <= i < |trades| && IsPurchase(trades[i], w) && InOrder(trades[i].position, p);
        OrderIs(general[w], p);
      }
    }
    assert Until(general, p) == BuyersUntil(trades, p);
  }

  lemma {:induction false} SmartFirstIsBought(trades: seq<SmartTrade>, w: Wallet) returns (i: nat)
    requires w in SmartFirst(trades)
    ensures i < |trades| && Eligible(trades[i]) && trades[i].wallet == w && trades[i].trade.position == SmartFirst(trades)[w]
  {
    var n := |trades| - 1;
    var m := SmartFirst(trades[..n]);
    if w in m && m[w] == SmartFirst(trades)[w] {
      i := SmartFirstIsBought(trades[..n], w);
    } else {
      i := n;
    }
  }

  lemma {:induction false} SmartFirstNotAfter(trades: seq<SmartTrade>, i: nat)
    requires i < |trades| && Eligible(trades[i])
    ensures trades[i].wallet in SmartFirst(trades)
    ensures NotAfter(SmartFirst(trades)[trades[i].wallet], trades[i].trade.position)
  {
    var n := |trades| - 1;
    if i < n {
      SmartFirstNotAfter(trades[..n], i);
    }
  }

  predicate IsSmartPurchase(s: SmartTrade, w: Wallet) {
    s.buy && s.confirmed && !s.trade.orphaned && s.wallet == w
  }

  /** The same for smart wallets and their confirmed purchases. */
  lemma {:induction false} SmartFirstIsFirst(trades: seq<SmartTrade>, w: Wallet)
    ensures w in SmartFirst(trades) <==> exists i :: 0 <= i < |trades| && IsSmartPurchase(trades[i], w)
    ensures w in SmartFirst(trades) ==> exists i :: 0 <= i < |trades| && IsSmartPurchase(trades[i], w) && trades[i].trade.position == SmartFirst(trades)[w]
    ensures w in SmartFirst(trades) ==> forall i :: 0 <= i < |trades| && IsSmartPurchase(trades[i], w) ==> InOrder(SmartFirst(trades)[w], trades[i].trade.position)
  {
    hide SmartFirst, NotAfter, InOrder;
    if w in SmartFirst(trades) {
      var i := SmartFirstIsBought(trades, w);
      assert IsSmartPurchase(trades[i], w);
    }
    forall i | 0 <= i < |trades| && IsSmartPurchase(trades[i], w)
      ensures w in SmartFirst(trades) && InOrder(SmartFirst(trades)[w], trades[i].trade.position)
    {
      SmartFirstNotAfter(trades, i);
      OrderIs(SmartFirst(trades)[w], trades[i].trade.position);
    }
  }

  /** Smart trades were classified from the token's trades, and a purchase belongs to its recipient. */
  ghost predicate Classified(trades: seq<TokenTrade>, smart: seq<SmartTrade>) {
    forall i :: 0 <= i < |smart| ==>
      && smart[i].trade in trades
      && (smart[i].buy ==> smart[i].trade.buy && smart[i].wallet == smart[i].trade.recipient)
  }

  /** Every smart buyer ranks among smart buyers no later than among all buyers. */
  lemma SmartRankAtMostBuyerRank(trades: seq<TokenTrade>, smart: seq<SmartTrade>, w: Wallet)
    requires Classified(trades, smart) && w in SmartFirst(smart)
    ensures SmartRank(SmartFirst(smart), w) <= BuyerRank(GeneralFirst(trades), SmartFirst(smart)[w])
  {
    hide GeneralFirst, SmartFirst;
    var m, general := SmartFirst(smart), GeneralFirst(trades);
    forall v | v in Before(m, w) ensures v in Until(general, m[w]) {
      var i := SmartFirstIsBought(smart, v);
      var k :| 0 <= k < |trades| && trades[k] == smart[i].trade;
      GeneralFirstNotAfter(trades, k);
    }
    SubsetIsSmaller(Before(m, w), Until(general, m[w]));
  }

  /** That a purchase belongs to its recipient is used: without it two smart wallets could share one recipient.
      The indexer never stores such a pair. */
  lemma SharedRecipientBreaksRanks(v: Wallet, w: Wallet, r: Wallet, p: Position, q: Position)
    requires v != w && p != q && NotAfter(p, q)
    ensures var a, b := TokenTrade(p, r, true, false), TokenTrade(q, r, true, false);
      var smart := [SmartTrade(v, true, true, a), SmartTrade(w, true, true, b)];
      && w in SmartFirst(smart)
      && SmartRank(SmartFirst(smart), w) == 2
      && BuyerRank(GeneralFirst([a, b]), SmartFirst(smart)[w]) == 1
  {
    var a, b := TokenTrade(p, r, true, false), TokenTrade(q, r, true, false);
    var s, t := SmartTrade(v, true, true, a), SmartTrade(w, true, true, b);
    assert [s, t][..1] == [s] && [s][..0] == [] && [a, b][..1] == [a] && [a][..0] == [];
    assert SmartFirst([s]) == map[v := p];
    assert SmartFirst([s, t]) == map[v := p, w := q];
    assert GeneralFirst([a]) == map[r := p];
    assert GeneralFirst([a, b]) == map[r := p];
    assert Before(SmartFirst([s, t]), w) == {v, w};
    assert Until(GeneralFirst([a, b]), q) == {r};
  }
}
