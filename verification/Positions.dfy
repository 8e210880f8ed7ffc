/**
  The position ledger of one wallet and token. `Derive` is the ledger in plain integers; the method
  `Rebuild` is the loop over checked 256-bit arithmetic, which agrees with it exactly while nothing
  overflows.
*/
module Positions {
  import opened Wrappers

  const U256_MAX: nat := 0xffff_ffff_ffff_ffff_ffff_ffff_ffff_ffff_ffff_ffff_ffff_ffff_ffff_ffff_ffff_ffff

  type U256 = n: nat | n <= U256_MAX

  datatype Side = Buy | Sell

  datatype Trade = Trade(id: nat, side: Side, amount: U256, quote: U256, time: int)

  datatype Kind = Open | Add | Reduce | Close | IntegrityWarning

  datatype Event = Event(trade: Trade, kind: Kind, before: nat, after: nat)

  datatype Ledger = Ledger(balance: nat, quoteIn: nat, quoteOut: nat, warnings: nat, events: seq<Event>)

  datatype Error = BalanceOverflow | QuoteInOverflow | QuoteOutOverflow

  function KindOf(before: nat, t: Trade): Kind {
    if t.side == Buy then (if before == 0 then Open else Add)
    else if t.amount > before then IntegrityWarning
    else if t.amount == before then Close
    else Reduce
  }

  function After(before: nat, t: Trade): nat {
    if t.side == Buy then before + t.amount else if t.amount > before then before else before - t.amount
  }

  function Applied(l: Ledger, t: Trade): Ledger {
    var kind, after := KindOf(l.balance, t), After(l.balance, t);
    Ledger(after,
           if t.side == Buy then l.quoteIn + t.quote else l.quoteIn,
           if kind == Close || kind == Reduce then l.quoteOut + t.quote else l.quoteOut,
           if kind == IntegrityWarning then l.warnings + 1 else l.warnings,
           l.events + [Event(t, kind, l.balance, after)])
  }

  function Derive(trades: seq<Trade>): (l: Ledger)
    ensures |l.events| == |trades|
  {
    if |trades| == 0 then Ledger(0, 0, 0, 0, [])
    else Applied(Derive(trades[..|trades| - 1]), trades[|trades| - 1])
  }

  predicate Fits(l: Ledger) {
    l.balance <= U256_MAX && l.quoteIn <= U256_MAX && l.quoteOut <= U256_MAX
  }

  /** The first check that fails on a ledger that does not fit. */
  function Overflow(l: Ledger): Error {
    if l.balance > U256_MAX then BalanceOverflow else if l.quoteIn > U256_MAX then QuoteInOverflow else QuoteOutOverflow
  }

  lemma DeriveNext(trades: seq<Trade>, i: nat)
    requires i < |trades|
    ensures Derive(trades[..i + 1]) == Applied(Derive(trades[..i]), trades[i])
  {
    assert trades[..i + 1][..i] == trades[..i];
  }

  /** Nothing overflows when the balance and both totals fit 256 bits. */
  lemma FitsMeans(l: Ledger)
    ensures Fits(l) <==> l.balance <= U256_MAX && l.quoteIn <= U256_MAX && l.quoteOut <= U256_MAX
    ensures Fits(l) ==> (l.balance as int) < 0x1_0000_0000_0000_0000_0000_0000_0000_0000_0000_0000_0000_0000_0000_0000_0000_0000
  {
  }

  /** The balance is checked before the quotes, and a purchase's quote before a sale's. */
  lemma OverflowOrder(l: Ledger)
    requires !Fits(l)
    ensures Overflow(l) == BalanceOverflow <==> l.balance > U256_MAX
    ensures Overflow(l) == QuoteInOverflow <==> l.balance <= U256_MAX && l.quoteIn > U256_MAX
    ensures Overflow(l) == QuoteOutOverflow <==> l.balance <= U256_MAX && l.quoteIn <= U256_MAX && l.quoteOut > U256_MAX
  {
  }

  /** The ledger after `k` trades is the first that does not fit. */
  ghost predicate FirstOverflow(trades: seq<Trade>, k: nat)
    requires k <= |trades|
  {
    !Fits(Derive(trades[..k])) && forall j :: 0 <= j < k ==> Fits(Derive(trades[..j]))
  }

  /** The rebuild loop: it succeeds exactly when every prefix fits 256 bits, with the plain ledger as result. */
  method Rebuild(trades: seq<Trade>) returns (r: Result<Ledger, Error>)
    ensures r.Ok? <==> forall k :: 0 <= k <= |trades| ==> Fits(Derive(trades[..k]))
    ensures r.Ok? ==> r.value == Derive(trades)
    ensures r.Err? ==> exists k :: 0 < k <= |trades| && FirstOverflow(trades, k) && r.error == Overflow(Derive(trades[..k]))
  {
    hide Derive;
    var balance: nat, quoteIn: nat, quoteOut: nat, warnings: nat, events: seq<Event> := 0, 0, 0, 0, [];
    DeriveNothing(trades);
    for i := 0 to |trades|
      invariant Ledger(balance, quoteIn, quoteOut, warnings, events) == Derive(trades[..i])
      invariant forall k :: 0 <= k <= i ==> Fits(Derive(trades[..k]))
    {
      var t := trades[i];
      var before := balance;
      var kind: Kind;
      DeriveNext(trades, i);
      ghost var next := Derive(trades[..i + 1]);
      if t.side == Buy {
        if balance + t.amount > U256_MAX {
          assert FirstOverflow(trades, i + 1);
          return Err(BalanceOverflow);
        }
        balance := balance + t.amount;
        if quoteIn + t.quote > U256_MAX {
          assert FirstOverflow(trades, i + 1);
          return Err(QuoteInOverflow);
        }
        quoteIn := quoteIn + t.quote;
        kind := if before == 0 then Open else Add;
      } else if t.amount > balance {
        warnings := warnings + 1;
        kind := IntegrityWarning;
      } else {
        balance := balance - t.amount;
        if quoteOut + t.quote > U256_MAX {
          assert FirstOverflow(trades, i + 1);
          return Err(QuoteOutOverflow);
        }
        quoteOut := quoteOut + t.quote;
        kind := if balance == 0 then Close else Reduce;
      }
      events := events + [Event(t, kind, before, balance)];
    }
    assert trades[..|trades|] == trades;
    r := Ok(Ledger(balance, quoteIn, quoteOut, warnings, events));
  }

  lemma DeriveNothing(trades: seq<Trade>)
    ensures Derive(trades[..0]) == Ledger(0, 0, 0, 0, []) && Fits(Derive(trades[..0]))
  {
  }

  // ---------------------------------------------------------------- net amounts

  /** What an event moves: warnings move nothing. */
  function Moved(e: Event): int {
    if e.kind == IntegrityWarning then 0 else if e.trade.side == Buy then e.trade.amount else -(e.trade.amount as int)
  }

  function Net(events: seq<Event>): int {
    if |events| == 0 then 0 else Net(events[..|events| - 1]) + Moved(events[|events| - 1])
  }

  lemma NetLast(events: seq<Event>, e: Event)
    ensures Net(events + [e]) == Net(events) + Moved(e)
  {
    assert (events + [e])[..|events|] == events;
  }

  /** Later trades never touch earlier events. */
  lemma {:induction false} DerivePrefix(trades: seq<Trade>, k: nat)
    requires k <= |trades|
    ensures |Derive(trades).events| == |trades|
    ensures Derive(trades[..k]).events == Derive(trades).events[..k]
  {
    hide KindOf, After;
    if k == |trades| {
      assert trades[..k] == trades;
      if k > 0 {
        DerivePrefix(trades[..k - 1], k - 1);
      }
    } else {
      var init := trades[..|trades| - 1];
      DerivePrefix(init, k);
      assert trades[..k] == init[..k];
    }
  }

  function EventAt(trades: seq<Trade>, i: nat): Event
    requires i < |trades|
  {
    var before := Derive(trades[..i]).balance;
    Event(trades[i], KindOf(before, trades[i]), before, After(before, trades[i]))
  }

  lemma EventIs(trades: seq<Trade>, i: nat)
    requires i < |trades|
    ensures |Derive(trades).events| == |trades| && Derive(trades).events[i] == EventAt(trades, i)
  {
    hide KindOf, After, Derive;
    DerivePrefix(trades, i);
    DerivePrefix(trades, i + 1);
    DeriveNext(trades, i);
    assert Derive(trades).events[i] == Derive(trades).events[..i + 1][i];
  }

  lemma {:induction false} BalanceIsNet(trades: seq<Trade>)
    ensures Derive(trades).balance == Net(Derive(trades).events)
  {
    if |trades| > 0 {
      var init, t := trades[..|trades| - 1], trades[|trades| - 1];
      BalanceIsNet(init);
      var m := Derive(init);
      NetLast(m.events, Event(t, KindOf(m.balance, t), m.balance, After(m.balance, t)));
    }
  }

  /** The balance is the net amount of what was not refused, before and after every event, and that net decides the
      kind of the event. */
  lemma LedgerIsNet(trades: seq<Trade>, i: nat)
    requires i < |trades|
    ensures var es := Derive(trades).events;
      && |es| == |trades| && es[i].trade == trades[i]
      && es[i].before == Net(es[..i]) && es[i].after == Net(es[..i + 1])
      && (es[i].kind == Open <==> trades[i].side == Buy && Net(es[..i]) == 0)
      && (es[i].kind == Add <==> trades[i].side == Buy && Net(es[..i]) > 0)
      && (es[i].kind == Reduce <==> trades[i].side == Sell && trades[i].amount < Net(es[..i]))
      && (es[i].kind == Close <==> trades[i].side == Sell && trades[i].amount == Net(es[..i]))
      && (es[i].kind == IntegrityWarning <==> trades[i].side == Sell && trades[i].amount > Net(es[..i]))
  {
    hide Derive, Net;
    EventIs(trades, i);
    DerivePrefix(trades, i);
    DerivePrefix(trades, i + 1);
    BalanceIsNet(trades[..i]);
    BalanceIsNet(trades[..i + 1]);
    DeriveNext(trades, i);
  }

  /** What a wallet holds after trades of which a sale of more than is held does not happen. */
  function Held(trades: seq<Trade>): int {
    if |trades| == 0 then 0
    else
      var before, t := Held(trades[..|trades| - 1]), trades[|trades| - 1];
      if t.side == Buy then before + t.amount else if t.amount <= before then before - t.amount else before
  }

  /** The quotes of all purchases. */
  function Spent(trades: seq<Trade>): nat {
    if |trades| == 0 then 0
    else
      var t := trades[|trades| - 1];
      Spent(trades[..|trades| - 1]) + (if t.side == Buy then t.quote else 0)
  }

  /** The quotes of all sales of no more than was held. */
  function Proceeds(trades: seq<Trade>): nat {
    if |trades| == 0 then 0
    else
      var n := |trades| - 1;
      Proceeds(trades[..n]) + (if trades[n].side == Sell && trades[n].amount <= Held(trades[..n]) then trades[n].quote else 0)
  }

  /** How many sales were of more than was held. */
  function Refused(trades: seq<Trade>): nat {
    if |trades| == 0 then 0
    else
      var n := |trades| - 1;
      Refused(trades[..n]) + (if trades[n].side == Sell && trades[n].amount > Held(trades[..n]) then 1 else 0)
  }

  /** The stored totals of a position. */
  lemma {:induction false} LedgerTotals(trades: seq<Trade>)
    ensures var l := Derive(trades);
      l.balance == Held(trades) && l.quoteIn == Spent(trades) && l.quoteOut == Proceeds(trades) && l.warnings == Refused(trades)
  {
    if |trades| > 0 {
      LedgerTotals(trades[..|trades| - 1]);
    }
  }

  // ---------------------------------------------------------------- the shape of the event list

  /** An OPEN without a CLOSE behind it. */
  function InPosition(events: seq<Event>): bool {
    if |events| == 0 then false
    else match events[|events| - 1].kind
      case Open => true
      case Close => false
      case _ => InPosition(events[..|events| - 1])
  }

  /** (OPEN (ADD | REDUCE)* CLOSE)* with an optional open tail, warnings anywhere. */
  function Grammatical(events: seq<Event>): bool {
    if |events| == 0 then true
    else
      var init := events[..|events| - 1];
      Grammatical(init) &&
      match events[|events| - 1].kind
      case Open => !InPosition(init)
      case IntegrityWarning => true
      case _ => InPosition(init)
  }

  /** A position is open exactly when something is held. */
  predicate OpenWhenHeld(trades: seq<Trade>) {
    InPosition(Derive(trades).events) <==> Derive(trades).balance != 0
  }

  predicate OpenWhenHeldAt(trades: seq<Trade>, k: nat)
    requires k <= |trades|
  {
    OpenWhenHeld(trades[..k])
  }

  /** The list follows the grammar, and at every prefix a position is open exactly when something is held. */
  ghost predicate Faithful(trades: seq<Trade>) {
    && Grammatical(Derive(trades).events)
    && forall k :: 0 <= k <= |trades| ==> OpenWhenHeldAt(trades, k)
  }

  /** What is held before trade `i`. */
  function HeldBefore(trades: seq<Trade>, i: nat): nat
    requires i <= |trades|
  {
    Derive(trades[..i]).balance
  }

  /** No trade of amount zero happens while nothing is held. */
  ghost predicate NoZeroWhenFlat(trades: seq<Trade>) {
    forall i :: 0 <= i < |trades| && trades[i].amount == 0 ==> HeldBefore(trades, i) != 0
  }

  lemma {:induction false} EventsMatchHoldings(trades: seq<Trade>)
    ensures Faithful(trades) <==> NoZeroWhenFlat(trades)
  {
    hide Faithful, NoZeroWhenFlat, Grammatical, InPosition, Applied;
    if |trades| == 0 {
      EmptyIsFaithful(trades);
    } else {
      var n := |trades| - 1;
      EventsMatchHoldings(trades[..n]);
      SplitZeros(trades);
      SplitFaithful(trades);
      if Faithful(trades[..n]) {
        FaithfulNow(trades[..n]);
        OneMoreTrade(Derive(trades[..n]), trades[n]);
      }
    }
  }

  lemma EmptyIsFaithful(trades: seq<Trade>)
    requires |trades| == 0
    ensures Faithful(trades) && NoZeroWhenFlat(trades)
  {
    forall k | 0 <= k <= |trades| ensures OpenWhenHeldAt(trades, k) {
      assert trades[..k] == [];
      assert Derive([]).events == [];
    }
  }

  lemma FaithfulNow(trades: seq<Trade>)
    requires Faithful(trades)
    ensures Grammatical(Derive(trades).events) && OpenWhenHeld(trades)
  {
    hide Derive, OpenWhenHeld, Grammatical;
    assert OpenWhenHeldAt(trades, |trades|);
    assert trades[..|trades|] == trades;
  }

  /** Prefixes of a prefix are prefixes. */
  lemma SamePrefix(trades: seq<Trade>, n: nat, k: nat)
    requires k <= n <= |trades|
    ensures trades[..n][..k] == trades[..k]
    ensures OpenWhenHeldAt(trades[..n], k) == OpenWhenHeldAt(trades, k)
    ensures HeldBefore(trades[..n], k) == HeldBefore(trades, k)
    ensures PendingBefore(trades[..n], k) == PendingBefore(trades, k)
  {
    hide Derive, OpenWhenHeld, Pending;
    assert trades[..n][..k] == trades[..k];
  }

  lemma WholePrefix(trades: seq<Trade>)
    ensures OpenWhenHeldAt(trades, |trades|) == OpenWhenHeld(trades)
    ensures HeldBefore(trades, |trades|) == Derive(trades).balance
    ensures PendingBefore(trades, |trades|) == Pending(trades)
  {
    hide Derive, OpenWhenHeld, Pending;
    assert trades[..|trades|] == trades;
  }

  lemma SplitZeros(trades: seq<Trade>)
    requires |trades| > 0
    ensures var n := |trades| - 1;
      NoZeroWhenFlat(trades) <==>
        NoZeroWhenFlat(trades[..n]) && (trades[n].amount == 0 ==> Derive(trades[..n]).balance != 0)
  {
    hide Derive;
    var n := |trades| - 1;
    var init := trades[..n];
    forall i | 0 <= i < n ensures HeldBefore(init, i) == HeldBefore(trades, i) && init[i] == trades[i] {
      SamePrefix(trades, n, i);
    }
    assert HeldBefore(trades, n) == Derive(init).balance;
    hide HeldBefore;
    if NoZeroWhenFlat(trades) {
      forall i | 0 <= i < |init| && init[i].amount == 0 ensures HeldBefore(init, i) != 0 {
        assert trades[i].amount == 0 && HeldBefore(trades, i) != 0;
      }
    }
  }

  lemma SplitFaithful(trades: seq<Trade>)
    requires |trades| > 0
    ensures var n := |trades| - 1;
      Faithful(trades) <==>
        Faithful(trades[..n]) && Grammatical(Derive(trades).events) && OpenWhenHeld(trades)
  {
    hide Derive, OpenWhenHeld, Grammatical, Faithful;
    var n := |trades| - 1;
    var init := trades[..n];
    GrammaticalBefore(trades);
    WholePrefix(trades);
    forall k | 0 <= k <= n ensures OpenWhenHeldAt(init, k) == OpenWhenHeldAt(trades, k) {
      SamePrefix(trades, n, k);
    }
    FaithfulExtends(init, trades);
  }

  lemma FaithfulExtends(init: seq<Trade>, trades: seq<Trade>)
    requires |trades| == |init| + 1
    requires forall k :: 0 <= k <= |init| ==> OpenWhenHeldAt(init, k) == OpenWhenHeldAt(trades, k)
    requires OpenWhenHeldAt(trades, |trades|) == OpenWhenHeld(trades)
    requires Grammatical(Derive(trades).events) ==> Grammatical(Derive(init).events)
    ensures Faithful(trades) <==> Faithful(init) && Grammatical(Derive(trades).events) && OpenWhenHeld(trades)
  {
    hide Derive, OpenWhenHeld, OpenWhenHeldAt, Grammatical;
    if Faithful(trades) {
      forall k | 0 <= k <= |init| ensures OpenWhenHeldAt(init, k) {
        assert OpenWhenHeldAt(trades, k);
      }
    }
  }

  lemma GrammaticalBefore(trades: seq<Trade>)
    requires |trades| > 0
    ensures Grammatical(Derive(trades).events) ==> Grammatical(Derive(trades[..|trades| - 1]).events)
  {
    hide Derive, Grammatical;
    DerivePrefix(trades, |trades| - 1);
    GrammaticalPrefix(Derive(trades).events);
  }

  lemma GrammaticalPrefix(events: seq<Event>)
    requires |events| > 0
    ensures Grammatical(events) ==> Grammatical(events[..|events| - 1])
  {
  }

  lemma OneMoreTrade(l: Ledger, t: Trade)
    requires Grammatical(l.events) && (InPosition(l.events) <==> l.balance != 0)
    ensures var m := Applied(l, t);
      (t.amount == 0 ==> l.balance != 0) <==> Grammatical(m.events) && (InPosition(m.events) <==> m.balance != 0)
  {
    var m := Applied(l, t);
    assert m.events[..|l.events|] == l.events;
  }

  // ---------------------------------------------------------------- the grammar alone

  /** Whether a zero-amount purchase made with nothing held is still unanswered after one more trade. */
  function NextPending(before: nat, pending: bool, t: Trade): bool {
    if before != 0 || KindOf(before, t) == IntegrityWarning then pending else t.side == Buy && t.amount == 0
  }

  /** The last trade made with nothing held, and not refused, was a zero-amount purchase. */
  function Pending(trades: seq<Trade>): bool {
    if |trades| == 0 then false
    else
      var init := trades[..|trades| - 1];
      NextPending(Derive(init).balance, Pending(init), trades[|trades| - 1])
  }

  /** With nothing held, a purchase finds no unanswered zero purchase and a zero-amount sale answers one. */
  predicate Answers(before: nat, pending: bool, t: Trade) {
    before == 0 ==> (t.side == Buy ==> !pending) && (t.side == Sell && t.amount == 0 ==> pending)
  }

  function PendingBefore(trades: seq<Trade>, i: nat): bool
    requires i <= |trades|
  {
    Pending(trades[..i])
  }

  ghost predicate AllAnswered(trades: seq<Trade>) {
    forall i :: 0 <= i < |trades| ==> Answers(HeldBefore(trades, i), PendingBefore(trades, i), trades[i])
  }

  lemma {:induction false} PendingIsFlat(trades: seq<Trade>)
    ensures Pending(trades) ==> Derive(trades).balance == 0
  {
    if |trades| > 0 {
      PendingIsFlat(trades[..|trades| - 1]);
    }
  }

  lemma SplitAnswered(trades: seq<Trade>)
    requires |trades| > 0
    ensures var n := |trades| - 1;
      AllAnswered(trades) <==>
        AllAnswered(trades[..n]) && Answers(Derive(trades[..n]).balance, Pending(trades[..n]), trades[n])
  {
    hide Derive, Pending, Answers;
    var n := |trades| - 1;
    var init := trades[..n];
    forall i | 0 <= i < n
      ensures HeldBefore(init, i) == HeldBefore(trades, i) && PendingBefore(init, i) == PendingBefore(trades, i) && init[i] == trades[i]
    {
      SamePrefix(trades, n, i);
    }
    assert HeldBefore(trades, n) == Derive(init).balance && PendingBefore(trades, n) == Pending(init);
    hide HeldBefore, PendingBefore;
    if AllAnswered(trades) {
      forall i | 0 <= i < |init| ensures Answers(HeldBefore(init, i), PendingBefore(init, i), init[i]) {
        assert Answers(HeldBefore(trades, i), PendingBefore(trades, i), trades[i]);
      }
    }
  }

  lemma GrammarStep(l: Ledger, pending: bool, t: Trade)
    requires Grammatical(l.events) && (InPosition(l.events) <==> l.balance != 0 || pending)
    requires pending ==> l.balance == 0
    ensures var m := Applied(l, t);
      && (Grammatical(m.events) <==> Answers(l.balance, pending, t))
      && (Grammatical(m.events) ==> (InPosition(m.events) <==> m.balance != 0 || NextPending(l.balance, pending, t)))
  {
    var m := Applied(l, t);
    assert m.events[..|l.events|] == l.events;
  }

  /** The events follow the grammar exactly when every zero purchase made with nothing held is answered by a
      zero sale before the next purchase, and no other zero sale happens with nothing held. */
  lemma {:induction false} GrammarExactly(trades: seq<Trade>)
    ensures Grammatical(Derive(trades).events) <==> AllAnswered(trades)
    ensures AllAnswered(trades) ==> (InPosition(Derive(trades).events) <==> Derive(trades).balance != 0 || Pending(trades))
  {
    if |trades| > 0 {
      var n := |trades| - 1;
      GrammarExactly(trades[..n]);
      hide AllAnswered, Grammatical, InPosition, Applied, Answers, NextPending;
      SplitAnswered(trades);
      GrammaticalBefore(trades);
      PendingIsFlat(trades[..n]);
      if AllAnswered(trades[..n]) {
        GrammarStep(Derive(trades[..n]), Pending(trades[..n]), trades[n]);
      }
    }
  }

  /** Ledgers that trade no zero amount with nothing held, such as those of positive amounts, leave nothing to answer. */
  lemma {:induction false} NoZeroIsAnswered(trades: seq<Trade>)
    requires NoZeroWhenFlat(trades)
    ensures AllAnswered(trades) && !Pending(trades)
  {
    if |trades| > 0 {
      SplitZeros(trades);
      NoZeroIsAnswered(trades[..|trades| - 1]);
      hide NoZeroWhenFlat, AllAnswered, Derive;
      SplitAnswered(trades);
    }
  }

  // ---------------------------------------------------------------- purchases before closes

  predicate Bought(trades: seq<Trade>) {
    exists i :: 0 <= i < |trades| && trades[i].side == Buy
  }

  lemma {:induction false} NothingHeldBeforeBuying(trades: seq<Trade>)
    requires !Bought(trades)
    ensures Derive(trades).balance == 0
  {
    if |trades| > 0 {
      NothingHeldBeforeBuying(trades[..|trades| - 1]);
    }
  }

  lemma BoughtBefore(trades: seq<Trade>, i: nat, j: nat)
    requires i <= |trades| && j < |trades| && trades[j].side == Buy
    ensures j < i ==> Bought(trades[..i])
  {
    if j < i {
      assert trades[..i][j] == trades[j];
    }
  }

  /** Before the first purchase nothing closes but a sale of zero. */
  lemma CloseBeforeBuying(trades: seq<Trade>, i: nat)
    requires i < |trades| && !Bought(trades[..i])
    ensures Derive(trades).events[i].kind == Close <==> trades[i].side == Sell && trades[i].amount == 0
  {
    NothingHeldBeforeBuying(trades[..i]);
    EventIs(trades, i);
  }

  /** Every CLOSE has an earlier BUY exactly when no zero-amount sale comes before all purchases. */
  lemma CloseFollowsBuy(trades: seq<Trade>)
    ensures (forall i :: 0 <= i < |trades| && Derive(trades).events[i].kind == Close ==> Bought(trades[..i]))
       <==> (forall i :: 0 <= i < |trades| && trades[i].side == Sell && trades[i].amount == 0 ==> Bought(trades[..i]))
  {
    hide Derive;
    forall i | 0 <= i < |trades| && !Bought(trades[..i])
      ensures Derive(trades).events[i].kind == Close <==> trades[i].side == Sell && trades[i].amount == 0
    {
      CloseBeforeBuying(trades, i);
    }
  }
}
