/**
  The holder index of one token: a fold of transfer legs into wallet balances, the holder count over the
  result, and the grouped query over raw transfers that snapshots use instead.
*/
module Holders {
  import opened Wrappers
  import opened Positions
  import opened Sets

  type Address = nat

  const ZERO: Address := 0

  datatype Transfer = Transfer(from: Address, to: Address, amount: U256, orphaned: bool)

  datatype Leg = Leg(wallet: Address, amount: U256, incoming: bool)

  datatype LegError = BalanceTooLarge

  /** The legs of one transfer, outgoing before incoming; the zero address has none. */
  function LegsOf(t: Transfer): seq<Leg> {
    var outgoing := if t.from != ZERO then [Leg(t.from, t.amount, false)] else [];
    var incoming := if t.to != ZERO then [Leg(t.to, t.amount, true)] else [];
    if t.orphaned then [] else outgoing + incoming
  }

  /** All legs of transfers given in chain order. */
  function Legs(transfers: seq<Transfer>): seq<Leg> {
    if |transfers| == 0 then [] else Legs(transfers[..|transfers| - 1]) + LegsOf(transfers[|transfers| - 1])
  }

  function Moved(balance: nat, leg: Leg): nat {
    if leg.incoming then balance + leg.amount
    else if leg.amount > balance then balance
    else balance - leg.amount
  }

  /** A wallet's balance after one more leg. */
  function Landed(balance: nat, leg: Leg, w: Address): nat {
    if leg.wallet == w then Moved(balance, leg) else balance
  }

  /** The balance tracked for a wallet, in plain integers. */
  function Tracked(legs: seq<Leg>, w: Address): nat {
    if |legs| == 0 then 0
    else Landed(Tracked(legs[..|legs| - 1], w), legs[|legs| - 1], w)
  }

  function Signed(leg: Leg): int {
    if leg.incoming then leg.amount else -(leg.amount as int)
  }

  /** What a wallet received minus what it sent. */
  function Net(legs: seq<Leg>, w: Address): int {
    if |legs| == 0 then 0
    else Net(legs[..|legs| - 1], w) + (if legs[|legs| - 1].wallet == w then Signed(legs[|legs| - 1]) else 0)
  }

  /** A debit larger than the balance is skipped. */
  predicate Skips(legs: seq<Leg>, i: nat)
    requires i < |legs|
  {
    !legs[i].incoming && legs[i].amount > Tracked(legs[..i], legs[i].wallet)
  }

  /** The skipped debits of a wallet. */
  function Skipped(legs: seq<Leg>, w: Address): nat {
    if |legs| == 0 then 0
    else
      var n := |legs| - 1;
      Skipped(legs[..n], w) + (if legs[n].wallet == w && Skips(legs, n) then legs[n].amount else 0)
  }

  ghost predicate Warned(legs: seq<Leg>) {
    exists i :: 0 <= i < |legs| && Skips(legs, i)
  }

  function Balance(balances: map<Address, U256>, w: Address): nat {
    if w in balances then balances[w] else 0
  }

  function Wallets(legs: seq<Leg>): set<Address> {
    set i | 0 <= i < |legs| :: legs[i].wallet
  }

  ghost predicate AllFit(legs: seq<Leg>) {
    forall w :: Tracked(legs, w) <= U256_MAX
  }

  /** No prefix of the legs leaves a balance beyond 256 bits. */
  ghost predicate AlwaysFits(legs: seq<Leg>) {
    forall k :: 0 <= k <= |legs| ==> AllFit(legs[..k])
  }

  lemma TrackedNext(legs: seq<Leg>, i: nat, w: Address)
    requires i < |legs|
    ensures Tracked(legs[..i + 1], w) == if legs[i].wallet == w then Moved(Tracked(legs[..i], w), legs[i]) else Tracked(legs[..i], w)
  {
    assert legs[..i + 1][..i] == legs[..i];
  }

  /** The fold of `rebuild`: it fails exactly when a tracked balance outgrows 256 bits. */
  method Fold(legs: seq<Leg>) returns (r: Result<(map<Address, U256>, bool), LegError>)
    ensures r.Ok? <==> AlwaysFits(legs)
    ensures r.Ok? ==> forall w :: Balance(r.value.0, w) == Tracked(legs, w)
    ensures r.Ok? ==> r.value.0.Keys == Wallets(legs) && (r.value.1 <==> Warned(legs))
  {
    hide Tracked;
    var balances: map<Address, U256> := map[];
    var warning := false;
    NothingTracked(legs);
    for i := 0 to |legs|
      invariant forall w :: Balance(balances, w) == Tracked(legs[..i], w)
      invariant balances.Keys == Wallets(legs[..i])
      invariant warning <==> exists k :: 0 <= k < i && Skips(legs, k)
      invariant forall k :: 0 <= k <= i ==> AllFit(legs[..k])
    {
      var leg := legs[i];
      var b := Balance(balances, leg.wallet);
      ghost var before := balances;
      WalletsNext(legs, i);
      TrackedNext(legs, i, leg.wallet);
      assert Skips(legs, i) <==> !leg.incoming && leg.amount > b;
      if leg.incoming {
        if b + leg.amount > U256_MAX {
          assert Tracked(legs[..i + 1], leg.wallet) > U256_MAX;
          assert !AllFit(legs[..i + 1]);
          return Err(BalanceTooLarge);
        }
        balances := balances[leg.wallet := b + leg.amount];
      } else if leg.amount > b {
        balances := balances[leg.wallet := b];
        warning := true;
      } else {
        balances := balances[leg.wallet := b - leg.amount];
      }
      forall w ensures Balance(balances, w) == Tracked(legs[..i + 1], w) {
        TrackedNext(legs, i, w);
        assert w != leg.wallet ==> Balance(balances, w) == Balance(before, w);
      }
      BalancesFit(balances, legs[..i + 1]);
    }
    assert legs[..|legs|] == legs;
    r := Ok((balances, warning));
  }

  lemma BalancesFit(balances: map<Address, U256>, legs: seq<Leg>)
    requires forall w :: Balance(balances, w) == Tracked(legs, w)
    ensures AllFit(legs)
  {
    hide Tracked;
    forall w ensures Tracked(legs, w) <= U256_MAX {
      assert Balance(balances, w) <= U256_MAX;
    }
  }

  lemma NothingTracked(legs: seq<Leg>)
    ensures forall w :: Tracked(legs[..0], w) == 0
  {
  }

  lemma WalletsNext(legs: seq<Leg>, i: nat)
    requires i < |legs|
    ensures Wallets(legs[..i + 1]) == Wallets(legs[..i]) + {legs[i].wallet}
  {
    var a, b := legs[..i + 1], legs[..i];
    forall w | w in Wallets(b) ensures w in Wallets(a) {
      var k :| 0 <= k < |b| && b[k].wallet == w;
      assert a[k].wallet == w;
    }
    assert a[i].wallet == legs[i].wallet;
  }

  lemma TrackedOfOne(before: seq<Leg>, leg: Leg, w: Address)
    ensures Tracked(before + [leg], w) == Landed(Tracked(before, w), leg, w)
  {
    assert (before + [leg])[..|before|] == before;
  }

  /** A balance after one more transfer: the sender is debited, unless that exceeds the balance, before the receiver is
      credited. */
  function Settled(balance: nat, t: Transfer, w: Address): nat {
    var left := if !t.orphaned && t.from == w && t.amount <= balance then balance - t.amount else balance;
    if !t.orphaned && t.to == w then left + t.amount else left
  }

  lemma LegsSettle(before: seq<Leg>, t: Transfer, w: Address)
    requires w != ZERO
    ensures Tracked(before + LegsOf(t), w) == Settled(Tracked(before, w), t, w)
  {
    var out, arrived := Leg(t.from, t.amount, false), Leg(t.to, t.amount, true);
    hide Tracked;
    if t.orphaned || (t.from == ZERO && t.to == ZERO) {
      assert before + LegsOf(t) == before;
    } else if t.from == ZERO {
      assert before + LegsOf(t) == before + [arrived];
      TrackedOfOne(before, arrived, w);
    } else if t.to == ZERO {
      assert before + LegsOf(t) == before + [out];
      TrackedOfOne(before, out, w);
    } else {
      assert before + LegsOf(t) == before + [out] + [arrived];
      TrackedOfOne(before, out, w);
      TrackedOfOne(before + [out], arrived, w);
    }
  }

  lemma LegsNext(transfers: seq<Transfer>, t: Transfer)
    ensures Legs(transfers + [t]) == Legs(transfers) + LegsOf(t)
  {
    assert (transfers + [t])[..|transfers|] == transfers;
  }

  /** Transfers settle one after the other. */
  lemma TransferLands(transfers: seq<Transfer>, t: Transfer, w: Address)
    requires w != ZERO
    ensures Tracked(Legs(transfers + [t]), w) == Settled(Tracked(Legs(transfers), w), t, w)
  {
    LegsNext(transfers, t);
    LegsSettle(Legs(transfers), t, w);
  }

  // ---------------------------------------------------------------- against net sums

  /** A tracked balance is the net sum plus exactly what was skipped. */
  lemma {:induction false} TrackedIsNetPlusSkipped(legs: seq<Leg>, w: Address)
    ensures Tracked(legs, w) == Net(legs, w) + Skipped(legs, w)
  {
    if |legs| > 0 {
      TrackedIsNetPlusSkipped(legs[..|legs| - 1], w);
    }
  }

  lemma {:induction false} SkippedMeansWarned(legs: seq<Leg>, w: Address)
    ensures Skipped(legs, w) > 0 ==> Warned(legs)
  {
    if |legs| > 0 {
      var n := |legs| - 1;
      var init := legs[..n];
      SkippedMeansWarned(init, w);
      if Warned(init) {
        var i :| 0 <= i < |init| && Skips(init, i);
        assert init[..i] == legs[..i];
        assert Skips(legs, i);
      }
    }
  }

  lemma {:induction false} PrefixWarned(legs: seq<Leg>, k: nat)
    requires k <= |legs| && Warned(legs[..k])
    ensures Warned(legs)
  {
    var i :| 0 <= i < |legs[..k]| && Skips(legs[..k], i);
    assert legs[..k][..i] == legs[..i];
    assert Skips(legs, i);
  }

  lemma {:induction false} FirstSkip(legs: seq<Leg>) returns (i: nat)
    requires Warned(legs)
    ensures i < |legs| && Skips(legs, i) && !Warned(legs[..i])
  {
    i :| i < |legs| && Skips(legs, i);
    if Warned(legs[..i]) {
      var j := FirstSkip(legs[..i]);
      assert legs[..i][..j] == legs[..j];
      i := j;
    }
  }

  /** The integrity warning is raised exactly when some wallet's net sum goes negative at some prefix. */
  lemma WarningMeansNegative(legs: seq<Leg>)
    ensures Warned(legs) <==> exists k, w :: 0 <= k <= |legs| && Net(legs[..k], w) < 0
  {
    if Warned(legs) {
      var i := FirstSkip(legs);
      var w := legs[i].wallet;
      TrackedIsNetPlusSkipped(legs[..i], w);
      SkippedMeansWarned(legs[..i], w);
      assert legs[..i + 1][..i] == legs[..i];
      assert Net(legs[..i + 1], w) < 0;
    } else {
      forall k, w | 0 <= k <= |legs| ensures Net(legs[..k], w) >= 0 {
        TrackedIsNetPlusSkipped(legs[..k], w);
        SkippedMeansWarned(legs[..k], w);
        if Warned(legs[..k]) {
          PrefixWarned(legs, k);
        }
      }
    }
  }

  /** Without a warning every tracked balance is the wallet's net sum. */
  lemma CleanBalancesAreNet(legs: seq<Leg>, w: Address)
    ensures !Warned(legs) ==> Tracked(legs, w) == Net(legs, w)
    ensures Tracked(legs, w) >= Net(legs, w)
  {
    TrackedIsNetPlusSkipped(legs, w);
    SkippedMeansWarned(legs, w);
  }

  // ---------------------------------------------------------------- conservation

  ghost function Sum(ws: set<Address>, f: Address -> int): int {
    if ws == {} then 0
    else
      var w :| w in ws;
      f(w) + Sum(ws - {w}, f)
  }

  lemma {:induction false} SumWithout(ws: set<Address>, w: Address, f: Address -> int)
    requires w in ws
    ensures Sum(ws, f) == f(w) + Sum(ws - {w}, f)
    decreases |ws|
  {
    var v :| v in ws && Sum(ws, f) == f(v) + Sum(ws - {v}, f);
    if v != w {
      SumWithout(ws - {v}, w, f);
      SumWithout(ws - {w}, v, f);
      assert ws - {v} - {w} == ws - {w} - {v};
    }
  }

  lemma {:induction false} SumAgrees(ws: set<Address>, f: Address -> int, g: Address -> int)
    requires forall w :: w in ws ==> f(w) == g(w)
    ensures Sum(ws, f) == Sum(ws, g)
    decreases |ws|
  {
    if ws != {} {
      var w :| w in ws;
      SumWithout(ws, w, f);
      SumWithout(ws, w, g);
      SumAgrees(ws - {w}, f, g);
    }
  }

  /** The sum of all tracked balances. */
  ghost function Total(legs: seq<Leg>): int {
    Sum(Wallets(legs), (w: Address) => Tracked(legs, w) as int)
  }

  /** All debits that were skipped. */
  function SkippedTotal(legs: seq<Leg>): nat {
    if |legs| == 0 then 0
    else SkippedTotal(legs[..|legs| - 1]) + (if Skips(legs, |legs| - 1) then legs[|legs| - 1].amount else 0)
  }

  function SignedTotal(legs: seq<Leg>): int {
    if |legs| == 0 then 0 else SignedTotal(legs[..|legs| - 1]) + Signed(legs[|legs| - 1])
  }

  lemma {:induction false} Untouched(legs: seq<Leg>, w: Address)
    requires w !in Wallets(legs)
    ensures Tracked(legs, w) == 0
  {
    if |legs| > 0 {
      var n := |legs| - 1;
      assert legs[n].wallet in Wallets(legs);
      WalletsNext(legs, n);
      assert legs[..n + 1] == legs;
      Untouched(legs[..n], w);
    }
  }

  lemma TotalNext(legs: seq<Leg>, leg: Leg)
    ensures Total(legs + [leg]) == Total(legs) - Tracked(legs, leg.wallet) + Moved(Tracked(legs, leg.wallet), leg)
  {
    hide Tracked, Moved, Sum;
    var next, w := legs + [leg], leg.wallet;
    var f, g := (x: Address) => Tracked(legs, x) as int, (x: Address) => Tracked(next, x) as int;
    assert next[..|legs|] == legs && next[..|next|] == next;
    WalletsNext(next, |legs|);
    forall x ensures Tracked(next, x) == if x == w then Moved(Tracked(legs, x), leg) else Tracked(legs, x) {
      TrackedNext(next, |legs|, x);
    }
    SumWithout(Wallets(next), w, g);
    SumAgrees(Wallets(next) - {w}, f, g);
    if w in Wallets(legs) {
      assert Wallets(next) == Wallets(legs);
      SumWithout(Wallets(legs), w, f);
    } else {
      Untouched(legs, w);
      assert Wallets(next) - {w} == Wallets(legs);
    }
    SumAgrees(Wallets(legs), f, (x: Address) => Tracked(legs, x) as int);
    SumAgrees(Wallets(next), g, (x: Address) => Tracked(next, x) as int);
  }

  lemma {:induction false} TotalIsSigned(legs: seq<Leg>)
    ensures Total(legs) == SignedTotal(legs) + SkippedTotal(legs)
  {
    if |legs| == 0 {
      assert Wallets(legs) == {};
    } else {
      var init, leg := legs[..|legs| - 1], legs[|legs| - 1];
      assert legs == init + [leg];
      TotalIsSigned(init);
      TotalNext(init, leg);
    }
  }

  function Minted(transfers: seq<Transfer>): nat {
    if |transfers| == 0 then 0
    else
      var t := transfers[|transfers| - 1];
      Minted(transfers[..|transfers| - 1]) + (if !t.orphaned && t.from == ZERO then t.amount else 0)
  }

  function Burned(transfers: seq<Transfer>): nat {
    if |transfers| == 0 then 0
    else
      var t := transfers[|transfers| - 1];
      Burned(transfers[..|transfers| - 1]) + (if !t.orphaned && t.to == ZERO then t.amount else 0)
  }

  lemma SignedTotalNext(legs: seq<Leg>, leg: Leg)
    ensures SignedTotal(legs + [leg]) == SignedTotal(legs) + Signed(leg)
  {
    assert (legs + [leg])[..|legs|] == legs;
  }

  lemma SignedOfTransfer(before: seq<Leg>, t: Transfer)
    ensures SignedTotal(before + LegsOf(t)) == SignedTotal(before)
      + (if !t.orphaned && t.to != ZERO then t.amount as int else 0) - (if !t.orphaned && t.from != ZERO then t.amount as int else 0)
  {
    hide SignedTotal;
    var out, arrived := Leg(t.from, t.amount, false), Leg(t.to, t.amount, true);
    if t.orphaned || (t.from == ZERO && t.to == ZERO) {
      assert before + LegsOf(t) == before;
    } else if t.from == ZERO {
      SignedTotalNext(before, arrived);
      assert before + LegsOf(t) == before + [arrived];
    } else if t.to == ZERO {
      SignedTotalNext(before, out);
      assert before + LegsOf(t) == before + [out];
    } else {
      SignedTotalNext(before, out);
      SignedTotalNext(before + [out], arrived);
      assert before + LegsOf(t) == before + [out] + [arrived];
    }
  }

  lemma {:induction false} SignedIsMintsMinusBurns(transfers: seq<Transfer>)
    ensures SignedTotal(Legs(transfers)) == Minted(transfers) - Burned(transfers)
  {
    if |transfers| > 0 {
      var init, t := transfers[..|transfers| - 1], transfers[|transfers| - 1];
      SignedIsMintsMinusBurns(init);
      SignedOfTransfer(Legs(init), t);
      hide SignedTotal, LegsOf;
    }
  }

  /** The tracked balances add up to mints minus burns plus exactly the skipped debits. */
  lemma SupplyIsConserved(transfers: seq<Transfer>)
    ensures Total(Legs(transfers)) == Minted(transfers) - Burned(transfers) + SkippedTotal(Legs(transfers))
    ensures !Warned(Legs(transfers)) <==> SkippedTotal(Legs(transfers)) == 0
  {
    TotalIsSigned(Legs(transfers));
    SignedIsMintsMinusBurns(transfers);
    SkipsAddUp(Legs(transfers));
  }

  lemma {:induction false} SkipsAddUp(legs: seq<Leg>)
    ensures !Warned(legs) <==> SkippedTotal(legs) == 0
  {
    if |legs| > 0 {
      var n := |legs| - 1;
      SkipsAddUp(legs[..n]);
      if Warned(legs[..n]) {
        PrefixWarned(legs, n);
      }
      if Warned(legs) && !Skips(legs, n) {
        var i :| 0 <= i < |legs| && Skips(legs, i);
        assert legs[..n][..i] == legs[..i];
        assert Skips(legs[..n], i);
      }
    }
  }

  // ---------------------------------------------------------------- the holder count

  predicate Excluded(w: Address, curve: Address, factory: Option<Address>) {
    w == curve || w == ZERO || factory == Some(w)
  }

  function HoldersOf(balances: map<Address, U256>, curve: Address, factory: Option<Address>): set<Address> {
    set w | w in balances && balances[w] != 0 && !Excluded(w, curve, factory)
  }

  /** The balance rows and the holder count written by `rebuild`. */
  method CountHolders(balances: map<Address, U256>, curve: Address, factory: Option<Address>)
    returns (holders: nat, rows: map<Address, (U256, bool)>)
    ensures rows == map w | w in balances && balances[w] != 0 :: (balances[w], Excluded(w, curve, factory))
    ensures holders == |HoldersOf(balances, curve, factory)|
  {
    holders, rows := 0, map[];
    var left := balances.Keys;
    ghost var counted: set<Address> := {};
    while left != {}
      invariant left <= balances.Keys
      invariant forall w :: w in rows <==> w in balances && w !in left && balances[w] != 0
      invariant forall w :: w in rows ==> rows[w] == (balances[w], Excluded(w, curve, factory))
      invariant forall w :: w in counted <==> w in rows && !Excluded(w, curve, factory)
      invariant holders == |counted|
      decreases |left|
    {
      var w :| w in left;
      left := left - {w};
      if balances[w] == 0 {
        continue;
      }
      var excluded := Excluded(w, curve, factory);
      if !excluded {
        holders := holders + 1;
        counted := counted + {w};
      }
      rows := rows[w := (balances[w], excluded)];
    }
    assert counted == HoldersOf(balances, curve, factory);
  }

  function Effect(t: Transfer, w: Address): int {
    (if !t.orphaned && t.to == w then t.amount as int else 0) - (if !t.orphaned && t.from == w then t.amount as int else 0)
  }

  /** The snapshot query: wallets whose transfer deltas sum to more than zero, over all legs of both sides. */
  function Delta(transfers: seq<Transfer>, w: Address): int {
    if |transfers| == 0 then 0
    else Delta(transfers[..|transfers| - 1], w) + Effect(transfers[|transfers| - 1], w)
  }

  function Grouped(transfers: seq<Transfer>, curve: Address, factory: Option<Address>): set<Address> {
    set i, w | 0 <= i < |transfers| && w in {transfers[i].from, transfers[i].to} && Delta(transfers, w) > 0
      && w != ZERO && w != curve && w != (if factory.Some? then factory.value else ZERO) :: w
  }

  function Indexed(transfers: seq<Transfer>, curve: Address, factory: Option<Address>): set<Address> {
    set w | w in Wallets(Legs(transfers)) && Tracked(Legs(transfers), w) != 0 && !Excluded(w, curve, factory)
  }

  lemma NetNext(legs: seq<Leg>, leg: Leg, w: Address)
    ensures Net(legs + [leg], w) == Net(legs, w) + (if leg.wallet == w then Signed(leg) else 0)
  {
    assert (legs + [leg])[..|legs|] == legs;
  }

  lemma NetOfTransfer(before: seq<Leg>, t: Transfer, w: Address)
    requires w != ZERO
    ensures Net(before + LegsOf(t), w) == Net(before, w) + Effect(t, w)
  {
    hide Net;
    var out, arrived := Leg(t.from, t.amount, false), Leg(t.to, t.amount, true);
    if t.orphaned || (t.from == ZERO && t.to == ZERO) {
      assert before + LegsOf(t) == before;
    } else if t.from == ZERO {
      NetNext(before, arrived, w);
      assert before + LegsOf(t) == before + [arrived];
    } else if t.to == ZERO {
      NetNext(before, out, w);
      assert before + LegsOf(t) == before + [out];
    } else {
      NetNext(before, out, w);
      NetNext(before + [out], arrived, w);
      assert before + LegsOf(t) == before + [out] + [arrived];
    }
  }

  lemma {:induction false} DeltaIsNet(transfers: seq<Transfer>, w: Address)
    requires w != ZERO
    ensures Delta(transfers, w) == Net(Legs(transfers), w)
  {
    if |transfers| > 0 {
      DeltaIsNet(transfers[..|transfers| - 1], w);
      NetOfTransfer(Legs(transfers[..|transfers| - 1]), transfers[|transfers| - 1], w);
      hide Net, LegsOf;
    }
  }

  lemma {:induction false} LegsMention(transfers: seq<Transfer>, w: Address)
    requires w in Wallets(Legs(transfers))
    ensures exists i :: 0 <= i < |transfers| && w in {transfers[i].from, transfers[i].to}
  {
    var n := |transfers| - 1;
    var legs := Legs(transfers);
    var k :| 0 <= k < |legs| && legs[k].wallet == w;
    if k < |Legs(transfers[..n])| {
      assert legs[k] == Legs(transfers[..n])[k];
      LegsMention(transfers[..n], w);
      var i :| 0 <= i < n && w in {transfers[..n][i].from, transfers[..n][i].to};
      assert w in {transfers[i].from, transfers[i].to};
    } else {
      assert legs[k] in LegsOf(transfers[n]);
      assert w in {transfers[n].from, transfers[n].to};
    }
  }

  lemma PositiveIsTracked(transfers: seq<Transfer>, w: Address)
    requires w != ZERO && Delta(transfers, w) > 0
    ensures w in Wallets(Legs(transfers)) && Tracked(Legs(transfers), w) > 0
  {
    DeltaIsNet(transfers, w);
    CleanBalancesAreNet(Legs(transfers), w);
    if w !in Wallets(Legs(transfers)) {
      Untouched(Legs(transfers), w);
    }
  }

  /** The query counts a wallet of the index exactly when its skipped debits stay below its tracked balance. */
  lemma GroupedWhenCovered(transfers: seq<Transfer>, curve: Address, factory: Option<Address>, w: Address)
    requires w in Indexed(transfers, curve, factory)
    ensures w in Grouped(transfers, curve, factory) <==> Skipped(Legs(transfers), w) < Tracked(Legs(transfers), w)
  {
    hide Delta, Tracked, Legs, Net, Wallets, Skipped;
    TrackedIsNetPlusSkipped(Legs(transfers), w);
    DeltaIsNet(transfers, w);
    LegsMention(transfers, w);
  }

  /** No counted wallet holds a balance made up of skipped debits alone. */
  ghost predicate SkipsAreCovered(transfers: seq<Transfer>, curve: Address, factory: Option<Address>) {
    forall w :: w in Indexed(transfers, curve, factory) ==> Skipped(Legs(transfers), w) < Tracked(Legs(transfers), w)
  }

  /** The grouped query never counts a wallet the index does not, and both count the same exactly when every
      counted wallet has credits beyond what was skipped. */
  lemma HolderCountsAgree(transfers: seq<Transfer>, curve: Address, factory: Option<Address>)
    ensures Grouped(transfers, curve, factory) <= Indexed(transfers, curve, factory)
    ensures |Grouped(transfers, curve, factory)| == |Indexed(transfers, curve, factory)| <==> SkipsAreCovered(transfers, curve, factory)
  {
    hide Delta, Tracked, Legs, Net, Wallets, Skipped;
    var g, x := Grouped(transfers, curve, factory), Indexed(transfers, curve, factory);
    forall w | w in g ensures w in x {
      PositiveIsTracked(transfers, w);
    }
    SubsetIsSmaller(g, x);
    forall w | w in x ensures w in g <==> Skipped(Legs(transfers), w) < Tracked(Legs(transfers), w) {
      GroupedWhenCovered(transfers, curve, factory, w);
    }
    assert g == x <==> forall w :: w in x ==> w in g;
  }

  /** In particular without a warning. */
  lemma CleanCountsAgree(transfers: seq<Transfer>, curve: Address, factory: Option<Address>)
    requires !Warned(Legs(transfers))
    ensures |Grouped(transfers, curve, factory)| == |Indexed(transfers, curve, factory)|
  {
    hide Tracked, Legs, Wallets, Skipped, Warned, Grouped;
    forall w ensures Skipped(Legs(transfers), w) == 0 {
      SkippedMeansWarned(Legs(transfers), w);
    }
    HolderCountsAgree(transfers, curve, factory);
  }

  datatype Index = Index(holders: nat, warning: bool, rows: map<Address, (U256, bool)>)

  /** The balance part of `rebuild`: its holder count is that of the index, and equals the snapshot query's
      exactly under the condition above. */
  method RebuildBalances(transfers: seq<Transfer>, curve: Address, factory: Option<Address>) returns (r: Result<Index, LegError>)
    ensures r.Ok? <==> AlwaysFits(Legs(transfers))
    ensures r.Ok? ==> r.value.holders == |Indexed(transfers, curve, factory)| && (r.value.warning <==> Warned(Legs(transfers)))
    ensures r.Ok? ==> (r.value.holders == |Grouped(transfers, curve, factory)| <==> SkipsAreCovered(transfers, curve, factory))
    ensures r.Ok? ==> forall w :: w in r.value.rows <==> Tracked(Legs(transfers), w) != 0
    ensures r.Ok? ==> forall w :: w in r.value.rows ==> r.value.rows[w] == (Tracked(Legs(transfers), w), Excluded(w, curve, factory))
  {
    hide Tracked, Legs, Warned, Grouped, AlwaysFits, SkipsAreCovered, Excluded;
    var folded := Fold(Legs(transfers));
    if folded.Err? {
      return Err(folded.error);
    }
    var (balances, warning) := folded.value;
    var holders, rows := CountHolders(balances, curve, factory);
    HolderCountsAgree(transfers, curve, factory);
    HoldersAreIndexed(transfers, balances, curve, factory);
    RowsAreTracked(Legs(transfers), balances, rows, curve, factory);
    r := Ok(Index(holders, warning, rows));
  }

  lemma RowsAreTracked(legs: seq<Leg>, balances: map<Address, U256>, rows: map<Address, (U256, bool)>, curve: Address, factory: Option<Address>)
    requires forall w :: Balance(balances, w) == Tracked(legs, w)
    requires rows == map w | w in balances && balances[w] != 0 :: (balances[w], Excluded(w, curve, factory))
    ensures forall w :: w in rows <==> Tracked(legs, w) != 0
    ensures forall w :: w in rows ==> rows[w] == (Tracked(legs, w), Excluded(w, curve, factory))
  {
    hide Tracked, Excluded;
    forall w ensures w in rows <==> Tracked(legs, w) != 0 {
      assert Balance(balances, w) == Tracked(legs, w);
    }
    forall w | w in rows ensures rows[w] == (Tracked(legs, w), Excluded(w, curve, factory)) {
      assert Balance(balances, w) == Tracked(legs, w);
    }
  }

  lemma HoldersAreIndexed(transfers: seq<Transfer>, balances: map<Address, U256>, curve: Address, factory: Option<Address>)
    requires balances.Keys == Wallets(Legs(transfers))
    requires forall w :: Balance(balances, w) == Tracked(Legs(transfers), w)
    ensures HoldersOf(balances, curve, factory) == Indexed(transfers, curve, factory)
  {
    hide Tracked, Legs, Wallets, Excluded;
    forall w ensures w in HoldersOf(balances, curve, factory) <==> w in Indexed(transfers, curve, factory) {
      assert Balance(balances, w) == Tracked(Legs(transfers), w);
    }
  }

  /** After a skipped debit they can differ: the index counts a wallet the query does not. */
  lemma SkippedDebitInflatesHolders(w: Address, other: Address, more: U256, less: U256)
    requires w != ZERO && other != ZERO && w != other && 0 < less < more
    ensures var transfers := [Transfer(w, other, more, false), Transfer(ZERO, w, less, false)];
      Indexed(transfers, other, None) == {w} && Grouped(transfers, other, None) == {}
  {
    var a, b := Transfer(w, other, more, false), Transfer(ZERO, w, less, false);
    var l0, l1, l2 := Leg(w, more, false), Leg(other, more, true), Leg(w, less, true);
    TwoTransfers(a, b);
    assert LegsOf(a) == [l0, l1] && LegsOf(b) == [l2];
    assert [l0, l1] + [l2] == [l0, l1, l2];
    ThreeLegs(l0, l1, l2, w);
    ThreeLegs(l0, l1, l2, other);
    ThreeWallets(l0, l1, l2);
    var transfers := [a, b];
    assert Legs(transfers) == [l0, l1, l2];
    hide Tracked, Legs, Wallets, Delta;
    assert Grouped(transfers, other, None) == {} by {
      TwoDeltas(a, b, w);
    }
  }

  lemma TwoTransfers(a: Transfer, b: Transfer)
    ensures Legs([a, b]) == LegsOf(a) + LegsOf(b)
  {
    var both, one := [a, b], [a];
    assert both[..1] == one && one[..0] == [];
    assert Legs([]) == [];
    assert Legs(one) == [] + LegsOf(a) == LegsOf(a);
  }

  lemma TwoDeltas(a: Transfer, b: Transfer, w: Address)
    ensures Delta([a, b], w) == Effect(a, w) + Effect(b, w)
  {
    var both, one := [a, b], [a];
    assert both[..1] == one && one[..0] == [];
    assert Delta([], w) == 0;
    assert Delta(one, w) == Effect(a, w);
  }

  lemma ThreeLegs(a: Leg, b: Leg, c: Leg, w: Address)
    ensures Tracked([a, b, c], w) == Landed(Landed(Landed(0, a, w), b, w), c, w)
  {
    hide Moved;
    var three, two, one := [a, b, c], [a, b], [a];
    assert three[..2] == two && two[..1] == one && one[..0] == [];
    assert Tracked([], w) == 0;
    assert Tracked(one, w) == Landed(0, a, w);
    assert Tracked(two, w) == Landed(Landed(0, a, w), b, w);
  }

  lemma ThreeWallets(a: Leg, b: Leg, c: Leg)
    ensures Wallets([a, b, c]) == {a.wallet, b.wallet, c.wallet}
  {
    var three := [a, b, c];
    assert three[0].wallet in Wallets(three) && three[1].wallet in Wallets(three) && three[2].wallet in Wallets(three);
  }
}
