/**
  The alert engine: a cursor consumer of the outbox that appends to the outbox it reads.
  Its transaction reads the next row, and only later takes the table lock, so other writers
  may commit in between; a crash anywhere rolls everything back.
*/
module AlertEngine {
  import opened Wrappers
  import opened Outbox
  import DecimalText

  datatype AlertType =
    | SmartBuy | SmartSell | PositionOpen | PositionAdd | PositionReduce | PositionClose
    | SignalWatch | SignalStrong | SignalHighPriority | SignalCooling | SignalDistribution
    | SystemWarning | SystemUpdate

  datatype Severity = Info | Watch | Strong | High | Critical | CriticalSystem

  datatype Draft = Draft(kind: AlertType, severity: Severity)

  /** The stored name of an alert type. */
  function Name(kind: AlertType): string {
    match kind
    case SmartBuy => "SMART_BUY"
    case SmartSell => "SMART_SELL"
    case PositionOpen => "SMART_POSITION_OPEN"
    case PositionAdd => "SMART_POSITION_ADD"
    case PositionReduce => "SMART_POSITION_REDUCE"
    case PositionClose => "SMART_POSITION_CLOSE"
    case SignalWatch => "SIGNAL_WATCH"
    case SignalStrong => "SIGNAL_STRONG"
    case SignalHighPriority => "SIGNAL_HIGH_PRIORITY"
    case SignalCooling => "SIGNAL_COOLING"
    case SignalDistribution => "SIGNAL_DISTRIBUTION"
    case SystemWarning => "SYSTEM_WARNING"
    case SystemUpdate => "SYSTEM_UPDATE"
  }

  function ClassifyTrade(kind: string): Option<Draft> {
    if kind == "smart_trade.buy_confirmed" || kind == "smart_trade.buy_backfilled" then Some(Draft(SmartBuy, Info))
    else if kind == "smart_trade.sell_confirmed" || kind == "smart_trade.sell_backfilled" then Some(Draft(SmartSell, Strong))
    else None
  }

  function ClassifyPosition(kind: string): Option<Draft> {
    if kind == "position.open" then Some(Draft(PositionOpen, Info))
    else if kind == "position.add" then Some(Draft(PositionAdd, Watch))
    else if kind == "position.reduce" then Some(Draft(PositionReduce, Watch))
    else if kind == "position.close" then Some(Draft(PositionClose, High))
    else None
  }

  function ClassifySignal(kind: string): Option<Draft> {
    if kind == "signal.watch" then Some(Draft(SignalWatch, Watch))
    else if kind == "signal.strong_watch" then Some(Draft(SignalStrong, Strong))
    else if kind == "signal.high_priority" then Some(Draft(SignalHighPriority, High))
    else if kind == "signal.cooling" then Some(Draft(SignalCooling, Watch))
    else if kind == "signal.distribution" then Some(Draft(SignalDistribution, High))
    else None
  }

  function ClassifySystem(kind: string): Option<Draft> {
    if kind == "system.warning" then Some(Draft(SystemWarning, CriticalSystem))
    else if kind == "system.update" || kind == "system.update_applied" then Some(Draft(SystemUpdate, Info))
    else if kind == "system.update_failed" || kind == "system.update_rolled_back" then Some(Draft(SystemWarning, High))
    else if kind == "system.update_rollback_failed" then Some(Draft(SystemWarning, Critical))
    else None
  }

  function Classify(kind: string): Option<Draft> {
    if ClassifyTrade(kind).Some? then ClassifyTrade(kind)
    else if ClassifyPosition(kind).Some? then ClassifyPosition(kind)
    else if ClassifySignal(kind).Some? then ClassifySignal(kind)
    else ClassifySystem(kind)
  }

  predicate IsSmartTrade(kind: string) {
    "smart_trade." <= kind
  }

  predicate Contains(s: string, part: string) {
    part <= s || (|s| > 0 && Contains(s[1..], part))
  }

  /** The columns an upsert overwrites. */
  datatype Live = Live(payload: Payload, provisional: bool, chain: Option<string>, retracted: bool, realtime: bool)

  /** `source` is the sequence value of the row that created the alert; it also stands for its identity. */
  datatype Alert = Alert(source: nat, dedupe: string, draft: Draft, token: Option<nat>, trader: Option<nat>, live: Live)

  type Alerts = map<string, Alert>

  /** Token and trader of a smart trade, as stored with the trade. */
  type Trades = map<nat, (nat, nat)>

  function LiveOf(row: Row): Live {
    var p := row.event.payload;
    Live(p, p.chain == Some("PENDING"), p.chain, p.chain == Some("ORPHANED"),
      p.eligible && !(p.classification.Some? && Contains(p.classification.value, "BACKFILL")))
  }

  function Subject(row: Row, trades: Trades): (Option<nat>, Option<nat>) {
    var e := row.event;
    var token := if e.payload.token.Some? then e.payload.token
                 else if e.aggregateType == Some("token") then e.aggregate else None;
    if IsSmartTrade(e.kind) && e.aggregate.Some? && e.aggregate.value in trades
    then (Some(trades[e.aggregate.value].0), Some(trades[e.aggregate.value].1))
    else (token, e.payload.trader)
  }

  /** All events about one smart trade share an alert; any other event has its own. */
  function SemanticKey(row: Row, draft: Draft): string {
    Name(draft.kind) + ":" +
    (if IsSmartTrade(row.event.kind) && row.event.aggregate.Some?
     then DecimalText.ToText(row.event.aggregate.value) else row.event.key)
  }

  function Fresh(row: Row, draft: Draft, trades: Trades): Alert {
    var (token, trader) := Subject(row, trades);
    Alert(row.num, "alert:" + row.event.key, draft, token, trader, LiveOf(row))
  }

  /** The two unique columns besides the semantic key; a clash on them is an error, not an upsert. */
  ghost predicate Clashes(alerts: Alerts, row: Row) {
    exists k :: k in alerts && (alerts[k].source == row.num || alerts[k].dedupe == "alert:" + row.event.key)
  }

  function Upsert(alerts: Alerts, row: Row, trades: Trades): Alerts {
    match Classify(row.event.kind)
    case None => alerts
    case Some(draft) =>
      var k := SemanticKey(row, draft);
      if k in alerts then alerts[k := alerts[k].(live := LiveOf(row))]
      else alerts[k := Fresh(row, draft, trades)]
  }

  function DeliveryKey(num: nat): string {
    "alert.delivery:" + DecimalText.ToText(num)
  }

  /** The announcement the engine appends for a classified row. */
  function Delivery(row: Row, alerts: Alerts, draft: Draft, trades: Trades): Event
    requires SemanticKey(row, draft) in alerts
  {
    var alert := alerts[SemanticKey(row, draft)];
    var (token, trader) := Subject(row, trades);
    var p := row.event.payload;
    Event(if alert.live.retracted then "alert.retracted" else "alert.created", Some("alert"), Some(alert.source),
      DeliveryKey(row.num),
      Payload(p.classification, alert.live.realtime, alert.live.chain, token, trader,
        Some(if p.effectiveAt.Some? then p.effectiveAt.value else row.event.createdAt)),
      row.event.createdAt)
  }

  /** Every row has its own announcement key. */
  lemma DeliveryKeysDiffer(m: nat, n: nat)
    ensures DeliveryKey(m) == DeliveryKey(n) <==> m == n
  {
    var prefix := "alert.delivery:";
    assert DeliveryKey(m)[|prefix|..] == DecimalText.ToText(m) && DeliveryKey(n)[|prefix|..] == DecimalText.ToText(n);
    DecimalText.TextIsInjective(m, n);
  }

  lemma DeliveriesAreNotClassified(row: Row, alerts: Alerts, draft: Draft, trades: Trades)
    requires SemanticKey(row, draft) in alerts
    ensures Classify(Delivery(row, alerts, draft, trades).kind).None?
  {
    assert Delivery(row, alerts, draft, trades).kind[0] == 'a';
  }

  /** The alert table as a function of the rows consumed so far. */
  function Fold(rows: seq<Row>, trades: Trades): Alerts {
    if |rows| == 0 then map[]
    else Upsert(Fold(rows[..|rows| - 1], trades), rows[|rows| - 1], trades)
  }

  // ---------------------------------------------------------------- what the fold means

  /** The alert a row is about, if any. */
  function KeyOf(row: Row): Option<string> {
    match Classify(row.event.kind)
    case None => None
    case Some(draft) => Some(SemanticKey(row, draft))
  }

  function Keys(rows: seq<Row>): seq<Option<string>> {
    seq(|rows|, i requires 0 <= i < |rows| => KeyOf(rows[i]))
  }

  /** First index holding `x`, or -1. */
  function First<T(==)>(s: seq<T>, x: T): (i: int)
    ensures -1 <= i < |s|
    ensures i >= 0 ==> s[i] == x
    ensures forall h :: 0 <= h < |s| && s[h] == x ==> 0 <= i <= h
  {
    if |s| == 0 then -1
    else
      var i := First(s[..|s| - 1], x);
      if i >= 0 then i else if s[|s| - 1] == x then |s| - 1 else -1
  }

  /** Last index holding `x`, or -1. */
  function Last<T(==)>(s: seq<T>, x: T): (i: int)
    ensures -1 <= i < |s|
    ensures i >= 0 ==> s[i] == x
    ensures forall h :: 0 <= h < |s| && s[h] == x ==> h <= i
  {
    if |s| == 0 then -1
    else if s[|s| - 1] == x then |s| - 1
    else Last(s[..|s| - 1], x)
  }

  /** An alert exists for a key exactly when some consumed row is about it; it was created by the
      first such row and shows the state of the last. */
  lemma {:induction false} FoldShows(rows: seq<Row>, trades: Trades, k: string)
    ensures k in Fold(rows, trades) <==> First(Keys(rows), Some(k)) >= 0
    ensures k in Fold(rows, trades) ==>
      var first, last := rows[First(Keys(rows), Some(k))], rows[Last(Keys(rows), Some(k))];
      && Classify(first.event.kind).Some?
      && Fold(rows, trades)[k] == Fresh(first, Classify(first.event.kind).value, trades).(live := LiveOf(last))
  {
    hide Classify, SemanticKey, Subject, LiveOf;
    if |rows| > 0 {
      FoldShows(rows[..|rows| - 1], trades, k);
      assert Keys(rows)[..|rows| - 1] == Keys(rows[..|rows| - 1]);
    }
  }

  /** Unique sequence values and keys in the outbox keep the upsert clear of every other unique column. */
  lemma NeverClashes(rows: seq<Row>, next: Row, trades: Trades)
    requires Ordered(rows + [next])
    ensures !Clashes(Fold(rows, trades), next)
  {
    hide Classify, SemanticKey, Subject, LiveOf;
    var alerts := Fold(rows, trades);
    forall k | k in alerts
      ensures alerts[k].source != next.num && alerts[k].dedupe != "alert:" + next.event.key
    {
      FoldShows(rows, trades, k);
      var i := First(Keys(rows), Some(k));
      var all := rows + [next];
      assert all[i] == rows[i] && all[|rows|] == next;
      assert ("alert:" + rows[i].event.key)[6..] == rows[i].event.key;
      assert ("alert:" + next.event.key)[6..] == next.event.key;
    }
  }

  // ---------------------------------------------------------------- which events raise which alert

  /** The events that raise an alert of a type and severity. */
  function RaisedBy(d: Draft): set<string> {
    match d
    case Draft(SmartBuy, Info) => {"smart_trade.buy_confirmed", "smart_trade.buy_backfilled"}
    case Draft(SmartSell, Strong) => {"smart_trade.sell_confirmed", "smart_trade.sell_backfilled"}
    case Draft(PositionOpen, Info) => {"position.open"}
    case Draft(PositionAdd, Watch) => {"position.add"}
    case Draft(PositionReduce, Watch) => {"position.reduce"}
    case Draft(PositionClose, High) => {"position.close"}
    case Draft(SignalWatch, Watch) => {"signal.watch"}
    case Draft(SignalStrong, Strong) => {"signal.strong_watch"}
    case Draft(SignalHighPriority, High) => {"signal.high_priority"}
    case Draft(SignalCooling, Watch) => {"signal.cooling"}
    case Draft(SignalDistribution, High) => {"signal.distribution"}
    case Draft(SystemWarning, CriticalSystem) => {"system.warning"}
    case Draft(SystemWarning, High) => {"system.update_failed", "system.update_rolled_back"}
    case Draft(SystemWarning, Critical) => {"system.update_rollback_failed"}
    case Draft(SystemUpdate, Info) => {"system.update", "system.update_applied"}
    case _ => {}
  }

  predicate OfTrades(d: Draft) {
    d.kind.SmartBuy? || d.kind.SmartSell?
  }

  predicate OfPositions(d: Draft) {
    d.kind.PositionOpen? || d.kind.PositionAdd? || d.kind.PositionReduce? || d.kind.PositionClose?
  }

  predicate OfSystem(d: Draft) {
    d.kind.SystemWarning? || d.kind.SystemUpdate?
  }

  lemma TradesRaise(kind: string, d: Draft)
    ensures ClassifyTrade(kind) == Some(d) <==> OfTrades(d) && kind in RaisedBy(d)
    ensures ClassifyTrade(kind).Some? ==> |kind| > 1 && kind[1] == 'm'
  {
  }

  lemma PositionsRaise(kind: string, d: Draft)
    ensures ClassifyPosition(kind) == Some(d) <==> OfPositions(d) && kind in RaisedBy(d)
    ensures ClassifyPosition(kind).Some? ==> |kind| > 1 && kind[1] == 'o'
  {
  }

  lemma SystemRaises(kind: string, d: Draft)
    ensures ClassifySystem(kind) == Some(d) <==> OfSystem(d) && kind in RaisedBy(d)
    ensures ClassifySystem(kind).Some? ==> |kind| > 1 && kind[1] == 'y'
  {
  }

  lemma SignalsRaise(kind: string, d: Draft)
    ensures ClassifySignal(kind) == Some(d) <==> !OfTrades(d) && !OfPositions(d) && !OfSystem(d) && kind in RaisedBy(d)
    ensures ClassifySignal(kind).Some? ==> |kind| > 1 && kind[1] == 'i'
  {
  }

  /** Exactly those events are classified so. */
  lemma ClassifiedIsRaised(kind: string, d: Draft)
    ensures Classify(kind) == Some(d) <==> kind in RaisedBy(d)
  {
    hide ClassifyTrade, ClassifyPosition, ClassifySignal, ClassifySystem, RaisedBy;
    TradesRaise(kind, d);
    PositionsRaise(kind, d);
    SignalsRaise(kind, d);
    SystemRaises(kind, d);
  }

  // ---------------------------------------------------------------- which rows share an alert

  predicate AboutTrade(row: Row) {
    IsSmartTrade(row.event.kind) && row.event.aggregate.Some?
  }

  /** The kind of alert a classified row raises. */
  function AlertKind(row: Row): AlertType
    requires Classify(row.event.kind).Some?
  {
    Classify(row.event.kind).value.kind
  }

  lemma NamesHaveNoColon(kind: AlertType)
    ensures ':' !in Name(kind)
  {
  }

  lemma NameIsInjective(a: AlertType, b: AlertType)
    ensures Name(a) == Name(b) <==> a == b
  {
    match a {
      case SmartBuy => case SmartSell =>
      case PositionOpen => case PositionAdd => case PositionReduce => case PositionClose =>
      case SignalWatch => case SignalStrong => case SignalHighPriority => case SignalCooling => case SignalDistribution =>
      case SystemWarning => case SystemUpdate =>
    }
  }

  /** A text up to its first colon, and the rest. */
  lemma ColonSplits(a: string, b: string, x: string, y: string)
    requires ':' !in a && ':' !in b
    ensures a + ":" + x == b + ":" + y <==> a == b && x == y
  {
    if a + ":" + x == b + ":" + y {
      FirstColon(a, x, |b|);
      FirstColon(b, y, |a|);
      FirstColon(a, x, |a|);
      FirstColon(b, y, |b|);
      var p, q := a + ":" + x, b + ":" + y;
      assert |a| == |b|;
      assert a == p[..|a|] && b == q[..|b|] && x == p[|a| + 1..] && y == q[|b| + 1..];
    }
  }

  lemma FirstColon(a: string, x: string, i: nat)
    requires ':' !in a
    ensures i <= |a| ==> ((a + ":" + x)[i] == ':' <==> i == |a|)
  {
    if i < |a| {
      assert (a + ":" + x)[i] == a[i];
      assert a[i] in a;
    }
  }

  /** Rows of one alert kind share an alert exactly when they are about one smart trade, whatever their event keys,
      or, not being about a smart trade, have one event key. */
  lemma SharedAlerts(a: Row, b: Row)
    requires Classify(a.event.kind).Some? && Classify(b.event.kind).Some?
    ensures AboutTrade(a) && AboutTrade(b) ==>
      (KeyOf(a) == KeyOf(b) <==> AlertKind(a) == AlertKind(b) && a.event.aggregate == b.event.aggregate)
    ensures !AboutTrade(a) && !AboutTrade(b) ==>
      (KeyOf(a) == KeyOf(b) <==> AlertKind(a) == AlertKind(b) && a.event.key == b.event.key)
    ensures AboutTrade(a) && !AboutTrade(b) ==>
      (KeyOf(a) == KeyOf(b) <==> AlertKind(a) == AlertKind(b) && DecimalText.ToText(a.event.aggregate.value) == b.event.key)
  {
    NamesHaveNoColon(AlertKind(a));
    NamesHaveNoColon(AlertKind(b));
    NameIsInjective(AlertKind(a), AlertKind(b));
    hide Classify, Name;
    if AboutTrade(a) && AboutTrade(b) {
      var x, y := a.event.aggregate.value, b.event.aggregate.value;
      DecimalText.TextIsInjective(x, y);
      ColonSplits(Name(AlertKind(a)), Name(AlertKind(b)), DecimalText.ToText(x), DecimalText.ToText(y));
    } else if AboutTrade(a) {
      ColonSplits(Name(AlertKind(a)), Name(AlertKind(b)), DecimalText.ToText(a.event.aggregate.value), b.event.key);
    } else if !AboutTrade(b) {
      ColonSplits(Name(AlertKind(a)), Name(AlertKind(b)), a.event.key, b.event.key);
    }
  }

  /** A row that raises or updates the alert of this kind about this smart trade; one that names no trade counts
      when its event key reads like the trade. */
  ghost predicate OfTrade(row: Row, kind: AlertType, trade: nat) {
    && Classify(row.event.kind).Some? && AlertKind(row) == kind && IsSmartTrade(row.event.kind)
    && (row.event.aggregate == Some(trade) || (row.event.aggregate.None? && row.event.key == DecimalText.ToText(trade)))
  }

  lemma SmartKinds(kind: string)
    requires Classify(kind).Some?
    ensures IsSmartTrade(kind) <==> OfTrades(Classify(kind).value)
  {
    if ClassifyTrade(kind).Some? {
      TradeKinds(kind);
      TradesRaise(kind, Classify(kind).value);
    } else {
      hide ClassifyTrade;
      OtherKinds(kind);
    }
  }

  lemma TradeKinds(kind: string)
    requires ClassifyTrade(kind).Some?
    ensures IsSmartTrade(kind)
  {
  }

  lemma OtherKinds(kind: string)
    requires ClassifyTrade(kind).None? && Classify(kind).Some?
    ensures !IsSmartTrade(kind) && !OfTrades(Classify(kind).value)
  {
    hide ClassifyTrade, ClassifyPosition, ClassifySignal, ClassifySystem, RaisedBy;
    var d := Classify(kind).value;
    TradesRaise(kind, d);
    PositionsRaise(kind, d);
    SignalsRaise(kind, d);
    SystemRaises(kind, d);
    assert "smart_trade."[1] == 'm';
  }

  lemma SameTradeSameKey(a: Row, b: Row, kind: AlertType, trade: nat)
    requires OfTrade(a, kind, trade) && Classify(b.event.kind).Some?
    ensures KeyOf(a) == KeyOf(b) <==> OfTrade(b, kind, trade)
  {
    hide Classify, IsSmartTrade;
    SmartKinds(a.event.kind);
    SmartKinds(b.event.kind);
    SharedAlerts(a, b);
    SharedAlerts(b, a);
    if a.event.aggregate.Some? && b.event.aggregate.None? {
      DecimalText.TextIsInjective(a.event.aggregate.value, trade);
    } else if a.event.aggregate.None? && b.event.aggregate.Some? {
      DecimalText.TextIsInjective(b.event.aggregate.value, trade);
    }
  }

  /** All rows of one kind about one smart trade make one alert: created by the first of them, showing chain and
      retraction of the last. */
  lemma OneAlertPerTrade(rows: seq<Row>, trades: Trades, kind: AlertType, trade: nat, first: nat, last: nat) returns (k: string)
    requires first <= last < |rows| && OfTrade(rows[first], kind, trade) && OfTrade(rows[last], kind, trade)
    requires forall i :: 0 <= i < first || last < i < |rows| ==> !OfTrade(rows[i], kind, trade)
    ensures forall i :: 0 <= i < |rows| ==> (KeyOf(rows[i]) == Some(k) <==> OfTrade(rows[i], kind, trade))
    ensures k in Fold(rows, trades)
    ensures var alert, shown := Fold(rows, trades)[k], rows[last].event.payload;
      && alert.source == rows[first].num && alert.draft == Classify(rows[first].event.kind).value
      && alert.live.payload == shown && alert.live.chain == shown.chain
      && (alert.live.retracted <==> shown.chain == Some("ORPHANED"))
      && (alert.live.provisional <==> shown.chain == Some("PENDING"))
  {
    hide Classify, IsSmartTrade, Fold, SemanticKey, Subject;
    k := KeyOf(rows[first]).value;
    forall i | 0 <= i < |rows| ensures KeyOf(rows[i]) == Some(k) <==> OfTrade(rows[i], kind, trade) {
      if Classify(rows[i].event.kind).Some? {
        SameTradeSameKey(rows[first], rows[i], kind, trade);
      }
    }
    hide OfTrade, KeyOf;
    FoldShows(rows, trades, k);
    assert Keys(rows)[first] == Some(k) && Keys(rows)[last] == Some(k);
    assert First(Keys(rows), Some(k)) == first;
    assert Last(Keys(rows), Some(k)) == last;
  }

  // ---------------------------------------------------------------- what an alert and its announcement say

  ghost predicate OccursAt(s: string, part: string, i: nat) {
    i + |part| <= |s| && s[i..i + |part|] == part
  }

  lemma {:induction false} ContainsIs(s: string, part: string)
    ensures Contains(s, part) <==> exists i: nat :: OccursAt(s, part, i)
  {
    PrefixOccurs(s, part);
    if |s| > 0 {
      ContainsIs(s[1..], part);
      forall i: nat ensures OccursAt(s[1..], part, i) == OccursAt(s, part, i + 1) {
        LaterOccurs(s, part, i);
      }
      hide OccursAt;
      if Contains(s[1..], part) {
        var i: nat :| OccursAt(s[1..], part, i);
        assert OccursAt(s, part, i + 1);
      }
      forall i: nat | i > 0 && OccursAt(s, part, i) ensures Contains(s[1..], part) {
        assert OccursAt(s[1..], part, i - 1);
      }
    }
  }

  lemma PrefixOccurs(s: string, part: string)
    ensures part <= s <==> OccursAt(s, part, 0)
    ensures |s| == 0 ==> forall i: nat :: OccursAt(s, part, i) ==> part <= s
  {
  }

  lemma LaterOccurs(s: string, part: string, i: nat)
    requires |s| > 0
    ensures OccursAt(s[1..], part, i) == OccursAt(s, part, i + 1)
  {
    if i + 1 + |part| <= |s| {
      assert s[1..][i..i + |part|] == s[i + 1..i + 1 + |part|];
    }
  }

  /** A new alert: never realtime for a backfilled row, and about the trade's token and trader where the trade is stored. */
  lemma AlertTells(row: Row, trades: Trades)
    requires Classify(row.event.kind).Some?
    ensures var a, e := Fresh(row, Classify(row.event.kind).value, trades), row.event;
      && a.source == row.num && a.draft == Classify(e.kind).value && a.live.payload == e.payload
      && (a.live.realtime <==>
            e.payload.eligible && (e.payload.classification.Some? ==> !Contains(e.payload.classification.value, "BACKFILL")))
      && (AboutTrade(row) && e.aggregate.value in trades ==>
            a.token == Some(trades[e.aggregate.value].0) && a.trader == Some(trades[e.aggregate.value].1))
      && (!(AboutTrade(row) && e.aggregate.value in trades) ==>
            && a.trader == e.payload.trader
            && (e.payload.token.Some? ==> a.token == e.payload.token)
            && (e.payload.token.None? ==> a.token == if e.aggregateType == Some("token") then e.aggregate else None))
  {
    hide Classify;
  }

  /** The announcement of a row says whether it retracts, and names the alert that all rows sharing it have. */
  lemma DeliveryTells(rows: seq<Row>, row: Row, trades: Trades)
    requires Classify(row.event.kind).Some?
    ensures var alerts := Fold(rows + [row], trades);
      && KeyOf(row).Some? && KeyOf(row).value in alerts
      && var e, p := Delivery(row, alerts, Classify(row.event.kind).value, trades), row.event.payload;
      && e.kind == (if p.chain == Some("ORPHANED") then "alert.retracted" else "alert.created")
      && e.key == DeliveryKey(row.num)
      && e.aggregateType == Some("alert") && e.aggregate == Some(alerts[KeyOf(row).value].source)
      && e.payload.chain == p.chain && e.payload.classification == p.classification
      && (e.payload.eligible <==> alerts[KeyOf(row).value].live.realtime)
      && (e.payload.token, e.payload.trader) == Subject(row, trades)
      && e.payload.effectiveAt == (if p.effectiveAt.Some? then p.effectiveAt else Some(row.event.createdAt))
  {
    hide Classify, SemanticKey, Subject, Contains;
    assert (rows + [row])[..|rows|] == rows;
  }
}
