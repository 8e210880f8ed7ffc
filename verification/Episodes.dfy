/**
  Holding episodes of one position: its events without warnings, grouped by the number of closes before
  them plus one.
*/
module Episodes {
  import opened Positions

  function Shown(events: seq<Event>): seq<Event> {
    if |events| == 0 then []
    else
      var init, last := Shown(events[..|events| - 1]), events[|events| - 1];
      if last.kind == IntegrityWarning then init else init + [last]
  }

  function Closes(events: seq<Event>): nat {
    if |events| == 0 then 0
    else Closes(events[..|events| - 1]) + (if events[|events| - 1].kind == Close then 1 else 0)
  }

  /** GROUP BY: the events whose prior closes plus one equal `number`. */
  function Group(events: seq<Event>, number: nat): seq<Event> {
    if |events| == 0 then []
    else
      var init := events[..|events| - 1];
      if Closes(init) + 1 == number then Group(init, number) + [events[|events| - 1]] else Group(init, number)
  }

  /** The number of the last group. */
  function Count(events: seq<Event>): nat {
    if |events| == 0 then 0 else Closes(events[..|events| - 1]) + 1
  }

  /** Groups 1..n one after the other. */
  function Joined(events: seq<Event>, n: nat): seq<Event> {
    if n == 0 then [] else Joined(events, n - 1) + Group(events, n)
  }

  /** Starts with its only OPEN; a CLOSE can only be last. */
  ghost predicate Episode(group: seq<Event>) {
    && |group| > 0
    && group[0].kind == Open
    && (forall i :: 0 < i < |group| ==> group[i].kind != Open)
    && (forall i :: 0 <= i < |group| - 1 ==> group[i].kind != Close)
  }

  predicate IsClosed(group: seq<Event>) {
    |group| > 0 && group[|group| - 1].kind == Close
  }

  /** What the groups look like while `balance` is held and a position is open or not. */
  ghost predicate Shape(events: seq<Event>, number: nat, balance: nat, open: bool) {
    var group := Group(events, number);
    if number == 0 || number > Closes(events) + 1 then group == []
    else if number <= Closes(events) then Episode(group) && IsClosed(group) && Net(group) == 0
    else if !open then group == []
    else Episode(group) && !IsClosed(group) && Net(group) == balance
  }

  lemma ShownNext(events: seq<Event>, e: Event)
    ensures Shown(events + [e]) == if e.kind == IntegrityWarning then Shown(events) else Shown(events) + [e]
  {
    assert (events + [e])[..|events|] == events;
  }

  lemma GroupNext(events: seq<Event>, e: Event, number: nat)
    ensures Group(events + [e], number) == if Closes(events) + 1 == number then Group(events, number) + [e] else Group(events, number)
    ensures Closes(events + [e]) == Closes(events) + if e.kind == Close then 1 else 0
    ensures Count(events + [e]) == Closes(events) + 1
  {
    assert (events + [e])[..|events|] == events;
  }

  lemma ShapeNext(events: seq<Event>, l: Ledger, pending: bool, open: bool, t: Trade, number: nat)
    requires events == Shown(l.events) && open == (l.balance != 0 || pending)
    requires forall n :: Shape(events, n, l.balance, open)
    requires Answers(l.balance, pending, t) && (pending ==> l.balance == 0)
    ensures var m := Applied(l, t);
      Shape(Shown(m.events), number, m.balance, m.balance != 0 || NextPending(l.balance, pending, t))
  {
    hide Group, Closes, Net, Shown;
    var kind, after := KindOf(l.balance, t), After(l.balance, t);
    var e := Event(t, kind, l.balance, after);
    ShownNext(l.events, e);
    GroupNext(events, e, number);
    NetLast(Group(events, number), e);
    NetLast([], e);
    NetNothing();
    assert Shape(events, number, l.balance, open);
    assert [] + [e] == [e];
  }

  lemma NetNothing()
    ensures Net([]) == 0
  {
  }

  lemma {:induction false} GroupsHaveShape(trades: seq<Trade>, number: nat)
    requires AllAnswered(trades)
    ensures Shape(Shown(Derive(trades).events), number, Derive(trades).balance, Derive(trades).balance != 0 || Pending(trades))
    decreases |trades|
  {
    hide Shape, AllAnswered, Answers, NextPending;
    if |trades| == 0 {
      EmptyShape(trades, number);
    } else {
      var init := trades[..|trades| - 1];
      SplitAnswered(trades);
      PendingIsFlat(init);
      var open := Derive(init).balance != 0 || Pending(init);
      forall n ensures Shape(Shown(Derive(init).events), n, Derive(init).balance, open) {
        GroupsHaveShape(init, n);
      }
      ShapeNext(Shown(Derive(init).events), Derive(init), Pending(init), open, trades[|trades| - 1], number);
    }
  }

  lemma EmptyShape(trades: seq<Trade>, number: nat)
    requires |trades| == 0
    ensures Shape(Shown(Derive(trades).events), number, 0, false)
  {
  }

  // ---------------------------------------------------------------- how many groups there are

  predicate EndsClosed(events: seq<Event>) {
    |events| == 0 || events[|events| - 1].kind == Close
  }

  lemma {:induction false} EndOfLedger(trades: seq<Trade>)
    ensures EndsClosed(Shown(Derive(trades).events)) <==> Derive(trades).balance == 0 && !Pending(trades)
  {
    if |trades| > 0 {
      var init, t := trades[..|trades| - 1], trades[|trades| - 1];
      EndOfLedger(init);
      PendingIsFlat(init);
      hide Shown;
      var l := Derive(init);
      ShownNext(l.events, Event(t, KindOf(l.balance, t), l.balance, After(l.balance, t)));
    }
  }

  lemma CountOrNext(events: seq<Event>)
    ensures Count(events) == Closes(events) + if EndsClosed(events) then 0 else 1
  {
  }

  /** There is one episode per CLOSE and one more when something is held, exactly when the ledger does not end
      with an unanswered zero purchase. */
  lemma CountIs(trades: seq<Trade>)
    ensures var es := Shown(Derive(trades).events);
      Count(es) == Closes(es) + (if Derive(trades).balance == 0 then 0 else 1) <==> !Pending(trades)
  {
    hide Closes, Count, Shown, Derive, Pending, EndsClosed;
    CountOrNext(Shown(Derive(trades).events));
    EndOfLedger(trades);
    PendingIsFlat(trades);
  }

  // ---------------------------------------------------------------- groups against the grammar

  ghost predicate NoWarnings(events: seq<Event>) {
    forall i :: 0 <= i < |events| ==> events[i].kind != IntegrityWarning
  }

  lemma {:induction false} ShownGrammar(events: seq<Event>)
    ensures Grammatical(Shown(events)) <==> Grammatical(events)
    ensures InPosition(Shown(events)) == InPosition(events)
    ensures NoWarnings(Shown(events))
  {
    if |events| > 0 {
      var init, e := events[..|events| - 1], events[|events| - 1];
      ShownGrammar(init);
      assert events == init + [e];
      GrammarNext(init, e);
      GrammarNext(Shown(init), e);
    }
  }

  lemma GrammarNext(events: seq<Event>, e: Event)
    ensures Grammatical(events + [e]) <==> Grammatical(events) && (e.kind == IntegrityWarning || (e.kind == Open) != InPosition(events))
    ensures InPosition(events + [e]) == (e.kind == Open || (e.kind != Close && InPosition(events)))
  {
    assert (events + [e])[..|events|] == events;
  }

  /** Every group starts with its only OPEN, and only ends with CLOSE. */
  ghost predicate AllEpisodes(events: seq<Event>) {
    forall n: nat :: Group(events, n) != [] ==> Episode(Group(events, n))
  }

  lemma {:induction false} LastGroup(events: seq<Event>)
    ensures var group := Group(events, Closes(events) + 1);
      && (group == [] <==> EndsClosed(events))
      && forall i :: 0 <= i < |group| ==> group[i].kind != Close
  {
    if |events| > 0 {
      var init, e := events[..|events| - 1], events[|events| - 1];
      LastGroup(init);
      if e.kind == Close {
        NothingYet(init, Closes(init) + 2);
      }
    }
  }

  lemma EpisodeNext(group: seq<Event>, e: Event)
    requires forall i :: 0 <= i < |group| ==> group[i].kind != Close
    ensures Episode(group + [e]) <==> if group == [] then e.kind == Open else Episode(group) && e.kind != Open
  {
    var next := group + [e];
    assert forall i :: 0 <= i < |group| ==> next[i] == group[i];
    assert next[|group|] == e;
  }

  lemma EpisodesNext(events: seq<Event>, e: Event)
    ensures AllEpisodes(events + [e]) <==> AllEpisodes(events) && (e.kind == Open <==> EndsClosed(events))
  {
    var c, next := Closes(events) + 1, events + [e];
    LastGroup(events);
    EpisodeNext(Group(events, c), e);
    hide Group, Closes, Episode, EndsClosed;
    forall n: nat ensures Group(next, n) == if n == c then Group(events, n) + [e] else Group(events, n) {
      GroupNext(events, e, n);
    }
    if AllEpisodes(next) {
      assert Group(next, c) != [] && Episode(Group(next, c));
      forall n: nat | Group(events, n) != [] ensures Episode(Group(events, n)) {
        assert n != c ==> Group(next, n) == Group(events, n);
      }
    }
  }

  lemma {:induction false} GroupsAreEpisodes(events: seq<Event>)
    requires NoWarnings(events)
    ensures AllEpisodes(events) <==> Grammatical(events)
    ensures Grammatical(events) ==> (InPosition(events) <==> !EndsClosed(events))
  {
    if |events| > 0 {
      var init, e := events[..|events| - 1], events[|events| - 1];
      GroupsAreEpisodes(init);
      assert events == init + [e];
      hide AllEpisodes, Grammatical, InPosition;
      EpisodesNext(init, e);
      GrammarNext(init, e);
    }
  }

  // ---------------------------------------------------------------- proper episodes

  /** Group `number` is as it should be: among 1..k, starting with its only OPEN, a CLOSE only last, and closed
      with net zero unless it is the last of a ledger that still holds its net amount. */
  ghost predicate IsProper(trades: seq<Trade>, number: nat) {
    var es, balance := Shown(Derive(trades).events), Derive(trades).balance;
    var group, k := Group(es, number), Count(es);
    && (1 <= number <= k <==> group != [])
    && (group != [] ==> Episode(group))
    && (group != [] ==> (IsClosed(group) <==> number < k || balance == 0))
    && (group != [] ==> Net(group) == if IsClosed(group) then 0 else balance)
  }

  lemma AnsweredIsProper(trades: seq<Trade>, number: nat)
    requires AllAnswered(trades) && !Pending(trades)
    ensures IsProper(trades, number)
  {
    hide Group, Closes, Count, Net, Episode, AllAnswered, Pending, Shown, Derive;
    GroupsHaveShape(trades, number);
    CountIs(trades);
    EpisodeIsNotEmpty(Group(Shown(Derive(trades).events), number));
  }

  lemma EpisodeIsNotEmpty(group: seq<Event>)
    ensures Episode(group) ==> group != []
  {
  }

  lemma ProperIsAnswered(trades: seq<Trade>)
    requires forall number: nat :: IsProper(trades, number)
    ensures AllAnswered(trades) && !Pending(trades)
  {
    var es := Shown(Derive(trades).events);
    ShownGrammar(Derive(trades).events);
    GrammarExactly(trades);
    hide Group, Closes, Count, Net, Episode, AllAnswered, Pending, Shown, Derive, Grammatical, InPosition;
    forall n: nat | Group(es, n) != [] ensures Episode(Group(es, n)) {
      assert IsProper(trades, n);
    }
    GroupsAreEpisodes(es);
    EndOfLedger(trades);
    PendingIsFlat(trades);
    CountOrNext(es);
    LastGroup(es);
    assert IsProper(trades, Closes(es) + 1);
  }

  /**
    The episodes of a ledger are numbered 1..k, each starts with its only OPEN, a CLOSE can only be last, closed
    ones net to zero tokens, and only the last can be unclosed, exactly when the final balance is not zero: all
    this holds exactly when every zero purchase made with nothing held is answered and answers are the only zero
    sales made with nothing held.
  */
  lemma EpisodesAreProper(trades: seq<Trade>)
    ensures (forall number: nat :: IsProper(trades, number)) <==> AllAnswered(trades) && !Pending(trades)
  {
    hide IsProper, AllAnswered, Pending;
    if AllAnswered(trades) && !Pending(trades) {
      forall number: nat ensures IsProper(trades, number) {
        AnsweredIsProper(trades, number);
      }
    }
    if forall number: nat :: IsProper(trades, number) {
      ProperIsAnswered(trades);
    }
  }

  /** Grouping neither loses, repeats nor reorders an event. */
  lemma {:induction false} GroupsPartition(events: seq<Event>)
    ensures Joined(events, Count(events)) == events
  {
    hide Group, Closes, Count;
    if |events| > 0 {
      var init, e := events[..|events| - 1], events[|events| - 1];
      assert events == init + [e];
      GroupsPartition(init);
      var n := Closes(init);
      GroupNext(init, e, n + 1);
      JoinedBefore(init, e, n);
      JoinedAll(init);
      assert Joined(events, n + 1) == Joined(init, n) + (Group(init, n + 1) + [e]);
    } else {
      CountNothing(events);
    }
  }

  lemma CountNothing(events: seq<Event>)
    requires |events| == 0
    ensures Count(events) == 0
  {
  }

  lemma JoinedAll(events: seq<Event>)
    requires Joined(events, Count(events)) == events
    ensures Joined(events, Closes(events) + 1) == events
  {
    hide Group, Closes, Count, EndsClosed;
    CountOrNext(events);
    if Count(events) != Closes(events) + 1 {
      NothingYet(events, Closes(events) + 1);
      assert Joined(events, Closes(events) + 1) == Joined(events, Closes(events)) + [];
    }
  }

  lemma {:induction false} JoinedBefore(events: seq<Event>, e: Event, n: nat)
    requires n <= Closes(events)
    ensures Joined(events + [e], n) == Joined(events, n)
  {
    if n > 0 {
      JoinedBefore(events, e, n - 1);
      GroupNext(events, e, n);
    }
  }

  lemma {:induction false} NothingYet(events: seq<Event>, number: nat)
    requires Count(events) < number
    ensures Group(events, number) == []
  {
    if |events| > 0 {
      NothingYet(events[..|events| - 1], number);
    }
  }

  /** A zero-amount purchase with nothing held opens an episode that the next purchase opens again. */
  lemma ZeroPurchaseOpensTwice(a: Trade, b: Trade)
    requires a.side == Buy && a.amount == 0 && b.side == Buy
    ensures Group(Shown(Derive([a, b]).events), 1) == Derive([a, b]).events
    ensures Derive([a, b]).events[0].kind == Open && Derive([a, b]).events[1].kind == Open
  {
    assert [a, b][..1] == [a] && [a][..0] == [];
    var e := Event(a, Open, 0, 0);
    var f := Event(b, Open, 0, b.amount);
    assert Derive([]) == Ledger(0, 0, 0, 0, []);
    assert Derive([a]) == Applied(Derive([]), a);
    assert Derive([a]).events == [e];
    assert Derive([a, b]).events == [e, f];
    assert [] + [e] == [e] && [e] + [f] == [e, f];
    ShownNext([], e);
    ShownNext([e], f);
    GroupNext([], e, 1);
    GroupNext([e], f, 1);
  }
}
