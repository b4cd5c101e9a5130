/** The hand as an object whose methods update it in place, each proved to take the step specified. */
module EngineState {
  import opened Cards
  import opened Options
  import opened Sums
  import opened SidePots
  import opened Engine
  import opened Unordered
  import EvalGo

  // ----- awarding the layers -----

  /** The commitments in increasing order, read out of a set in whatever order it yields them. */
  method CollectLevels(seats: seq<Seat>, ghost es: seq<Entry>) returns (levels: seq<int>)
    requires |es| == |seats| && forall i :: 0 <= i < |seats| ==> es[i].total == seats[i].total
    ensures levels == Levels(es)
  {
    var levelSet: set<int> := {};
    for i := 0 to |seats|
      invariant forall y :: y in levelSet <==> y > 0 && exists j :: 0 <= j < i && es[j].total == y
    {
      if seats[i].total > 0 { levelSet := levelSet + {seats[i].total}; }
    }
    assert forall y :: y in levelSet <==> IsLevel(es, y);
    var unsorted := AnyOrder(levelSet);
    levels := SortDistinct(unsorted);
    AscendingUnique(levels, Levels(es));
  }

  method SortDistinct(xs: seq<int>) returns (ys: seq<int>)
    ensures Ascending(ys) && forall y :: y in ys <==> y in xs
  {
    ys := [];
    for i := 0 to |xs|
      invariant Ascending(ys) && forall y :: y in ys <==> y in xs[..i]
    {
      assert xs[..i + 1] == xs[..i] + [xs[i]];
      ys := Insert(ys, xs[i]);
    }
    assert xs[..|xs|] == xs;
  }

  /** How many seats reached the level, and the seats that contend for it. */
  method Contenders(seats: seq<Seat>, lvl: int, ghost es: seq<Entry>) returns (eligible: nat, live: seq<int>)
    requires |es| == |seats| && forall i :: 0 <= i < |seats| ==> es[i].total == seats[i].total && es[i].live == !seats[i].folded
    ensures eligible == Reached(es, lvl)
    ensures Ascending(live) && forall i :: i in live <==> Contends(es, lvl, i)
  {
    eligible := 0;
    live := [];
    assert es[0..] == es;
    for i := 0 to |seats|
      invariant eligible + Reached(es[i..], lvl) == Reached(es, lvl)
      invariant Ascending(live) && forall j :: j in live <==> 0 <= j < i && es[j].live && es[j].total >= lvl
    {
      assert es[i..][1..] == es[i + 1..];
      assert forall j :: 0 <= j < |live| ==> live[j] in live;
      if seats[i].total >= lvl {
        eligible := eligible + 1;
        if !seats[i].folded { live := live + [i]; }
      }
    }
    assert forall j :: j in live <==> 0 <= j < |es| && es[j].live && es[j].total >= lvl;
    if |live| > 0 {
      assert live[0] in live;
    } else {
      for i := 0 to |seats|
        invariant Ascending(live) && forall j :: j in live <==> 0 <= j < i && es[j].live
      {
        assert forall j :: 0 <= j < |live| ==> live[j] in live;
        if !seats[i].folded { live := live + [i]; }
      }
    }
  }

  /** The winners of a layer, or nothing when a contender cannot be scored. */
  method LayerWinners(seats: seq<Seat>, board: seq<Card>, useHole: int, lvl: int, live: seq<int>) returns (w: Option<seq<int>>)
    requires var es := EntriesOf(seats, board, useHole);
             Ascending(live) && forall i :: i in live <==> Contends(es, lvl, i)
    ensures var es := EntriesOf(seats, board, useHole);
            (w.Some? <==> Scored(es, lvl)) && (w.Some? ==> w.value == Winners(es, lvl, |es|))
  {
    hide Contends, Scored, Wins, EntriesOf;
    ghost var es := EntriesOf(seats, board, useHole);
    ContendersFit(es, lvl, live);
    var best, winners := TopScorers(seats, board, useHole, live);
    if winners.None? {
      SomeUnscored(es, lvl, live);
      return None;
    }
    if |winners.value| == 0 {
      NoContender(es, lvl, live, best);
      return None;
    }
    AllScored(es, lvl, live, best, winners.value);
    var sorted := SortDistinct(winners.value);
    LeadersWin(es, lvl, live, best, winners.value);
    AscendingUnique(sorted, Winners(es, lvl, |es|));
    w := Some(sorted);
  }

  /** The best score among these seats and who has it, or nothing when one of them has no score. */
  method TopScorers(seats: seq<Seat>, board: seq<Card>, useHole: int, live: seq<int>) returns (best: int, winners: Option<seq<int>>)
    requires InSeats(EntriesOf(seats, board, useHole), live)
    ensures var es := EntriesOf(seats, board, useHole);
            && (winners.None? ==> exists k :: 0 <= k < |live| && es[live[k]].score.None?)
            && (winners.Some? ==> Leading(es, live, best, winners.value))
  {
    hide EvalGo.ScoreOf, EvalGo.IsBestScore, EvalGo.Scorable, EvalGo.ValidBest, Leading;
    ghost var es := EntriesOf(seats, board, useHole);
    var top: seq<int> := [];
    best := -1;
    LeadingNone(es);
    for k := 0 to |live|
      invariant Leading(es, live[..k], best, top)
    {
      var i := live[k];
      var r := EvalGo.BestConstrained(seats[i].hole, board, useHole);
      ScoreFound(seats[i], board, useHole, r);
      if r.None? {
        return best, None;
      }
      LeadingStep(es, live, k, best, top);
      if r.value.score > best {
        best := r.value.score;
        top := [i];
      } else if r.value.score == best {
        top := top + [i];
      }
    }
    assert live[..|live|] == live;
    winners := Some(top);
  }

  lemma LeadingNone(es: seq<Entry>)
    ensures Leading(es, [], -1, [])
  {
  }

  lemma SomeUnscored(es: seq<Entry>, lvl: int, live: seq<int>)
    requires InSeats(es, live) && (forall i :: i in live <==> Contends(es, lvl, i))
    requires exists k :: 0 <= k < |live| && es[live[k]].score.None?
    ensures !Scored(es, lvl)
  {
    var k :| 0 <= k < |live| && es[live[k]].score.None?;
    assert live[k] in live;
  }

  ghost predicate InSeats(es: seq<Entry>, live: seq<int>) {
    forall i :: 0 <= i < |live| ==> 0 <= live[i] < |es|
  }

  lemma ContendersFit(es: seq<Entry>, lvl: int, live: seq<int>)
    requires forall i :: i in live <==> Contends(es, lvl, i)
    ensures InSeats(es, live)
  {
    forall k | 0 <= k < |live|
      ensures 0 <= live[k] < |es|
    {
      assert live[k] in live;
    }
  }

  lemma ScoreFound(s: Seat, board: seq<Card>, useHole: int, r: Option<EvalGo.Result>)
    requires r.Some? <==> EvalGo.Scorable(s.hole, board, useHole)
    requires r.Some? ==> EvalGo.IsBestScore(s.hole, board, useHole, r.value.score)
    ensures var e := EntryOf(s, board, useHole);
            && (r.Some? <==> e.score.Some?)
            && (r.Some? ==> e.score.value == r.value.score && r.value.score >= 0)
  {
    hide EvalGo.IsBestScore, EvalGo.Scorable;
    if r.Some? {
      EvalGo.BestUnique(s.hole, board, useHole, r.value.score, EvalGo.ScoreOf(s.hole, board, useHole).value);
    }
  }

  ghost predicate ScoreIs(es: seq<Entry>, i: int, s: int) {
    0 <= i < |es| && es[i].score == Some(s)
  }

  ghost predicate ScoredUpTo(es: seq<Entry>, i: int, best: int) {
    0 <= i < |es| && es[i].score.Some? && es[i].score.value <= best
  }

  /** best is the top score among the seats seen, and winners are those who have it. */
  ghost predicate Leading(es: seq<Entry>, seen: seq<int>, best: int, winners: seq<int>) {
    && (forall i :: i in seen ==> ScoredUpTo(es, i, best))
    && (forall i :: i in winners <==> i in seen && ScoreIs(es, i, best))
    && (winners == [] ==> best == -1 && seen == [])
  }

  lemma LeadingStep(es: seq<Entry>, live: seq<int>, k: nat, best: int, winners: seq<int>)
    requires k < |live| && Leading(es, live[..k], best, winners)
    requires 0 <= live[k] < |es| && es[live[k]].score.Some? && es[live[k]].score.value >= 0
    ensures var s := es[live[k]].score.value;
            && (s > best ==> Leading(es, live[..k + 1], s, [live[k]]))
            && (s == best ==> Leading(es, live[..k + 1], best, winners + [live[k]]))
            && (s < best ==> Leading(es, live[..k + 1], best, winners))
  {
    assert live[..k + 1] == live[..k] + [live[k]];
    var s := es[live[k]].score.value;
    if s > best {
      assert forall i :: i in live[..k] ==> !ScoreIs(es, i, s);
    }
    assert winners == [] ==> s > best;
  }

  lemma NoContender(es: seq<Entry>, lvl: int, live: seq<int>, best: int)
    requires Leading(es, live, best, []) && forall i :: i in live <==> Contends(es, lvl, i)
    ensures !Scored(es, lvl)
  {
  }

  lemma AllScored(es: seq<Entry>, lvl: int, live: seq<int>, best: int, winners: seq<int>)
    requires Leading(es, live, best, winners) && winners != [] && forall i :: i in live <==> Contends(es, lvl, i)
    ensures Scored(es, lvl)
  {
    assert winners[0] in winners;
    assert Contends(es, lvl, winners[0]);
    forall i | Contends(es, lvl, i)
      ensures es[i].score.Some?
    {
      assert ScoredUpTo(es, i, best);
    }
  }

  lemma LeadersWin(es: seq<Entry>, lvl: int, live: seq<int>, best: int, winners: seq<int>)
    requires Leading(es, live, best, winners) && winners != [] && Scored(es, lvl)
    requires forall i :: i in live <==> Contends(es, lvl, i)
    ensures forall i :: i in winners <==> i < |es| && Wins(es, lvl, i)
  {
    var top := winners[0];
    assert top in winners;
    assert ScoreIs(es, top, best);
    forall i
      ensures i in winners <==> i < |es| && Wins(es, lvl, i)
    {
      if i in live { assert ScoredUpTo(es, i, best); }
      if i in winners {
        forall j | Contends(es, lvl, j)
          ensures es[j].score.value <= es[i].score.value
        {
          assert ScoredUpTo(es, j, best);
        }
      }
      if Wins(es, lvl, i) { assert Contends(es, lvl, top); }
    }
  }

  /** Equal shares to the winners, and the odd chips to the first of them. */
  method Award(won: map<int, int>, winners: seq<int>, pot: int) returns (won': map<int, int>)
    requires |winners| > 0 && Ascending(winners) && pot >= 0
    ensures forall i :: i in won' <==> i in won || i in winners
    ensures forall i :: Received(won', i)
                        == Received(won, i) + if i !in winners then 0 else pot / |winners| + if i == winners[0] then pot % |winners| else 0
  {
    var each := pot / |winners|;
    var rem := pot - each * |winners|;
    assert rem == pot % |winners|;
    won' := won;
    for k := 0 to |winners|
      invariant forall i :: i in won' <==> i in won || i in winners[..k]
      invariant forall i :: Received(won', i) == Received(won, i) + if i in winners[..k] then each else 0
    {
      var w := winners[k];
      assert w !in winners[..k] by { assert forall j :: 0 <= j < k ==> winners[j] < winners[k]; }
      assert winners[..k + 1] == winners[..k] + [w];
      won' := won'[w := Received(won', w) + each];
    }
    assert winners[..|winners|] == winners;
    if rem > 0 {
      won' := won'[winners[0] := Received(won', winners[0]) + rem];
    }
  }

  /** won' is won with one layer's shares added. */
  ghost predicate Awarded(es: seq<Entry>, lvl: int, pot: int, won: map<int, int>, won': map<int, int>)
    requires Scored(es, lvl)
  {
    && (forall i :: i in won' <==> i in won || i in Winners(es, lvl, |es|))
    && (forall i :: Received(won', i) == Received(won, i) + Share(es, lvl, pot, i))
  }

  method AwardLayer(seats: seq<Seat>, board: seq<Card>, useHole: int, lvl: int, prev: int, won: map<int, int>)
    returns (won': Option<map<int, int>>)
    requires lvl > prev
    ensures var es := EntriesOf(seats, board, useHole);
            (won'.Some? <==> Scored(es, lvl)) && (won'.Some? ==> Awarded(es, lvl, Pot(es, lvl, prev), won, won'.value))
  {
    hide Contends, Scored, Wins, EvalGo.ScoreOf;
    ghost var es := EntriesOf(seats, board, useHole);
    var slice := lvl - prev;
    var eligible, live := Contenders(seats, lvl, es);
    var w := LayerWinners(seats, board, useHole, lvl, live);
    if w.None? {
      return None;
    }
    SomeWinner(es, lvl);
    PotNonNegative(es, lvl, prev);
    var added := Award(won, w.value, slice * eligible);
    won' := Some(added);
  }

  lemma NoLayers(es: seq<Entry>)
    ensures PayoutsOver(es, []) == map[]
  {
    assert forall i :: !WinsSome(es, [], i);
  }

  lemma LevelStep(es: seq<Entry>, levels: seq<int>, k: nat)
    requires levels == Levels(es) && k < |levels|
    ensures levels[k] > if k == 0 then 0 else levels[k - 1]
    ensures levels[k] in levels
  {
    assert levels[k] in levels;
    assert IsLevel(es, levels[k]);
  }

  lemma AwardIsShare(es: seq<Entry>, levels: seq<int>, k: nat, won: map<int, int>, won': map<int, int>)
    requires k < |levels| && (forall l :: l in levels[..k] ==> Scored(es, l)) && Scored(es, levels[k])
    requires won == PayoutsOver(es, levels[..k])
    requires Awarded(es, levels[k], Pot(es, levels[k], if k == 0 then 0 else levels[k - 1]), won, won')
    ensures forall l :: l in levels[..k + 1] ==> Scored(es, l)
    ensures won' == PayoutsOver(es, levels[..k + 1])
  {
    var ls, l := levels[..k], levels[k];
    assert levels[..k + 1] == ls + [l];
    assert forall y :: y in ls + [l] ==> Scored(es, y) by { hide Scored; }
    hide Scored, Wins, Pot, Share, Won, WinsSome, Awarded, PayoutsOver;
    forall i
      ensures i in won' <==> 0 <= i < |es| && WinsSome(es, ls + [l], i)
      ensures i in won' ==> won'[i] == Won(es, ls + [l], 0, i)
    {
      AwardedAt(es, ls, l, won, won', i);
    }
    PayoutsAre(es, ls + [l], won');
  }

  lemma PayoutsAre(es: seq<Entry>, levels: seq<int>, p: map<int, int>)
    requires forall l :: l in levels ==> Scored(es, l)
    requires forall i :: i in p <==> 0 <= i < |es| && WinsSome(es, levels, i)
    requires forall i :: i in p ==> p[i] == Won(es, levels, 0, i)
    ensures p == PayoutsOver(es, levels)
  {
    hide Won, WinsSome, Scored;
  }

  lemma AwardedAt(es: seq<Entry>, ls: seq<int>, l: int, won: map<int, int>, won': map<int, int>, i: int)
    requires (forall y :: y in ls ==> Scored(es, y)) && Scored(es, l) && won == PayoutsOver(es, ls)
    requires Awarded(es, l, Pot(es, l, if ls == [] then 0 else ls[|ls| - 1]), won, won')
    ensures forall y :: y in ls + [l] ==> Scored(es, y)
    ensures i in won' <==> 0 <= i < |es| && WinsSome(es, ls + [l], i)
    ensures i in won' ==> won'[i] == Won(es, ls + [l], 0, i)
  {
    WinnersInRange(es, l);
    hide Scored, Wins, Pot, Share, Won, WinsSome;
    if 0 <= i < |es| {
      WinsSnoc(es, ls, l, i);
      WonSnoc(es, ls, 0, l, i);
      ReceivedIsWon(es, ls, i);
    }
  }

  lemma ReceivedIsWon(es: seq<Entry>, ls: seq<int>, i: int)
    requires (forall l :: l in ls ==> Scored(es, l)) && 0 <= i < |es|
    ensures Received(PayoutsOver(es, ls), i) == Won(es, ls, 0, i)
  {
    if !WinsSome(es, ls, i) { UnpaidWonNothing(es, ls, 0, i); }
  }

  lemma WinnersInRange(es: seq<Entry>, l: int)
    requires Scored(es, l)
    ensures forall i :: i in Winners(es, l, |es|) ==> 0 <= i < |es|
  {
  }

  /** What each seat is owed, or nothing when some layer cannot be awarded. */
  method AwardLayers(seats: seq<Seat>, board: seq<Card>, useHole: int) returns (won: Option<map<int, int>>)
    ensures var es := EntriesOf(seats, board, useHole);
            (won.Some? <==> Settles(es)) && (won.Some? ==> won.value == SidePots.Payouts(es))
  {
    hide Contends, Scored, Wins, EvalGo.ScoreOf, Levels, Pot, Won, WinsSome, Share;
    ghost var es := EntriesOf(seats, board, useHole);
    var levels := CollectLevels(seats, es);
    var sofar: map<int, int> := map[];
    NoLayers(es);
    assert levels[..0] == [];
    var prev := 0;
    for k := 0 to |levels|
      invariant prev == if k == 0 then 0 else levels[k - 1]
      invariant forall l :: l in levels[..k] ==> Scored(es, l)
      invariant sofar == PayoutsOver(es, levels[..k])
    {
      var lvl := levels[k];
      LevelStep(es, levels, k);
      assert levels[..k + 1] == levels[..k] + [lvl];
      var next := AwardLayer(seats, board, useHole, lvl, prev, sofar);
      if next.None? {
        return None;
      }
      AwardIsShare(es, levels, k, sofar, next.value);
      sofar := next.value;
      prev := lvl;
    }
    assert levels[..|levels|] == levels;
    won := Some(sofar);
  }

  // ----- the state -----

  /** What a method reports: done, refused, or done with the pot not awarded. */
  datatype Status = Ok | Rejected | ScoringFailed

  /** The object went from h to h' and reported r as specified by o. */
  ghost predicate Follows(o: Outcome, h: Hand, h': Hand, r: Status) {
    match o
    case Refused => h' == h && r == Rejected
    case Went(next, scored) => h' == next && r == if scored then Ok else ScoringFailed
  }

  class State {
    var seats: seq<Seat>
    var board: seq<Card>
    var street: Street
    var button: int
    var smallBlind: int
    var bigBlind: int
    var currentBet: int
    var minRaise: int
    var toAct: int
    var done: bool
    var awaitingBoard: bool
    var pendingCount: int
    var awaitingShowdown: bool
    var payouts: map<int, int>
    var useHole: int
    var deck: seq<Card>
    var deckPos: int
    var pendingStreet: Street
    var deferReveal: bool

    ghost function View(): Hand
      reads this
    {
      Hand(seats, board, street, button, smallBlind, bigBlind, currentBet, minRaise, toAct, done,
           awaitingBoard, pendingCount, awaitingShowdown, payouts, useHole, deck, deckPos, pendingStreet, deferReveal)
    }

    constructor (h: Hand)
      ensures View() == h
    {
      seats, board, street, button := h.seats, h.board, h.street, h.button;
      smallBlind, bigBlind, currentBet, minRaise := h.smallBlind, h.bigBlind, h.currentBet, h.minRaise;
      toAct, done, awaitingBoard, pendingCount := h.toAct, h.done, h.awaitingBoard, h.pendingCount;
      awaitingShowdown, payouts, useHole := h.awaitingShowdown, h.payouts, h.useHole;
      deck, deckPos, pendingStreet, deferReveal := h.deck, h.deckPos, h.pendingStreet, h.deferReveal;
    }

    method NextAbleToAct(from: int) returns (r: int)
      requires 0 <= from < |seats|
      ensures r == NextAble(seats, from, 1)
    {
      var k := 1;
      while k <= |seats|
        invariant 1 <= k <= |seats| + 1
        invariant NextAble(seats, from, k) == NextAble(seats, from, 1)
      {
        var i := (from + k) % |seats|;
        if Able(seats[i]) {
          return i;
        }
        k := k + 1;
      }
      r := -1;
    }

    method CountLive() returns (n: nat)
      ensures n == LiveCount(seats)
    {
      n := 0;
      assert seats[0..] == seats;
      for i := 0 to |seats|
        invariant n + LiveCount(seats[i..]) == LiveCount(seats)
      {
        assert seats[i..][1..] == seats[i + 1..];
        if !seats[i].folded { n := n + 1; }
      }
    }

    method CountAble() returns (n: nat)
      ensures n == AbleCount(seats)
    {
      n := 0;
      assert seats[0..] == seats;
      for i := 0 to |seats|
        invariant n + AbleCount(seats[i..]) == AbleCount(seats)
      {
        assert seats[i..][1..] == seats[i + 1..];
        if Able(seats[i]) { n := n + 1; }
      }
    }

    /** What the seat to act may do. */
    method LegalNow() returns (l: Legal)
      requires -1 <= toAct < |seats|
      ensures l == LegalOf(View())
    {
      l := NOTHING_LEGAL;
      if done || toAct < 0 || awaitingBoard || awaitingShowdown {
        return;
      }
      var s := seats[toAct];
      var toCall := currentBet - s.street;
      l := l.(canFold := true, canCheck := toCall <= 0, canCall := toCall > 0 && s.stack > 0, callAmount := Min(toCall, s.stack));
      var maxTo := s.street + s.stack;
      var minTo := currentBet + minRaise;
      if currentBet <= 0 { minTo := bigBlind; }
      if maxTo > currentBet && s.stack > 0 {
        l := l.(canBetRaise := true, minTo := Min(minTo, maxTo), maxTo := maxTo);
      }
    }

    /** Moves a seat's chips into the pot. */
    method CommitChips(t: int, amount: int)
      requires 0 <= t < |seats|
      modifies this`seats
      ensures seats == old(seats)[t := Commit(old(seats)[t], amount)]
    {
      var s := seats[t];
      var pay := Min(amount, s.stack);
      s := s.(stack := s.stack - pay);
      s := s.(street := s.street + pay);
      s := s.(total := s.total + pay);
      if s.stack == 0 { s := s.(allIn := true); }
      seats := seats[t := s];
    }

    /** Asks everyone but the raiser to act again. */
    method Reopen(t: int)
      modifies this`seats
      ensures seats == Reopened(old(seats), t)
    {
      ghost var before := seats;
      for i := 0 to |seats|
        invariant |seats| == |before|
        invariant forall j :: 0 <= j < i ==> seats[j] == Reopened(before, t)[j]
        invariant forall j :: i <= j < |seats| ==> seats[j] == before[j]
      {
        if i != t && Able(seats[i]) { seats := seats[i := seats[i].(acted := false)]; }
      }
    }

    /** The part of an action that changes the seat, when the action is allowed. */
    method TakeAction(a: Action) returns (ok: bool)
      requires 0 <= toAct < |seats| && Betting(View()) && a.seat == toAct
      modifies this`seats, this`minRaise, this`currentBet
      ensures ok <==> Accepts(old(View()), a)
      ensures View() == if ok then Acted(old(View()), a) else old(View())
    {
      var t := toAct;
      var s := seats[t];
      var toCall := currentBet - s.street;
      var l := LegalNow();
      match a.kind {
        case Fold =>
          seats := seats[t := s.(folded := true)];
        case Check =>
          if toCall > 0 {
            return false;
          }
        case Call =>
          if toCall <= 0 {
            return false;
          }
          CommitChips(t, Min(toCall, s.stack));
        case Unknown =>
          return false;
        case _ =>
          ok := Wager(a, l);
          return;
      }
      seats := seats[t := seats[t].(acted := true)];
      ok := true;
    }

    method Wager(a: Action, l: Legal) returns (ok: bool)
      requires 0 <= toAct < |seats| && Betting(View()) && a.seat == toAct && a.kind in {Bet, Raise} && l == LegalOf(View())
      modifies this`seats, this`minRaise, this`currentBet
      ensures ok <==> Accepts(old(View()), a)
      ensures View() == if ok then Acted(old(View()), a) else old(View())
    {
      hide Raised;
      var s := seats[toAct];
      if !l.canBetRaise {
        return false;
      }
      var allIn := a.to >= s.street + s.stack;
      if !allIn && (a.to < l.minTo || a.to > l.maxTo) {
        return false;
      }
      var add := Min(a.to, s.street + s.stack) - s.street;
      if add <= 0 {
        return false;
      }
      RaiseBy(add);
      ok := true;
    }

    method RaiseBy(add: int)
      requires 0 <= toAct < |seats| && 0 < add <= seats[toAct].stack
      modifies this`seats, this`minRaise, this`currentBet
      ensures View() == Raised(old(View()), add)
    {
      ghost var h := View();
      var t := toAct;
      var increment := seats[t].street + add - currentBet;
      CommitChips(t, add);
      RaisedBy(h, add);
      hide Reopened, Commit, Raised;
      if seats[t].street > currentBet {
        NewBet(t, increment);
      }
      seats := seats[t := seats[t].(acted := true)];
    }

    /** A higher bet: only a full raise moves the minimum, and everyone else acts again. */
    method NewBet(t: int, increment: int)
      requires 0 <= t < |seats|
      modifies this`seats, this`minRaise, this`currentBet
      ensures minRaise == if increment >= old(minRaise) then increment else old(minRaise)
      ensures currentBet == old(seats)[t].street
      ensures seats == Reopened(old(seats), t)
    {
      if increment >= minRaise { minRaise := increment; }
      currentBet := seats[t].street;
      Reopen(t);
    }

    /** Applies an action, or refuses it and changes nothing. */
    method Apply(a: Action) returns (r: Status)
      requires Wf(View())
      modifies this
      ensures Follows(Engine.Apply(old(View()), a), old(View()), View(), r)
    {
      hide Acted, Accepts;
      if done || awaitingBoard || awaitingShowdown || a.seat != toAct || toAct < 0 {
        return Rejected;
      }
      var ok := TakeAction(a);
      if !ok {
        return Rejected;
      }
      r := Advance();
    }

    method Advance() returns (r: Status)
      requires InPlay(View()) && toAct >= 0
      modifies this
      ensures Follows(Engine.Advance(old(View())), old(View()), View(), r)
    {
      var live := CountLive();
      if live == 1 {
        r := Settle();
        return;
      }
      var closed := IsClosed();
      if !closed {
        var next := NextAbleToAct(toAct);
        if next >= 0 {
          toAct := next;
          return Ok;
        }
      }
      r := NextStreet();
    }

    method IsClosed() returns (closed: bool)
      ensures closed == Closed(View())
    {
      closed := true;
      var i := 0;
      while i < |seats| && closed
        invariant 0 <= i <= |seats|
        invariant closed ==> forall j :: 0 <= j < i ==> Matched(View(), seats[j])
        invariant !closed ==> !AllMatched(View())
      {
        if Able(seats[i]) && (!seats[i].acted || seats[i].street != currentBet) {
          assert !Matched(View(), View().seats[i]);
          closed := false;
        }
        i := i + 1;
      }
      if !closed {
        var able := CountAble();
        if able <= 1 {
          var allActed := true;
          i := 0;
          while i < |seats| && allActed
            invariant 0 <= i <= |seats|
            invariant allActed ==> forall j :: 0 <= j < i ==> Able(seats[j]) ==> seats[j].acted
            invariant !allActed ==> !AllActed(seats)
          {
            if Able(seats[i]) && !seats[i].acted { allActed := false; }
            i := i + 1;
          }
          closed := allActed;
        }
      }
    }

    method ClearSeats()
      modifies this`seats
      ensures seats == Cleared(old(seats))
    {
      ghost var before := seats;
      for i := 0 to |seats|
        invariant |seats| == |before|
        invariant forall j :: 0 <= j < i ==> seats[j] == Cleared(before)[j]
        invariant forall j :: i <= j < |seats| ==> seats[j] == before[j]
      {
        seats := seats[i := seats[i].(street := 0, acted := false)];
      }
    }

    method NextStreet() returns (r: Status)
      requires InPlay(View())
      modifies this
      ensures Follows(Engine.NextStreet(old(View())), old(View()), View(), r)
      decreases StreetsLeft(street), 0
    {
      hide Engine.Settle, StartStreet;
      if street == River {
        r := Settle();
        return;
      }
      ghost var h := View();
      NextStreetCards(h);
      hide Wf;
      ResetStreet();
      if deferReveal {
        PauseForBoard();
        return Ok;
      }
      DealStreet();
      r := FinishStreetTransition();
    }

    method ResetStreet()
      modifies this`seats, this`currentBet, this`minRaise
      ensures View() == NewStreet(old(View()))
    {
      ClearSeats();
      currentBet := 0;
      minRaise := bigBlind;
    }

    method NeedAndNext() returns (need: nat, next: Street)
      requires street in {Preflop, Flop, Turn}
      ensures need == Need(street) && next == Next(street)
    {
      need, next := 1, Turn;
      match street {
        case Preflop => need, next := 3, Flop;
        case Flop => next := Turn;
        case _ => next := River;
      }
    }

    method PauseForBoard()
      requires street in {Preflop, Flop, Turn}
      modifies this`pendingStreet, this`pendingCount, this`awaitingBoard, this`toAct
      ensures View() == Pause(old(View()))
    {
      var need, next := NeedAndNext();
      pendingStreet := next;
      pendingCount := need;
      awaitingBoard := true;
      toAct := -1;
    }

    method DealStreet()
      requires street in {Preflop, Flop, Turn} && 0 <= deckPos && deckPos + Need(street) <= |deck|
      modifies this`board, this`deckPos, this`street
      ensures View() == Draw(old(View()))
    {
      var need, next := NeedAndNext();
      DrawCards(need);
      street := next;
    }

    method DrawCards(need: nat)
      requires 0 <= deckPos && deckPos + need <= |deck|
      modifies this`board, this`deckPos
      ensures board == old(board) + deck[old(deckPos)..old(deckPos) + need] && deckPos == old(deckPos) + need
    {
      ghost var start, was := deckPos, board;
      for i := 0 to need
        invariant deckPos == start + i && board == was + deck[start..start + i]
      {
        assert deck[start..start + i + 1] == deck[start..start + i] + [deck[start + i]];
        board := board + [deck[deckPos]];
        deckPos := deckPos + 1;
      }
    }

    method FinishStreetTransition() returns (r: Status)
      requires InPlay(View())
      modifies this
      ensures Follows(StartStreet(old(View())), old(View()), View(), r)
      decreases StreetsLeft(street), 1
    {
      var able := CountAble();
      if able <= 1 {
        if street != River {
          r := NextStreet();
          return;
        }
        r := Settle();
        return;
      }
      toAct := NextAbleToAct(button);
      if toAct < 0 {
        r := NextStreet();
        return;
      }
      r := Ok;
    }

    /** Provides the board cards a paused street waits for. */
    method SupplyBoard(revealed: seq<Card>) returns (r: Status)
      requires Ready(View())
      modifies this
      ensures Follows(Engine.SupplyBoard(old(View()), revealed), old(View()), View(), r)
    {
      if !awaitingBoard || |revealed| != pendingCount {
        return Rejected;
      }
      for i := 0 to |revealed|
        invariant forall j :: 0 <= j < i ==> Valid(revealed[j])
        invariant View() == old(View())
      {
        if !Valid(revealed[i]) {
          return Rejected;
        }
      }
      board := board + revealed;
      street := pendingStreet;
      awaitingBoard := false;
      pendingCount := 0;
      r := FinishStreetTransition();
    }

    /** Ends the hand: to the last seat standing, or by a showdown. */
    method Settle() returns (r: Status)
      requires InPlay(View())
      modifies this
      ensures Follows(Engine.Settle(old(View())), old(View()), View(), r)
    {
      hide LiveCount, Engine.ScoreAndPay, Wf;
      ghost var start := View();
      var live := CountLive();
      if live == 1 {
        PayUncontested();
        return Ok;
      }
      if deferReveal {
        awaitingShowdown := true;
        toAct := -1;
        return Ok;
      }
      done := true;
      street := Complete;
      toAct := -1;
      assert View() == Finished(start);
      r := ScoreAndPay();
    }

    method PayUncontested()
      requires LiveCount(seats) == 1
      modifies this`seats, this`payouts, this`done, this`street, this`toAct
      ensures View() == Finished(Pay(old(View()), map[FirstLive(old(seats)) := Sum(Commitments(old(seats)))]))
    {
      hide LiveCount, Sum, Credit, FirstLive, Commitments;
      var w := OnlyLive();
      var won := SumCommitments();
      CreditOne(seats, w, won);
      seats := seats[w := seats[w].(stack := seats[w].stack + won)];
      assert payouts[w := won] == payouts + map[w := won];
      payouts := payouts[w := won];
      done := true;
      street := Complete;
      toAct := -1;
    }

    method OnlyLive() returns (w: int)
      requires LiveCount(seats) > 0
      ensures w == FirstLive(seats) && 0 <= w < |seats|
    {
      w := 0;
      assert seats[0..] == seats;
      while seats[w].folded
        invariant 0 <= w < |seats| && LiveCount(seats[w..]) > 0 && w + FirstLive(seats[w..]) == FirstLive(seats)
        decreases |seats| - w
      {
        assert seats[w..][1..] == seats[w + 1..];
        w := w + 1;
      }
    }

    method SumCommitments() returns (won: int)
      ensures won == Sum(Commitments(seats))
    {
      won := 0;
      ghost var cs := Commitments(seats);
      assert cs[0..] == cs;
      for i := 0 to |seats|
        invariant won + Sum(cs[i..]) == Sum(cs)
      {
        assert cs[i..][1..] == cs[i + 1..];
        won := won + seats[i].total;
      }
    }

    method SetRevealedHole(seat: int, hole: seq<Card>) returns (r: Status)
      modifies this
      ensures Follows(Engine.SetRevealedHole(old(View()), seat, hole), old(View()), View(), r)
    {
      if seat < 0 || seat >= |seats| {
        return Rejected;
      }
      for i := 0 to |hole|
        invariant forall j :: 0 <= j < i ==> Valid(hole[j])
        invariant View() == old(View())
      {
        if !Valid(hole[i]) {
          return Rejected;
        }
      }
      seats := seats[seat := seats[seat].(hole := hole)];
      r := Ok;
    }

    method CompleteShowdown() returns (r: Status)
      modifies this
      ensures Follows(Engine.CompleteShowdown(old(View())), old(View()), View(), r)
    {
      hide Engine.ScoreAndPay;
      if !awaitingShowdown {
        return Rejected;
      }
      awaitingShowdown := false;
      done := true;
      street := Complete;
      toAct := -1;
      r := ScoreAndPay();
    }

    /** Awards the pot layer by layer. The levels and the payouts are read out of unordered
        collections; whatever the order, the result is the one specified. */
    method ScoreAndPay() returns (r: Status)
      modifies this
      ensures Follows(Engine.ScoreAndPay(old(View())), old(View()), View(), r)
    {
      hide Settles, SidePots.Payouts;
      ghost var h := View();
      var won := AwardLayers(seats, board, useHole);
      if won.None? {
        return ScoringFailed;
      }
      PayoutRange(Entries(h));
      CreditAll(won.value);
      assert View() == Pay(h, won.value);
      r := Ok;
    }

    method CreditAll(won: map<int, int>)
      requires forall i :: i in won ==> 0 <= i < |seats|
      modifies this`seats, this`payouts
      ensures seats == Credit(old(seats), won) && payouts == old(payouts) + won
    {
      hide Credit;
      ghost var before, was := seats, payouts;
      var rest := won.Keys;
      CreditEnds(seats, was, won);
      while rest != {}
        invariant rest <= won.Keys
        invariant seats == Credit(before, won - rest) && payouts == was + (won - rest)
        decreases |rest|
      {
        Inhabited(rest);
        var seat :| seat in rest;
        CreditNext(before, was, won, rest, seat);
        seats := seats[seat := seats[seat].(stack := seats[seat].stack + won[seat])];
        payouts := payouts[seat := won[seat]];
        rest := rest - {seat};
      }
    }
  }

  lemma TakeNone(won: map<int, int>)
    ensures won - won.Keys == map[] && won - {} == won
  {
  }

  lemma TakeOut(won: map<int, int>, rest: set<int>, seat: int)
    requires seat in rest && rest <= won.Keys
    ensures seat in won && seat !in won - rest && won - (rest - {seat}) == (won - rest)[seat := won[seat]]
  {
  }

  lemma CreditEnds(seats: seq<Seat>, was: map<int, int>, won: map<int, int>)
    ensures Credit(seats, won - won.Keys) == seats && was + (won - won.Keys) == was
    ensures Credit(seats, won - {}) == Credit(seats, won) && was + (won - {}) == was + won
  {
    TakeNone(won);
  }

  lemma CreditMore(seats: seq<Seat>, paid: map<int, int>, w: int, amount: int)
    requires 0 <= w < |seats| && w !in paid
    ensures var now := Credit(seats, paid);
            Credit(seats, paid[w := amount]) == now[w := now[w].(stack := now[w].stack + amount)]
  {
  }

  /** Paying one more seat. */
  lemma CreditNext(seats: seq<Seat>, was: map<int, int>, won: map<int, int>, rest: set<int>, w: int)
    requires w in rest && rest <= won.Keys && 0 <= w < |seats|
    ensures var now := Credit(seats, won - rest);
            && |now| == |seats|
            && Credit(seats, won - (rest - {w})) == now[w := now[w].(stack := now[w].stack + won[w])]
    ensures was + (won - (rest - {w})) == (was + (won - rest))[w := won[w]]
  {
    TakeOut(won, rest, w);
    CreditMore(seats, won - rest, w, won[w]);
  }

  /** Adding to one seat's stack is a credit to that seat alone. */
  lemma CreditOne(seats: seq<Seat>, w: int, won: int)
    requires 0 <= w < |seats|
    ensures Credit(seats, map[w := won]) == seats[w := seats[w].(stack := seats[w].stack + won)]
  {
  }

  lemma PayoutRange(es: seq<Entry>)
    requires Settles(es)
    ensures forall i :: i in SidePots.Payouts(es) ==> 0 <= i < |es|
  {
  }

  /** What NextStreet relies on when it does not settle. */
  lemma NextStreetCards(h: Hand)
    requires InPlay(h) && h.street != River
    ensures h.street in {Preflop, Flop, Turn} && 0 <= h.deckPos && h.deckPos + Need(h.street) <= |h.deck|
    ensures InPlay(Draw(NewStreet(h)))
  {
  }

  /** Marking the raiser as having acted before or after the others are reopened comes to the same. */
  lemma RaisedBy(h: Hand, add: int)
    requires 0 <= h.toAct < |h.seats| && 0 < add <= h.seats[h.toAct].stack
    ensures var t := h.toAct;
            var raiser := Commit(h.seats[t], add);
            var seats := h.seats[t := raiser];
            var increment := h.seats[t].street + add - h.currentBet;
            && |Reopened(seats, t)| == |seats|
            && (raiser.street > h.currentBet ==>
                  Raised(h, add) == h.(seats := Reopened(seats, t)[t := Reopened(seats, t)[t].(acted := true)],
                                       minRaise := if increment >= h.minRaise then increment else h.minRaise,
                                       currentBet := raiser.street))
            && (raiser.street <= h.currentBet ==> Raised(h, add) == h.(seats := seats[t := seats[t].(acted := true)]))
  {
    var t := h.toAct;
    var raiser := Commit(h.seats[t], add);
    var seats := h.seats[t := raiser];
    var marked := raiser.(acted := true);
    assert seats[t := marked] == h.seats[t := marked];
    assert Reopened(seats, t)[t] == raiser;
    assert Reopened(seats, t)[t := marked] == Reopened(seats[t := marked], t);
  }

  /** Starts a hand, or refuses the configuration. */
  method Start(cfg: Config) returns (st: State?)
    ensures st == null <==> New(cfg).None?
    ensures st != null ==> fresh(st) && New(cfg) == Some(st.View())
  {
    hide Blinded, SeatedAll, NextAble;
    var n := |cfg.stacks|;
    if n < MIN_SEATS || n > MAX_SEATS || cfg.button < 0 || cfg.button >= n || cfg.bigBlind <= 0 || cfg.smallBlind <= 0
       || cfg.smallBlind > cfg.bigBlind {
      return null;
    }
    for i := 0 to n
      invariant forall j :: 0 <= j < i ==> cfg.stacks[j] > 0
    {
      if cfg.stacks[i] <= 0 {
        return null;
      }
    }
    var holeCount := if cfg.holeCards == 0 then 2 else cfg.holeCards;
    if |cfg.deck| < holeCount * n + 5 {
      return null;
    }
    var seats, deckPos := DealHoles(cfg);
    st := new State(Hand(seats, [], Preflop, cfg.button, cfg.smallBlind, cfg.bigBlind, 0, 0, 0, false,
                         false, 0, false, map[], cfg.useHole, cfg.deck, deckPos, Preflop, cfg.deferReveal));
    PostBlinds(st, cfg);
    st.currentBet := cfg.bigBlind;
    st.minRaise := cfg.bigBlind;
    st.toAct := st.NextAbleToAct(BigBlindSeat(cfg));
  }

  method PostBlinds(st: State, cfg: Config)
    requires Acceptable(cfg) && st.seats == SeatedAll(cfg)
    modifies st`seats
    ensures st.seats == Blinded(cfg)
  {
    var n := |cfg.stacks|;
    var sbSeat, bbSeat := (cfg.button + 1) % n, (cfg.button + 2) % n;
    if n == 2 { sbSeat, bbSeat := cfg.button, (cfg.button + 1) % n; }
    st.CommitChips(sbSeat, cfg.smallBlind);
    st.CommitChips(bbSeat, cfg.bigBlind);
  }

  method DealHoles(cfg: Config) returns (seats: seq<Seat>, deckPos: nat)
    requires Acceptable(cfg)
    ensures seats == SeatedAll(cfg) && deckPos == HoleCount(cfg) * |cfg.stacks|
  {
    var n, c := |cfg.stacks|, HoleCount(cfg);
    seats, deckPos := [], 0;
    for i := 0 to n
      invariant |seats| == i && deckPos == i * c
      invariant forall j :: 0 <= j < i ==> seats[j] == Seated(cfg, j)
    {
      HoleFits(cfg, i);
      var hole: seq<Card> := [];
      for k := 0 to c
        invariant deckPos == i * c + k && hole == cfg.deck[i * c..i * c + k]
      {
        assert cfg.deck[i * c..i * c + k + 1] == cfg.deck[i * c..i * c + k] + [cfg.deck[i * c + k]];
        hole := hole + [cfg.deck[deckPos]];
        deckPos := deckPos + 1;
      }
      seats := seats + [Seat(cfg.stacks[i], hole, false, false, 0, 0, false)];
    }
    assert n * c == c * n;
  }
}
