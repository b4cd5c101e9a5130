/**
 A hand in which the largest commitment is a folded one: three seats with 5, 7 and 100 chips at blinds
 of 5 and 10. The first two call all in, and the big blind folds its option.
 */
module FoldedLeader {
  import opened Cards
  import opened Options
  import opened Sums
  import opened SidePots
  import opened Engine
  import opened EngineTurns
  import opened Combinations
  import EvalGo

  // ----- the cards -----

  /** Ace and king of hearts, two spades, two diamonds; then queen, jack and ten of hearts and two clubs. */
  function Deck(): seq<Card> {
    [Card(14, 1), Card(13, 1), Card(4, 0), Card(5, 0), Card(6, 2), Card(7, 2),
     Card(12, 1), Card(11, 1), Card(10, 1), Card(2, 3), Card(3, 3)]
  }

  function Board(): seq<Card> { Deck()[6..11] }

  lemma RoyalFirst(s: int)
    requires EvalGo.IsBestScore(Deck()[0..2], Board(), 0, s)
    ensures s >= 8 * 1048576
  {
    hide EvalGo.FiveScore;
    var pool := Deck()[0..2] + Board();
    assert pool == [Card(14, 1), Card(13, 1), Card(12, 1), Card(11, 1), Card(10, 1), Card(2, 3), Card(3, 3)];
    var idx := [0, 1, 2, 3, 4];
    var five := EvalGo.Pick(pool, idx);
    assert five == [Card(14, 1), Card(13, 1), Card(12, 1), Card(11, 1), Card(10, 1)];
    assert EvalGo.PicksPool(pool, idx, five);
    Hearts(five);
    EvalGo.RoyalScore(five);
    assert EvalGo.ScoresAtMost(five, s);
  }

  lemma Hearts(five: seq<Card>)
    requires five == [Card(14, 1), Card(13, 1), Card(12, 1), Card(11, 1), Card(10, 1)]
    ensures EvalGo.FiveValid(five) && EvalGo.OneSuit(multiset(five))
    ensures forall r :: 8 <= r < 13 ==> EvalGo.RankTally(multiset(five), r) > 0
  {
    assert EvalGo.AllOf(multiset(five), 1);
    assert forall i :: 0 <= i < 5 ==> five[i] in multiset(five);
    assert five[0] == Card(14, 1) && five[1] == Card(13, 1) && five[2] == Card(12, 1) && five[3] == Card(11, 1) && five[4] == Card(10, 1);
    forall r | 8 <= r < 13
      ensures EvalGo.RankTally(multiset(five), r) > 0
    {
      assert five[12 - r] == Card(r + 2, 1);
    }
  }

  /** The second seat's seven cards hold no five of one suit. */
  lemma MixedSecond(s: int)
    requires EvalGo.IsBestScore(Deck()[2..4], Board(), 0, s)
    ensures s < 8 * 1048576
  {
    hide EvalGo.FiveScore;
    var pool := Deck()[2..4] + Board();
    assert pool == [Card(4, 0), Card(5, 0), Card(12, 1), Card(11, 1), Card(10, 1), Card(2, 3), Card(3, 3)];
    var five :| EvalGo.Allowed(Deck()[2..4], Board(), 0, five) && EvalGo.Scores5(five, s);
    var idx :| EvalGo.PicksPool(pool, idx, five);
    FirstAndLast(pool, idx, five);
    EvalGo.MixedSuitsScore(five);
  }

  /** Of five indices below seven, the first is at most 2, the last at least 4, and no suit spans them all. */
  lemma FirstAndLast(pool: seq<Card>, idx: seq<int>, five: seq<Card>)
    requires pool == [Card(4, 0), Card(5, 0), Card(12, 1), Card(11, 1), Card(10, 1), Card(2, 3), Card(3, 3)]
    requires EvalGo.PicksPool(pool, idx, five)
    ensures !EvalGo.OneSuit(multiset(five))
  {
    assert idx[0] < idx[1] < idx[2] < idx[3] < idx[4] < 7;
    assert five[0] == pool[idx[0]] && five[4] == pool[idx[4]];
    assert five[0] in multiset(five) && five[4] in multiset(five);
    assert five[0].suit != five[4].suit;
  }

  lemma FirstBeatsSecond(a: int, b: int)
    requires EvalGo.IsBestScore(Deck()[0..2], Board(), 0, a) && EvalGo.IsBestScore(Deck()[2..4], Board(), 0, b)
    ensures a > b
  {
    hide EvalGo.IsBestScore;
    RoyalFirst(a);
    MixedSecond(b);
  }

  // ----- counting three seats -----

  lemma ThreeSeats(s: seq<Seat>)
    requires |s| == 3
    ensures LiveCount(s) == (if s[0].folded then 0 else 1) + (if s[1].folded then 0 else 1) + if s[2].folded then 0 else 1
    ensures AbleCount(s) == (if Able(s[0]) then 1 else 0) + (if Able(s[1]) then 1 else 0) + if Able(s[2]) then 1 else 0
  {
    var b, c := s[1..], s[2..];
    assert b[1..] == c && c[1..] == [];
    assert LiveCount(c) == (if c[0].folded then 0 else 1) + LiveCount(c[1..]);
    assert LiveCount(b) == (if b[0].folded then 0 else 1) + LiveCount(b[1..]);
    assert AbleCount(c) == (if Able(c[0]) then 1 else 0) + AbleCount(c[1..]);
    assert AbleCount(b) == (if Able(b[0]) then 1 else 0) + AbleCount(b[1..]);
  }

  // ----- running out the board -----

  /** The same seats at showdown, whatever the street's bets were. */
  ghost predicate SameShowdown(a: seq<Seat>, b: seq<Seat>) {
    |a| == |b| && forall i :: 0 <= i < |a| ==> a[i].total == b[i].total && a[i].folded == b[i].folded && a[i].allIn == b[i].allIn && a[i].hole == b[i].hole
  }

  lemma {:induction false} SameCounts(a: seq<Seat>, b: seq<Seat>)
    requires SameShowdown(a, b)
    ensures LiveCount(a) == LiveCount(b) && AbleCount(a) == AbleCount(b)
  {
    if a != [] {
      forall i | 0 <= i < |a| - 1
        ensures a[1..][i] == a[i + 1] && b[1..][i] == b[i + 1]
      {
      }
      SameCounts(a[1..], b[1..]);
    }
  }

  lemma BoardJoins(board: seq<Card>, deck: seq<Card>, a: int, b: int, c: int)
    requires 0 <= a <= b <= c <= |deck|
    ensures board + deck[a..b] + deck[b..c] == board + deck[a..c]
  {
  }

  lemma StillShown(a: seq<Seat>, b: seq<Seat>, c: seq<Seat>)
    requires SameShowdown(a, b) && SameShowdown(b, c)
    ensures SameShowdown(a, c)
  {
  }

  /** With nobody able to act the rest of the board is dealt and the hand is scored. */
  lemma {:induction false} RunsOut(h: Hand) returns (last: Hand)
    requires InPlay(h) && !h.deferReveal && AbleCount(h.seats) == 0 && LiveCount(h.seats) >= 2
    ensures NextStreet(h) == ScoreAndPay(last) && SameShowdown(h.seats, last.seats) && last.useHole == h.useHole && last.payouts == h.payouts && last.done
    ensures last.board == h.board + h.deck[h.deckPos..h.deckPos + CardsLeft(h.street)]
    decreases StreetsLeft(h.street)
  {
    hide LiveCount, AbleCount, ScoreAndPay;
    if h.street == River {
      assert h.deck[h.deckPos..h.deckPos + 0] == [];
      last := Finished(h);
    } else {
      var next := Draw(NewStreet(h));
      SameCounts(h.seats, next.seats);
      BoardJoins(h.board, h.deck, h.deckPos, h.deckPos + Need(h.street), h.deckPos + CardsLeft(h.street));
      hide Cleared;
      if next.street != River {
        last := RunsOut(next);
        StillShown(h.seats, next.seats, last.seats);
      } else {
        last := Finished(next);
        assert NextStreet(h) == StartStreet(next) == Settle(next);
      }
    }
  }

  // ----- the run -----

  function Table(): Config { Config([5, 7, 100], 0, 5, 10, Deck(), 0, 0, false) }

  function Seats0(): seq<Seat> {
    [Seat(5, Deck()[0..2], false, false, 0, 0, false),
     Seat(2, Deck()[2..4], false, false, 5, 5, false),
     Seat(90, Deck()[4..6], false, false, 10, 10, false)]
  }

  function Seats1(): seq<Seat> { Seats0()[0 := Seat(0, Deck()[0..2], false, true, 5, 5, true)] }

  function Seats2(): seq<Seat> { Seats1()[1 := Seat(0, Deck()[2..4], false, true, 7, 7, true)] }

  function Seats3(): seq<Seat> { Seats2()[2 := Seat(90, Deck()[4..6], true, false, 10, 10, true)] }

  /** A state of the hand before the flop. */
  function Before(seats: seq<Seat>, toAct: int): Hand {
    Hand(seats, [], Preflop, 0, 5, 10, 10, 10, toAct, false, false, 0, false, map[], 0, Deck(), 6, Preflop, false)
  }

  lemma Starts()
    ensures New(Table()) == Some(Before(Seats0(), 0))
  {
    hide Deck;
    var cfg := Table();
    DeckSize();
    assert Acceptable(cfg) && SmallBlindSeat(cfg) == 1 && BigBlindSeat(cfg) == 2;
    var first := SeatedAll(cfg);
    assert first == [Seat(5, Deck()[0..2], false, false, 0, 0, false), Seat(7, Deck()[2..4], false, false, 0, 0, false),
                     Seat(100, Deck()[4..6], false, false, 0, 0, false)];
    assert Blinded(cfg) == Seats0();
    assert NextAble(Seats0(), 2, 1) == 0;
  }

  lemma DeckSize()
    ensures |Deck()| == 11 && AllValid(Deck())
  {
  }

  lemma FirstCalls()
    ensures Wf(Before(Seats0(), 0)) && Apply(Before(Seats0(), 0), Action(Call, 0, 0)) == Went(Before(Seats1(), 1), true)
  {
    hide Deck;
    DeckSize();
    var h, a := Before(Seats0(), 0), Action(Call, 0, 0);
    ThreeSeats(Seats1());
    assert Acted(h, a) == Before(Seats1(), 0);
    hide LiveCount, AbleCount;
    assert !AllMatched(Before(Seats1(), 0)) by { assert !Matched(Before(Seats1(), 0), Seats1()[1]); }
    assert NextAble(Seats1(), 0, 1) == 1;
  }

  lemma SecondCalls()
    ensures Wf(Before(Seats1(), 1)) && Apply(Before(Seats1(), 1), Action(Call, 1, 0)) == Went(Before(Seats2(), 2), true)
  {
    hide Deck;
    DeckSize();
    var h, a := Before(Seats1(), 1), Action(Call, 1, 0);
    ThreeSeats(Seats2());
    assert Acted(h, a) == Before(Seats2(), 1);
    hide LiveCount, AbleCount;
    assert !AllMatched(Before(Seats2(), 1)) by { assert !Matched(Before(Seats2(), 1), Seats2()[2]); }
    assert !AllActed(Seats2()) by { assert Able(Seats2()[2]) && !Seats2()[2].acted; }
    assert NextAble(Seats2(), 1, 1) == 2;
  }

  lemma ThirdFolds() returns (last: Hand)
    ensures Wf(Before(Seats2(), 2)) && Apply(Before(Seats2(), 2), Action(Fold, 2, 0)) == ScoreAndPay(last)
    ensures SameShowdown(Seats3(), last.seats) && last.useHole == 0 && last.board == Board() && last.payouts == map[] && last.done
  {
    hide Deck, ScoreAndPay;
    DeckSize();
    var h, a := Before(Seats2(), 2), Action(Fold, 2, 0);
    ThreeSeats(Seats3());
    assert Acted(h, a) == Before(Seats3(), 2);
    hide LiveCount, AbleCount;
    assert AllMatched(Before(Seats3(), 2));
    last := RunsOut(Before(Seats3(), 2));
    assert [] + Deck()[6..11] == Board();
  }

  lemma Showdown(last: Hand)
    requires SameShowdown(Seats3(), last.seats) && last.useHole == 0 && last.board == Board() && last.payouts == map[]
    ensures ScoreAndPay(last).Went? && ScoreAndPay(last).scored
    ensures var h := ScoreAndPay(last).hand; 0 in h.payouts && h.payouts[0] == 18
  {
    hide Deck, Board, EvalGo.ScoreOf, Settles, SidePots.Payouts, EvalGo.IsBestScore;
    var es := Entries(last);
    var a, b := es[0].score, es[1].score;
    BothScored();
    FirstBeatsSecond(a.value, b.value);
    assert es == Overcalled(a.value, b.value, es[2].score);
    OvercalledPayout(a.value, b.value, es[2].score);
  }

  lemma BothScored()
    ensures EvalGo.Scorable(Deck()[0..2], Board(), 0) && EvalGo.Scorable(Deck()[2..4], Board(), 0)
  {
  }

  /** The folded leader's excess breaks the cap in a real hand: the first seat, all in for 5, is paid 18
      although the seats' stakes against its own come to 15. */
  lemma FoldedLeaderBreaksCap() returns (es: seq<Event>, hs: seq<Hand>)
    ensures IsRun(Table(), es, hs) && |hs| == 4 && hs[3].done
    ensures var last := hs[3];
            && Commitments(last.seats) == [5, 7, 10] && last.seats[2].folded && !last.seats[0].folded && !last.seats[1].folded
            && 0 in last.payouts && last.payouts[0] == 18 && Sum(Capped(Entries(last), 5)) == 15
  {
    hide Deck, Board, Seats0, Seats1, Seats2, Seats3, ScoreAndPay, Apply;
    Starts();
    FirstCalls();
    SecondCalls();
    var last := ThirdFolds();
    Showdown(last);
    es := [Act(Action(Call, 0, 0)), Act(Action(Call, 1, 0)), Act(Action(Fold, 2, 0))];
    hs := [Before(Seats0(), 0), Before(Seats1(), 1), Before(Seats2(), 2), ScoreAndPay(last).hand];
    assert StepTo(hs[0], es[0], hs[1]) && StepTo(hs[1], es[1], hs[2]) && StepTo(hs[2], es[2], hs[3]);
    assert IsRun(Table(), es, hs);
    FinalSeats(last);
  }

  lemma FinalSeats(last: Hand)
    requires SameShowdown(Seats3(), last.seats) && last.done
    ensures var h := ScoreAndPay(last).hand;
            && h.done && Commitments(h.seats) == [5, 7, 10] && h.seats[2].folded && !h.seats[0].folded && !h.seats[1].folded
            && Sum(Capped(Entries(h), 5)) == 15
  {
    hide Settles, SidePots.Payouts, EvalGo.ScoreOf, Deck;
    var h := ScoreAndPay(last).hand;
    assert Capped(Entries(h), 5) == [5, 5, 5];
    assert [5, 5, 5][1..] == [5, 5] && [5, 5][1..] == [5] && [5][1..] == [];
  }
}
