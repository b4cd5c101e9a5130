/** What a finished hand pays: all of it to the last seat in, or the side pots to the best hands. */
module EngineShowdown {
  import opened Cards
  import opened Options
  import opened Sums
  import opened SidePots
  import opened Engine
  import opened EngineTurns
  import EvalGo

  /** A hand that is over has paid its last unfolded seat everything, or the side pots of its seats. */
  ghost predicate PaidRight(h: Hand) {
    h.done ==>
      if LiveCount(h.seats) == 1 then h.payouts == map[FirstLive(h.seats) := Sum(Commitments(h.seats))]
      else h.payouts == if Settles(Entries(h)) then SidePots.Payouts(Entries(h)) else map[]
  }

  lemma {:induction false} SameFirstLive(a: seq<Seat>, b: seq<Seat>)
    requires |a| == |b| && LiveCount(a) > 0 && forall i :: 0 <= i < |a| ==> a[i].folded == b[i].folded
    ensures LiveCount(b) > 0 && FirstLive(a) == FirstLive(b)
  {
    LiveSame(a, b);
    if a[0].folded { SameFirstLive(a[1..], b[1..]); }
  }

  lemma CreditedAlike(h: Hand, p: map<int, int>)
    ensures var h' := Pay(h, p);
            && Entries(h') == Entries(h) && Commitments(h'.seats) == Commitments(h.seats) && LiveCount(h'.seats) == LiveCount(h.seats)
            && (LiveCount(h.seats) > 0 ==> FirstLive(h'.seats) == FirstLive(h.seats))
  {
    LiveSame(h.seats, Credit(h.seats, p));
    if LiveCount(h.seats) > 0 { SameFirstLive(h.seats, Credit(h.seats, p)); }
    hide LiveCount;
  }

  lemma ScorePays(h: Hand)
    requires h.done && h.payouts == map[] && LiveCount(h.seats) != 1
    ensures PaidRight(ScoreAndPay(h).hand)
  {
    hide Settles, LiveCount, Entries;
    if Settles(Entries(h)) {
      var p := SidePots.Payouts(Entries(h));
      CreditedAlike(h, p);
      assert h.payouts + p == p;
    }
  }

  lemma SettlePays(h: Hand)
    requires InPlay(h) && h.payouts == map[]
    ensures PaidRight(Settle(h).hand)
  {
    hide LiveCount, Settles, Entries, Sum;
    if LiveCount(h.seats) == 1 {
      var p := map[FirstLive(h.seats) := Sum(Commitments(h.seats))];
      CreditedAlike(h, p);
      assert h.payouts + p == p;
    } else if !h.deferReveal {
      ScorePays(Finished(h));
    }
  }

  lemma {:induction false} NextStreetPays(h: Hand)
    requires InPlay(h) && h.payouts == map[]
    ensures PaidRight(NextStreet(h).hand)
    decreases StreetsLeft(h.street), 0
  {
    if h.street == River {
      SettlePays(h);
    } else if !h.deferReveal {
      StartStreetPays(Draw(NewStreet(h)));
    }
  }

  lemma {:induction false} StartStreetPays(h: Hand)
    requires InPlay(h) && h.payouts == map[]
    ensures PaidRight(StartStreet(h).hand)
    decreases StreetsLeft(h.street), 1
  {
    hide AbleCount, PaidRight;
    if AbleCount(h.seats) <= 1 {
      if h.street != River { NextStreetPays(h); } else { SettlePays(h); }
    } else {
      var h' := h.(toAct := NextAble(h.seats, h.button, 1));
      if h'.toAct < 0 { NextStreetPays(h'); } else { UnfinishedRight(h'); }
    }
  }

  lemma UnfinishedRight(h: Hand)
    requires !h.done
    ensures PaidRight(h)
  {
  }

  /** The operation that ends a hand pays it right. */
  lemma StepPays(h: Hand, e: Event)
    requires Inv(h) && !h.done && Do(h, e).Went?
    ensures PaidRight(Do(h, e).hand)
  {
    hide PaidRight;
    match e {
      case Act(a) =>
        ActedKeeps(h, a);
        hide Accepts, Acted, LegalOf;
        var m := Acted(h, a);
        if LiveCount(m.seats) == 1 {
          SettlePays(m);
        } else {
          hide Closed;
          NextStreetPays(m);
          UnfinishedRight(m.(toAct := NextAble(m.seats, m.toAct, 1)));
        }
      case Board(cards) =>
        StartStreetPays(h.(board := h.board + cards, street := h.pendingStreet, awaitingBoard := false, pendingCount := 0));
      case Hole(seat, hole) => UnfinishedRight(Do(h, e).hand);
      case Showdown => ScorePays(Finished(h.(awaitingShowdown := false)));
    }
  }

  /** In every run, the hand is paid right the moment it is over. */
  lemma EveryRunPays(cfg: Config, es: seq<Event>, hs: seq<Hand>, k: nat)
    requires IsRun(cfg, es, hs) && hs[0].toAct >= 0 && k < |es| && !hs[k].done
    ensures PaidRight(hs[k + 1])
  {
    EveryRunKeeps(cfg, es, hs, k);
    var h, e := hs[k], es[k];
    assert StepTo(h, e, hs[k + 1]);
    hide PaidRight, Inv, Do;
    if Do(h, e).Went? { StepPays(h, e); } else { UnfinishedRight(h); }
  }

  // ----- what that means for the players -----

  lemma {:induction false} TwoLive(seats: seq<Seat>, i: int, j: int)
    requires 0 <= i < j < |seats| && !seats[i].folded && !seats[j].folded
    ensures LiveCount(seats) >= 2
  {
    if i > 0 {
      TwoLive(seats[1..], i - 1, j - 1);
    } else {
      LiveSome(seats[1..], j - 1);
    }
  }

  lemma EntryScore(h: Hand, i: int, x: int)
    requires 0 <= i < |h.seats| && EvalGo.IsBestScore(h.seats[i].hole, h.board, h.useHole, x)
    requires EvalGo.Scorable(h.seats[i].hole, h.board, h.useHole)
    ensures Entries(h)[i].score == Some(x)
  {
    hide EvalGo.IsBestScore, EvalGo.Scorable;
    EvalGo.BestUnique(h.seats[i].hole, h.board, h.useHole, x, EvalGo.ScoreOf(h.seats[i].hole, h.board, h.useHole).value);
  }

  /** A folded seat is never paid. */
  lemma FoldedUnpaid(h: Hand, i: int)
    requires h.done && PaidRight(h) && i in h.payouts
    ensures 0 <= i < |h.seats| && !h.seats[i].folded
  {
    hide LiveCount, Sum, EvalGo.ScoreOf;
  }

  /** Scored, and worth x with the board. */
  ghost predicate Worth(h: Hand, i: int, x: int)
    requires 0 <= i < |h.seats|
  {
    EvalGo.Scorable(h.seats[i].hole, h.board, h.useHole) && EvalGo.IsBestScore(h.seats[i].hole, h.board, h.useHole, x)
  }

  /** An unfolded hand beaten by one that has put in as much or more is paid nothing. */
  lemma BeatenHandUnpaid(h: Hand, i: int, j: int, x: int, y: int)
    requires h.done && PaidRight(h) && 0 <= i < |h.seats| && 0 <= j < |h.seats|
    requires !h.seats[i].folded && !h.seats[j].folded && h.seats[i].total >= h.seats[j].total
    requires Worth(h, i, x) && Worth(h, j, y) && x > y
    ensures j !in h.payouts
  {
    hide EvalGo.IsBestScore, EvalGo.Scorable, EvalGo.ScoreOf, Settles, SidePots.Payouts, LiveCount, Sum;
    EntryScore(h, i, x);
    EntryScore(h, j, y);
    if i < j { TwoLive(h.seats, i, j); } else if j < i { TwoLive(h.seats, j, i); }
    if Settles(Entries(h)) { BeatenUnpaid(Entries(h), i, j); }
  }

  /** Every seat's stake up to a limit. */
  function StakesUpTo(seats: seq<Seat>, limit: int): seq<int> {
    seq(|seats|, i requires 0 <= i < |seats| => Min(seats[i].total, limit))
  }

  /** When no folded seat has put in the most, the best hand at a showdown is paid, from every seat,
      what that seat put in against it. */
  lemma BestHandWins(h: Hand, i: int, leader: int)
    requires h.done && PaidRight(h) && LiveCount(h.seats) >= 2 && 0 <= i < |h.seats| && 0 <= leader < |h.seats|
    requires !h.seats[i].folded && !h.seats[leader].folded && h.seats[i].total > 0
    requires forall j :: 0 <= j < |h.seats| ==> 0 <= h.seats[j].total <= h.seats[leader].total
    requires forall j :: 0 <= j < |h.seats| && !h.seats[j].folded ==> EvalGo.Scorable(h.seats[j].hole, h.board, h.useHole)
    requires forall j, x, y :: 0 <= j < |h.seats| && j != i && !h.seats[j].folded && Worth(h, i, x) && Worth(h, j, y) ==> y < x
    ensures i in h.payouts && h.payouts[i] == Sum(StakesUpTo(h.seats, h.seats[i].total))
  {
    hide EvalGo.IsBestScore, EvalGo.Scorable, LiveCount, Sum;
    var es := Entries(h);
    forall l | l in Levels(es)
      ensures Scored(es, l)
    {
      assert es[i].live;
      SomeContender(es, l);
    }
    forall j | 0 <= j < |es| && j != i && es[j].live
      ensures es[j].score.value < es[i].score.value
    {
      assert Worth(h, i, es[i].score.value) && Worth(h, j, es[j].score.value);
    }
    assert es[leader].live;
    assert StakesUpTo(h.seats, h.seats[i].total) == Capped(es, es[i].total);
    BestHandTakes(es, i);
  }
}
