/** Chips are neither made nor lost, in any run of a hand. */
module EngineChips {
  import opened Cards
  import opened Options
  import opened Sums
  import opened SidePots
  import opened Engine
  import opened EngineTurns

  function Money(seats: seq<Seat>): int {
    Sum(Stacks(seats)) + Sum(Commitments(seats))
  }

  function PaidOut(h: Hand): int {
    Sum(AllReceived(h.payouts, |h.seats|))
  }

  /** Stacks and commitments, less what the commitments have already paid out. */
  function Chips(h: Hand): int {
    Money(h.seats) - PaidOut(h)
  }

  predicate PurseOk(s: Seat) { s.stack >= 0 && s.total >= 0 }

  ghost predicate PursesOk(seats: seq<Seat>) {
    forall i :: 0 <= i < |seats| ==> PurseOk(seats[i])
  }

  /** Nothing is paid before the end, and everything committed is paid at it, if scoring succeeded. */
  ghost predicate Accounted(h: Hand, scored: bool) {
    && PursesOk(h.seats)
    && (!h.done ==> h.payouts == map[])
    && (h.done && scored ==> PaidOut(h) == Sum(Commitments(h.seats)))
  }

  /** An outcome that leaves the chips of h accounted for. */
  ghost predicate Keeps(h: Hand, o: Outcome) {
    o.Went? ==> |o.hand.seats| == |h.seats| && Chips(o.hand) == Chips(h) && Accounted(o.hand, o.scored)
  }

  lemma NonePaid(n: nat)
    ensures Sum(AllReceived(map[], n)) == 0
  {
    ZeroSum(AllReceived(map[], n));
  }

  // ----- seat by seat -----

  lemma SeatChange(seats: seq<Seat>, t: int, s: Seat)
    requires 0 <= t < |seats| && s.stack + s.total == seats[t].stack + seats[t].total
    ensures Money(seats[t := s]) == Money(seats)
  {
    assert Stacks(seats[t := s]) == Stacks(seats)[t := s.stack];
    assert Commitments(seats[t := s]) == Commitments(seats)[t := s.total];
    SumReplace(Stacks(seats), t, s.stack);
    SumReplace(Commitments(seats), t, s.total);
  }

  lemma SameMoney(a: seq<Seat>, b: seq<Seat>)
    requires |a| == |b| && forall i :: 0 <= i < |a| ==> a[i].stack == b[i].stack && a[i].total == b[i].total
    ensures Stacks(a) == Stacks(b) && Commitments(a) == Commitments(b) && Money(a) == Money(b)
  {
  }

  lemma ActedMoney(h: Hand, a: Action)
    requires Wf(h) && PursesOk(h.seats) && Accepts(h, a)
    ensures Money(Acted(h, a).seats) == Money(h.seats) && PursesOk(Acted(h, a).seats)
  {
    hide Money;
    var t := h.toAct;
    var s := h.seats[t];
    assert PurseOk(s);
    match a.kind {
      case Fold => SeatChange(h.seats, t, s.(folded := true, acted := true));
      case Check => SeatChange(h.seats, t, s.(acted := true));
      case Call => SeatChange(h.seats, t, Commit(s, Min(h.currentBet - s.street, s.stack)).(acted := true));
      case _ => WagerMoney(h, a);
    }
  }

  lemma WagerMoney(h: Hand, a: Action)
    requires Wf(h) && PursesOk(h.seats) && Accepts(h, a) && a.kind in {Bet, Raise}
    ensures Money(Acted(h, a).seats) == Money(h.seats) && PursesOk(Acted(h, a).seats)
  {
    hide Money, LegalOf;
    var t := h.toAct;
    var s := h.seats[t];
    assert PurseOk(s);
    var s' := Commit(s, Min(a.to, s.street + s.stack) - s.street).(acted := true);
    SeatChange(h.seats, t, s');
    SameMoney(h.seats[t := s'], Reopened(h.seats[t := s'], t));
  }

  // ----- paying -----

  lemma CreditMoney(seats: seq<Seat>, p: map<int, int>)
    ensures Sum(Stacks(Credit(seats, p))) == Sum(Stacks(seats)) + Sum(AllReceived(p, |seats|))
    ensures Commitments(Credit(seats, p)) == Commitments(seats)
  {
    SumOfSums(Stacks(seats), AllReceived(p, |seats|), Stacks(Credit(seats, p)));
  }

  lemma OneReceives(n: nat, w: int, x: int)
    requires 0 <= w < n
    ensures Sum(AllReceived(map[w := x], n)) == x
  {
    NonePaid(n);
    SumReplace(AllReceived(map[], n), w, x);
    assert AllReceived(map[w := x], n) == AllReceived(map[], n)[w := x];
  }

  /** Paying everything committed, and nothing negative, keeps the books. */
  lemma PayKeeps(h: Hand, p: map<int, int>)
    requires PursesOk(h.seats) && h.payouts == map[]
    requires Sum(AllReceived(p, |h.seats|)) == Sum(Commitments(h.seats))
    requires forall i :: i in p ==> p[i] >= 0
    ensures var h' := Pay(h, p); Chips(h') == Chips(h) && PursesOk(h'.seats) && PaidOut(h') == Sum(Commitments(h'.seats))
  {
    hide Sum;
    NonePaid(|h.seats|);
    CreditMoney(h.seats, p);
    assert h.payouts + p == p;
  }

  lemma CommitmentsNonNegative(seats: seq<Seat>)
    requires PursesOk(seats)
    ensures Sum(Commitments(seats)) >= 0
  {
    forall i | 0 <= i < |seats|
      ensures Commitments(seats)[i] >= 0
    {
      assert PurseOk(seats[i]);
    }
    SumNonNegative(Commitments(seats));
  }

  lemma ScoreKeeps(h: Hand)
    requires PursesOk(h.seats) && h.payouts == map[] && h.done
    ensures Keeps(h, ScoreAndPay(h))
  {
    hide Settles;
    var es := Entries(h);
    assert Totals(es) == Commitments(h.seats);
    if Settles(es) {
      EntriesCommitted(h);
      PayoutsConserve(es);
      forall i | i in SidePots.Payouts(es)
        ensures SidePots.Payouts(es)[i] >= 0
      {
        OnlyLivePaid(es, i);
      }
      hide SidePots.Payouts;
      PayKeeps(h, SidePots.Payouts(es));
    }
  }

  lemma EntriesCommitted(h: Hand)
    requires PursesOk(h.seats)
    ensures Committed(Entries(h))
  {
    forall i | 0 <= i < |h.seats|
      ensures Entries(h)[i].total >= 0
    {
      assert PurseOk(h.seats[i]);
    }
  }

  lemma SettleKeepsChips(h: Hand)
    requires InPlay(h) && Accounted(h, true)
    ensures Keeps(h, Settle(h))
  {
    hide Sum, Wf;
    if LiveCount(h.seats) == 1 {
      hide LiveCount;
      var w, x := FirstLive(h.seats), Sum(Commitments(h.seats));
      OneReceives(|h.seats|, w, x);
      CommitmentsNonNegative(h.seats);
      PayKeeps(h, map[w := x]);
    } else if !h.deferReveal {
      ScoreKeeps(Finished(h));
    }
  }

  // ----- streets -----

  lemma NewStreetMoney(h: Hand)
    requires Accounted(h, true) && !h.done
    ensures Chips(NewStreet(h)) == Chips(h) && Accounted(NewStreet(h), true)
  {
    hide Sum;
    SameMoney(h.seats, Cleared(h.seats));
    forall i | 0 <= i < |h.seats|
      ensures PurseOk(Cleared(h.seats)[i])
    {
      assert PurseOk(h.seats[i]);
    }
  }

  lemma {:induction false} NextStreetKeepsChips(h: Hand)
    requires InPlay(h) && Accounted(h, true)
    ensures Keeps(h, NextStreet(h))
    decreases StreetsLeft(h.street), 0
  {
    hide Sum, Chips;
    if h.street == River {
      SettleKeepsChips(h);
    } else {
      NewStreetMoney(h);
      SameChips(NewStreet(h), Pause(NewStreet(h)));
      if !h.deferReveal {
        SameChips(NewStreet(h), Draw(NewStreet(h)));
        StartStreetKeepsChips(Draw(NewStreet(h)));
      }
    }
  }

  lemma SameChips(h: Hand, h': Hand)
    requires h'.seats == h.seats && h'.payouts == h.payouts && h'.done == h.done
    ensures Chips(h') == Chips(h) && forall ok :: Accounted(h', ok) == Accounted(h, ok)
  {
  }

  lemma {:induction false} StartStreetKeepsChips(h: Hand)
    requires InPlay(h) && Accounted(h, true)
    ensures Keeps(h, StartStreet(h))
    decreases StreetsLeft(h.street), 1
  {
    hide Sum, Chips;
    if AbleCount(h.seats) <= 1 {
      if h.street != River { NextStreetKeepsChips(h); } else { SettleKeepsChips(h); }
    } else {
      var h' := h.(toAct := NextAble(h.seats, h.button, 1));
      SameChips(h, h');
      if h'.toAct < 0 { NextStreetKeepsChips(h'); }
    }
  }

  lemma AdvanceKeepsChips(h: Hand)
    requires InPlay(h) && Accounted(h, true) && h.toAct >= 0
    ensures Keeps(h, Advance(h))
  {
    hide Sum, Chips, Closed;
    if LiveCount(h.seats) == 1 {
      SettleKeepsChips(h);
    } else {
      SameChips(h, h.(toAct := NextAble(h.seats, h.toAct, 1)));
      NextStreetKeepsChips(h);
    }
  }

  // ----- every step, every run -----

  /** Every operation keeps the chips, and the one that ends a hand with a score pays out all of the pot. */
  lemma StepKeepsChips(h: Hand, e: Event, scored: bool)
    requires Ready(h) && Accounted(h, scored)
    ensures var o := Do(h, e);
            o.Went? ==> |o.hand.seats| == |h.seats| && Chips(o.hand) == Chips(h) && Accounted(o.hand, scored && o.scored)
  {
    hide Sum, Chips;
    match e {
      case Act(a) =>
        if Accepts(h, a) {
          ActedMoney(h, a);
          ActedChips(h, a);
          hide Accepts, Acted, LegalOf;
          AdvanceKeepsChips(Acted(h, a));
        }
      case Board(cards) =>
        if SupplyBoard(h, cards).Went? {
          var h' := h.(board := h.board + cards, street := h.pendingStreet, awaitingBoard := false, pendingCount := 0);
          SameChips(h, h');
          StartStreetKeepsChips(h');
        }
      case Hole(seat, hole) => HoleKeepsChips(h, seat, hole, scored);
      case Showdown =>
        if h.awaitingShowdown {
          var h' := Finished(h.(awaitingShowdown := false));
          SameMoney(h.seats, h'.seats);
          ScoreKeeps(h');
          SamePaid(h, h');
        }
    }
  }

  lemma SamePaid(h: Hand, h': Hand)
    requires h'.seats == h.seats && h'.payouts == h.payouts
    ensures Chips(h') == Chips(h)
  {
  }

  lemma ActedChips(h: Hand, a: Action)
    requires Ready(h) && Accepts(h, a) && Accounted(h, true) && Money(Acted(h, a).seats) == Money(h.seats) && PursesOk(Acted(h, a).seats)
    ensures Chips(Acted(h, a)) == Chips(h) && Accounted(Acted(h, a), true) && InPlay(Acted(h, a))
  {
    hide Money, Acted, Accepts, LegalOf;
  }

  lemma HoleKeepsChips(h: Hand, seat: int, hole: seq<Card>, scored: bool)
    requires Accounted(h, scored)
    ensures var o := SetRevealedHole(h, seat, hole);
            o.Went? ==> |o.hand.seats| == |h.seats| && Chips(o.hand) == Chips(h) && Accounted(o.hand, scored)
  {
    hide Sum;
    if SetRevealedHole(h, seat, hole).Went? {
      SameMoney(h.seats, SetRevealedHole(h, seat, hole).hand.seats);
    }
  }

  lemma NewChips(cfg: Config)
    requires New(cfg).Some?
    ensures Accounted(New(cfg).value, true) && Chips(New(cfg).value) == Sum(cfg.stacks)
  {
    hide Sum;
    var sb, bb := SmallBlindSeat(cfg), BigBlindSeat(cfg);
    var first := SeatedAll(cfg);
    var second := first[sb := Commit(first[sb], cfg.smallBlind)];
    assert Stacks(first) == cfg.stacks;
    ZeroSum(Commitments(first));
    SeatChange(first, sb, Commit(first[sb], cfg.smallBlind));
    SeatChange(second, bb, Commit(second[bb], cfg.bigBlind));
    NonePaid(|first|);
    BlindedOk(cfg);
    assert forall i :: 0 <= i < |first| ==> SeatOk(Blinded(cfg)[i]);
  }

  /** All steps of the run up to k that were carried out also succeeded in scoring. */
  ghost predicate NoScoringError(es: seq<Event>, hs: seq<Hand>, k: nat)
    requires |hs| == |es| + 1 && k <= |es|
  {
    forall j :: 0 <= j < k ==> Ready(hs[j]) && (Do(hs[j], es[j]).Went? ==> Do(hs[j], es[j]).scored)
  }

  /** In every run the chips stay what the seats brought, and once a hand is over without a scoring
      error they are all back in the stacks. */
  lemma {:induction false} EveryRunConserves(cfg: Config, es: seq<Event>, hs: seq<Hand>, k: nat)
    requires IsRun(cfg, es, hs) && k < |hs|
    ensures Chips(hs[k]) == Sum(cfg.stacks) && Accounted(hs[k], NoScoringError(es, hs, k))
    ensures hs[k].done && NoScoringError(es, hs, k) ==> Sum(Stacks(hs[k].seats)) == Sum(cfg.stacks)
  {
    hide Sum, Stacks, Commitments, Ready;
    if k == 0 {
      NewChips(cfg);
    } else {
      EveryRunConserves(cfg, es, hs, k - 1);
      var h, e := hs[k - 1], es[k - 1];
      assert StepTo(h, e, hs[k - 1 + 1]);
      StepKeepsChips(h, e, NoScoringError(es, hs, k - 1));
      hide Do;
    }
  }
}
