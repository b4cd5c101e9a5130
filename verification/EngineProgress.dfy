/** A hand always ends: every accepted operation other than a hole-card reveal lowers a bounded rank. */
module EngineProgress {
  import opened Cards
  import opened Options
  import opened Sums
  import opened SidePots
  import opened Engine
  import opened EngineTurns
  import opened EngineChips

  function Stage(h: Hand): nat {
    if h.done then 0
    else if h.awaitingShowdown then 1
    else 2 * StreetsLeft(h.street) + if h.awaitingBoard then 2 else 3
  }

  function WaitingCount(seats: seq<Seat>): nat {
    if seats == [] then 0 else (if Waiting(seats[0]) then 1 else 0) + WaitingCount(seats[1..])
  }

  /** First the stage, then the chips still in stacks, then the seats still to act. */
  function Weight(stage: int, behind: int, waiting: int, chips: int, n: int): int {
    (stage * (chips + 1) + behind) * (n + 1) + waiting
  }

  function Rank(h: Hand): int {
    if h.done then 0
    else Weight(Stage(h), Sum(Stacks(h.seats)), WaitingCount(h.seats), Chips(h), |h.seats|)
  }

  // ----- the order -----

  lemma Scaled(a: int, b: int, m: int)
    requires a < b && m > 0
    ensures a * m + m <= b * m
  {
    assert (b - a - 1) * m >= 0;
    assert (b - a - 1) * m == b * m - a * m - m;
  }

  lemma WeightFalls(stage: int, behind: int, waiting: int, stage': int, behind': int, waiting': int, chips: int, n: int)
    requires 0 <= behind <= chips && 0 <= behind' <= chips && 0 <= waiting <= n && 0 <= waiting' <= n
    requires stage' < stage || (stage' == stage && (behind' < behind || (behind' == behind && waiting' < waiting)))
    ensures Weight(stage', behind', waiting', chips, n) < Weight(stage, behind, waiting, chips, n)
  {
    var a, b := stage * (chips + 1) + behind, stage' * (chips + 1) + behind';
    if stage' < stage { Scaled(stage', stage, chips + 1); }
    if b < a { Scaled(b, a, n + 1); }
  }

  lemma WeightNonNegative(stage: int, behind: int, waiting: int, chips: int, n: int)
    requires 0 <= stage && 0 <= behind && 0 <= waiting && 0 <= chips && 0 <= n
    ensures 0 <= Weight(stage, behind, waiting, chips, n)
    ensures stage > 0 ==> 0 < Weight(stage, behind, waiting, chips, n)
  {
    if stage > 0 { Scaled(0, stage, chips + 1); }
    var a := stage * (chips + 1) + behind;
    if a > 0 { Scaled(0, a, n + 1); }
  }

  // ----- counting the seats still to act -----

  lemma {:induction false} WaitingUpdate(seats: seq<Seat>, t: int, s: Seat)
    requires 0 <= t < |seats| && Waiting(seats[t]) && !Waiting(s)
    ensures WaitingCount(seats[t := s]) == WaitingCount(seats) - 1
  {
    if t > 0 {
      WaitingUpdate(seats[1..], t - 1, s);
      assert seats[t := s][1..] == seats[1..][t - 1 := s];
    } else {
      assert seats[t := s][1..] == seats[1..];
    }
  }

  lemma {:induction false} WaitingAtMost(seats: seq<Seat>)
    ensures WaitingCount(seats) <= |seats|
  {
    if seats != [] { WaitingAtMost(seats[1..]); }
  }

  lemma {:induction false} WaitingSame(a: seq<Seat>, b: seq<Seat>)
    requires |a| == |b| && forall i :: 0 <= i < |a| ==> Waiting(a[i]) == Waiting(b[i])
    ensures WaitingCount(a) == WaitingCount(b)
  {
    if a != [] { WaitingSame(a[1..], b[1..]); }
  }

  // ----- chips in the stacks -----

  lemma BehindBounds(h: Hand)
    requires Accounted(h, true) && !h.done
    ensures 0 <= Sum(Stacks(h.seats)) <= Chips(h)
  {
    NonePaid(|h.seats|);
    CommitmentsNonNegative(h.seats);
    forall i | 0 <= i < |h.seats|
      ensures Stacks(h.seats)[i] >= 0
    {
      assert PurseOk(h.seats[i]);
    }
    SumNonNegative(Stacks(h.seats));
  }

  lemma StackUpdate(seats: seq<Seat>, t: int, s: Seat)
    requires 0 <= t < |seats|
    ensures Sum(Stacks(seats[t := s])) == Sum(Stacks(seats)) - seats[t].stack + s.stack
  {
    assert Stacks(seats[t := s]) == Stacks(seats)[t := s.stack];
    SumReplace(Stacks(seats), t, s.stack);
  }

  /** Within a street an accepted action moves chips in, or leaves one seat fewer to act. */
  lemma ActedFalls(h: Hand, a: Action)
    requires Inv(h) && Accepts(h, a)
    ensures var seats := Acted(h, a).seats;
            || Sum(Stacks(seats)) < Sum(Stacks(h.seats))
            || (Sum(Stacks(seats)) == Sum(Stacks(h.seats)) && WaitingCount(seats) < WaitingCount(h.seats))
  {
    hide Sum, LegalOf, WaitingCount, Wf;
    var t := h.toAct;
    var s := h.seats[t];
    assert SeatOk(s) && Waiting(s);
    match a.kind {
      case Fold => PassiveFalls(h.seats, t, s.(folded := true, acted := true));
      case Check => PassiveFalls(h.seats, t, s.(acted := true));
      case Call => StackUpdate(h.seats, t, Commit(s, Min(h.currentBet - s.street, s.stack)).(acted := true));
      case _ => WagerFalls(h, a);
    }
  }

  lemma PassiveFalls(seats: seq<Seat>, t: int, s: Seat)
    requires 0 <= t < |seats| && Waiting(seats[t]) && !Waiting(s) && s.stack == seats[t].stack
    ensures Sum(Stacks(seats[t := s])) == Sum(Stacks(seats)) && WaitingCount(seats[t := s]) < WaitingCount(seats)
  {
    hide Sum, WaitingCount;
    StackUpdate(seats, t, s);
    WaitingUpdate(seats, t, s);
  }

  lemma WagerFalls(h: Hand, a: Action)
    requires Inv(h) && Accepts(h, a) && a.kind in {Bet, Raise}
    ensures Sum(Stacks(Acted(h, a).seats)) < Sum(Stacks(h.seats))
  {
    hide Sum, LegalOf;
    var t := h.toAct;
    var s := h.seats[t];
    assert SeatOk(s);
    var s' := Commit(s, Min(a.to, s.street + s.stack) - s.street).(acted := true);
    StackUpdate(h.seats, t, s');
    SameMoney(h.seats[t := s'], Reopened(h.seats[t := s'], t));
  }

  // ----- stages -----

  lemma SettleStage(h: Hand)
    requires InPlay(h)
    ensures Settle(h).Went? && Stage(Settle(h).hand) < Stage(h)
  {
    hide LiveCount, Settles, Sum;
  }

  lemma {:induction false} NextStreetStage(h: Hand)
    requires InPlay(h)
    ensures NextStreet(h).Went? && Stage(NextStreet(h).hand) < Stage(h)
    decreases StreetsLeft(h.street), 0
  {
    if h.street == River {
      SettleStage(h);
    } else if !h.deferReveal {
      StartStreetStage(Draw(NewStreet(h)));
    }
  }

  lemma {:induction false} StartStreetStage(h: Hand)
    requires InPlay(h)
    ensures StartStreet(h).Went? && Stage(StartStreet(h).hand) <= Stage(h)
    decreases StreetsLeft(h.street), 1
  {
    if AbleCount(h.seats) <= 1 {
      if h.street != River { NextStreetStage(h); } else { SettleStage(h); }
    } else {
      var h' := h.(toAct := NextAble(h.seats, h.button, 1));
      if h'.toAct < 0 { NextStreetStage(h'); }
    }
  }

  /** Passing the turn leaves the seats alone or moves on to a later stage. */
  lemma AdvanceStage(h: Hand)
    requires InPlay(h) && h.toAct >= 0
    ensures Advance(h).Went?
    ensures var h' := Advance(h).hand; Stage(h') < Stage(h) || (Stage(h') == Stage(h) && h'.seats == h.seats)
  {
    hide LiveCount, Closed;
    if LiveCount(h.seats) == 1 { SettleStage(h); } else { NextStreetStage(h); }
  }

  lemma DoStage(h: Hand, e: Event)
    requires Inv(h) && Accounted(h, true) && !e.Hole? && Do(h, e).Went?
    ensures var h' := Do(h, e).hand;
            || Stage(h') < Stage(h)
            || (Stage(h') == Stage(h) && Falls(h.seats, h'.seats))
  {
    hide Sum, WaitingCount, Accounted;
    match e {
      case Act(a) =>
        ActedFalls(h, a);
        hide Acted, Accepts, LegalOf;
        AdvanceStage(Acted(h, a));
      case Board(cards) =>
        var h' := h.(board := h.board + cards, street := h.pendingStreet, awaitingBoard := false, pendingCount := 0);
        StartStreetStage(h');
      case Showdown =>
    }
  }

  ghost predicate Falls(seats: seq<Seat>, seats': seq<Seat>) {
    || Sum(Stacks(seats')) < Sum(Stacks(seats))
    || (Sum(Stacks(seats')) == Sum(Stacks(seats)) && WaitingCount(seats') < WaitingCount(seats))
  }

  /** Every accepted operation but a hole-card reveal lowers the rank. */
  lemma StepFalls(h: Hand, e: Event)
    requires Inv(h) && Accounted(h, true) && !h.done && !e.Hole? && Do(h, e).Went?
    ensures 0 <= Rank(Do(h, e).hand) < Rank(h)
  {
    DoStage(h, e);
    StepKeepsChips(h, e, true);
    hide Inv, Do, Chips, Weight, Sum, WaitingCount;
    RankBounds(h);
    var h' := Do(h, e).hand;
    if h'.done {
      RankBounds(h);
    } else {
      assert Accounted(h', true);
      RankBounds(h');
      WeightFalls(Stage(h), Sum(Stacks(h.seats)), WaitingCount(h.seats),
                  Stage(h'), Sum(Stacks(h'.seats)), WaitingCount(h'.seats), Chips(h), |h.seats|);
    }
  }

  lemma RankBounds(h: Hand)
    requires Accounted(h, true) && !h.done
    ensures 0 < Rank(h)
    ensures 0 <= Sum(Stacks(h.seats)) <= Chips(h) && 0 <= WaitingCount(h.seats) <= |h.seats|
  {
    hide Sum, Chips, Weight;
    BehindBounds(h);
    WaitingAtMost(h.seats);
    WeightNonNegative(Stage(h), Sum(Stacks(h.seats)), WaitingCount(h.seats), Chips(h), |h.seats|);
  }

  lemma HoleRank(h: Hand, seat: int, hole: seq<Card>)
    requires Inv(h) && Accounted(h, true)
    ensures Rank(Resulting(h, Hole(seat, hole))) == Rank(h)
  {
    hide Sum, Weight, WaitingCount;
    var h' := Resulting(h, Hole(seat, hole));
    SameMoney(h.seats, h'.seats);
    WaitingSame(h.seats, h'.seats);
  }

  /** How many operations were carried out before state k, not counting hole-card reveals. */
  ghost function Moves(es: seq<Event>, hs: seq<Hand>, k: nat): nat
    requires |hs| == |es| + 1 && k <= |es| && forall j :: 0 <= j < k ==> Ready(hs[j])
  {
    if k == 0 then 0
    else Moves(es, hs, k - 1) + if !es[k - 1].Hole? && Do(hs[k - 1], es[k - 1]).Went? then 1 else 0
  }

  lemma DoneStays(h: Hand, e: Event)
    requires Inv(h) && h.done
    ensures Resulting(h, e).done && (!e.Hole? ==> Do(h, e).Refused?)
  {
  }

  lemma UndoneAccounted(h: Hand, scored: bool)
    requires Accounted(h, scored) && !h.done
    ensures Accounted(h, true)
  {
  }

  lemma RankStep(h: Hand, e: Event, scored: bool)
    requires Inv(h) && Accounted(h, scored)
    ensures Rank(Resulting(h, e)) + (if !e.Hole? && Do(h, e).Went? then 1 else 0) <= Rank(h)
  {
    if h.done {
      DoneStays(h, e);
    } else {
      UndoneAccounted(h, scored);
      match e {
        case Hole(seat, hole) => HoleRank(h, seat, hole);
        case _ =>
          hide Rank, Inv, Do, Accounted;
          if Do(h, e).Went? { StepFalls(h, e); }
      }
    }
  }

  /** A run that starts with a seat able to act has at most Rank operations in it, reveals aside. */
  lemma {:induction false} EveryRunEnds(cfg: Config, es: seq<Event>, hs: seq<Hand>, k: nat)
    requires IsRun(cfg, es, hs) && hs[0].toAct >= 0 && k <= |es|
    ensures forall j :: 0 <= j <= k ==> Ready(hs[j])
    ensures Moves(es, hs, k) + Rank(hs[k]) <= Rank(hs[0]) && Rank(hs[k]) >= 0
  {
    hide Rank, Accounted, Do, Sum;
    EveryRunKeeps(cfg, es, hs, k);
    EveryRunConserves(cfg, es, hs, k);
    if !hs[k].done {
      UndoneAccounted(hs[k], NoScoringError(es, hs, k));
      RankBounds(hs[k]);
    } else {
      DoneRank(hs[k]);
    }
    if k > 0 {
      EveryRunEnds(cfg, es, hs, k - 1);
      var h, e := hs[k - 1], es[k - 1];
      EveryRunKeeps(cfg, es, hs, k - 1);
      EveryRunConserves(cfg, es, hs, k - 1);
      assert StepTo(h, e, hs[k - 1 + 1]);
      RankStep(h, e, NoScoringError(es, hs, k - 1));
      hide Inv, Ready;
    }
  }

  lemma DoneRank(h: Hand)
    requires h.done
    ensures Rank(h) == 0
  {
  }
}
