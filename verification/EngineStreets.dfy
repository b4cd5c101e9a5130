/** When a street opens and who opens it, when it ends, and what happens when one seat is left. */
module EngineStreets {
  import opened Cards
  import opened Options
  import opened Sums
  import opened SidePots
  import opened Engine
  import opened EngineTurns

  // ----- who opens a street -----

  /** Whether the seat d places after t can act. */
  predicate AbleAt(seats: seq<Seat>, t: int, d: int)
    requires 0 <= t < |seats|
  {
    Able(seats[(t + d) % |seats|])
  }

  /** The first able seat after t is r, d places on. */
  predicate FirstAbleAt(seats: seq<Seat>, t: int, r: int, d: int)
    requires 0 <= t < |seats|
  {
    && 1 <= d <= |seats| && r == (t + d) % |seats| && AbleAt(seats, t, d)
    && forall j :: 1 <= j < d ==> !AbleAt(seats, t, j)
  }

  /** The first able seat after the button is to act. */
  ghost predicate Opens(h: Hand) {
    0 <= h.button < |h.seats| && exists d :: FirstAbleAt(h.seats, h.button, h.toAct, d)
  }

  lemma {:induction false} NextAbleIsFirst(seats: seq<Seat>, t: int, k: nat)
    requires 0 <= t < |seats| && 1 <= k <= |seats| && NextAble(seats, t, k) >= 0
    requires forall j :: 1 <= j < k ==> !AbleAt(seats, t, j)
    ensures exists d :: FirstAbleAt(seats, t, NextAble(seats, t, k), d)
    decreases |seats| - k
  {
    if AbleAt(seats, t, k) {
      assert FirstAbleAt(seats, t, NextAble(seats, t, k), k);
    } else if k < |seats| {
      NextAbleIsFirst(seats, t, k + 1);
    }
  }

  /** The outcome has no betting, or opens a street with at most this many to come: nobody has acted
      on it and the first able seat after the button is to act. */
  ghost predicate OpenedRight(o: Outcome, left: nat) {
    && o.Went? && Ready(o.hand)
    && (Betting(o.hand) ==> FreshStreet(o.hand) && Opens(o.hand) && StreetsLeft(o.hand.street) <= left)
  }

  lemma SettleEnds(h: Hand)
    requires InPlay(h)
    ensures Settle(h).Went? && !Betting(Settle(h).hand)
  {
    hide LiveCount, Settles;
  }

  lemma {:induction false} NextStreetOpens(h: Hand)
    requires InPlay(h) && Solvent(h) && LiveCount(h.seats) >= 2
    ensures OpenedRight(NextStreet(h), if h.street == River then 0 else StreetsLeft(h.street) - 1)
    decreases StreetsLeft(h.street), 0
  {
    NextStreetKeeps(h);
    if h.street == River {
      SettleEnds(h);
    } else if !h.deferReveal {
      ClearedFresh(h);
      SolventIgnores(NewStreet(h), Draw(NewStreet(h)));
      hide Solvent, FreshStreet, LiveCount;
      StartStreetOpens(Draw(NewStreet(h)));
    }
  }

  lemma {:induction false} StartStreetOpens(h: Hand)
    requires InPlay(h) && Solvent(h) && LiveCount(h.seats) >= 2 && FreshStreet(h)
    ensures OpenedRight(StartStreet(h), StreetsLeft(h.street))
    decreases StreetsLeft(h.street), 1
  {
    StartStreetKeeps(h);
    hide LiveCount;
    if AbleCount(h.seats) <= 1 {
      if h.street != River { NextStreetOpens(h); } else { SettleEnds(h); }
    } else {
      hide AbleCount;
      var h' := h.(toAct := NextAble(h.seats, h.button, 1));
      if h'.toAct < 0 {
        NextStreetOpens(h');
      } else {
        NextAbleIsFirst(h.seats, h.button, 1);
      }
    }
  }

  /** So the button acts last: it opens a street only when nobody else can. */
  lemma ButtonOpensLast(h: Hand, i: int)
    requires Opens(h) && 0 <= i < |h.seats| && i != h.button && Able(h.seats[i])
    ensures h.toAct != h.button
  {
    var m := PositionOf(h.seats, h.button, i);
    var d :| FirstAbleAt(h.seats, h.button, h.toAct, d);
    assert AbleAt(h.seats, h.button, m);
    Wrap(h.button + d, |h.seats|);
  }

  /** Before the flop the first able seat after the big blind is to act, or nobody can. */
  lemma FirstToAct(cfg: Config)
    requires New(cfg).Some?
    ensures var h, n := New(cfg).value, |cfg.stacks|;
            var bb := if n == 2 then (cfg.button + 1) % n else (cfg.button + 2) % n;
            h.toAct >= 0 ==> exists d :: FirstAbleAt(h.seats, bb, h.toAct, d)
  {
    var h := New(cfg).value;
    if h.toAct >= 0 { NextAbleIsFirst(h.seats, BigBlindSeat(cfg), 1); }
  }

  // ----- when a street ends -----

  /** Able to act, and yet to act or to match the bet. */
  predicate Owes(h: Hand, i: int) {
    0 <= i < |h.seats| && Able(h.seats[i]) && !(h.seats[i].acted && h.seats[i].street == h.currentBet)
  }

  lemma NobodyOwes(h: Hand)
    requires AllMatched(h)
    ensures forall i :: !Owes(h, i)
  {
    assert forall i :: 0 <= i < |h.seats| ==> Matched(h, h.seats[i]);
  }

  lemma ActorHasActed(h: Hand, a: Action)
    requires -1 <= h.toAct < |h.seats| && Accepts(h, a)
    ensures Acted(h, a).seats[h.toAct].acted && Acted(h, a).street == h.street && Acted(h, a).button == h.button
  {
    hide LegalOf, Commit;
  }

  /** Betting goes on, with the first able seat after the actor, exactly as long as two seats are in and
      someone still owes an action or chips; nothing else changes then. Otherwise the street is over, and
      the next one with betting is opened by the first able seat after the button. */
  lemma StreetEnds(h: Hand, a: Action)
    requires Inv(h) && Accepts(h, a)
    ensures var m, h' := Acted(h, a), Apply(h, a).hand;
            && (Betting(h') && h'.street == h.street <==> LiveCount(m.seats) >= 2 && exists i :: Owes(m, i))
            && (Betting(h') && h'.street == h.street ==> h' == m.(toAct := h'.toAct) && exists d :: FirstAbleAt(m.seats, h.toAct, h'.toAct, d))
            && (Betting(h') && h'.street != h.street ==> FreshStreet(h') && Opens(h'))
  {
    ActedKeeps(h, a);
    ActorHasActed(h, a);
    hide Acted, Accepts, LegalOf;
    var m := Acted(h, a);
    ExtraTestIdle(m);
    if LiveCount(m.seats) == 1 {
      SettleEnds(m);
    } else if Closed(m) {
      NobodyOwes(m);
      NextStreetOpens(m);
    } else {
      hide Closed;
      var i := OpenHasWaiting(m);
      assert Owes(m, i);
      SomeoneAble(m.seats, m.toAct, i);
      NextAbleIsFirst(m.seats, m.toAct, 1);
    }
  }

  // ----- every run -----

  /** A state in which a street has just been opened, or nobody has acted on one since. */
  ghost predicate StreetOpen(h: Hand) {
    Betting(h) && FreshStreet(h)
  }

  lemma StepOpens(h: Hand, e: Event)
    requires Inv(h) && (StreetOpen(h) ==> Opens(h)) && Do(h, e).Went?
    ensures var h' := Do(h, e).hand;
            && (StreetOpen(h') ==> Opens(h'))
            && (Betting(h') && h'.street != h.street ==> FreshStreet(h'))
  {
    StepKeeps(h, e);
    match e {
      case Act(a) => ActOpens(h, a);
      case Board(cards) =>
        var m := h.(board := h.board + cards, street := h.pendingStreet, awaitingBoard := false, pendingCount := 0);
        SolventIgnores(h, m);
        StartStreetOpens(m);
      case Hole(seat, hole) => RehandOpens(h, seat, hole);
      case Showdown => SettlePaid(Finished(h.(awaitingShowdown := false)));
    }
  }

  lemma SettlePaid(h: Hand)
    ensures ScoreAndPay(h).hand.done == h.done
  {
    hide Settles;
  }

  lemma ActOpens(h: Hand, a: Action)
    requires Inv(h) && Accepts(h, a)
    ensures var h' := Apply(h, a).hand;
            && (StreetOpen(h') ==> Opens(h')) && (Betting(h') && h'.street != h.street ==> FreshStreet(h'))
  {
    StreetEnds(h, a);
    ActorHasActed(h, a);
    hide Acted, Accepts, Apply, Opens;
    assert !Untouched(Acted(h, a).seats[h.toAct]);
  }

  lemma RehandOpens(h: Hand, seat: int, hole: seq<Card>)
    requires Inv(h) && (StreetOpen(h) ==> Opens(h)) && SetRevealedHole(h, seat, hole).Went?
    ensures var h' := SetRevealedHole(h, seat, hole).hand;
            h'.street == h.street && (StreetOpen(h') ==> Opens(h'))
  {
    var h' := SetRevealedHole(h, seat, hole).hand;
    if StreetOpen(h') {
      forall i | 0 <= i < |h.seats|
        ensures Untouched(h.seats[i])
      {
        assert Untouched(h'.seats[i]);
      }
      var d :| FirstAbleAt(h.seats, h.button, h.toAct, d);
      assert forall j :: AbleAt(h'.seats, h.button, j) == AbleAt(h.seats, h.button, j);
      assert FirstAbleAt(h'.seats, h.button, h.toAct, d);
    }
  }

  /** In every run, whenever a flop, turn or river opens with betting nobody has acted on it and the
      first able seat after the button is to act, and it stays that seat's turn until someone acts. */
  lemma {:induction false} EveryStreetOpens(cfg: Config, es: seq<Event>, hs: seq<Hand>, k: nat)
    requires IsRun(cfg, es, hs) && hs[0].toAct >= 0 && k <= |es|
    ensures Betting(hs[k]) && FreshStreet(hs[k]) ==> Opens(hs[k])
    ensures k > 0 && Betting(hs[k]) && hs[k].street != hs[k - 1].street ==> FreshStreet(hs[k]) && Opens(hs[k])
  {
    hide Inv, Opens, FreshStreet, Do, Ready;
    if k == 0 {
      NewNotFresh(cfg);
    } else {
      EveryStreetOpens(cfg, es, hs, k - 1);
      EveryRunKeeps(cfg, es, hs, k - 1);
      var h, e := hs[k - 1], es[k - 1];
      assert StepTo(h, e, hs[k - 1 + 1]);
      StepReady(h, e, hs[k]);
      if Do(h, e).Went? { StepOpens(h, e); }
    }
  }

  lemma StepReady(h: Hand, e: Event, h': Hand)
    requires StepTo(h, e, h')
    ensures Ready(h) && h' == if Do(h, e).Went? then Do(h, e).hand else h
  {
    hide Do;
  }

  lemma NewNotFresh(cfg: Config)
    requires New(cfg).Some?
    ensures !FreshStreet(New(cfg).value)
  {
  }

  // ----- the last one in -----

  lemma {:induction false} OnlyLive(seats: seq<Seat>, w: int)
    requires LiveCount(seats) == 1 && 0 <= w < |seats| && !seats[w].folded
    ensures FirstLive(seats) == w
  {
    if w > 0 {
      if !seats[0].folded { LiveSome(seats[1..], w - 1); } else { OnlyLive(seats[1..], w - 1); }
    }
  }

  /** When all others have folded the hand is over and the one left is paid everything committed. */
  lemma LastOneWins(h: Hand, a: Action, w: int)
    requires Inv(h) && Accepts(h, a) && a.kind == Fold && LiveCount(h.seats) == 2
    requires 0 <= w < |h.seats| && w != h.toAct && !h.seats[w].folded
    ensures var h', pot := Apply(h, a).hand, Sum(Commitments(h.seats));
            && h'.done && |h'.seats| == |h.seats| && h'.payouts == map[w := pot] && h'.seats[w].stack == h.seats[w].stack + pot
            && forall i :: 0 <= i < |h.seats| && i != w ==> h'.seats[i].stack == h.seats[i].stack
  {
    var t := h.toAct;
    var m := Acted(h, a);
    LiveUpdate(h.seats, t, m.seats[t]);
    OnlyLive(m.seats, w);
    assert Commitments(m.seats) == Commitments(h.seats);
    hide LiveCount, Sum;
  }
}
