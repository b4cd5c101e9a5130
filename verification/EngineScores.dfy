/**
 With no constraint on hole cards a hand never ends in a scoring error: the cards are real ones, dealt
 from a real deck or supplied by the reveals, and at a showdown the board is full.
 */
module EngineScores {
  import opened Cards
  import opened Options
  import opened Sums
  import opened SidePots
  import opened Engine
  import opened EngineTurns
  import opened EngineChips
  import EvalGo

  function BoardSize(s: Street): nat {
    match s
    case Preflop => 0
    case Flop => 3
    case Turn => 4
    case River => 5
    case Complete => 0
  }

  ghost predicate FromDeck(board: seq<Card>, deck: seq<Card>, pos: int) {
    |board| <= pos <= |deck| && board == deck[pos - |board|..pos]
  }

  /** Every unfolded seat holds real cards. */
  ghost predicate HolesOk(seats: seq<Seat>) {
    forall i :: 0 <= i < |seats| && !seats[i].folded ==> AllValid(seats[i].hole)
  }

  /** The board is real and has as many cards as the street calls for. */
  ghost predicate BoardOk(h: Hand) {
    AllValid(h.board) && (!h.done ==> |h.board| == BoardSize(h.street))
  }

  /** What a hand that holds nothing back also has: a real deck the board was drawn from, real hole
      cards, and no reveal to wait for. */
  ghost predicate DealtOpenly(h: Hand) {
    && !h.awaitingBoard && !h.awaitingShowdown
    && AllValid(h.deck) && HolesOk(h.seats) && FromDeck(h.board, h.deck, h.deckPos)
  }

  ghost predicate CardsOk(h: Hand) {
    h.useHole <= 0 && BoardOk(h) && (!h.deferReveal ==> DealtOpenly(h))
  }

  lemma LiveSeat(seats: seq<Seat>) returns (i: int)
    requires LiveCount(seats) > 0
    ensures 0 <= i < |seats| && !seats[i].folded
  {
    i := FirstLive(seats);
  }

  /** A full board scores every unfolded seat. */
  lemma FullBoardSettles(h: Hand)
    requires h.useHole <= 0 && AllValid(h.board) && |h.board| == 5 && HolesOk(h.seats) && LiveCount(h.seats) > 0
    ensures Settles(Entries(h))
  {
    hide LiveCount, AllValid, EvalGo.ScoreOf;
    var es := Entries(h);
    var live := LiveSeat(h.seats);
    assert es[live].live;
    forall i | 0 <= i < |es| && es[i].live
      ensures es[i].score.Some?
    {
      assert EvalGo.Scorable(h.seats[i].hole, h.board, h.useHole);
    }
    forall l | l in Levels(es)
      ensures Scored(es, l)
    {
      SomeContender(es, l);
    }
  }

  /** The outcome of an operation succeeded in scoring and left real cards. */
  ghost predicate Scores(o: Outcome, deferred: bool) {
    o.Went? && o.scored && CardsOk(o.hand) && o.hand.deferReveal == deferred
  }

  lemma SameHoles(a: seq<Seat>, b: seq<Seat>)
    requires |a| == |b| && HolesOk(a) && forall i :: 0 <= i < |a| ==> b[i].hole == a[i].hole && (a[i].folded ==> b[i].folded)
    ensures HolesOk(b)
  {
  }

  lemma SettleScores(h: Hand)
    requires InPlay(h) && CardsOk(h) && LiveCount(h.seats) >= 1 && (LiveCount(h.seats) >= 2 ==> h.street == River)
    ensures Scores(Settle(h), h.deferReveal)
  {
    hide LiveCount, AllValid, Settles, SidePots.Payouts;
    if LiveCount(h.seats) == 1 {
      if !h.deferReveal { SameHoles(h.seats, Settle(h).hand.seats); }
    } else if !h.deferReveal {
      FullBoardSettles(Finished(h));
      SameHoles(h.seats, Settle(h).hand.seats);
    }
  }

  /** The board stays the run of the deck last dealt, with the number of cards the street calls for. */
  lemma DrawCards(h: Hand)
    requires InPlay(h) && CardsOk(h) && !h.deferReveal && h.street != River
    ensures CardsOk(Draw(NewStreet(h)))
  {
    SameHoles(h.seats, Cleared(h.seats));
    hide HolesOk;
    var need := Need(h.street);
    var drawn := h.deck[h.deckPos..h.deckPos + need];
    assert h.board + drawn == h.deck[h.deckPos - |h.board|..h.deckPos + need];
    forall i | 0 <= i < |h.board + drawn|
      ensures Valid((h.board + drawn)[i])
    {
      assert i >= |h.board| ==> (h.board + drawn)[i] == h.deck[h.deckPos + i - |h.board|];
    }
  }

  lemma {:induction false} NextStreetScores(h: Hand)
    requires InPlay(h) && CardsOk(h) && LiveCount(h.seats) >= 2
    ensures Scores(NextStreet(h), h.deferReveal)
    decreases StreetsLeft(h.street), 0
  {
    if h.street == River {
      SettleScores(h);
    } else if !h.deferReveal {
      DrawCards(h);
      LiveSame(h.seats, Cleared(h.seats));
      hide LiveCount, AllValid, HolesOk;
      StartStreetScores(Draw(NewStreet(h)));
    }
  }

  lemma {:induction false} StartStreetScores(h: Hand)
    requires InPlay(h) && CardsOk(h) && LiveCount(h.seats) >= 2
    ensures Scores(StartStreet(h), h.deferReveal)
    decreases StreetsLeft(h.street), 1
  {
    hide LiveCount, AllValid, HolesOk;
    if AbleCount(h.seats) <= 1 {
      if h.street != River { NextStreetScores(h); } else { SettleScores(h); }
    } else {
      var h' := h.(toAct := NextAble(h.seats, h.button, 1));
      if h'.toAct < 0 { NextStreetScores(h'); }
    }
  }

  lemma UpdatedHoles(seats: seq<Seat>, t: int, s: Seat)
    requires HolesOk(seats) && 0 <= t < |seats| && s.hole == seats[t].hole && (seats[t].folded ==> s.folded)
    ensures HolesOk(seats[t := s])
  {
    hide AllValid;
  }

  lemma RaisedHoles(h: Hand, add: int)
    requires 0 <= h.toAct < |h.seats| && HolesOk(h.seats)
    ensures HolesOk(Raised(h, add).seats)
  {
    hide AllValid, HolesOk;
    var t := h.toAct;
    var s := Commit(h.seats[t], add).(acted := true);
    UpdatedHoles(h.seats, t, s);
    SameHoles(h.seats[t := s], Reopened(h.seats[t := s], t));
  }

  lemma ActedHoles(h: Hand, a: Action)
    requires 0 <= h.toAct < |h.seats| && HolesOk(h.seats)
    ensures HolesOk(Acted(h, a).seats)
  {
    hide HolesOk, Raised, Commit;
    var t := h.toAct;
    var s := h.seats[t];
    match a.kind {
      case Fold => UpdatedHoles(h.seats, t, s.(folded := true, acted := true));
      case Check => UpdatedHoles(h.seats, t, s.(acted := true));
      case Call =>
        CommitHole(s, Min(h.currentBet - s.street, s.stack));
        UpdatedHoles(h.seats, t, Commit(s, Min(h.currentBet - s.street, s.stack)).(acted := true));
      case Unknown =>
      case _ => RaisedHoles(h, Min(a.to, s.street + s.stack) - s.street);
    }
  }

  lemma CommitHole(s: Seat, amount: int)
    ensures Commit(s, amount).hole == s.hole && Commit(s, amount).folded == s.folded
  {
  }

  /** Acting on a hand with real cards never fails to score. */
  lemma ActScores(h: Hand, a: Action)
    requires Inv(h) && CardsOk(h) && Accepts(h, a)
    ensures Scores(Apply(h, a), h.deferReveal)
  {
    ActedKeeps(h, a);
    if !h.deferReveal { ActedHoles(h, a); }
    hide LiveCount, AllValid, HolesOk, Acted, Accepts, LegalOf;
    var h' := Acted(h, a);
    assert CardsOk(h');
    if LiveCount(h'.seats) == 1 {
      SettleScores(h');
    } else {
      hide Closed;
      NextStreetScores(h');
    }
  }

  /** Revealed board cards keep the board real and of the right size. */
  lemma BoardScores(h: Hand, cards: seq<Card>)
    requires Inv(h) && CardsOk(h) && SupplyBoard(h, cards).Went?
    ensures Scores(SupplyBoard(h, cards), h.deferReveal)
  {
    var h' := h.(board := h.board + cards, street := h.pendingStreet, awaitingBoard := false, pendingCount := 0);
    forall i | 0 <= i < |h'.board|
      ensures Valid(h'.board[i])
    {
      assert i >= |h.board| ==> h'.board[i] == cards[i - |h.board|];
    }
    hide LiveCount, AllValid, HolesOk;
    StartStreetScores(h');
  }

  /** A deferred showdown never fails to score once every unfolded seat's cards are real. */
  lemma ShowdownScores(h: Hand)
    requires Inv(h) && CardsOk(h) && h.awaitingShowdown && HolesOk(h.seats)
    ensures Scores(CompleteShowdown(h), h.deferReveal)
  {
    hide LiveCount, AllValid, Settles, SidePots.Payouts;
    var last := Finished(h.(awaitingShowdown := false));
    FullBoardSettles(last);
    SameHoles(h.seats, CompleteShowdown(h).hand.seats);
  }

  lemma HoleScores(h: Hand, seat: int, hole: seq<Card>)
    requires CardsOk(h) && SetRevealedHole(h, seat, hole).Went?
    ensures Scores(SetRevealedHole(h, seat, hole), h.deferReveal)
  {
  }

  /** No operation ends in a scoring error, given real cards in the unfolded seats at a showdown. */
  lemma StepScores(h: Hand, e: Event)
    requires Inv(h) && CardsOk(h) && Do(h, e).Went? && (e.Showdown? ==> HolesOk(h.seats))
    ensures Scores(Do(h, e), h.deferReveal)
  {
    hide CardsOk, HolesOk, Inv, Accepts, Apply, SupplyBoard, SetRevealedHole;
    match e {
      case Act(a) => StepIsApply(h, a);
      case Board(cards) => BoardScores(h, cards);
      case Hole(seat, hole) => HoleScores(h, seat, hole);
      case Showdown => ShowdownScores(h);
    }
  }

  lemma StepIsApply(h: Hand, a: Action)
    requires Inv(h) && CardsOk(h) && Apply(h, a).Went?
    ensures Scores(Apply(h, a), h.deferReveal)
  {
    hide CardsOk;
    ActScores(h, a);
  }

  lemma NewCards(cfg: Config)
    requires New(cfg).Some? && cfg.useHole <= 0 && (cfg.deferReveal || AllValid(cfg.deck))
    ensures CardsOk(New(cfg).value)
  {
    hide NextAble, Blinded, HolesOk, AllValid;
    if !cfg.deferReveal { NewHoles(cfg); }
    NoneValid();
  }

  lemma NoneValid()
    ensures AllValid([])
  {
  }

  lemma NewHoles(cfg: Config)
    requires Acceptable(cfg) && AllValid(cfg.deck)
    ensures HolesOk(Blinded(cfg))
  {
    forall i | 0 <= i < |cfg.stacks|
      ensures AllValid(Seated(cfg, i).hole)
    {
      HoleFits(cfg, i);
    }
    assert HolesOk(SeatedAll(cfg));
    hide AllValid;
    SameHoles(SeatedAll(cfg), Blinded(cfg));
  }

  /** At every showdown of the run before state k the unfolded seats' cards are real. */
  ghost predicate RealShowdowns(es: seq<Event>, hs: seq<Hand>, k: nat)
    requires |hs| == |es| + 1 && k <= |es|
  {
    forall j :: 0 <= j < k && es[j].Showdown? ==> HolesOk(hs[j].seats)
  }

  /** No run meets a scoring error, and so a hand that is over has all its chips back in the stacks. */
  lemma {:induction false} EveryRunScores(cfg: Config, es: seq<Event>, hs: seq<Hand>, k: nat)
    requires IsRun(cfg, es, hs) && hs[0].toAct >= 0 && k <= |es|
    requires cfg.useHole <= 0 && (cfg.deferReveal || AllValid(cfg.deck)) && RealShowdowns(es, hs, k)
    ensures CardsOk(hs[k]) && NoScoringError(es, hs, k)
    ensures hs[k].done ==> Sum(Stacks(hs[k].seats)) == Sum(cfg.stacks)
  {
    hide CardsOk, HolesOk, Sum, Stacks;
    EveryRunConserves(cfg, es, hs, k);
    if k == 0 {
      NewCards(cfg);
    } else {
      EveryRunScores(cfg, es, hs, k - 1);
      EveryRunKeeps(cfg, es, hs, k - 1);
      var h, e := hs[k - 1], es[k - 1];
      assert StepTo(h, e, hs[k - 1 + 1]);
      hide Do, Inv, Accounted, Chips;
      if Do(h, e).Went? { StepScores(h, e); }
      RunReady(cfg, es, hs, k);
    }
  }

  lemma RunReady(cfg: Config, es: seq<Event>, hs: seq<Hand>, k: nat)
    requires IsRun(cfg, es, hs) && k <= |es|
    ensures forall j :: 0 <= j < k ==> Ready(hs[j])
  {
    forall j | 0 <= j < k
      ensures Ready(hs[j])
    {
      assert StepTo(hs[j], es[j], hs[j + 1]);
    }
  }
}
