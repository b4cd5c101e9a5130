/**
 What a hand never confuses: whose chips are whose, who has folded, which cards each seat holds and
 which are on the board, seat by seat and over every run.
 */
module EngineSeats {
  import opened Cards
  import opened Options
  import opened SidePots
  import opened Engine
  import opened EngineTurns

  /** What is fixed once a hand has begun. */
  predicate SameTable(h: Hand, h': Hand) {
    && |h'.seats| == |h.seats| && h'.button == h.button && h'.smallBlind == h.smallBlind && h'.bigBlind == h.bigBlind
    && h'.useHole == h.useHole && h'.deck == h.deck && h'.deferReveal == h.deferReveal
  }

  /** A seat's own chips: behind, in the pot, less what the pot has paid it. */
  function Own(h: Hand, i: int): int
    requires 0 <= i < |h.seats|
  {
    h.seats[i].stack + h.seats[i].total - Received(h.payouts, i)
  }

  predicate SeatCarried(h: Hand, h': Hand, i: int)
    requires 0 <= i < |h.seats| == |h'.seats|
  {
    Own(h', i) == Own(h, i) && h'.seats[i].hole == h.seats[i].hole && h'.seats[i].folded == h.seats[i].folded
  }

  /** The board has grown by the next cards of the deck, or not at all when reveals are deferred. */
  predicate BoardCarried(h: Hand, h': Hand) {
    && 0 <= h.deckPos <= h'.deckPos <= |h.deck|
    && (h.deferReveal ==> h'.deckPos == h.deckPos)
    && h'.board == h.board + h.deck[h.deckPos..h'.deckPos]
  }

  ghost predicate Carries(h: Hand, h': Hand) {
    SameTable(h, h') && BoardCarried(h, h') && forall i :: 0 <= i < |h.seats| ==> SeatCarried(h, h', i)
  }

  /** Nothing is paid before the end, and only a hand with deferred reveals waits for board cards. */
  predicate Orderly(h: Hand) {
    (!h.done ==> h.payouts == map[]) && (h.awaitingBoard ==> h.deferReveal)
  }

  lemma CarriesOn(a: Hand, b: Hand, c: Hand)
    requires Carries(a, b) && Carries(b, c)
    ensures Carries(a, c)
  {
    assert a.deck[a.deckPos..b.deckPos] + a.deck[b.deckPos..c.deckPos] == a.deck[a.deckPos..c.deckPos];
    forall i | 0 <= i < |a.seats|
      ensures SeatCarried(a, c, i)
    {
      assert SeatCarried(a, b, i) && SeatCarried(b, c, i);
    }
  }

  // ----- ending a hand and moving between streets -----

  lemma PayCarries(h: Hand, p: map<int, int>)
    requires h.payouts == map[] && 0 <= h.deckPos <= |h.deck|
    ensures Carries(h, Pay(h, p))
  {
    assert h.payouts + p == p;
  }

  lemma ScoreCarries(h: Hand)
    requires h.payouts == map[] && 0 <= h.deckPos <= |h.deck|
    ensures Carries(h, ScoreAndPay(h).hand)
  {
    hide Settles, SidePots.Payouts;
    if Settles(Entries(h)) { PayCarries(h, SidePots.Payouts(Entries(h))); }
  }

  lemma SettleCarries(h: Hand)
    requires InPlay(h) && h.payouts == map[]
    ensures Carries(h, Settle(h).hand) && Orderly(Settle(h).hand)
  {
    hide LiveCount, Sums.Sum, Settles;
    if LiveCount(h.seats) == 1 {
      PayCarries(h, map[FirstLive(h.seats) := Sums.Sum(Commitments(h.seats))]);
    } else if !h.deferReveal {
      ScoreCarries(Finished(h));
      CarriesOn(h, Finished(h), ScoreAndPay(Finished(h)).hand);
    }
  }

  lemma {:induction false} NextStreetCarries(h: Hand)
    requires InPlay(h) && h.payouts == map[]
    ensures Carries(h, NextStreet(h).hand) && Orderly(NextStreet(h).hand)
    decreases StreetsLeft(h.street), 0
  {
    if h.street == River {
      SettleCarries(h);
    } else if !h.deferReveal {
      var drawn := Draw(NewStreet(h));
      assert Carries(h, drawn);
      StartStreetCarries(drawn);
      hide Carries;
      CarriesOn(h, drawn, StartStreet(drawn).hand);
    }
  }

  lemma {:induction false} StartStreetCarries(h: Hand)
    requires InPlay(h) && h.payouts == map[]
    ensures Carries(h, StartStreet(h).hand) && Orderly(StartStreet(h).hand)
    decreases StreetsLeft(h.street), 1
  {
    hide AbleCount;
    if AbleCount(h.seats) <= 1 {
      if h.street != River { NextStreetCarries(h); } else { SettleCarries(h); }
    } else {
      var h' := h.(toAct := NextAble(h.seats, h.button, 1));
      assert Carries(h, h');
      if h'.toAct < 0 {
        NextStreetCarries(h');
        hide Carries;
        CarriesOn(h, h', NextStreet(h').hand);
      }
    }
  }

  lemma AdvanceCarries(h: Hand)
    requires InPlay(h) && h.payouts == map[] && h.toAct >= 0
    ensures Carries(h, Advance(h).hand) && Orderly(Advance(h).hand)
  {
    hide Closed, LiveCount;
    if LiveCount(h.seats) == 1 { SettleCarries(h); } else { NextStreetCarries(h); }
  }

  // ----- every step -----

  /** A fold by this seat that the engine carries out. */
  predicate Folds(h: Hand, e: Event, i: int) {
    e.Act? && e.action.kind == Fold && Betting(h) && e.action.seat == h.toAct == i && i >= 0
  }

  /** Cards revealed for this seat that the engine takes. */
  predicate Reveals(e: Event, i: int) {
    e.Hole? && e.seat == i && AllValid(e.hole)
  }

  /** Board cards the engine takes. */
  predicate Supplies(h: Hand, e: Event) {
    e.Board? && h.awaitingBoard && |e.cards| == h.pendingCount && AllValid(e.cards)
  }

  /** What an operation does to one seat. */
  predicate SeatStep(h: Hand, e: Event, h': Hand, i: int)
    requires 0 <= i < |h.seats| == |h'.seats|
  {
    && Own(h', i) == Own(h, i)
    && (h'.seats[i].folded <==> h.seats[i].folded || Folds(h, e, i))
    && h'.seats[i].hole == if Reveals(e, i) then e.hole else h.seats[i].hole
  }

  /** What an operation does to the board. */
  predicate BoardStep(h: Hand, e: Event, h': Hand) {
    if Supplies(h, e) then h'.board == h.board + e.cards && h'.deckPos == h.deckPos else BoardCarried(h, h')
  }

  lemma CommitOwn(s: Seat, amount: int)
    ensures var s' := Commit(s, amount); s'.stack + s'.total == s.stack + s.total && s'.hole == s.hole && s'.folded == s.folded
  {
  }

  lemma ActedSeat(h: Hand, a: Action, i: int)
    requires Wf(h) && Accepts(h, a) && 0 <= i < |h.seats|
    ensures var h' := Acted(h, a);
            && |h'.seats| == |h.seats| && Own(h', i) == Own(h, i) && h'.seats[i].hole == h.seats[i].hole
            && (h'.seats[i].folded <==> h.seats[i].folded || (a.kind == Fold && i == h.toAct))
  {
    assert 0 <= h.toAct < |h.seats|;
    hide Commit, LegalOf, Wf, Raised;
    var t := h.toAct;
    var s := h.seats[t];
    match a.kind {
      case Fold => OneSeat(h, t, s.(folded := true, acted := true), i);
      case Check => OneSeat(h, t, s.(acted := true), i);
      case Call =>
        CommitOwn(s, Min(h.currentBet - s.street, s.stack));
        OneSeat(h, t, Commit(s, Min(h.currentBet - s.street, s.stack)).(acted := true), i);
      case _ => RaisedSeat(h, Min(a.to, s.street + s.stack) - s.street, i);
    }
  }

  lemma OneSeat(h: Hand, t: int, s: Seat, i: int)
    requires 0 <= t < |h.seats| && 0 <= i < |h.seats|
    requires s.stack + s.total == h.seats[t].stack + h.seats[t].total && s.hole == h.seats[t].hole
    ensures var h' := h.(seats := h.seats[t := s]);
            && |h'.seats| == |h.seats| && Own(h', i) == Own(h, i) && h'.seats[i].hole == h.seats[i].hole
            && h'.seats[i].folded == if i == t then s.folded else h.seats[i].folded
  {
  }

  lemma RaisedSeat(h: Hand, add: int, i: int)
    requires 0 <= h.toAct < |h.seats| && 0 <= i < |h.seats|
    ensures SeatCarried(h, Raised(h, add), i)
  {
    hide Commit;
    CommitOwn(h.seats[h.toAct], add);
  }

  lemma ActStep(h: Hand, a: Action, i: int)
    requires Ready(h) && h.payouts == map[] && Accepts(h, a) && 0 <= i < |h.seats|
    ensures var h' := Apply(h, a).hand;
            SameTable(h, h') && BoardCarried(h, h') && SeatStep(h, Act(a), h', i) && Orderly(h')
  {
    ActedSeat(h, a, i);
    hide Acted, Accepts, LegalOf;
    var m := Acted(h, a);
    AdvanceCarries(m);
    assert SeatCarried(m, Advance(m).hand, i);
  }

  /** Every operation keeps each seat's own chips; only a fold by the seat to act folds a seat, only a
      reveal for a seat changes its cards, and the board grows only by the deck or by the cards supplied. */
  lemma StepSeats(h: Hand, e: Event, i: int)
    requires Ready(h) && Orderly(h) && Do(h, e).Went? && 0 <= i < |h.seats|
    ensures var h' := Do(h, e).hand;
            && Orderly(h') && SameTable(h, h') && SeatStep(h, e, h', i)
            && BoardStep(h, e, h')
  {
    match e {
      case Act(a) =>
        hide Accepts;
        ActStep(h, a, i);
      case Board(cards) =>
        var m := h.(board := h.board + cards, street := h.pendingStreet, awaitingBoard := false, pendingCount := 0);
        StartStreetCarries(m);
        assert SeatCarried(m, StartStreet(m).hand, i);
      case Hole(seat, hole) =>
      case Showdown =>
        var m := Finished(h.(awaitingShowdown := false));
        ScoreCarries(m);
        assert SeatCarried(m, ScoreAndPay(m).hand, i);
    }
  }

  lemma RefusedSeats(h: Hand, e: Event, i: int)
    requires Ready(h) && Do(h, e).Refused? && 0 <= i < |h.seats|
    ensures SeatStep(h, e, h, i) && BoardStep(h, e, h)
  {
  }

  // ----- every run -----

  /** The cards seat i holds after k operations: those last revealed for it, or those dealt to it. */
  function HoleAfter(cfg: Config, es: seq<Event>, k: nat, i: int): seq<Card>
    requires Acceptable(cfg) && k <= |es| && 0 <= i < |cfg.stacks|
  {
    if k == 0 then
      HoleFits(cfg, i);
      cfg.deck[i * HoleCount(cfg)..(i + 1) * HoleCount(cfg)]
    else if Reveals(es[k - 1], i) then es[k - 1].hole
    else HoleAfter(cfg, es, k - 1, i)
  }

  /** The board cards supplied in the first k operations. */
  function Supplied(es: seq<Event>, hs: seq<Hand>, k: nat): seq<Card>
    requires k <= |es| < |hs|
  {
    if k == 0 then [] else Supplied(es, hs, k - 1) + if Supplies(hs[k - 1], es[k - 1]) then es[k - 1].cards else []
  }

  /** The board so far: the cards supplied, or, dealt openly, the deck's next after the hole cards. */
  ghost predicate BoardIs(cfg: Config, es: seq<Event>, hs: seq<Hand>, k: nat)
    requires k <= |es| < |hs|
  {
    var h, first := hs[k], HoleCount(cfg) * |cfg.stacks|;
    if cfg.deferReveal then h.board == Supplied(es, hs, k) && h.deckPos == first
    else 0 <= first <= h.deckPos <= |cfg.deck| && h.board == cfg.deck[first..h.deckPos]
  }

  lemma NewSeats(cfg: Config, i: int)
    requires New(cfg).Some? && 0 <= i < |cfg.stacks|
    ensures var h := New(cfg).value;
            && |h.seats| == |cfg.stacks| && Own(h, i) == cfg.stacks[i] && !h.seats[i].folded
            && h.seats[i].hole == Seated(cfg, i).hole
  {
    var first, sb := SeatedAll(cfg), SmallBlindSeat(cfg);
    var second := first[sb := Commit(first[sb], cfg.smallBlind)];
    CommitOwn(first[sb], cfg.smallBlind);
    CommitOwn(second[BigBlindSeat(cfg)], cfg.bigBlind);
    hide Commit, NextAble;
  }

  /** What holds of a seat and the board after k operations: the chips it holds, has put in and has not
      been paid back are those it brought; it is folded if and only if it folded in its turn; its cards
      are those last revealed for it or dealt to it. */
  ghost predicate SeatAfter(cfg: Config, es: seq<Event>, hs: seq<Hand>, k: nat, i: int)
    requires Acceptable(cfg) && k <= |es| < |hs| && 0 <= i < |cfg.stacks|
  {
    var h := hs[k];
    && Orderly(h) && |h.seats| == |cfg.stacks| && h.button == cfg.button && h.bigBlind == cfg.bigBlind
    && h.deferReveal == cfg.deferReveal && h.deck == cfg.deck
    && Own(h, i) == cfg.stacks[i] && h.seats[i].hole == HoleAfter(cfg, es, k, i)
    && (h.seats[i].folded <==> exists j :: 0 <= j < k && Folds(hs[j], es[j], i))
    && BoardIs(cfg, es, hs, k)
  }

  /** In every run nobody's chips, fold or cards are taken for another's. */
  lemma {:induction false} EveryRunSeats(cfg: Config, es: seq<Event>, hs: seq<Hand>, k: nat, i: int)
    requires IsRun(cfg, es, hs) && k <= |es| && 0 <= i < |cfg.stacks|
    ensures SeatAfter(cfg, es, hs, k, i)
  {
    hide SeatAfter, Orderly, SeatStep, BoardStep;
    if k == 0 {
      FirstAfter(cfg, es, hs, i);
    } else {
      EveryRunSeats(cfg, es, hs, k - 1, i);
      AfterIsOrderly(cfg, es, hs, k - 1, i);
      RunStep(cfg, es, hs, k, i);
      NextAfter(cfg, es, hs, k, i);
    }
  }

  lemma AfterIsOrderly(cfg: Config, es: seq<Event>, hs: seq<Hand>, k: nat, i: int)
    requires Acceptable(cfg) && k <= |es| < |hs| && 0 <= i < |cfg.stacks| && SeatAfter(cfg, es, hs, k, i)
    ensures Orderly(hs[k]) && |hs[k].seats| == |cfg.stacks|
  {
  }

  lemma FirstAfter(cfg: Config, es: seq<Event>, hs: seq<Hand>, i: int)
    requires |es| < |hs| && New(cfg) == Some(hs[0]) && 0 <= i < |cfg.stacks|
    ensures SeatAfter(cfg, es, hs, 0, i)
  {
    NewSeats(cfg, i);
    NewTable(cfg);
    hide New, Acceptable;
  }

  lemma NewTable(cfg: Config)
    requires New(cfg).Some?
    ensures var h := New(cfg).value;
            && Acceptable(cfg) && !h.done && !h.awaitingBoard && h.payouts == map[] && h.board == [] && h.deck == cfg.deck
            && h.button == cfg.button && h.bigBlind == cfg.bigBlind && h.deferReveal == cfg.deferReveal
            && h.deckPos == HoleCount(cfg) * |cfg.stacks| && 0 <= h.deckPos <= |cfg.deck|
  {
    hide Blinded, NextAble;
    assert HoleCount(cfg) * |cfg.stacks| >= 0;
  }

  lemma NextAfter(cfg: Config, es: seq<Event>, hs: seq<Hand>, k: nat, i: int)
    requires Acceptable(cfg) && 0 < k <= |es| < |hs| && 0 <= i < |cfg.stacks| && SeatAfter(cfg, es, hs, k - 1, i)
    requires Orderly(hs[k]) && SameTable(hs[k - 1], hs[k]) && SeatStep(hs[k - 1], es[k - 1], hs[k], i) && BoardStep(hs[k - 1], es[k - 1], hs[k])
    ensures SeatAfter(cfg, es, hs, k, i)
  {
    hide Folds, BoardIs, BoardStep, Acceptable;
    FoldedOn(es, hs, k, i);
    BoardOn(cfg, es, hs, k);
  }

  /** Each operation of a run, whether accepted or not. */
  lemma RunStep(cfg: Config, es: seq<Event>, hs: seq<Hand>, k: nat, i: int)
    requires IsRun(cfg, es, hs) && 0 < k <= |es| && Orderly(hs[k - 1]) && 0 <= i < |hs[k - 1].seats|
    ensures Orderly(hs[k]) && SameTable(hs[k - 1], hs[k])
    ensures SeatStep(hs[k - 1], es[k - 1], hs[k], i) && BoardStep(hs[k - 1], es[k - 1], hs[k])
  {
    hide BoardStep, SeatStep;
    var h, e := hs[k - 1], es[k - 1];
    assert StepTo(h, e, hs[k - 1 + 1]);
    if Do(h, e).Went? { StepSeats(h, e, i); } else { RefusedSeats(h, e, i); }
  }

  lemma FoldedOn(es: seq<Event>, hs: seq<Hand>, k: nat, i: int)
    requires 0 < k <= |es| < |hs|
    ensures (exists j :: 0 <= j < k && Folds(hs[j], es[j], i))
       <==> (exists j :: 0 <= j < k - 1 && Folds(hs[j], es[j], i)) || Folds(hs[k - 1], es[k - 1], i)
  {
  }

  lemma BoardOn(cfg: Config, es: seq<Event>, hs: seq<Hand>, k: nat)
    requires 0 < k <= |es| < |hs| && BoardIs(cfg, es, hs, k - 1) && BoardStep(hs[k - 1], es[k - 1], hs[k])
    requires hs[k - 1].deck == cfg.deck && hs[k - 1].deferReveal == cfg.deferReveal && Orderly(hs[k - 1])
    ensures BoardIs(cfg, es, hs, k)
  {
    var h, h', first := hs[k - 1], hs[k], HoleCount(cfg) * |cfg.stacks|;
    if !cfg.deferReveal {
      assert cfg.deck[first..h.deckPos] + cfg.deck[h.deckPos..h'.deckPos] == cfg.deck[first..h'.deckPos];
    } else if !Supplies(h, es[k - 1]) {
      assert h.board + h.deck[h.deckPos..h.deckPos] == h.board;
    }
  }
}
