/**
 A hand of hold'em as a state machine: blinds, betting, deferred reveals and the showdown. Each
 operation is a function from one state of the hand to the next; chips are unbounded integers.
 */
module Engine {
  import opened Cards
  import opened Options
  import opened Sums
  import opened SidePots
  import EvalGo

  datatype Street = Preflop | Flop | Turn | River | Complete

  datatype Kind = Fold | Check | Call | Bet | Raise | Unknown

  /** For a bet or raise, to is the street commitment aimed at. */
  datatype Action = Action(kind: Kind, seat: int, to: int)

  /** street and total are the chips committed on this street and in the hand. */
  datatype Seat = Seat(stack: int, hole: seq<Card>, folded: bool, allIn: bool, street: int, total: int, acted: bool)

  datatype Hand = Hand(
    seats: seq<Seat>, board: seq<Card>, street: Street, button: int, smallBlind: int, bigBlind: int,
    currentBet: int, minRaise: int, toAct: int, done: bool,
    awaitingBoard: bool, pendingCount: int, awaitingShowdown: bool, payouts: map<int, int>, useHole: int,
    deck: seq<Card>, deckPos: int, pendingStreet: Street, deferReveal: bool)

  datatype Config = Config(stacks: seq<int>, button: int, smallBlind: int, bigBlind: int, deck: seq<Card>,
                           holeCards: nat, useHole: int, deferReveal: bool)

  const MIN_SEATS: int := 2
  const MAX_SEATS: int := 6

  predicate Able(s: Seat) { !s.folded && !s.allIn }

  predicate Betting(h: Hand) { !h.done && !h.awaitingBoard && !h.awaitingShowdown }

  // ----- streets and the cards they need -----

  function Next(s: Street): Street {
    if s == Preflop then Flop else if s == Flop then Turn else River
  }

  function Need(s: Street): nat { if s == Preflop then 3 else 1 }

  function StreetsLeft(s: Street): nat {
    match s
    case Preflop => 3
    case Flop => 2
    case Turn => 1
    case River => 0
    case Complete => 0
  }

  function CardsLeft(s: Street): nat {
    if s == Preflop then 5 else StreetsLeft(s)
  }

  /** The shape every state of a hand has. */
  ghost predicate Wf(h: Hand) {
    && |h.seats| >= 2 && 0 <= h.button < |h.seats| && -1 <= h.toAct < |h.seats|
    && (h.street == Complete <==> h.done)
    && 0 <= h.deckPos && h.deckPos + CardsLeft(h.street) <= |h.deck|
    && (h.awaitingBoard ==> h.street in {Preflop, Flop, Turn} && h.pendingStreet == Next(h.street) && h.pendingCount == Need(h.street))
    && (forall i :: i in h.payouts ==> 0 <= i < |h.seats|)
  }

  // ----- seats -----

  /** The first seat after from, going round, that can still act, or -1. */
  function NextAble(seats: seq<Seat>, from: int, k: nat): (r: int)
    requires 0 <= from < |seats| && 1 <= k <= |seats| + 1
    ensures -1 <= r < |seats|
    decreases |seats| + 1 - k
  {
    if k > |seats| then -1
    else
      var i := (from + k) % |seats|;
      if Able(seats[i]) then i else NextAble(seats, from, k + 1)
  }

  function LiveCount(seats: seq<Seat>): nat {
    if seats == [] then 0 else (if seats[0].folded then 0 else 1) + LiveCount(seats[1..])
  }

  function AbleCount(seats: seq<Seat>): nat {
    if seats == [] then 0 else (if Able(seats[0]) then 1 else 0) + AbleCount(seats[1..])
  }

  /** Moves chips from the stack to the pot, all in when the stack runs out. */
  function Commit(s: Seat, amount: int): Seat {
    var pay := Min(amount, s.stack);
    s.(stack := s.stack - pay, street := s.street + pay, total := s.total + pay, allIn := s.allIn || s.stack == pay)
  }

  function Stacks(seats: seq<Seat>): seq<int> {
    seq(|seats|, i requires 0 <= i < |seats| => seats[i].stack)
  }

  function Commitments(seats: seq<Seat>): seq<int> {
    seq(|seats|, i requires 0 <= i < |seats| => seats[i].total)
  }

  // ----- starting a hand -----

  function HoleCount(cfg: Config): nat { if cfg.holeCards == 0 then 2 else cfg.holeCards }

  predicate Acceptable(cfg: Config) {
    && MIN_SEATS <= |cfg.stacks| <= MAX_SEATS
    && 0 <= cfg.button < |cfg.stacks|
    && 0 < cfg.smallBlind <= cfg.bigBlind
    && (forall i :: 0 <= i < |cfg.stacks| ==> cfg.stacks[i] > 0)
    && |cfg.deck| >= HoleCount(cfg) * |cfg.stacks| + 5
  }

  function SmallBlindSeat(cfg: Config): int
    requires |cfg.stacks| > 0
  {
    if |cfg.stacks| == 2 then cfg.button else (cfg.button + 1) % |cfg.stacks|
  }

  function BigBlindSeat(cfg: Config): int
    requires |cfg.stacks| > 0
  {
    if |cfg.stacks| == 2 then (cfg.button + 1) % 2 else (cfg.button + 2) % |cfg.stacks|
  }

  lemma HoleFits(cfg: Config, i: int)
    requires Acceptable(cfg) && 0 <= i < |cfg.stacks|
    ensures 0 <= i * HoleCount(cfg) && (i + 1) * HoleCount(cfg) <= HoleCount(cfg) * |cfg.stacks|
    ensures (i + 1) * HoleCount(cfg) == i * HoleCount(cfg) + HoleCount(cfg)
  {
    var c, n := HoleCount(cfg), |cfg.stacks|;
    assert c * n == (i + 1) * c + (n - i - 1) * c;
  }

  function Seated(cfg: Config, i: int): Seat
    requires Acceptable(cfg) && 0 <= i < |cfg.stacks|
  {
    HoleFits(cfg, i);
    var c := HoleCount(cfg);
    Seat(cfg.stacks[i], cfg.deck[i * c..(i + 1) * c], false, false, 0, 0, false)
  }

  function SeatedAll(cfg: Config): seq<Seat>
    requires Acceptable(cfg)
  {
    seq(|cfg.stacks|, i requires 0 <= i < |cfg.stacks| => Seated(cfg, i))
  }

  function Blinded(cfg: Config): (seats: seq<Seat>)
    requires Acceptable(cfg)
    ensures |seats| == |cfg.stacks|
  {
    var sb, bb := SmallBlindSeat(cfg), BigBlindSeat(cfg);
    var first := SeatedAll(cfg);
    var second := first[sb := Commit(first[sb], cfg.smallBlind)];
    second[bb := Commit(second[bb], cfg.bigBlind)]
  }

  /** A new hand, or nothing when the configuration is refused. */
  function New(cfg: Config): Option<Hand> {
    if !Acceptable(cfg) then None
    else
      var seats := Blinded(cfg);
      Some(Hand(seats, [], Preflop, cfg.button, cfg.smallBlind, cfg.bigBlind, cfg.bigBlind, cfg.bigBlind,
                NextAble(seats, BigBlindSeat(cfg), 1), false, false, 0, false, map[], cfg.useHole,
                cfg.deck, HoleCount(cfg) * |cfg.stacks|, Preflop, cfg.deferReveal))
  }

  // ----- what the seat to act may do -----

  datatype Legal = Legal(canFold: bool, canCheck: bool, canCall: bool, canBetRaise: bool, callAmount: int, minTo: int, maxTo: int)

  const NOTHING_LEGAL: Legal := Legal(false, false, false, false, 0, 0, 0)

  function LegalOf(h: Hand): Legal
    requires -1 <= h.toAct < |h.seats|
  {
    if !Betting(h) || h.toAct < 0 then NOTHING_LEGAL
    else
      var s := h.seats[h.toAct];
      var toCall := h.currentBet - s.street;
      var maxTo := s.street + s.stack;
      var minTo := if h.currentBet <= 0 then h.bigBlind else h.currentBet + h.minRaise;
      var wager := maxTo > h.currentBet && s.stack > 0;
      Legal(true, toCall <= 0, toCall > 0 && s.stack > 0, wager, Min(toCall, s.stack),
            if wager then Min(minTo, maxTo) else 0, if wager then maxTo else 0)
  }

  // ----- acting -----

  /** What an operation does: refused with nothing changed, or a new state and whether scoring succeeded. */
  datatype Outcome = Refused | Went(hand: Hand, scored: bool)

  predicate Accepts(h: Hand, a: Action): (r: bool)
    requires -1 <= h.toAct < |h.seats|
    ensures r ==> Betting(h) && a.seat == h.toAct && h.toAct >= 0
  {
    && Betting(h) && a.seat == h.toAct && h.toAct >= 0
    && var s := h.seats[h.toAct];
       match a.kind
       case Fold => true
       case Check => h.currentBet - s.street <= 0
       case Call => h.currentBet - s.street > 0
       case Unknown => false
       case _ =>
         var l := LegalOf(h);
         && l.canBetRaise
         && (a.to >= s.street + s.stack || l.minTo <= a.to <= l.maxTo)
         && Min(a.to, s.street + s.stack) - s.street > 0
  }

  /** A raise asks everyone else who can still act to act again. */
  function Reopened(seats: seq<Seat>, raiser: int): seq<Seat> {
    seq(|seats|, i requires 0 <= i < |seats| => if i != raiser && Able(seats[i]) then seats[i].(acted := false) else seats[i])
  }

  /** The state after the seat to act has acted, before the turn passes on. */
  function Acted(h: Hand, a: Action): (r: Hand)
    requires 0 <= h.toAct < |h.seats|
    ensures |r.seats| == |h.seats| && r == h.(seats := r.seats, minRaise := r.minRaise, currentBet := r.currentBet)
  {
    var t := h.toAct;
    var s := h.seats[t];
    match a.kind
    case Fold => h.(seats := h.seats[t := s.(folded := true, acted := true)])
    case Call => h.(seats := h.seats[t := Commit(s, Min(h.currentBet - s.street, s.stack)).(acted := true)])
    case Check => h.(seats := h.seats[t := s.(acted := true)])
    case Unknown => h
    case _ => Raised(h, Min(a.to, s.street + s.stack) - s.street)
  }

  /** The seat to act commits more chips, and sets a new bet if that exceeds the current one. */
  function Raised(h: Hand, add: int): (r: Hand)
    requires 0 <= h.toAct < |h.seats|
    ensures |r.seats| == |h.seats| && r == h.(seats := r.seats, minRaise := r.minRaise, currentBet := r.currentBet)
  {
    var t := h.toAct;
    var s := Commit(h.seats[t], add).(acted := true);
    var seats := h.seats[t := s];
    var raise := s.street - h.currentBet;
    if raise <= 0 then h.(seats := seats)
    else h.(seats := Reopened(seats, t), minRaise := if raise >= h.minRaise then raise else h.minRaise,
            currentBet := s.street)
  }

  ghost function Apply(h: Hand, a: Action): Outcome
    requires Wf(h)
  {
    hide Acted, Accepts, LegalOf;
    if Accepts(h, a) then Advance(Acted(h, a)) else Refused
  }

  // ----- passing the turn and the streets -----

  predicate Matched(h: Hand, s: Seat) {
    Able(s) ==> s.acted && s.street == h.currentBet
  }

  predicate AllMatched(h: Hand) {
    forall i :: 0 <= i < |h.seats| ==> Matched(h, h.seats[i])
  }

  predicate AllActed(seats: seq<Seat>) {
    forall i :: 0 <= i < |seats| ==> Able(seats[i]) ==> seats[i].acted
  }

  predicate Closed(h: Hand) {
    AllMatched(h) || (AbleCount(h.seats) <= 1 && AllActed(h.seats))
  }

  ghost predicate InPlay(h: Hand) {
    Wf(h) && Betting(h)
  }

  ghost function Advance(h: Hand): (o: Outcome)
    requires InPlay(h) && h.toAct >= 0
    ensures o.Went?
  {
    if LiveCount(h.seats) == 1 then Settle(h)
    else if !Closed(h) && NextAble(h.seats, h.toAct, 1) >= 0 then
      Went(h.(toAct := NextAble(h.seats, h.toAct, 1)), true)
    else NextStreet(h)
  }

  function Cleared(seats: seq<Seat>): seq<Seat> {
    seq(|seats|, i requires 0 <= i < |seats| => seats[i].(street := 0, acted := false))
  }

  function NewStreet(h: Hand): Hand {
    h.(seats := Cleared(h.seats), currentBet := 0, minRaise := h.bigBlind)
  }

  function Pause(h: Hand): Hand {
    h.(pendingStreet := Next(h.street), pendingCount := Need(h.street), awaitingBoard := true, toAct := -1)
  }

  function Draw(h: Hand): Hand
    requires 0 <= h.deckPos && h.deckPos + Need(h.street) <= |h.deck|
  {
    h.(board := h.board + h.deck[h.deckPos..h.deckPos + Need(h.street)], deckPos := h.deckPos + Need(h.street),
       street := Next(h.street))
  }

  ghost function NextStreet(h: Hand): (o: Outcome)
    requires InPlay(h)
    ensures o.Went?
    decreases StreetsLeft(h.street), 0
  {
    if h.street == River then Settle(h)
    else if h.deferReveal then Went(Pause(NewStreet(h)), true)
    else StartStreet(Draw(NewStreet(h)))
  }

  /** With at most one seat able to act the remaining streets are dealt without betting. */
  ghost function StartStreet(h: Hand): (o: Outcome)
    requires InPlay(h)
    ensures o.Went?
    decreases StreetsLeft(h.street), 1
  {
    if AbleCount(h.seats) <= 1 then
      if h.street != River then NextStreet(h) else Settle(h)
    else
      var h' := h.(toAct := NextAble(h.seats, h.button, 1));
      if h'.toAct < 0 then NextStreet(h') else Went(h', true)
  }

  ghost function SupplyBoard(h: Hand, revealed: seq<Card>): Outcome
    requires Wf(h) && (h.awaitingBoard ==> !h.awaitingShowdown)
  {
    if !h.awaitingBoard || |revealed| != h.pendingCount || !AllValid(revealed) then Refused
    else
      StartStreet(h.(board := h.board + revealed, street := h.pendingStreet, awaitingBoard := false, pendingCount := 0))
  }

  // ----- the end of a hand -----

  function FirstLive(seats: seq<Seat>): (r: int)
    requires LiveCount(seats) > 0
    ensures 0 <= r < |seats| && !seats[r].folded
  {
    if !seats[0].folded then 0 else FirstLive(seats[1..]) + 1
  }

  function Finished(h: Hand): Hand {
    h.(done := true, street := Complete, toAct := -1)
  }

  function Credit(seats: seq<Seat>, p: map<int, int>): seq<Seat> {
    seq(|seats|, i requires 0 <= i < |seats| => seats[i].(stack := seats[i].stack + Received(p, i)))
  }

  function Pay(h: Hand, p: map<int, int>): Hand {
    h.(seats := Credit(h.seats, p), payouts := h.payouts + p)
  }

  ghost function Settle(h: Hand): (o: Outcome)
    requires InPlay(h)
    ensures o.Went?
  {
    if LiveCount(h.seats) == 1 then
      Went(Finished(Pay(h, map[FirstLive(h.seats) := Sum(Commitments(h.seats))])), true)
    else if h.deferReveal then Went(h.(awaitingShowdown := true, toAct := -1), true)
    else ScoreAndPay(Finished(h))
  }

  ghost function EntryOf(s: Seat, board: seq<Card>, useHole: int): Entry {
    Entry(s.total, !s.folded, EvalGo.ScoreOf(s.hole, board, useHole))
  }

  ghost function EntriesOf(seats: seq<Seat>, board: seq<Card>, useHole: int): seq<Entry> {
    seq(|seats|, i requires 0 <= i < |seats| => EntryOf(seats[i], board, useHole))
  }

  ghost function Entries(h: Hand): seq<Entry> {
    EntriesOf(h.seats, h.board, h.useHole)
  }

  ghost function ScoreAndPay(h: Hand): (o: Outcome)
    ensures o.Went?
  {
    if Settles(Entries(h)) then Went(Pay(h, SidePots.Payouts(Entries(h))), true) else Went(h, false)
  }

  function SetRevealedHole(h: Hand, seat: int, hole: seq<Card>): Outcome {
    if 0 <= seat < |h.seats| && AllValid(hole) then
      Went(h.(seats := h.seats[seat := h.seats[seat].(hole := hole)]), true)
    else Refused
  }

  ghost function CompleteShowdown(h: Hand): Outcome {
    if !h.awaitingShowdown then Refused else ScoreAndPay(Finished(h.(awaitingShowdown := false)))
  }

  // ----- runs -----

  datatype Event = Act(action: Action) | Board(cards: seq<Card>) | Hole(seat: int, hole: seq<Card>) | Showdown

  /** The pauses exclude each other and the end. */
  ghost predicate Ready(h: Hand) {
    && Wf(h) && !(h.awaitingBoard && h.awaitingShowdown)
    && (h.awaitingBoard || h.awaitingShowdown ==> !h.done)
  }

  ghost function Do(h: Hand, e: Event): Outcome
    requires Ready(h)
  {
    match e
    case Act(a) => Apply(h, a)
    case Board(cards) => SupplyBoard(h, cards)
    case Hole(seat, hole) => SetRevealedHole(h, seat, hole)
    case Showdown => CompleteShowdown(h)
  }

  ghost function Resulting(h: Hand, e: Event): Hand
    requires Ready(h)
  {
    match Do(h, e)
    case Refused => h
    case Went(h', _) => h'
  }
}
