/**
 Whose turn it is, over every run of a hand: the seat to act is able and has not acted, the seats
 still to act follow it in one cyclic run, and those that have acted have matched the bet.
 */
module EngineTurns {
  import opened Cards
  import opened Options
  import opened SidePots
  import opened Engine

  predicate Waiting(s: Seat) { Able(s) && !s.acted }

  predicate Through(s: Seat) { Able(s) && s.acted }

  /** The seats in turn order, starting with t. */
  function Rotate(seats: seq<Seat>, t: int): (r: seq<Seat>)
    requires 0 <= t < |seats|
    ensures |r| == |seats|
  {
    seats[t..] + seats[..t]
  }

  /** From position from on, nobody still to act comes after someone who is through. */
  ghost predicate Ordered(r: seq<Seat>, from: nat) {
    forall j, k :: from <= j < k < |r| && Through(r[j]) ==> !Waiting(r[k])
  }

  predicate SeatOk(s: Seat) {
    s.stack >= 0 && 0 <= s.street <= s.total && (s.allIn <==> s.stack == 0)
  }

  ghost predicate SeatsOk(seats: seq<Seat>) {
    forall i :: 0 <= i < |seats| ==> SeatOk(seats[i])
  }

  /** Nobody is above the bet, and whoever has acted and can act again has matched it. */
  predicate BetOk(s: Seat, bet: int) {
    s.street <= bet && (Through(s) ==> s.street == bet)
  }

  ghost predicate BetsOk(seats: seq<Seat>, bet: int) {
    forall i :: 0 <= i < |seats| ==> BetOk(seats[i], bet)
  }

  ghost predicate TurnOk(h: Hand) {
    && 0 <= h.toAct < |h.seats| && Waiting(h.seats[h.toAct])
    && h.minRaise > 0 && BetsOk(h.seats, h.currentBet)
    && Ordered(Rotate(h.seats, h.toAct), 0)
  }

  predicate Untouched(s: Seat) { s.street == 0 && !s.acted }

  /** A street on which nobody has acted. */
  ghost predicate FreshStreet(h: Hand) {
    && h.currentBet == 0 && h.minRaise == h.bigBlind
    && forall i :: 0 <= i < |h.seats| ==> Untouched(h.seats[i])
  }

  ghost predicate Solvent(h: Hand) {
    SeatsOk(h.seats) && h.bigBlind > 0 && h.payouts == map[]
  }

  ghost predicate Inv(h: Hand) {
    && Ready(h)
    && (!h.done ==> Solvent(h) && LiveCount(h.seats) >= 2)
    && (h.awaitingBoard ==> FreshStreet(h))
    && (h.awaitingShowdown ==> h.street == River)
    && (Betting(h) ==> TurnOk(h))
    && (!Betting(h) ==> h.toAct == -1)
  }

  // ----- going round the table -----

  lemma Wrap(x: int, n: int)
    requires 0 <= x < 2 * n
    ensures x % n == if x < n then x else x - n
  {
  }

  lemma RotateAt(seats: seq<Seat>, t: int, j: int)
    requires 0 <= t < |seats| && 0 <= j < |seats|
    ensures 0 <= (t + j) % |seats| < |seats| && Rotate(seats, t)[j] == seats[(t + j) % |seats|]
  {
    Wrap(t + j, |seats|);
  }

  /** NextAble finds the nearest able seat in turn order. */
  lemma {:induction false} NextAbleNearest(seats: seq<Seat>, t: int, k: nat, m: nat)
    requires 0 <= t < |seats| && 1 <= k <= m < |seats| && Able(Rotate(seats, t)[m])
    ensures exists d :: k <= d <= m && Able(Rotate(seats, t)[d]) && NextAble(seats, t, k) == (t + d) % |seats|
                        && forall j :: k <= j < d ==> !Able(Rotate(seats, t)[j])
    decreases m - k
  {
    RotateAt(seats, t, k);
    if !Able(Rotate(seats, t)[k]) { NextAbleNearest(seats, t, k + 1, m); }
  }

  lemma {:induction false} NextAbleAny(seats: seq<Seat>, t: int, k: nat)
    requires 0 <= t < |seats| && 1 <= k <= |seats|
    ensures NextAble(seats, t, k) >= 0 ==> Able(seats[NextAble(seats, t, k)])
    decreases |seats| - k
  {
    if k < |seats| { NextAbleAny(seats, t, k + 1); }
  }

  lemma {:induction false} NextAbleFinds(seats: seq<Seat>, t: int, k: nat, m: nat, i: int)
    requires 0 <= t < |seats| && 1 <= k <= m <= |seats| && i == (t + m) % |seats| && 0 <= i < |seats| && Able(seats[i])
    ensures NextAble(seats, t, k) >= 0
    decreases m - k
  {
    if k < m { NextAbleFinds(seats, t, k + 1, m, i); }
  }

  lemma PositionOf(seats: seq<Seat>, t: int, i: int) returns (m: int)
    requires 0 <= t < |seats| && 0 <= i < |seats|
    ensures 0 <= m < |seats| && Rotate(seats, t)[m] == seats[i] && (t + m) % |seats| == i && (m == 0 <==> i == t)
  {
    m := if i >= t then i - t else i - t + |seats|;
    Wrap(t + m, |seats|);
    RotateAt(seats, t, m);
  }

  lemma SomeoneAble(seats: seq<Seat>, t: int, i: int)
    requires 0 <= t < |seats| && 0 <= i < |seats| && Able(seats[i])
    ensures NextAble(seats, t, 1) >= 0
  {
    var m := PositionOf(seats, t, i);
    Wrap(t + |seats|, |seats|);
    NextAbleFinds(seats, t, 1, if m == 0 then |seats| else m, i);
  }

  lemma RotateAgain(seats: seq<Seat>, t: int, d: int)
    requires 0 <= t < |seats| && 0 <= d < |seats|
    ensures 0 <= (t + d) % |seats| < |seats|
    ensures Rotate(seats, (t + d) % |seats|) == Rotate(seats, t)[d..] + Rotate(seats, t)[..d]
  {
    Wrap(t + d, |seats|);
    if t + d < |seats| {
      assert seats[t..][d..] == seats[t + d..] && seats[t..][..d] == seats[t..t + d];
      assert seats[..t] + seats[t..t + d] == seats[..t + d];
    } else {
      var e := t + d - |seats|;
      assert seats[..t][e..] == seats[e..t] && seats[..t][..e] == seats[..e];
      assert seats[e..t] + seats[t..] == seats[e..];
    }
  }

  /** After the seat in front is through, the turn goes to someone still to act and the order holds. */
  lemma TurnPasses(seats: seq<Seat>, t: int, i: int)
    requires 0 <= t < |seats| && 0 <= i < |seats| && Waiting(seats[i]) && !Waiting(seats[t])
    requires Ordered(Rotate(seats, t), 1)
    ensures var t' := NextAble(seats, t, 1);
            0 <= t' && Waiting(seats[t']) && Ordered(Rotate(seats, t'), 0)
  {
    var r := Rotate(seats, t);
    var m := PositionOf(seats, t, i);
    assert m != 0;
    NextAbleNearest(seats, t, 1, m);
    var d :| 1 <= d <= m && Able(r[d]) && NextAble(seats, t, 1) == (t + d) % |seats|
             && forall j :: 1 <= j < d ==> !Able(r[j]);
    RotateAt(seats, t, d);
    RotateAgain(seats, t, d);
    RotatedOrder(r, d);
  }

  lemma RotatedOrder(r: seq<Seat>, d: int)
    requires 1 <= d < |r| && Ordered(r, 1) && !Waiting(r[0])
    requires forall j :: 1 <= j < d ==> !Able(r[j])
    ensures Ordered(r[d..] + r[..d], 0)
  {
    var q := r[d..] + r[..d];
    forall j, k | 0 <= j < k < |q| && Through(q[j])
      ensures !Waiting(q[k])
    {
      assert k < |r| - d ==> q[k] == r[d + k] && q[j] == r[d + j];
      assert k >= |r| - d ==> q[k] == r[k - (|r| - d)];
    }
  }

  // ----- counting -----

  lemma {:induction false} LiveSame(a: seq<Seat>, b: seq<Seat>)
    requires |a| == |b| && forall i :: 0 <= i < |a| ==> a[i].folded == b[i].folded
    ensures LiveCount(a) == LiveCount(b)
  {
    if a != [] { LiveSame(a[1..], b[1..]); }
  }

  lemma {:induction false} LiveUpdate(seats: seq<Seat>, t: int, s: Seat)
    requires 0 <= t < |seats| && !seats[t].folded
    ensures LiveCount(seats[t := s]) == LiveCount(seats) - if s.folded then 1 else 0
  {
    if t > 0 {
      LiveUpdate(seats[1..], t - 1, s);
      assert seats[t := s][1..] == seats[1..][t - 1 := s];
    } else {
      assert seats[t := s][1..] == seats[1..];
    }
  }

  lemma {:induction false} LiveSome(seats: seq<Seat>, w: int)
    requires 0 <= w < |seats| && !seats[w].folded
    ensures LiveCount(seats) >= 1
  {
    if w > 0 { LiveSome(seats[1..], w - 1); }
  }

  lemma {:induction false} AbleSome(seats: seq<Seat>) returns (i: int)
    requires AbleCount(seats) > 0
    ensures 0 <= i < |seats| && Able(seats[i])
  {
    if Able(seats[0]) { return 0; }
    i := AbleSome(seats[1..]);
    i := i + 1;
  }

  // ----- ending a street, ending a hand -----

  lemma SettleKeeps(h: Hand)
    requires InPlay(h) && Solvent(h) && LiveCount(h.seats) >= 1 && (LiveCount(h.seats) >= 2 ==> h.street == River)
    ensures Settle(h).Went? && Inv(Settle(h).hand)
  {
    hide LiveCount, Settles, SeatsOk;
    if LiveCount(h.seats) != 1 && !h.deferReveal {
      PayoutKeys(Finished(h));
    }
  }

  lemma PayoutKeys(h: Hand)
    requires Wf(h)
    ensures ScoreAndPay(h).Went? && Wf(ScoreAndPay(h).hand)
    ensures var h' := ScoreAndPay(h).hand;
            h'.done == h.done && h'.toAct == h.toAct && h'.awaitingBoard == h.awaitingBoard && h'.awaitingShowdown == h.awaitingShowdown
  {
    hide Settles;
  }

  lemma ClearedFresh(h: Hand)
    requires Solvent(h)
    ensures Solvent(NewStreet(h)) && FreshStreet(NewStreet(h))
    ensures LiveCount(NewStreet(h).seats) == LiveCount(h.seats)
  {
    LiveSame(h.seats, Cleared(h.seats));
  }

  lemma {:induction false} NextStreetKeeps(h: Hand)
    requires InPlay(h) && Solvent(h) && LiveCount(h.seats) >= 2
    ensures NextStreet(h).Went? && Inv(NextStreet(h).hand)
    decreases StreetsLeft(h.street), 0
  {
    if h.street == River {
      SettleKeeps(h);
    } else {
      ClearedFresh(h);
      hide Solvent, FreshStreet, LiveCount;
      SolventIgnores(NewStreet(h), Pause(NewStreet(h)));
      if !h.deferReveal {
        SolventIgnores(NewStreet(h), Draw(NewStreet(h)));
        StartStreetKeeps(Draw(NewStreet(h)));
      }
    }
  }

  lemma SolventIgnores(h: Hand, h': Hand)
    requires h'.seats == h.seats && h'.bigBlind == h.bigBlind && h'.payouts == h.payouts
    requires h'.currentBet == h.currentBet && h'.minRaise == h.minRaise
    ensures Solvent(h') == Solvent(h) && FreshStreet(h') == FreshStreet(h)
  {
  }

  lemma {:induction false} StartStreetKeeps(h: Hand)
    requires InPlay(h) && Solvent(h) && LiveCount(h.seats) >= 2 && FreshStreet(h)
    ensures StartStreet(h).Went? && Inv(StartStreet(h).hand)
    decreases StreetsLeft(h.street), 1
  {
    if AbleCount(h.seats) <= 1 {
      if h.street != River { NextStreetKeeps(h); } else { SettleKeeps(h); }
    } else {
      var i := AbleSome(h.seats);
      SomeoneAble(h.seats, h.button, i);
      NextAbleAny(h.seats, h.button, 1);
      var h' := h.(toAct := NextAble(h.seats, h.button, 1));
      FreshTurn(h');
    }
  }

  lemma FreshTurn(h: Hand)
    requires FreshStreet(h) && h.bigBlind > 0 && 0 <= h.toAct < |h.seats| && Able(h.seats[h.toAct])
    ensures TurnOk(h)
  {
    var r := Rotate(h.seats, h.toAct);
    forall j | 0 <= j < |r|
      ensures !Through(r[j])
    {
      RotateAt(h.seats, h.toAct, j);
    }
  }

  // ----- acting -----

  /** What a seat's own action leaves: it is through or out, nobody else is out of order, and the
      bets still agree. */
  ghost predicate HasActed(h: Hand) {
    && InPlay(h) && Solvent(h) && 0 <= h.toAct < |h.seats|
    && LiveCount(h.seats) >= 1 && h.minRaise > 0 && BetsOk(h.seats, h.currentBet)
    && !Waiting(h.seats[h.toAct]) && Ordered(Rotate(h.seats, h.toAct), 1)
  }

  /** Once everyone through has matched the bet, the second closing test adds nothing. */
  lemma ExtraTestIdle(h: Hand)
    requires BetsOk(h.seats, h.currentBet)
    ensures AllMatched(h) <==> AllActed(h.seats)
    ensures Closed(h) <==> AllMatched(h)
  {
    forall i | 0 <= i < |h.seats|
      ensures Matched(h, h.seats[i]) <==> (Able(h.seats[i]) ==> h.seats[i].acted)
    {
      assert BetOk(h.seats[i], h.currentBet);
    }
  }

  lemma OpenHasWaiting(h: Hand) returns (i: int)
    requires BetsOk(h.seats, h.currentBet) && !Closed(h)
    ensures 0 <= i < |h.seats| && Waiting(h.seats[i])
  {
    ExtraTestIdle(h);
    i :| 0 <= i < |h.seats| && !(Able(h.seats[i]) ==> h.seats[i].acted);
  }

  lemma AdvanceKeeps(h: Hand)
    requires HasActed(h)
    ensures Advance(h).Went? && Inv(Advance(h).hand)
  {
    if LiveCount(h.seats) == 1 {
      SettleKeeps(h);
    } else if Closed(h) {
      NextStreetKeeps(h);
    } else {
      hide Closed;
      var i := OpenHasWaiting(h);
      TurnPasses(h.seats, h.toAct, i);
    }
  }

  lemma UpdateRotated(seats: seq<Seat>, t: int, s: Seat)
    requires 0 <= t < |seats|
    ensures Rotate(seats[t := s], t) == Rotate(seats, t)[0 := s]
  {
  }

  /** Acting without raising. */
  lemma PassiveActed(h: Hand, s: Seat)
    requires Inv(h) && Betting(h) && SeatOk(s) && s.acted && BetOk(s, h.currentBet)
    ensures HasActed(h.(seats := h.seats[h.toAct := s]))
  {
    var t := h.toAct;
    LiveUpdate(h.seats, t, s);
    UpdateRotated(h.seats, t, s);
    hide LiveCount;
  }

  /** Acting with a raise. */
  lemma RaisedActed(h: Hand, s: Seat, raise: int)
    requires Inv(h) && Betting(h) && SeatOk(s) && s.acted && !s.folded && s.street > h.currentBet && raise > 0
    ensures HasActed(h.(seats := Reopened(h.seats[h.toAct := s], h.toAct), minRaise := raise, currentBet := s.street))
  {
    var t := h.toAct;
    var seats := h.seats[t := s];
    var again := Reopened(seats, t);
    LiveUpdate(h.seats, t, s);
    LiveSame(seats, again);
    ReopenedOrder(seats, t);
    hide LiveCount, Ordered;
    forall i | 0 <= i < |again|
      ensures SeatOk(again[i]) && BetOk(again[i], s.street)
    {
      assert SeatOk(h.seats[i]) && BetOk(h.seats[i], h.currentBet);
    }
  }

  lemma ReopenedOrder(seats: seq<Seat>, t: int)
    requires 0 <= t < |seats|
    ensures |Reopened(seats, t)| == |seats| && Ordered(Rotate(Reopened(seats, t), t), 1)
  {
    var again := Reopened(seats, t);
    var r := Rotate(again, t);
    forall j | 1 <= j < |r|
      ensures !Through(r[j])
    {
      RotateAt(again, t, j);
      Wrap(t + j, |again|);
    }
  }

  /** A commitment within the stack keeps a seat in order. */
  lemma CommitOk(s: Seat, amount: int)
    requires SeatOk(s) && amount >= 0
    ensures SeatOk(Commit(s, amount))
    ensures Commit(s, amount).street == s.street + Min(amount, s.stack)
  {
  }

  lemma ActedKeeps(h: Hand, a: Action)
    requires Inv(h) && Accepts(h, a)
    ensures HasActed(Acted(h, a))
  {
    var t := h.toAct;
    var s := h.seats[t];
    assert SeatOk(s) && BetOk(s, h.currentBet);
    match a.kind {
      case Fold => PassiveActed(h, s.(folded := true, acted := true));
      case Check => PassiveActed(h, s.(acted := true));
      case Call => CallKeeps(h, s);
      case _ => WagerKeeps(h, a);
    }
  }

  lemma CallKeeps(h: Hand, s: Seat)
    requires Inv(h) && Betting(h) && s == h.seats[h.toAct] && s.street < h.currentBet
    ensures HasActed(h.(seats := h.seats[h.toAct := Commit(s, Min(h.currentBet - s.street, s.stack)).(acted := true)]))
  {
    assert SeatOk(s);
    var s' := Commit(s, Min(h.currentBet - s.street, s.stack));
    CommitOk(s, Min(h.currentBet - s.street, s.stack));
    PassiveActed(h, s'.(acted := true));
  }

  /** An accepted bet or raise always raises the bet: the refusal of one that adds nothing never fires. */
  lemma WagerRaises(h: Hand, a: Action)
    requires Inv(h) && Betting(h) && a.kind in {Bet, Raise}
    requires LegalOf(h).canBetRaise
    requires var s := h.seats[h.toAct]; a.to >= s.street + s.stack || LegalOf(h).minTo <= a.to <= LegalOf(h).maxTo
    ensures var s := h.seats[h.toAct]; h.currentBet < Min(a.to, s.street + s.stack) && s.street < Min(a.to, s.street + s.stack)
  {
    assert BetOk(h.seats[h.toAct], h.currentBet);
  }

  lemma WagerKeeps(h: Hand, a: Action)
    requires Inv(h) && Accepts(h, a) && a.kind in {Bet, Raise}
    ensures HasActed(Acted(h, a))
  {
    hide HasActed, Ordered, Wf, LiveCount;
    var t := h.toAct;
    var s := h.seats[t];
    assert SeatOk(s);
    WagerRaises(h, a);
    var add := Min(a.to, s.street + s.stack) - s.street;
    CommitOk(s, add);
    var s' := Commit(s, add).(acted := true);
    var raise := s'.street - h.currentBet;
    RaisedActed(h, s', if raise >= h.minRaise then raise else h.minRaise);
  }

  // ----- every step, every run -----

  /** Every accepted operation keeps the invariant. */
  lemma StepKeeps(h: Hand, e: Event)
    requires Inv(h)
    ensures Do(h, e).Went? ==> Inv(Do(h, e).hand)
  {
    match e {
      case Act(a) =>
        if Accepts(h, a) {
          ActedKeeps(h, a);
          hide Acted, Accepts, LegalOf;
          AdvanceKeeps(Acted(h, a));
        }
      case Board(cards) => BoardKeeps(h, cards);
      case Hole(seat, hole) => HoleKeeps(h, seat, hole);
      case Showdown =>
        if h.awaitingShowdown { PayoutKeys(Finished(h.(awaitingShowdown := false))); }
    }
  }

  lemma BoardKeeps(h: Hand, cards: seq<Card>)
    requires Inv(h)
    ensures SupplyBoard(h, cards).Went? ==> Inv(SupplyBoard(h, cards).hand)
  {
    if SupplyBoard(h, cards).Went? {
      var h' := h.(board := h.board + cards, street := h.pendingStreet, awaitingBoard := false, pendingCount := 0);
      SolventIgnores(h, h');
      StartStreetKeeps(h');
    }
  }

  lemma HoleKeeps(h: Hand, seat: int, hole: seq<Card>)
    requires Inv(h)
    ensures SetRevealedHole(h, seat, hole).Went? ==> Inv(SetRevealedHole(h, seat, hole).hand)
  {
    if SetRevealedHole(h, seat, hole).Went? {
      var s := h.seats[seat].(hole := hole);
      var seats := h.seats[seat := s];
      LiveSame(h.seats, seats);
      hide LiveCount;
      if Betting(h) { RehandOrder(h.seats, h.toAct, seat, hole); }
    }
  }

  lemma RehandOrder(seats: seq<Seat>, t: int, seat: int, hole: seq<Card>)
    requires 0 <= t < |seats| && 0 <= seat < |seats| && Ordered(Rotate(seats, t), 0)
    ensures Ordered(Rotate(seats[seat := seats[seat].(hole := hole)], t), 0)
  {
    var again := seats[seat := seats[seat].(hole := hole)];
    var p, r := Rotate(again, t), Rotate(seats, t);
    forall j | 0 <= j < |r|
      ensures Through(p[j]) == Through(r[j]) && Waiting(p[j]) == Waiting(r[j])
    {
      RotateAt(again, t, j);
      RotateAt(seats, t, j);
    }
  }

  /** A new hand in which someone can act. */
  lemma NewKeeps(cfg: Config)
    requires New(cfg).Some? && New(cfg).value.toAct >= 0
    ensures Inv(New(cfg).value)
  {
    hide LiveCount, Blinded, Wf, TurnOk, NextAble;
    var h := New(cfg).value;
    BlindedOk(cfg);
    LiveAll(h.seats);
    NewWf(cfg);
    NewTurn(cfg);
  }

  lemma NewWf(cfg: Config)
    requires New(cfg).Some?
    ensures Wf(New(cfg).value)
  {
    hide Blinded;
    assert HoleCount(cfg) * |cfg.stacks| >= 0;
  }

  lemma NewTurn(cfg: Config)
    requires New(cfg).Some? && New(cfg).value.toAct >= 0
    ensures TurnOk(New(cfg).value)
  {
    hide Blinded;
    var h := New(cfg).value;
    BlindedOk(cfg);
    NextAbleAny(h.seats, BigBlindSeat(cfg), 1);
    var r := Rotate(h.seats, h.toAct);
    forall j | 0 <= j < |r|
      ensures !Through(r[j])
    {
      RotateAt(h.seats, h.toAct, j);
    }
  }

  lemma BlindedOk(cfg: Config)
    requires Acceptable(cfg)
    ensures var seats := Blinded(cfg);
            SeatsOk(seats) && BetsOk(seats, cfg.bigBlind) && forall i :: 0 <= i < |seats| ==> !seats[i].acted && !seats[i].folded
  {
    var sb, bb := SmallBlindSeat(cfg), BigBlindSeat(cfg);
    BlindSeats(cfg);
    var first := SeatedAll(cfg);
    CommitOk(first[sb], cfg.smallBlind);
    CommitOk(first[bb], cfg.bigBlind);
  }

  lemma BlindSeats(cfg: Config)
    requires Acceptable(cfg)
    ensures SmallBlindSeat(cfg) != BigBlindSeat(cfg)
  {
    var n := |cfg.stacks|;
    Wrap(cfg.button + 1, n);
    Wrap(cfg.button + 2, n);
  }

  lemma {:induction false} LiveAll(seats: seq<Seat>)
    requires forall i :: 0 <= i < |seats| ==> !seats[i].folded
    ensures LiveCount(seats) == |seats|
  {
    if seats != [] { LiveAll(seats[1..]); }
  }

  /** The states a hand goes through under a list of operations. */
  ghost predicate IsRun(cfg: Config, es: seq<Event>, hs: seq<Hand>) {
    && |hs| == |es| + 1 && New(cfg) == Some(hs[0])
    && forall k :: 0 <= k < |es| ==> StepTo(hs[k], es[k], hs[k + 1])
  }

  ghost predicate StepTo(h: Hand, e: Event, h': Hand) {
    Ready(h) && h' == Resulting(h, e)
  }

  /** In every run that starts with a seat able to act, every state is over, waiting for a reveal,
      or has an able seat to act that has not acted on this street. */
  lemma {:induction false} EveryRunKeeps(cfg: Config, es: seq<Event>, hs: seq<Hand>, k: nat)
    requires IsRun(cfg, es, hs) && hs[0].toAct >= 0 && k < |hs|
    ensures Inv(hs[k])
    ensures hs[k].done || hs[k].awaitingBoard || hs[k].awaitingShowdown || TurnOk(hs[k])
  {
    if k == 0 {
      NewKeeps(cfg);
    } else {
      EveryRunKeeps(cfg, es, hs, k - 1);
      assert StepTo(hs[k - 1], es[k - 1], hs[k - 1 + 1]);
      StepKeeps(hs[k - 1], es[k - 1]);
    }
  }

  // ----- what may be done -----

  /** Within what Legal reports. */
  predicate Announced(l: Legal, a: Action) {
    match a.kind
    case Fold => l.canFold
    case Check => l.canCheck
    case Call => l.canCall
    case Unknown => false
    case _ => l.canBetRaise && l.minTo <= a.to <= l.maxTo
  }

  /** A bet or raise aimed above the whole stack. */
  predicate Overshoots(l: Legal, a: Action) {
    a.kind in {Bet, Raise} && l.canBetRaise && a.to > l.maxTo
  }

  /** The actions accepted are those announced, and bets and raises aimed above the stack. */
  lemma LegalExact(h: Hand, a: Action)
    requires Inv(h)
    ensures var l := LegalOf(h);
            Accepts(h, a) <==> (a.seat == h.toAct && (Announced(l, a) || Overshoots(l, a)))
  {
    if Betting(h) {
      var s := h.seats[h.toAct];
      assert SeatOk(s) && BetOk(s, h.currentBet);
    }
  }

  /** An overshooting bet or raise is clipped: it does exactly what going all in does. */
  lemma OvershootIsAllIn(h: Hand, a: Action)
    requires Inv(h) && Accepts(h, a) && Overshoots(LegalOf(h), a)
    ensures var all := a.(to := LegalOf(h).maxTo);
            Announced(LegalOf(h), all) && Accepts(h, all) && Apply(h, a) == Apply(h, all)
  {
    var s, all := h.seats[h.toAct], a.(to := LegalOf(h).maxTo);
    assert SeatOk(s) && BetOk(s, h.currentBet);
    assert Acted(h, a) == Acted(h, all) by { hide Raised; }
    hide Acted, Advance;
  }

  /** What the seat to act may do, in terms of the chips alone: check when it owes nothing, call when it
      owes something, and bet or raise when it has more than the call, to any amount from a full raise
      up or with everything it has. */
  lemma AcceptsExactly(h: Hand, a: Action)
    requires Inv(h) && Betting(h) && a.seat == h.toAct
    ensures var s := h.seats[h.toAct];
            var all, full := s.street + s.stack, if h.currentBet <= 0 then h.bigBlind else h.currentBet + h.minRaise;
            match a.kind
            case Fold => Accepts(h, a)
            case Check => Accepts(h, a) <==> s.street == h.currentBet
            case Call => Accepts(h, a) <==> s.street < h.currentBet
            case Unknown => !Accepts(h, a)
            case _ => Accepts(h, a) <==> all > h.currentBet && (a.to >= full || a.to >= all)
  {
    assert SeatOk(h.seats[h.toAct]) && BetOk(h.seats[h.toAct], h.currentBet);
  }

  /** The amounts announced are the ones that count: a call moves exactly the call amount, the least and
      the greatest target announced are accepted, no lower target is, and the greatest leaves nothing behind. */
  lemma LegalAmounts(h: Hand, kind: Kind)
    requires Inv(h) && Betting(h) && kind in {Bet, Raise}
    ensures var l, t := LegalOf(h), h.toAct;
            && (l.canCall ==> Acted(h, Action(Call, t, 0)).seats[t].stack == h.seats[t].stack - l.callAmount)
            && (l.canBetRaise ==>
                  && Accepts(h, Action(kind, t, l.minTo)) && Accepts(h, Action(kind, t, l.maxTo))
                  && (forall to :: Accepts(h, Action(kind, t, to)) ==> to >= l.minTo)
                  && Acted(h, Action(kind, t, l.maxTo)).seats[t].stack == 0)
  {
    assert SeatOk(h.seats[h.toAct]) && BetOk(h.seats[h.toAct], h.currentBet);
  }

  /** No state is stuck: a fold, the right number of cards, or the showdown is always accepted. */
  lemma NeverStuck(h: Hand, cards: seq<Card>)
    requires Inv(h) && !h.done
    ensures h.awaitingBoard && |cards| == h.pendingCount && AllValid(cards) ==> Do(h, Board(cards)).Went?
    ensures h.awaitingShowdown ==> Do(h, Showdown).Went? && Do(h, Showdown).hand.done
    ensures Betting(h) ==> Do(h, Act(Action(Fold, h.toAct, 0))).Went?
  {
    if Betting(h) {
      ActedKeeps(h, Action(Fold, h.toAct, 0));
      AdvanceKeeps(Acted(h, Action(Fold, h.toAct, 0)));
    } else if h.awaitingBoard && |cards| == h.pendingCount && AllValid(cards) {
      var h' := h.(board := h.board + cards, street := h.pendingStreet, awaitingBoard := false, pendingCount := 0);
      SolventIgnores(h, h');
      StartStreetKeeps(h');
    } else if h.awaitingShowdown {
      PayoutKeys(Finished(h.(awaitingShowdown := false)));
    }
  }

  // ----- the rules of betting -----

  /** A call matches the bet exactly, or puts the whole stack in when that is less. */
  lemma CallRule(h: Hand, a: Action)
    requires Inv(h) && Accepts(h, a) && a.kind == Call
    ensures var s, s' := h.seats[h.toAct], Acted(h, a).seats[h.toAct];
            && (s'.street == h.currentBet || (s'.allIn && s'.street == s.street + s.stack < h.currentBet))
            && s'.stack == s.stack - (s'.street - s.street) && s'.total - s.total == s'.street - s.street
            && Acted(h, a).currentBet == h.currentBet && Acted(h, a).minRaise == h.minRaise
            && forall i :: 0 <= i < |h.seats| && i != h.toAct ==> Acted(h, a).seats[i] == h.seats[i]
  {
    assert SeatOk(h.seats[h.toAct]);
  }

  /** A fold or a check moves no chips and changes nobody else. */
  lemma PassRule(h: Hand, a: Action)
    requires Inv(h) && Accepts(h, a) && a.kind in {Fold, Check}
    ensures var s := h.seats[h.toAct];
            Acted(h, a) == h.(seats := h.seats[h.toAct := s.(folded := a.kind == Fold, acted := true)])
  {
  }

  /** A raise that leaves chips behind is at least the last full raise; a full raise becomes the new
      minimum, a short all-in does not, and either way everyone else able to act must act again. */
  lemma RaiseRule(h: Hand, a: Action)
    requires Inv(h) && Accepts(h, a) && a.kind in {Bet, Raise}
    ensures var s, h' := h.seats[h.toAct], Acted(h, a);
            var up := h'.currentBet - h.currentBet;
            && up > 0 && h'.currentBet == h'.seats[h.toAct].street == Min(a.to, s.street + s.stack)
            && h'.seats[h.toAct].stack == s.stack - (h'.currentBet - s.street)
            && (!h'.seats[h.toAct].allIn && h.currentBet > 0 ==> up >= h.minRaise)
            && (!h'.seats[h.toAct].allIn && h.currentBet == 0 ==> up >= h.bigBlind)
            && h'.minRaise == (if up >= h.minRaise then up else h.minRaise)
            && forall i :: 0 <= i < |h.seats| && i != h.toAct ==> h'.seats[i] == if Able(h.seats[i]) then h.seats[i].(acted := false) else h.seats[i]
  {
    assert SeatOk(h.seats[h.toAct]) && BetOk(h.seats[h.toAct], h.currentBet);
    WagerRaises(h, a);
  }

  /** The small blind is the button heads-up and otherwise the seat after it, the big blind is the next
      seat; nobody else has put anything in, and the first seat after the big blind acts if it can. */
  lemma BlindRule(cfg: Config)
    requires New(cfg).Some?
    ensures var h, n := New(cfg).value, |cfg.stacks|;
            var sb := if n == 2 then cfg.button else (cfg.button + 1) % n;
            var bb := (sb + 1) % n;
            && sb != bb && h.currentBet == cfg.bigBlind == h.minRaise
            && h.seats[sb].total == Min(cfg.smallBlind, cfg.stacks[sb]) && h.seats[bb].total == Min(cfg.bigBlind, cfg.stacks[bb])
            && (forall i :: 0 <= i < n && i != sb && i != bb ==> h.seats[i].total == 0)
            && (forall i :: 0 <= i < n ==> h.seats[i].street == h.seats[i].total)
            && (Able(h.seats[(bb + 1) % n]) ==> h.toAct == (bb + 1) % n)
  {
    BlindSeats(cfg);
    BlindsFollow(cfg);
    Blinds(cfg);
    hide Blinded, SmallBlindSeat, BigBlindSeat;
  }

  lemma BlindsFollow(cfg: Config)
    requires Acceptable(cfg)
    ensures var n := |cfg.stacks|;
            && SmallBlindSeat(cfg) == (if n == 2 then cfg.button else (cfg.button + 1) % n)
            && BigBlindSeat(cfg) == (SmallBlindSeat(cfg) + 1) % n
  {
    var n := |cfg.stacks|;
    Wrap(cfg.button + 1, n);
    Wrap(cfg.button + 2, n);
    Wrap(SmallBlindSeat(cfg) + 1, n);
  }

  /** What the blinds leave at the seats. */
  lemma Blinds(cfg: Config)
    requires Acceptable(cfg)
    ensures var seats, sb, bb := Blinded(cfg), SmallBlindSeat(cfg), BigBlindSeat(cfg);
            && 0 <= sb < |seats| && 0 <= bb < |seats|
            && seats[sb].total == Min(cfg.smallBlind, cfg.stacks[sb]) && seats[bb].total == Min(cfg.bigBlind, cfg.stacks[bb])
            && (forall i :: 0 <= i < |seats| && i != sb && i != bb ==> seats[i].total == 0)
            && (forall i :: 0 <= i < |seats| ==> seats[i].street == seats[i].total)
  {
    BlindSeats(cfg);
    hide SmallBlindSeat, BigBlindSeat;
  }
}
