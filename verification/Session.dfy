/** A table of many hands over one pot: stacks carry from hand to hand and into the balances. */
module Session {
  import opened Cards
  import opened Options
  import opened Sums
  import opened SidePots
  import opened Engine
  import opened EngineTurns
  import opened EngineChips
  import opened EngineScores
  import opened EngineState
  import Pots = SessionPot
  import Refunds
  import opened Modular

  datatype Terms = Terms(buyIn: nat, smallBlind: int, bigBlind: int)

  /** A hand played with real cards, nothing held back, and all the chips of the table. */
  ghost predicate HandOk(h: Hand, n: nat, chips: int) {
    && Ready(h) && |h.seats| == n && Accounted(h, true) && CardsOk(h) && !h.deferReveal && Chips(h) == chips
    && (Inv(h) || (h.toAct < 0 && !h.done))
  }

  /** What a table reports. */
  datatype Report = Fine | NotNow | Denied | Pot(outcome: Pots.Outcome)

  class LiveTable {
    const n: nat
    const terms: Terms
    const id: string
    const pots: Pots.PotManager
    const keys: seq<Pots.Key>
    var stacks: Option<seq<int>>
    var button: int
    var handNo: nat
    var st: State?
    var openPot: string
    var readyToStart: bool
    var sittingOut: set<int>

    /** The name the session's pot is kept under. */
    function PotId(): string { id + "-session" }

    /** All the chips at the table. */
    function Chips(): int { n * terms.buyIn }

    /** The pot holds the table's chips and its balances total exactly that. */
    ghost predicate Whole(lp: Pots.LivePot) {
      |lp.keys| == n && lp.pot.satoshis == Chips() && Sum(Pots.Holdings(lp.balances, n)) == Chips()
    }

    ghost predicate AllWhole(ps: map<string, Pots.LivePot>) {
      forall p :: p in ps ==> Whole(ps[p])
    }

    ghost predicate Valid()
      reads this, pots, st
    {
      && 2 <= n && |keys| == n && 0 <= button < n && Chips() < Refunds.WORD64
      && pots.Valid()
      && AllWhole(pots.pots)
      && (stacks.Some? ==> |stacks.value| == n && Sum(stacks.value) == Chips())
      && (st != null ==> HandOk(st.View(), n, Chips()))
    }

    constructor (seatKeys: seq<Pots.Key>, t: Terms, name: string, manager: Pots.PotManager)
      requires |seatKeys| >= 2 && manager.Valid() && manager.pots == map[] && |seatKeys| * t.buyIn < Refunds.WORD64
      ensures Valid() && fresh(this) && st == null && stacks == None && openPot == ""
      ensures n == |seatKeys| && terms == t && pots == manager
    {
      n, keys, terms, id, pots := |seatKeys|, seatKeys, t, name, manager;
      stacks, button, handNo, st, openPot, readyToStart, sittingOut := None, 0, 0, null, "", true, {};
    }

    /** Funds the session's pot with everyone's buy-in. */
    method OpenPotForHand(funded: Option<Refunds.Pot>, height: nat, signed: bool) returns (r: Report)
      requires Valid() && (funded.Some? ==> funded.value.satoshis == Chips())
      modifies this`openPot, pots`pots
      ensures Valid() && st == old(st) && stacks == old(stacks)
      ensures r != Pot(Pots.BuildFailed(Refunds.Mismatched))
      ensures r == Pot(Pots.Done) ==> openPot == PotId() && openPot in pots.pots
      ensures r != Pot(Pots.Done) ==> openPot == old(openPot) && pots.pots == old(pots.pots)
    {
      if funded.None? {
        return NotNow;
      }
      hide HandOk, Pots.HeldFor, Pots.Opened, Pots.PotOk, Pots.Stake, Chips, PotId, AllWhole;
      var session := PotId();
      var outcome := pots.OpenPot(session, keys, funded.value, height, signed);
      if outcome != Pots.Done {
        WholeStakes();
        return Pot(outcome);
      }
      EqualShares(pots.pots[session].balances);
      StillWhole(old(pots.pots), session, pots.pots[session]);
      openPot := session;
      r := Pot(outcome);
    }

    lemma StillWhole(ps: map<string, Pots.LivePot>, p: string, lp: Pots.LivePot)
      requires AllWhole(ps) && Whole(lp)
      ensures AllWhole(ps[p := lp])
    {
    }

    /** The buy-ins divide evenly among the seats. */
    lemma WholeStakes()
      requires n > 0
      ensures Chips() % n == 0
    {
      ModWitness(Chips(), terms.buyIn, 0, n);
    }

    lemma EqualShares(balances: map<int, Refunds.u64>)
      requires n > 0 && Chips() < Refunds.WORD64 && forall s :: 0 <= s < n ==> Received(balances, s) == Pots.Stake(Chips(), n)
      ensures Sum(Pots.Holdings(balances, n)) == Chips()
    {
      ModWitness(Chips(), terms.buyIn, 0, n);
      Pots.EqualSum(n, terms.buyIn);
      assert Pots.Holdings(balances, n) == seq(n, i => terms.buyIn);
    }

    /** Deals a hand from the stacks carried so far, the first from the buy-in. */
    method DealHand(deck: seq<Card>) returns (r: Report)
      requires Valid() && AllValid(deck)
      modifies this`stacks, this`st
      ensures Valid() && (st == old(st) || fresh(st)) && stacks.Some?
      ensures stacks == if old(stacks).Some? then old(stacks) else Some(seq(n, i => terms.buyIn))
      ensures r == Fine ==> st != null && fresh(st)
                            && New(Config(stacks.value, button, terms.smallBlind, terms.bigBlind, deck, 0, 0, false)) == Some(st.View())
    {
      if stacks.None? {
        BuyIns(n, terms.buyIn);
        stacks := Some(seq(n, i => terms.buyIn));
      }
      var cfg := Config(stacks.value, button, terms.smallBlind, terms.bigBlind, deck, 0, 0, false);
      var started := Start(cfg);
      if started == null {
        return Denied;
      }
      Dealt(cfg);
      st := started;
      r := Fine;
    }

    /** A player's action; legality is the engine's decision. */
    method Act(seat: int, kind: Kind, to: int) returns (r: Report)
      requires Valid() && 0 <= seat < n
      modifies this`stacks, this`handNo, this`button, st
      ensures Valid() && st == old(st) && (r == Fine || r == Denied)
      ensures r == Denied ==> stacks == old(stacks) && (st != null ==> st.View() == old(st.View()))
      ensures r == Fine ==> st != null && Engine.Apply(old(st.View()), Action(kind, seat, to)).Went?
                            && st.View() == Engine.Apply(old(st.View()), Action(kind, seat, to)).hand
      ensures r == Fine && st.done ==> stacks == Some(Stacks(st.seats))
    {
      if st == null || st.done || st.toAct != seat {
        return Denied;
      }
      var a := Action(kind, seat, to);
      ghost var h := st.View();
      var status := st.Apply(a);
      if status == Rejected {
        return Denied;
      }
      Played(h, a, n, Chips());
      if status == ScoringFailed {
        return Denied;
      }
      if st.done { FinishHand(); }
      r := Fine;
    }

    /** Carries the stacks of a finished hand forward and moves the button. */
    method FinishHand()
      requires Valid() && st != null && st.done
      modifies this`stacks, this`handNo, this`button
      ensures Valid() && stacks == Some(Stacks(st.seats)) && handNo == old(handNo) + 1 && button == (old(button) + 1) % n
    {
      var carried: seq<int> := [];
      for i := 0 to |st.seats|
        invariant |carried| == i && forall j :: 0 <= j < i ==> carried[j] == st.seats[j].stack
      {
        carried := carried + [st.seats[i].stack];
      }
      AllBack(st.View(), n, Chips());
      assert carried == Stacks(st.seats);
      stacks := Some(carried);
      handNo := handNo + 1;
      button := (button + 1) % n;
    }

    /** Carries a finished hand into the pot. The balances always account for the whole pot, so the
        two mismatch errors are never met. */
    method ApplyHandBalances(signed: bool) returns (r: Report)
      requires Valid()
      modifies pots`pots, pots`armed
      ensures Valid()
      ensures r != Pot(Pots.Mismatch) && r != Pot(Pots.BuildFailed(Refunds.Mismatched))
      ensures r == NotNow ==> pots.pots == old(pots.pots)
      ensures r == Pot(Pots.Done) ==> openPot in pots.pots && st != null && st.done
                                      && (forall i :: 0 <= i < n ==> Received(pots.pots[openPot].balances, i) == st.seats[i].stack)
                                      && Pots.HeldFor(pots.lock, pots.pots[openPot], pots.pots[openPot].balances)
    {
      if st == null || !st.done || openPot == "" {
        return NotNow;
      }
      hide HandOk, Pots.HeldFor;
      var balances := FinalBalances();
      if balances == map[] {
        return NotNow;
      }
      var outcome := pots.ApplyHand(openPot, balances, signed);
      r := Pot(outcome);
    }

    /** What every seat holds once a hand is over, leaving out those with nothing. */
    method FinalBalances() returns (balances: map<int, Refunds.u64>)
      requires Valid() && st != null && st.done
      ensures Pots.InSeats(balances, n) && Sum(Pots.Holdings(balances, n)) == Chips() && |st.seats| == n
      ensures forall i :: 0 <= i < n ==> Received(balances, i) == st.seats[i].stack
    {
      balances := map[];
      ghost var seats := st.seats;
      AllBack(st.View(), n, Chips());
      hide HandOk;
      assert forall i :: 0 <= i < n ==> PurseOk(seats[i]);
      for i := 0 to |st.seats|
        invariant st.seats == seats
        invariant forall x :: x in balances ==> 0 <= x < i
        invariant forall x :: 0 <= x < i ==> Received(balances, x) == seats[x].stack
      {
        StackWithin(seats, i);
        if st.seats[i].stack > 0 { balances := balances[i := st.seats[i].stack]; }
      }
      assert Pots.Holdings(balances, n) == Stacks(seats);
    }

    /** Clears a finished hand for the next, unless the session should stop. */
    method PrepareNextHand() returns (more: bool)
      requires Valid()
      modifies this`st, this`readyToStart
      ensures Valid() && (more ==> st == null && readyToStart) && (!more ==> st == old(st))
      ensures more <==> old(st != null && st.done) && sittingOut == {}
                        && (stacks.Some? ==> forall i :: 0 <= i < n ==> stacks.value[i] >= terms.bigBlind)
    {
      if st == null || !st.done || sittingOut != {} {
        return false;
      }
      if stacks.Some? {
        for i := 0 to |stacks.value|
          invariant forall j :: 0 <= j < i ==> stacks.value[j] >= terms.bigBlind
        {
          if stacks.value[i] < terms.bigBlind {
            return false;
          }
        }
      }
      st := null;
      readyToStart := true;
      more := true;
    }
  }

  lemma StackWithin(seats: seq<Seat>, i: int)
    requires PursesOk(seats) && 0 <= i < |seats|
    ensures seats[i].stack <= Sum(Stacks(seats))
  {
    SumUpdate(Stacks(seats), i);
    assert forall j :: 0 <= j < |seats| ==> PurseOk(seats[j]);
    SumNonNegative(Stacks(seats)[i := 0]);
  }

  lemma BuyIns(n: nat, buyIn: nat)
    ensures Sum(seq(n, i => buyIn)) == n * buyIn
  {
    Pots.EqualSum(n, buyIn);
  }

  lemma Dealt(cfg: Config)
    requires New(cfg).Some? && AllValid(cfg.deck) && cfg.useHole == 0 && !cfg.deferReveal
    ensures HandOk(New(cfg).value, |cfg.stacks|, Sum(cfg.stacks))
  {
    NewCards(cfg);
    NewChips(cfg);
    NewWf(cfg);
    if New(cfg).value.toAct >= 0 { NewKeeps(cfg); }
  }

  /** A move keeps the table's hand in order, and scoring never fails. */
  lemma Played(h: Hand, a: Action, n: nat, chips: int)
    requires HandOk(h, n, chips) && Engine.Apply(h, a).Went?
    ensures HandOk(Engine.Apply(h, a).hand, n, chips) && Engine.Apply(h, a).scored
  {
    hide Engine.Acted, Engine.LegalOf, EngineChips.Chips, Engine.Advance;
    assert Accepts(h, a);
    assert Inv(h);
    ActScores(h, a);
    StepKeeps(h, Event.Act(a));
    StepKeepsChips(h, Event.Act(a), true);
  }

  /** When a hand is over all the chips are in the stacks. */
  lemma AllBack(h: Hand, n: nat, chips: int)
    requires HandOk(h, n, chips) && h.done
    ensures Sum(Stacks(h.seats)) == chips && PursesOk(h.seats) && |h.seats| == n
  {
    hide Inv, CardsOk, Ready;
  }
}
