/** The coordinator: it takes every seat's agent through the deal and never uses a secret itself. */
module Dealer {
  import opened Modular
  import opened Curve
  import opened Options
  import opened Sums
  import opened MentalPoker
  import opened Deal
  import opened DealAgents
  import opened Cards

  const BOARD_CARDS: int := 5

  datatype DealtHand = DealtHand(deck: Deck, hole: seq<seq<Card>>, board: seq<Card>,
                                 holePositions: seq<seq<int>>, boardPositions: seq<int>)

  /** Every seat's agent works on the same curve, and no two are the same agent. */
  ghost predicate Team(t: Table, agents: seq<Agent>)
    reads agents
  {
    && (forall i :: 0 <= i < |agents| ==> agents[i].table == t && agents[i].Valid())
    && (forall i, j :: 0 <= i < j < |agents| ==> agents[i] != agents[j])
  }

  ghost predicate AllKnow(agents: seq<Agent>, handId: string, ss: seq<Secrets>)
    reads agents
  {
    |ss| == |agents| && forall i :: 0 <= i < |agents| ==> agents[i].Knows(handId, ss[i])
  }

  ghost predicate AllSee(agents: seq<Agent>, handId: string, ss: seq<Secrets>, d: Deck)
    reads agents
  {
    |ss| == |agents| && forall i :: 0 <= i < |agents| ==> agents[i].Sees(handId, ss[i], d)
  }

  /** The secrets every seat is bound to once it has committed: those it had, or those it draws now. */
  ghost function CommittedTo(agents: seq<Agent>, handId: string, drawn: seq<Secrets>): (ss: seq<Secrets>)
    requires |drawn| == |agents|
    reads agents
    ensures |ss| == |agents|
  {
    seq(|agents|, i requires 0 <= i < |agents| reads agents =>
      if handId in agents[i].hands then agents[i].hands[handId].secrets else drawn[i])
  }

  ghost predicate FullDecks(ss: seq<Secrets>) {
    forall k :: 0 <= k < |ss| ==> ss[k].deckSize == DECK_SIZE
  }

  // ----- positions -----

  function Max0(x: int): nat { if x < 0 then 0 else x }

  /** Seat by seat the hole cards, then the board: no position is used twice. */
  method HoleAndBoard(seats: nat, holeCards: int) returns (hole: seq<seq<int>>, board: seq<int>)
    ensures |hole| == seats && |board| == BOARD_CARDS
    ensures forall s :: 0 <= s < seats ==> |hole[s]| == Max0(holeCards)
    ensures forall s, i :: 0 <= s < seats && 0 <= i < |hole[s]| ==> hole[s][i] == s * Max0(holeCards) + i
    ensures forall b :: 0 <= b < BOARD_CARDS ==> board[b] == seats * Max0(holeCards) + b
  {
    hole := [];
    var next := 0;
    for s := 0 to seats
      invariant |hole| == s && next == s * Max0(holeCards)
      invariant forall q :: 0 <= q < s ==> |hole[q]| == Max0(holeCards)
      invariant forall q, i :: 0 <= q < s && 0 <= i < |hole[q]| ==> hole[q][i] == q * Max0(holeCards) + i
    {
      var own: seq<int> := [];
      var i := 0;
      while i < holeCards
        invariant 0 <= i <= Max0(holeCards) && |own| == i && next == s * Max0(holeCards) + i
        invariant forall k :: 0 <= k < i ==> own[k] == s * Max0(holeCards) + k
        decreases holeCards - i
      {
        own := own + [next];
        next := next + 1;
        i := i + 1;
      }
      hole := hole + [own];
      OneMore(Max0(holeCards), s);
    }
    board := [];
    for b := 0 to BOARD_CARDS
      invariant |board| == b && next == seats * Max0(holeCards) + b
      invariant forall k :: 0 <= k < b ==> board[k] == seats * Max0(holeCards) + k
    {
      board := board + [next];
      next := next + 1;
    }
  }

  // ----- the passes -----

  method CommitAll(t: Table, agents: seq<Agent>, handId: string, drawn: seq<Secrets>) returns (ok: bool)
    requires Team(t, agents) && |agents| >= 2 && |drawn| == |agents| && AllOk(t, drawn, DECK_SIZE)
    modifies agents
    ensures Team(t, agents) && (ok <==> handId != "")
    ensures ok ==> AllKnow(agents, handId, old(CommittedTo(agents, handId, drawn)))
  {
    ghost var ss := CommittedTo(agents, handId, drawn);
    for i := 0 to |agents|
      invariant Team(t, agents) && (i > 0 ==> handId != "")
      invariant forall k :: 0 <= k < i ==> agents[k].Knows(handId, ss[k])
      invariant forall k :: i <= k < |agents| ==> agents[k].hands == old(agents[k].hands)
    {
      assert SecretsOk(t, drawn[i]) && drawn[i].deckSize == DECK_SIZE;
      var committed := agents[i].Commit(handId, DECK_SIZE, |agents|, drawn[i]);
      if !committed {
        return false;
      }
    }
    ok := true;
  }

  method ShuffleAll(t: Table, agents: seq<Agent>, handId: string, base: Deck, ghost ss: seq<Secrets>)
    returns (r: Option<Deck>, ghost decks: seq<Deck>)
    requires Team(t, agents) && AllKnow(agents, handId, ss) && DeckOk(t, base) && |base| == DECK_SIZE
    modifies agents
    ensures Team(t, agents) && AllKnow(agents, handId, ss) && (r.Some? <==> FullDecks(ss))
    ensures r.Some? ==> ShuffleChain(t, ss, decks) && decks[0] == base && decks[|ss|] == r.value
    ensures r.Some? ==> DeckOk(t, r.value) && |r.value| == DECK_SIZE
  {
    hide DeckOk, Fair;
    var deck := base;
    decks := [base];
    for i := 0 to |agents|
      invariant Team(t, agents) && AllKnow(agents, handId, ss)
      invariant DeckOk(t, deck) && |deck| == DECK_SIZE && forall k :: 0 <= k < i ==> ss[k].deckSize == DECK_SIZE
      invariant |decks| == i + 1 && decks[0] == base && decks[i] == deck
      invariant forall k :: 0 <= k < i ==> ShufflePass(t, ss[k], decks[k], decks[k + 1])
    {
      assert agents[i].Knows(handId, ss[i]);
      var out := agents[i].Shuffle(handId, deck);
      if out.None? {
        return None, decks;
      }
      assert agents[i].Knows(handId, ss[i]);
      if |out.value| != DECK_SIZE {
        return None, decks;
      }
      deck := out.value;
      decks := decks + [deck];
    }
    r := Some(deck);
  }

  method RemaskAll(t: Table, agents: seq<Agent>, handId: string, start: Deck, ghost ss: seq<Secrets>)
    returns (r: Option<Deck>, ghost decks: seq<Deck>)
    requires Team(t, agents) && AllKnow(agents, handId, ss) && FullDecks(ss) && DeckOk(t, start) && |start| == DECK_SIZE
    modifies agents
    ensures Team(t, agents) && AllKnow(agents, handId, ss) && r.Some?
    ensures RemaskChain(t, ss, decks) && decks[0] == start && decks[|ss|] == r.value
    ensures DeckOk(t, r.value) && |r.value| == DECK_SIZE
  {
    hide DeckOk, Fair;
    var deck := start;
    decks := [start];
    for i := 0 to |agents|
      invariant Team(t, agents) && AllKnow(agents, handId, ss)
      invariant DeckOk(t, deck) && |deck| == DECK_SIZE
      invariant |decks| == i + 1 && decks[0] == start && decks[i] == deck
      invariant forall k :: 0 <= k < i ==> RemaskPass(t, ss[k], decks[k], decks[k + 1])
    {
      assert agents[i].Knows(handId, ss[i]);
      var out := agents[i].Remask(handId, deck);
      if out.None? {
        return None, decks;
      }
      assert agents[i].Knows(handId, ss[i]);
      deck := out.value;
      decks := decks + [deck];
    }
    r := Some(deck);
  }

  method FinalAll(t: Table, agents: seq<Agent>, handId: string, deck: Deck, ghost ss: seq<Secrets>) returns (ok: bool)
    requires Team(t, agents) && AllKnow(agents, handId, ss) && FullDecks(ss) && DeckOk(t, deck) && |deck| == DECK_SIZE
    modifies agents
    ensures Team(t, agents) && ok && AllSee(agents, handId, ss, deck)
  {
    hide DeckOk, Fair;
    for i := 0 to |agents|
      invariant Team(t, agents) && AllKnow(agents, handId, ss)
      invariant forall k :: 0 <= k < i ==> agents[k].Sees(handId, ss[k], deck)
    {
      assert agents[i].Knows(handId, ss[i]);
      var accepted := agents[i].Final(handId, deck);
      if !accepted {
        return false;
      }
      assert agents[i].Sees(handId, ss[i], deck);
    }
    ok := true;
  }

  // ----- reading -----

  /** A completed deal that every agent sees. */
  ghost predicate Complete(t: Table, agents: seq<Agent>, handId: string, ss: seq<Secrets>, deck: Deck)
    reads agents
  {
    && Team(t, agents) && AllSee(agents, handId, ss, deck)
    && DECK_SIZE < t.curve.order && AllOk(t, ss, DECK_SIZE) && Dealt(t, ss, DECK_SIZE, deck)
  }

  /** Every seat has a scalar for the position. */
  ghost predicate Covers(ss: seq<Secrets>, p: int) {
    0 <= p && forall i :: 0 <= i < |ss| ==> p < |ss[i].own|
  }

  /** What the seats below k other than the recipient have disclosed for a position. */
  ghost function Given(ss: seq<Secrets>, k: nat, recipient: int, p: int): map<int, nat>
    requires k <= |ss| && Covers(ss, p)
  {
    map i | 0 <= i < k && i != recipient :: ss[i].own[p]
  }

  lemma GivenNext(ss: seq<Secrets>, k: nat, recipient: int, p: int)
    requires k < |ss| && Covers(ss, p)
    ensures k == recipient ==> Given(ss, k + 1, recipient, p) == Given(ss, k, recipient, p)
    ensures k != recipient ==> Given(ss, k + 1, recipient, p) == Given(ss, k, recipient, p)[k := ss[k].own[p]]
  {
  }

  lemma Sized(t: Table, ss: seq<Secrets>, p: int)
    requires AllOk(t, ss, DECK_SIZE) && 0 <= p < DECK_SIZE
    ensures Covers(ss, p)
    ensures forall i :: 0 <= i < |ss| ==> IsPermutation(ss[i].perm, DECK_SIZE)
  {
    forall i | 0 <= i < |ss|
      ensures p < |ss[i].own| && IsPermutation(ss[i].perm, DECK_SIZE)
    {
      assert SecretsOk(t, ss[i]);
    }
  }

  /** The card at a position, once the deal is complete. */
  ghost function CardDealt(t: Table, ss: seq<Secrets>, p: int): Card
    requires AllOk(t, ss, DECK_SIZE) && 0 <= p < DECK_SIZE
  {
    Sized(t, ss, p);
    FromIndex(CardAt(ss, DECK_SIZE, p))
  }

  /** Collects the scalars of every seat but the recipient, position by position; of all seats when
      the recipient is -1. */
  method Collect(t: Table, agents: seq<Agent>, handId: string, recipient: int, positions: seq<int>, ghost ss: seq<Secrets>, ghost deck: Deck)
    returns (given: Option<map<int, map<int, nat>>>)
    requires Complete(t, agents, handId, ss, deck) && |agents| >= 2 && -1 <= recipient < |agents|
    ensures given.Some? <==> positions != [] && InDeck(positions, DECK_SIZE)
    ensures given.Some? ==> forall j :: 0 <= j < |positions| ==> positions[j] in given.value
    ensures given.Some? ==> forall j :: 0 <= j < |positions| ==>
                                          GivenTo(given.value[positions[j]], ss, |ss|, recipient, positions[j])
  {
    hide Dealt, Fair;
    var all: map<int, map<int, nat>> := map[];
    for j := 0 to |positions|
      invariant forall k :: 0 <= k < j ==> positions[k] in all
      invariant forall p :: p in all ==> all[p] == map[]
    {
      all := all[positions[j] := map[]];
    }
    var asked := false;
    if InDeck(positions, DECK_SIZE) { NothingGiven(t, all, positions, ss, recipient); }
    for i := 0 to |agents|
      invariant asked <==> i > if recipient == 0 then 1 else 0
      invariant asked ==> positions != [] && InDeck(positions, DECK_SIZE)
      invariant forall j :: 0 <= j < |positions| ==> positions[j] in all
      invariant InDeck(positions, DECK_SIZE) ==> AllGiven(all, positions, ss, i, recipient, 0, i)
    {
      KnownSize(t, agents, handId, ss, deck, i);
      if i == recipient {
        if InDeck(positions, DECK_SIZE) { NoneAdded(t, all, positions, ss, i, recipient); }
        continue;
      }
      var scalars := agents[i].Reveal(handId, positions);
      if scalars.None? {
        return None;
      }
      asked := true;
      StartRound(all, positions, ss, i, recipient);
      for j := 0 to |positions|
        invariant forall q :: 0 <= q < |positions| ==> positions[q] in all
        invariant AllGiven(all, positions, ss, i, recipient, j, i + 1)
      {
        var p := positions[j];
        OneGiven(t, all, positions, ss, i, recipient, j);
        all := all[p := all[p][i := scalars.value[j]]];
      }
      EndRound(all, positions, ss, i, recipient);
    }
    given := Some(all);
  }

  ghost predicate GivenTo(given: map<int, nat>, ss: seq<Secrets>, k: nat, recipient: int, p: int) {
    k <= |ss| && Covers(ss, p) && given == Given(ss, k, recipient, p)
  }

  /** The positions among the first j have what the seats below k' disclosed, the others what those
      below k did. */
  ghost predicate AllGiven(all: map<int, map<int, nat>>, positions: seq<int>, ss: seq<Secrets>, k: nat, recipient: int, j: nat, k': nat) {
    && j <= |positions|
    && (forall q :: 0 <= q < |positions| ==> positions[q] in all)
    && (forall q :: 0 <= q < |positions| ==>
          GivenTo(all[positions[q]], ss, if positions[q] in positions[..j] then k' else k, recipient, positions[q]))
  }

  lemma NothingGiven(t: Table, all: map<int, map<int, nat>>, positions: seq<int>, ss: seq<Secrets>, recipient: int)
    requires AllOk(t, ss, DECK_SIZE) && InDeck(positions, DECK_SIZE)
    requires forall q :: 0 <= q < |positions| ==> positions[q] in all
    requires forall p :: p in all ==> all[p] == map[]
    ensures AllGiven(all, positions, ss, 0, recipient, 0, 0)
  {
    forall q | 0 <= q < |positions|
      ensures GivenTo(all[positions[q]], ss, 0, recipient, positions[q])
    {
      Sized(t, ss, positions[q]);
    }
  }

  lemma StartRound(all: map<int, map<int, nat>>, positions: seq<int>, ss: seq<Secrets>, i: nat, recipient: int)
    requires AllGiven(all, positions, ss, i, recipient, 0, i)
    ensures AllGiven(all, positions, ss, i, recipient, 0, i + 1)
  {
    hide GivenTo;
    forall q | 0 <= q < |positions|
      ensures GivenTo(all[positions[q]], ss, i, recipient, positions[q])
    {
      assert positions[q] !in positions[..0];
    }
  }

  lemma EndRound(all: map<int, map<int, nat>>, positions: seq<int>, ss: seq<Secrets>, i: nat, recipient: int)
    requires AllGiven(all, positions, ss, i, recipient, |positions|, i + 1)
    ensures AllGiven(all, positions, ss, i + 1, recipient, 0, i + 1)
  {
    hide GivenTo;
    assert positions[..|positions|] == positions;
    forall q | 0 <= q < |positions|
      ensures GivenTo(all[positions[q]], ss, i + 1, recipient, positions[q])
    {
      assert positions[q] in positions;
    }
  }

  lemma NoneAdded(t: Table, all: map<int, map<int, nat>>, positions: seq<int>, ss: seq<Secrets>, i: nat, recipient: int)
    requires AllGiven(all, positions, ss, i, recipient, 0, i) && i == recipient < |ss|
    ensures AllGiven(all, positions, ss, i + 1, recipient, 0, i + 1)
  {
    forall q | 0 <= q < |positions|
      ensures GivenTo(all[positions[q]], ss, i + 1, recipient, positions[q])
    {
      assert GivenTo(all[positions[q]], ss, i, recipient, positions[q]);
      GivenNext(ss, i, recipient, positions[q]);
    }
  }

  lemma OneGiven(t: Table, all: map<int, map<int, nat>>, positions: seq<int>, ss: seq<Secrets>, i: nat, recipient: int, j: nat)
    requires AllGiven(all, positions, ss, i, recipient, j, i + 1) && i != recipient && i < |ss| && j < |positions|
    ensures 0 <= positions[j] < |ss[i].own|
    ensures var p := positions[j];
            AllGiven(all[p := all[p][i := ss[i].own[p]]], positions, ss, i, recipient, j + 1, i + 1)
  {
    var p := positions[j];
    assert GivenTo(all[p], ss, if p in positions[..j] then i + 1 else i, recipient, p);
    GivenNext(ss, i, recipient, p);
    var all' := all[p := all[p][i := ss[i].own[p]]];
    assert positions[..j + 1] == positions[..j] + [p];
    forall q | 0 <= q < |positions|
      ensures GivenTo(all'[positions[q]], ss, if positions[q] in positions[..j + 1] then i + 1 else i, recipient, positions[q])
    {
      assert GivenTo(all[positions[q]], ss, if positions[q] in positions[..j] then i + 1 else i, recipient, positions[q]);
    }
  }

  lemma KnownSize(t: Table, agents: seq<Agent>, handId: string, ss: seq<Secrets>, deck: Deck, i: int)
    requires Complete(t, agents, handId, ss, deck) && 0 <= i < |agents|
    ensures handId in agents[i].hands && agents[i].hands[handId].secrets == ss[i] && |ss[i].own| == DECK_SIZE
  {
    hide Dealt;
    assert agents[i].Sees(handId, ss[i], deck);
    assert SecretsOk(t, ss[i]);
  }

  lemma CanReadIt(t: Table, agents: seq<Agent>, handId: string, ss: seq<Secrets>, deck: Deck, r: int, p: int, given: map<int, nat>)
    requires Complete(t, agents, handId, ss, deck) && 0 <= r < |agents| && 0 <= p < DECK_SIZE
    requires GivenTo(given, ss, |ss|, r, p)
    ensures agents[r].CanRead(handId, p, given, ss, r)
  {
    hide Dealt, Fair;
    KnownSize(t, agents, handId, ss, deck, r);
    assert agents[r].Sees(handId, ss[r], deck);
    assert Discloses(given, ss, r, p);
  }

  /** The recipient reads its own cards from what the others disclose. */
  method ReadHole(t: Table, agents: seq<Agent>, handId: string, recipient: int, positions: seq<int>, ghost ss: seq<Secrets>, ghost deck: Deck)
    returns (r: Option<seq<Card>>)
    requires Complete(t, agents, handId, ss, deck) && |agents| >= 2 && 0 <= recipient < |agents|
    ensures r.Some? <==> positions != [] && InDeck(positions, DECK_SIZE)
    ensures r.Some? ==> |r.value| == |positions|
    ensures r.Some? ==> forall j :: 0 <= j < |positions| ==> r.value[j] == CardDealt(t, ss, positions[j])
  {
    hide Dealt, Fair, GivenTo;
    var given := Collect(t, agents, handId, recipient, positions, ss, deck);
    if given.None? {
      return None;
    }
    var hand: seq<Card> := [];
    for j := 0 to |positions|
      invariant |hand| == j && forall k :: 0 <= k < j ==> hand[k] == CardDealt(t, ss, positions[k])
    {
      var p := positions[j];
      CanReadIt(t, agents, handId, ss, deck, recipient, p, given.value[p]);
      var card := agents[recipient].Read(handId, p, given.value[p]);
      assert agents[recipient].CanRead(handId, p, given.value[p], ss, recipient);
      assert card == Some(CardDealt(t, ss, p));
      if card.None? {
        return None;
      }
      hand := hand + [card.value];
    }
    r := Some(hand);
  }

  /** One agent reads a board card, leaving out its own disclosure. */
  method ReadBoardCard(t: Table, agents: seq<Agent>, handId: string, seat: int, p: int, all: map<int, nat>, ghost ss: seq<Secrets>, ghost deck: Deck)
    returns (r: Option<Card>)
    requires Complete(t, agents, handId, ss, deck) && 0 <= seat < |agents| && 0 <= p < DECK_SIZE
    requires GivenTo(all, ss, |ss|, -1, p)
    ensures r == Some(CardDealt(t, ss, p))
  {
    hide Dealt, Fair, GivenTo;
    var others := all - {seat};
    OthersOnly(all, ss, seat, p);
    CanReadIt(t, agents, handId, ss, deck, seat, p, others);
    r := agents[seat].Read(handId, p, others);
    assert agents[seat].CanRead(handId, p, others, ss, seat);
  }

  lemma OthersOnly(all: map<int, nat>, ss: seq<Secrets>, seat: int, p: int)
    requires GivenTo(all, ss, |ss|, -1, p)
    ensures GivenTo(all - {seat}, ss, |ss|, seat, p)
  {
  }

  /** Two seats read every board card, and always agree. */
  method ReadBoard(t: Table, agents: seq<Agent>, handId: string, positions: seq<int>, ghost ss: seq<Secrets>, ghost deck: Deck)
    returns (r: Option<seq<Card>>)
    requires Complete(t, agents, handId, ss, deck) && |agents| >= 2
    ensures r.Some? <==> positions != [] && InDeck(positions, DECK_SIZE)
    ensures r.Some? ==> |r.value| == |positions|
    ensures r.Some? ==> forall j :: 0 <= j < |positions| ==> r.value[j] == CardDealt(t, ss, positions[j])
  {
    hide Dealt, Fair, GivenTo, CardAt;
    var given := Collect(t, agents, handId, -1, positions, ss, deck);
    if given.None? {
      return None;
    }
    var board: seq<Card> := [];
    for j := 0 to |positions|
      invariant |board| == j && forall k :: 0 <= k < j ==> board[k] == CardDealt(t, ss, positions[k])
    {
      var p := positions[j];
      var first := ReadBoardCard(t, agents, handId, 0, p, given.value[p], ss, deck);
      var second := ReadBoardCard(t, agents, handId, 1, p, given.value[p], ss, deck);
      assert first == second;
      if first != second {
        return None;
      }
      board := board + [first.value];
    }
    r := Some(board);
  }

  /** A hand in which seat s holds the cards at its own positions and the board those after them. */
  ghost predicate HandDealt(t: Table, ss: seq<Secrets>, holeCards: int, h: DealtHand)
    requires AllOk(t, ss, DECK_SIZE) && 0 < holeCards && |ss| * holeCards + BOARD_CARDS <= DECK_SIZE
  {
    && |h.hole| == |ss| && |h.board| == BOARD_CARDS
    && (forall s :: 0 <= s < |ss| ==> HoleDealt(t, ss, holeCards, h.hole[s], s))
    && (forall b :: 0 <= b < BOARD_CARDS ==> h.board[b] == CardDealt(t, ss, |ss| * holeCards + b))
  }

  ghost predicate HoleDealt(t: Table, ss: seq<Secrets>, holeCards: int, hole: seq<Card>, s: int)
    requires AllOk(t, ss, DECK_SIZE) && 0 < holeCards && |ss| * holeCards + BOARD_CARDS <= DECK_SIZE && 0 <= s < |ss|
  {
    && |hole| == holeCards
    && forall i :: 0 <= i < holeCards ==> InHand(|ss|, holeCards, s, i) && hole[i] == CardDealt(t, ss, s * holeCards + i)
  }

  ghost predicate InHand(seats: int, holeCards: int, s: int, i: int) {
    0 <= s * holeCards + i < seats * holeCards
  }

  lemma HoleInDeck(seats: int, holeCards: int, s: int, i: int)
    requires 0 <= s < seats && 0 <= i < holeCards
    ensures InHand(seats, holeCards, s, i)
  {
    RowsApart(s, seats, i, 0, holeCards);
    if s > 0 { RowsApart(0, s, 0, 0, holeCards); }
  }

  predicate Fits(seats: int, holeCards: int) {
    holeCards > 0 && seats * holeCards + BOARD_CARDS <= DECK_SIZE
  }

  /** Hole positions read by every seat in turn. */
  method ReadHoles(t: Table, agents: seq<Agent>, handId: string, holeCards: int, positions: seq<seq<int>>, ghost ss: seq<Secrets>, ghost deck: Deck)
    returns (r: Option<seq<seq<Card>>>)
    requires Complete(t, agents, handId, ss, deck) && |agents| >= 2 && |positions| == |agents|
    requires forall s :: 0 <= s < |agents| ==> |positions[s]| == Max0(holeCards)
    requires forall s, i :: 0 <= s < |agents| && 0 <= i < |positions[s]| ==> positions[s][i] == s * Max0(holeCards) + i
    ensures Fits(|agents|, holeCards) ==> r.Some?
    ensures r.Some? ==> holeCards > 0 && |r.value| == |agents|
    ensures r.Some? && Fits(|agents|, holeCards) ==> forall s :: 0 <= s < |agents| ==> HoleDealt(t, ss, holeCards, r.value[s], s)
  {
    hide Dealt, Fair, CardAt;
    var holes: seq<seq<Card>> := [];
    for s := 0 to |agents|
      invariant |holes| == s && (s > 0 ==> holeCards > 0)
      invariant Fits(|agents|, holeCards) ==> forall q :: 0 <= q < s ==> HoleDealt(t, ss, holeCards, holes[q], q)
    {
      var hole := ReadHole(t, agents, handId, s, positions[s], ss, deck);
      if Fits(|agents|, holeCards) {
        PositionsFit(|agents|, holeCards, s, positions[s]);
      }
      if hole.None? {
        return None;
      }
      holes := holes + [hole.value];
    }
    r := Some(holes);
  }

  lemma PositionsFit(seats: int, holeCards: int, s: int, positions: seq<int>)
    requires Fits(seats, holeCards) && 0 <= s < seats && |positions| == Max0(holeCards)
    requires forall i :: 0 <= i < |positions| ==> positions[i] == s * Max0(holeCards) + i
    ensures InDeck(positions, DECK_SIZE) && forall i :: 0 <= i < holeCards ==> InHand(seats, holeCards, s, i)
  {
    forall i | 0 <= i < holeCards
      ensures InHand(seats, holeCards, s, i) && 0 <= positions[i] < DECK_SIZE
    {
      HoleInDeck(seats, holeCards, s, i);
    }
  }

  /** Deals a hand. It succeeds exactly when there are two seats, a hand id, at least one hole card
      each, enough cards, and no seat is bound to a deck of another size; and then every seat has
      read the cards at its own positions and all have read the same board. */
  method RunDeal(t: Table, agents: seq<Agent>, handId: string, holeCards: int, drawn: seq<Secrets>) returns (r: Option<DealtHand>)
    requires Fair(t) && DECK_SIZE < t.curve.order && Team(t, agents)
    requires |drawn| == |agents| && AllOk(t, drawn, DECK_SIZE)
    modifies agents
    ensures Team(t, agents)
    ensures r.Some? <==> |agents| >= 2 && handId != "" && Fits(|agents|, holeCards) && FullDecks(old(CommittedTo(agents, handId, drawn)))
    ensures r.Some? ==>
              var ss := old(CommittedTo(agents, handId, drawn));
              AllOk(t, ss, DECK_SIZE) && Dealt(t, ss, DECK_SIZE, r.value.deck) && HandDealt(t, ss, holeCards, r.value)
  {
    hide Dealt, Fair, CardAt, ShuffleChain, RemaskChain;
    if |agents| < 2 {
      return None;
    }
    ghost var ss := CommittedTo(agents, handId, drawn);
    var ok := CommitAll(t, agents, handId, drawn);
    if !ok {
      return None;
    }
    BaseDeckOk(t, DECK_SIZE);
    var shuffled, a := ShuffleAll(t, agents, handId, BaseDeck(t, DECK_SIZE), ss);
    if shuffled.None? {
      return None;
    }
    var masked, b := RemaskAll(t, agents, handId, shuffled.value, ss);
    var deck := masked.value;
    ok := FinalAll(t, agents, handId, deck, ss);
    NowDealt(t, agents, handId, ss, deck, a, b);
    r := ReadHand(t, agents, handId, holeCards, deck, ss);
  }

  /** Everything that is read once the deck is complete. */
  method ReadHand(t: Table, agents: seq<Agent>, handId: string, holeCards: int, deck: Deck, ghost ss: seq<Secrets>) returns (r: Option<DealtHand>)
    requires Complete(t, agents, handId, ss, deck) && |agents| >= 2
    ensures r.Some? <==> Fits(|agents|, holeCards)
    ensures r.Some? ==> r.value.deck == deck && HandDealt(t, ss, holeCards, r.value)
  {
    hide Dealt, Fair, CardAt;
    var holePositions, boardPositions := HoleAndBoard(|agents|, holeCards);
    var hole := ReadHoles(t, agents, handId, holeCards, holePositions, ss, deck);
    if hole.None? {
      return None;
    }
    var board := ReadBoard(t, agents, handId, boardPositions, ss, deck);
    BoardFits(|agents|, holeCards, boardPositions);
    if board.None? {
      return None;
    }
    r := Some(DealtHand(deck, hole.value, board.value, holePositions, boardPositions));
  }

  lemma BoardFits(seats: nat, holeCards: int, positions: seq<int>)
    requires holeCards > 0 && |positions| == BOARD_CARDS
    requires forall b :: 0 <= b < BOARD_CARDS ==> positions[b] == seats * Max0(holeCards) + b
    ensures InDeck(positions, DECK_SIZE) <==> Fits(seats, holeCards)
  {
    assert seats * holeCards >= 0;
    assert positions[4] == seats * holeCards + 4;
  }

  lemma NowDealt(t: Table, agents: seq<Agent>, handId: string, ss: seq<Secrets>, deck: Deck, a: seq<Deck>, b: seq<Deck>)
    requires DECK_SIZE < t.curve.order && Team(t, agents) && AllSee(agents, handId, ss, deck) && FullDecks(ss)
    requires ShuffleChain(t, ss, a) && RemaskChain(t, ss, b) && a[0] == BaseDeck(t, DECK_SIZE) && a[|ss|] == b[0] && b[|ss|] == deck
    ensures Complete(t, agents, handId, ss, deck)
  {
    hide Fair, ShuffleChain, RemaskChain, SecretsOk;
    assert Chained(t, ss, DECK_SIZE, deck, a, b);
    forall i | 0 <= i < |ss|
      ensures SecretsOk(t, ss[i])
    {
      assert agents[i].Sees(handId, ss[i], deck);
    }
  }

  /** A card in a dealt hand: one of a seat's hole cards or one of the board. */
  datatype Slot = HoleSlot(seat: int, i: int) | BoardSlot(b: int)

  predicate InPlay(seats: int, holeCards: int, x: Slot) {
    match x
    case HoleSlot(s, i) => 0 <= s < seats && 0 <= i < holeCards
    case BoardSlot(b) => 0 <= b < BOARD_CARDS
  }

  function Position(seats: int, holeCards: int, x: Slot): int {
    match x
    case HoleSlot(s, i) => s * holeCards + i
    case BoardSlot(b) => seats * holeCards + b
  }

  ghost function CardIn(t: Table, ss: seq<Secrets>, holeCards: int, h: DealtHand, x: Slot): Card
    requires AllOk(t, ss, DECK_SIZE) && Fits(|ss|, holeCards) && HandDealt(t, ss, holeCards, h) && InPlay(|ss|, holeCards, x)
  {
    match x
    case HoleSlot(s, i) => assert HoleDealt(t, ss, holeCards, h.hole[s], s); h.hole[s][i]
    case BoardSlot(b) => h.board[b]
  }

  lemma PositionsDiffer(seats: int, holeCards: int, x: Slot, y: Slot)
    requires Fits(seats, holeCards) && seats > 0 && InPlay(seats, holeCards, x) && InPlay(seats, holeCards, y) && x != y
    ensures 0 <= Position(seats, holeCards, x) < DECK_SIZE && 0 <= Position(seats, holeCards, y) < DECK_SIZE
    ensures Position(seats, holeCards, x) != Position(seats, holeCards, y)
  {
    RowsApart(0, seats, 0, 0, holeCards);
    if x.HoleSlot? { HoleInDeck(seats, holeCards, x.seat, x.i); }
    if y.HoleSlot? { HoleInDeck(seats, holeCards, y.seat, y.i); }
    if x.HoleSlot? && y.HoleSlot? {
      if x.seat < y.seat { RowsApart(x.seat, y.seat, x.i, y.i, holeCards); }
      if y.seat < x.seat { RowsApart(y.seat, x.seat, y.i, x.i, holeCards); }
    }
  }

  lemma RowsApart(lo: int, hi: int, i: int, j: int, h: int)
    requires lo < hi && 0 <= i < h && 0 <= j < h
    ensures lo * h + i < hi * h + j
  {
    var d := hi - lo - 1;
    assert d * h >= 0;
    assert hi * h == (lo + 1 + d) * h == lo * h + h + d * h;
  }

  /** No card is dealt twice, to two seats, to a seat and the board, or twice to either. */
  lemma NoCardTwice(t: Table, ss: seq<Secrets>, holeCards: int, h: DealtHand, x: Slot, y: Slot)
    requires AllOk(t, ss, DECK_SIZE) && Fits(|ss|, holeCards) && HandDealt(t, ss, holeCards, h) && |ss| > 0
    requires InPlay(|ss|, holeCards, x) && InPlay(|ss|, holeCards, y) && x != y
    ensures CardIn(t, ss, holeCards, h, x) != CardIn(t, ss, holeCards, h, y)
  {
    hide CardAt;
    PositionsDiffer(|ss|, holeCards, x, y);
    var p, q := Position(|ss|, holeCards, x), Position(|ss|, holeCards, y);
    Sized(t, ss, p);
    CardsDiffer(ss, DECK_SIZE, p, q);
    CardInPosition(t, ss, holeCards, h, x);
    CardInPosition(t, ss, holeCards, h, y);
  }

  lemma CardInPosition(t: Table, ss: seq<Secrets>, holeCards: int, h: DealtHand, x: Slot)
    requires AllOk(t, ss, DECK_SIZE) && Fits(|ss|, holeCards) && HandDealt(t, ss, holeCards, h) && InPlay(|ss|, holeCards, x)
    requires 0 <= Position(|ss|, holeCards, x) < DECK_SIZE
    ensures CardIn(t, ss, holeCards, h, x) == CardDealt(t, ss, Position(|ss|, holeCards, x))
  {
    hide CardAt;
  }
}
