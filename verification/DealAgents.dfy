/** The agents that hold the secrets of a deal, and the coordinator that takes them through it. */
module DealAgents {
  import opened Modular
  import opened Curve
  import opened Options
  import opened MentalPoker
  import opened Deal
  import opened Cards
  import opened Unordered

  /** One hand's secrets and the deck the agent last saw. */
  datatype Record = Record(secrets: Secrets, deck: Deck)

  /** A seat's agent. Only it ever uses its own secrets. */
  class Agent {
    const table: Table
    var hands: map<string, Record>

    constructor (t: Table)
      requires Fair(t)
      ensures table == t && hands == map[] && Valid()
    {
      table := t;
      hands := map[];
    }

    ghost predicate Valid()
      reads this
    {
      Fair(table) && forall h :: h in hands ==> SecretsOk(table, hands[h].secrets)
    }

    /** This agent's secrets for the hand are s. */
    ghost predicate Knows(handId: string, s: Secrets)
      reads this
    {
      Valid() && handId in hands && hands[handId].secrets == s
    }

    /** ... and the deck it last saw is d. */
    ghost predicate Sees(handId: string, s: Secrets, d: Deck)
      reads this
    {
      Knows(handId, s) && hands[handId].deck == d
    }

    /** Commits to fresh secrets, or keeps those already committed to for this hand. */
    method Commit(handId: string, deckSize: int, seats: int, drawn: Secrets) returns (ok: bool)
      requires Valid() && SecretsOk(table, drawn) && drawn.deckSize == if deckSize <= 0 then DECK_SIZE else deckSize
      modifies this`hands
      ensures Valid() && (ok <==> handId != "" && seats >= 2)
      ensures hands == if ok && handId !in old(hands) then old(hands)[handId := Record(drawn, [])] else old(hands)
    {
      if handId == "" || seats < 2 {
        return false;
      }
      if handId !in hands {
        hands := hands[handId := Record(drawn, [])];
      }
      ok := true;
    }

    /** A pass request is usable when the hand is known, every point is proper and the size is right. */
    ghost predicate Usable(handId: string, deck: Deck)
      reads this
    {
      handId in hands && DeckOk(table, deck) && |deck| > 0 && |deck| == hands[handId].secrets.deckSize
    }

    method Input(handId: string, deck: Deck) returns (ok: bool)
      ensures ok <==> Usable(handId, deck)
      ensures ok <==> handId in hands && deck != [] && |deck| == hands[handId].secrets.deckSize
                      && forall i :: 0 <= i < |deck| ==> deck[i].Affine? && OnCurve(table.curve, deck[i])
    {
      if handId !in hands || |deck| == 0 {
        return false;
      }
      for i := 0 to |deck|
        invariant forall j :: 0 <= j < i ==> PointOk(table, deck[j])
      {
        if !PointOk(table, deck[i]) {
          return false;
        }
      }
      ok := |deck| == hands[handId].secrets.deckSize;
    }

    method Shuffle(handId: string, deck: Deck) returns (r: Option<Deck>)
      requires Valid()
      modifies this`hands
      ensures Valid() && (r.Some? <==> old(Usable(handId, deck)))
      ensures r.None? ==> hands == old(hands)
      ensures r.Some? ==> ShufflePass(table, old(hands)[handId].secrets, deck, r.value) && DeckOk(table, r.value)
      ensures r.Some? ==> hands == old(hands)[handId := old(hands)[handId].(deck := r.value)]
    {
      var ok := Input(handId, deck);
      if !ok {
        return None;
      }
      var s := hands[handId].secrets;
      r := ShuffleStep(table, deck, s.global, s.perm);
      hands := hands[handId := hands[handId].(deck := r.value)];
    }

    method Remask(handId: string, deck: Deck) returns (r: Option<Deck>)
      requires Valid()
      modifies this`hands
      ensures Valid() && (r.Some? <==> old(Usable(handId, deck)))
      ensures r.None? ==> hands == old(hands)
      ensures r.Some? ==> RemaskPass(table, old(hands)[handId].secrets, deck, r.value) && DeckOk(table, r.value)
      ensures r.Some? ==> hands == old(hands)[handId := old(hands)[handId].(deck := r.value)]
    {
      var ok := Input(handId, deck);
      if !ok {
        return None;
      }
      var s := hands[handId].secrets;
      r := RemaskStep(table, deck, s.global, s.own);
      hands := hands[handId := hands[handId].(deck := r.value)];
    }

    method Final(handId: string, deck: Deck) returns (ok: bool)
      requires Valid()
      modifies this`hands
      ensures Valid() && (ok <==> old(Usable(handId, deck)))
      ensures hands == if ok then old(hands)[handId := old(hands)[handId].(deck := deck)] else old(hands)
    {
      ok := Input(handId, deck);
      if ok { hands := hands[handId := hands[handId].(deck := deck)]; }
    }

    /** Discloses this seat's scalars for the positions asked for, and no others. */
    method Reveal(handId: string, positions: seq<int>) returns (r: Option<seq<nat>>)
      ensures r.Some? <==> handId in hands && positions != [] && InDeck(positions, |hands[handId].secrets.own|)
      ensures r.Some? ==> |r.value| == |positions|
      ensures r.Some? ==> forall j :: 0 <= j < |positions| ==> r.value[j] == hands[handId].secrets.own[positions[j]]
    {
      if handId !in hands || |positions| == 0 {
        return None;
      }
      var own := hands[handId].secrets.own;
      var out := [];
      for j := 0 to |positions|
        invariant |out| == j && forall k :: 0 <= k < j ==> 0 <= positions[k] < |own| && out[k] == own[positions[k]]
      {
        if positions[j] < 0 || positions[j] >= |own| {
          return None;
        }
        out := out + [own[positions[j]]];
      }
      r := Some(out);
    }

    /** Reads a card with this seat's own scalar and the disclosures, taken in any order. */
    method Read(handId: string, position: int, disclosures: map<int, nat>) returns (r: Option<Card>)
      requires Valid()
      ensures forall ss: seq<Secrets>, seat: int :: CanRead(handId, position, disclosures, ss, seat) ==>
                                                      r == Some(FromIndex(CardAt(ss, DECK_SIZE, position)))
      ensures r.Some? ==> handId in hands && exists j, order, scalars :: OpensAs(hands[handId], position, disclosures, order, scalars, j) && r == Some(FromIndex(j))
    {
      hide Strip, CardPoint, Dealt, Fair, Discloses, AllOk, CardAt, PointOk, Gathered;
      if handId !in hands {
        return None;
      }
      var record := hands[handId];
      Complete(this, handId, position, disclosures);
      if position < 0 || position >= |record.secrets.own| || |record.deck| == 0 {
        return None;
      }
      var scalars, order := Gather(handId, position, disclosures, record.secrets.own[position]);
      if scalars.None? {
        return None;
      }
      var point := UnmaskPosition(table, record.deck, position, scalars.value);
      OpensFor(this, handId, position, disclosures, order, scalars.value);
      if point.None? {
        return None;
      }
      var idx := CardIndexOf(table, point.value, record.secrets.deckSize);
      IndexFor(this, handId, position, disclosures, point.value, idx);
      if idx.None? || idx.value >= DECK_SIZE {
        return None;
      }
      assert OpensAs(record, position, disclosures, order, scalars.value, idx.value);
      r := Some(FromIndex(idx.value));
    }

    /** Under the seat's own scalar and the disclosed ones, each a proper scalar and taken once, the
        position of the deck last seen holds card j. */
    ghost predicate OpensAs(rec: Record, position: int, disclosures: map<int, nat>, order: seq<int>, scalars: seq<nat>, j: int) {
      && 0 <= position < |rec.deck| && position < |rec.secrets.own| && 0 <= j < rec.secrets.deckSize && j < DECK_SIZE
      && Gathered(disclosures, rec.secrets.own[position], order, scalars)
      && (forall k :: k in disclosures ==> ScalarOk(table, disclosures[k]))
      && CardPoint(table, j).Some? && Strip(table, rec.deck[position], scalars) == CardPoint(table, j)
    }

    /** The seat's own scalar and every disclosed one, or nothing when one is not a scalar. */
    method Gather(handId: string, position: int, disclosures: map<int, nat>, own: nat)
      returns (scalars: Option<seq<nat>>, ghost order: seq<int>)
      ensures scalars.None? ==> forall ss: seq<Secrets>, seat: int :: !CanRead(handId, position, disclosures, ss, seat)
      ensures scalars.Some? ==> Gathered(disclosures, own, order, scalars.value) && forall k :: k in disclosures ==> ScalarOk(table, disclosures[k])
    {
      hide CanRead;
      var keys := AnyOrder(disclosures.Keys);
      order := keys;
      assert forall i :: 0 <= i < |keys| ==> keys[i] in keys;
      var all := [own];
      for k := 0 to |keys|
        invariant |all| == k + 1 && all[0] == own
        invariant forall i :: 0 <= i < k ==> keys[i] in disclosures && all[i + 1] == disclosures[keys[i]] && ScalarOk(table, disclosures[keys[i]])
      {
        assert keys[k] in disclosures;
        DisclosedOk(this, handId, position, disclosures, keys[k]);
        if !ScalarOk(table, disclosures[keys[k]]) {
          return None, keys;
        }
        all := all + [disclosures[keys[k]]];
      }
      scalars := Some(all);
    }

    /** This agent is seat in a completed deal with secrets ss, and the disclosures are all the
        other seats' scalars for the position. */
    ghost predicate CanRead(handId: string, position: int, disclosures: map<int, nat>, ss: seq<Secrets>, seat: int)
      reads this
    {
      && 0 <= seat < |ss| && 0 <= position < DECK_SIZE < table.curve.order && AllOk(table, ss, DECK_SIZE)
      && Knows(handId, ss[seat]) && Dealt(table, ss, DECK_SIZE, hands[handId].deck)
      && Discloses(disclosures, ss, seat, position)
    }
  }

  /** A seat's own scalar, and then the disclosed ones in some order, each once. */
  ghost predicate Gathered(given: map<int, nat>, own: nat, order: seq<int>, scalars: seq<nat>) {
    && (forall y :: y in order <==> y in given) && (forall i, j :: 0 <= i < j < |order| ==> order[i] != order[j])
    && |scalars| == |order| + 1 && scalars[0] == own
    && forall i :: 0 <= i < |order| ==> order[i] in given && scalars[i + 1] == given[order[i]]
  }

  ghost predicate InDeck(positions: seq<int>, n: int) {
    forall j :: 0 <= j < |positions| ==> 0 <= positions[j] < n
  }

  /** Exactly the other seats' scalars for one position. */
  ghost predicate Discloses(given: map<int, nat>, ss: seq<Secrets>, seat: int, p: int) {
    && (forall k :: k in given <==> 0 <= k < |ss| && k != seat)
    && (forall k :: k in given ==> 0 <= k < |ss| && 0 <= p < |ss[k].own| && given[k] == ss[k].own[p])
  }

  lemma Complete(a: Agent, handId: string, p: int, given: map<int, nat>)
    requires handId in a.hands
    ensures forall ss: seq<Secrets>, seat: int :: a.CanRead(handId, p, given, ss, seat) ==>
                                                    0 <= p < |a.hands[handId].secrets.own| && |a.hands[handId].deck| == DECK_SIZE
  {
    forall ss: seq<Secrets>, seat: int | a.CanRead(handId, p, given, ss, seat)
      ensures 0 <= p < |a.hands[handId].secrets.own| && |a.hands[handId].deck| == DECK_SIZE
    {
      hide Dealt, Fair, Discloses, CardPoint;
      assert SecretsOk(a.table, ss[seat]);
      FinalDeck(a.table, ss, DECK_SIZE, a.hands[handId].deck, 0);
    }
  }

  lemma DisclosedOk(a: Agent, handId: string, p: int, given: map<int, nat>, k: int)
    requires k in given
    ensures forall ss: seq<Secrets>, seat: int :: a.CanRead(handId, p, given, ss, seat) ==> ScalarOk(a.table, given[k])
  {
    hide Dealt, Agent.Knows;
    forall ss: seq<Secrets>, seat: int | a.CanRead(handId, p, given, ss, seat)
      ensures ScalarOk(a.table, given[k])
    {
      assert SecretsOk(a.table, ss[k]);
    }
  }

  // ----- any order of the keys gives the same scalars -----

  /** A list without repeats whose members are 0 .. m - 1 has m of them. */
  lemma {:induction false} CoverLength(xs: seq<int>, m: nat)
    requires (forall i, j :: 0 <= i < j < |xs| ==> xs[i] != xs[j]) && forall y :: y in xs <==> 0 <= y < m
    ensures |xs| == m
  {
    assert |xs| == 0 || xs[0] in xs;
    if m > 0 {
      assert m - 1 in xs;
      var j :| 0 <= j < |xs| && xs[j] == m - 1;
      var rest := xs[..j] + xs[j + 1..];
      Without(xs, j);
      CoverLength(rest, m - 1);
    }
  }

  lemma Without(xs: seq<int>, j: int)
    requires 0 <= j < |xs| && forall i, k :: 0 <= i < k < |xs| ==> xs[i] != xs[k]
    ensures var rest := xs[..j] + xs[j + 1..];
            && (forall i, k :: 0 <= i < k < |rest| ==> rest[i] != rest[k])
            && (forall y :: y in rest <==> y in xs && y != xs[j])
  {
    var rest := xs[..j] + xs[j + 1..];
    assert forall i :: 0 <= i < |rest| ==> rest[i] == if i < j then xs[i] else xs[i + 1];
    forall y
      ensures y in rest <==> y in xs && y != xs[j]
    {
      if y in xs && y != xs[j] {
        var i :| 0 <= i < |xs| && xs[i] == y;
        assert rest[if i < j then i else i - 1] == y;
      }
    }
  }

  function Taken(f: seq<nat>, order: seq<int>): (r: seq<nat>)
    requires forall i :: 0 <= i < |order| ==> 0 <= order[i] < |f|
  {
    seq(|order|, i requires 0 <= i < |order| => f[order[i]])
  }

  lemma {:induction false} TakenAll(f: seq<nat>, order: seq<int>)
    requires IsPermutation(order, |f|)
    ensures multiset(Taken(f, order)) == multiset(f)
    decreases |f|
  {
    if f != [] {
      var n := |f| - 1;
      var j := Preimage(order, n);
      var rest := order[..j] + order[j + 1..];
      Without(order, j);
      RestPermutes(order, j);
      TakenAll(f[..n], rest);
      var a, b := Taken(f, order)[..j], Taken(f, order)[j + 1..];
      assert Taken(f, order) == a + [f[n]] + b;
      assert Taken(f[..n], rest) == a + b;
      assert f == f[..n] + [f[n]];
      Middle(a, b, f[n]);
    }
  }

  lemma RestPermutes(order: seq<int>, j: int)
    requires 0 <= j < |order| && IsPermutation(order, |order|) && order[j] == |order| - 1
    ensures IsPermutation(order[..j] + order[j + 1..], |order| - 1)
  {
    var rest := order[..j] + order[j + 1..];
    assert forall i :: 0 <= i < |rest| ==> rest[i] == if i < j then order[i] else order[i + 1];
  }

  lemma Middle(a: seq<nat>, b: seq<nat>, x: nat)
    ensures multiset(a + [x] + b) == multiset(a + b) + multiset{x}
  {
  }

  lemma AllScalars(given: map<int, nat>, ss: seq<Secrets>, seat: int, p: int, order: seq<int>, scalars: seq<nat>)
    requires 0 <= seat < |ss| && (forall k :: 0 <= k < |ss| ==> 0 <= p < |ss[k].own|) && Discloses(given, ss, seat, p)
    requires Gathered(given, ss[seat].own[p], order, scalars)
    ensures multiset(scalars) == multiset(OwnAt(ss, p))
  {
    var all := [seat] + order;
    assert forall i :: 0 <= i < |order| ==> order[i] in order;
    assert forall i, j :: 0 <= i < j < |all| ==> all[i] != all[j];
    forall y
      ensures y in all <==> 0 <= y < |ss|
    {
      assert y in all <==> y == seat || y in order;
    }
    CoverLength(all, |ss|);
    assert forall i :: 0 <= i < |all| ==> all[i] in all;
    TakenAll(OwnAt(ss, p), all);
    assert scalars == Taken(OwnAt(ss, p), all);
  }

  lemma OpensFor(a: Agent, handId: string, p: int, given: map<int, nat>, order: seq<int>, scalars: seq<nat>)
    requires a.Valid() && handId in a.hands && 0 <= p < |a.hands[handId].secrets.own|
    requires Gathered(given, a.hands[handId].secrets.own[p], order, scalars)
    ensures forall ss: seq<Secrets>, seat: int :: a.CanRead(handId, p, given, ss, seat) ==>
                                                    && p < |a.hands[handId].deck| && CardPoint(a.table, CardAt(ss, DECK_SIZE, p)).Some?
                                                    && Strip(a.table, a.hands[handId].deck[p], scalars) == CardPoint(a.table, CardAt(ss, DECK_SIZE, p))
  {
    forall ss: seq<Secrets>, seat: int | a.CanRead(handId, p, given, ss, seat)
      ensures p < |a.hands[handId].deck| && CardPoint(a.table, CardAt(ss, DECK_SIZE, p)).Some?
      ensures Strip(a.table, a.hands[handId].deck[p], scalars) == CardPoint(a.table, CardAt(ss, DECK_SIZE, p))
    {
      hide Dealt, Strip, CardPoint, Fair, Discloses;
      forall k | 0 <= k < |ss|
        ensures 0 <= p < |ss[k].own|
      {
        assert SecretsOk(a.table, ss[k]);
      }
      AllScalars(given, ss, seat, p, order, scalars);
      ReadsCard(a.table, ss, DECK_SIZE, a.hands[handId].deck, p, scalars);
      CardPointOk(a.table, CardAt(ss, DECK_SIZE, p));
    }
  }

  lemma IndexFor(a: Agent, handId: string, p: int, given: map<int, nat>, point: Point, idx: Option<int>)
    requires a.Valid() && handId in a.hands
    requires idx.Some? ==> CardPoint(a.table, idx.value) == Some(point)
    requires idx.None? ==> !PointOk(a.table, point) || forall i :: 0 <= i < a.hands[handId].secrets.deckSize ==> CardPoint(a.table, i) != Some(point)
    ensures forall ss: seq<Secrets>, seat: int :: a.CanRead(handId, p, given, ss, seat) ==>
                                                    CardPoint(a.table, CardAt(ss, DECK_SIZE, p)) == Some(point) ==>
                                                      idx == Some(CardAt(ss, DECK_SIZE, p))
  {
    forall ss: seq<Secrets>, seat: int
      | a.CanRead(handId, p, given, ss, seat) && CardPoint(a.table, CardAt(ss, DECK_SIZE, p)) == Some(point)
      ensures idx == Some(CardAt(ss, DECK_SIZE, p))
    {
      hide Dealt, CardPoint, Fair, Discloses, PointOk;
      assert SecretsOk(a.table, ss[seat]);
      var i := CardAt(ss, DECK_SIZE, p);
      CardPointOk(a.table, i);
      if idx.Some? { CardPointsDiffer(a.table, i, idx.value); }
    }
  }
}
