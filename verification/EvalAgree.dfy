/**
 The three evaluators against each other: the on-chain single pass equals the reference's exhaustive
 search, and the TypeScript and Go searches order hands alike despite their different encodings.
 */
module EvalAgree {
  import opened Ratings
  import opened Sums
  import opened BestHand
  import opened FiveCards
  import opened Scores
  import opened Combinations
  import opened Cards
  import E7 = Eval7
  import opened EvalGo
  import opened EvalTs

  // ----- five distinct cards: rank groups against the single pass -----

  lemma {:induction false} CountsMatch(cs: seq<int>, r: int)
    requires AllIndices(cs) && NoDuplicates(cs) && 0 <= r < RANKS
    ensures CountRank(E7.CardSet(cs), r) == RankTally(multiset(CardsOf(cs)), r)
  {
    if cs == [] {
      assert E7.CardSet(cs) == {} && CardsOf(cs) == [];
    } else {
      hide CountRank, RankTally, E7.CardSet;
      var n := |cs| - 1;
      var x := cs[n];
      CountsMatch(cs[..n], r);
      assert cs[..n + 1] == cs;
      E7.NextCard(cs, n);
      AddCard(E7.CardSet(cs[..n]), x, x / 4, r);
      LastIndex(cs);
      assert multiset(CardsOf(cs)) == multiset(CardsOf(cs[..n])) + multiset{FromIndex(x)};
      TallyAdd(multiset(CardsOf(cs[..n])), FromIndex(x), r);
    }
  }

  lemma {:induction false} SinglesDescend(c: seq<int>, n: nat, want: nat)
    requires n <= |c| && forall r :: 0 <= r < |c| ==> 0 <= c[r] <= 1
    requires Available(Present(c), -1, -1, n) <= want
    ensures DescendingRanks(c, n) == Top(Present(c), -1, -1, want, n)
  {
    if n > 0 {
      var b := Present(c);
      DescendingNext(c, n);
      TopZero(b, n);
      TopZero(b, n - 1);
      hide DescendingRanks, Top;
      if want > 0 { TopNext(b, -1, -1, want, n); }
      if c[n - 1] == 1 {
        SinglesDescend(c, n - 1, want - 1);
      } else {
        SinglesDescend(c, n - 1, want);
      }
    }
  }

  lemma DescendingNext(c: seq<int>, n: nat)
    requires 0 < n <= |c| && 0 <= c[n - 1] <= 1
    ensures DescendingRanks(c, n) == (if c[n - 1] == 1 then [n - 1] else []) + DescendingRanks(c, n - 1)
  {
    assert Repeat(n - 1, 0) == [];
    assert Repeat(n - 1, 1) == [n - 1] + Repeat(n - 1, 0);
  }

  lemma TopZero(b: seq<bool>, n: nat)
    requires n <= |b|
    ensures Top(b, -1, -1, 0, n) == []
  {
  }

  lemma AllSuited(s: set<int>, u: int)
    requires InDeck(s) && |s| == 5 && 0 <= u < 4
    ensures CountSuit(s, u) >= 5 <==> forall c :: c in s ==> c % 4 == u
  {
    hide Available;
    SuitCounted(s, u, RANKS);
    var a := OfSuit(s, u, RANKS);
    if forall c :: c in s ==> c % 4 == u {
      assert a == s;
    }
    if |a| >= 5 {
      var rest := s - a;
      assert s == a + rest;
      assert |a + rest| == |a| + |rest|;
      assert rest == {};
    }
  }

  lemma FlushMatches(cs: seq<int>)
    requires FiveIndices(cs) && NoDuplicates(cs)
    ensures var p := ProfileOf(E7.CardSet(cs));
            && p.flush == OneSuit(multiset(CardsOf(cs)))
            && (p.flush ==> p.suited == Present(p.count) && forall r :: 0 <= r < RANKS ==> p.count[r] <= 1)
  {
    hide CountSuit, SuitRanks;
    var s := E7.CardSet(cs);
    E7.SevenCards(cs);
    SuitsMatch(cs);
    if SameSuit(cs) {
      AllSuited(s, cs[0] % 4);
      OneFlush(s, cs[0] % 4);
    }
    var u := FlushSuit(s);
    if u >= 0 {
      AllSuited(s, u);
      assert forall i :: 0 <= i < 5 ==> cs[i] in s;
      SuitedCounts(s, u);
    }
  }

  lemma SuitedCounts(s: set<int>, u: int)
    requires 0 <= u < 4 && forall c :: c in s ==> c % 4 == u
    ensures forall r :: 0 <= r < RANKS ==> CountRank(s, r) == One(4 * r + u in s)
    ensures SuitRanks(s, u) == Present(Counts(s))
  {
    forall r | 0 <= r < RANKS
      ensures CountRank(s, r) == One(4 * r + u in s)
    {
      assert (4 * r) % 4 == 0 && (4 * r + 1) % 4 == 1 && (4 * r + 2) % 4 == 2 && (4 * r + 3) % 4 == 3;
    }
  }

  /** On five distinct cards the group evaluators rate what the single pass rates. */
  lemma FiveAgree(cs: seq<int>)
    requires FiveIndices(cs) && NoDuplicates(cs)
    ensures FiveValid(CardsOf(cs)) && FiveRating(CardsOf(cs)) == Evaluate(ProfileOf(E7.CardSet(cs)))
    ensures WellFormed(FiveRating(CardsOf(cs)))
  {
    hide Evaluate, Tallies, OneSuit, BestStraight, GroupsOf, DescendingRanks, Sum, Rate, CountRank, RankTally, FlushSuit, SuitRanks, IsGroups, Shows;
    var s := E7.CardSet(cs);
    var p, five := ProfileOf(s), CardsOf(cs);
    E7.SevenCards(cs);
    CardsCounted(s);
    FiveCountsMatch(cs);
    FlushMatches(cs);
    FiveGroups(five);
    if forall r :: 0 <= r < RANKS ==> p.count[r] <= 1 {
      AtMostRanks(p.count, -1, -1, RANKS);
      assert p.count[..RANKS] == p.count;
      SinglesDescend(p.count, RANKS, 5);
    }
    RateIsEvaluate(p, BestStraight(Present(p.count), 12), GroupsOf(p.count, 5), DescendingRanks(p.count, RANKS));
    HandPlayable(s);
    EvaluateShows(p);
    ShownWellFormed(p, Evaluate(p));
  }

  lemma FiveCountsMatch(cs: seq<int>)
    requires AllIndices(cs) && NoDuplicates(cs)
    ensures Counts(E7.CardSet(cs)) == Tallies(multiset(CardsOf(cs)))
  {
    hide CountRank, RankTally;
    forall r | 0 <= r < RANKS
      ensures Counts(E7.CardSet(cs))[r] == Tallies(multiset(CardsOf(cs)))[r]
    {
      CountsMatch(cs, r);
    }
  }

  // ----- choices of indices against subsets of cards -----

  lemma PickDistinct(cards: seq<int>, idx: seq<int>)
    requires AllIndices(cards) && NoDuplicates(cards) && IsChoice(idx, |cards|, 5)
    ensures InBounds(cards, idx) && FiveIndices(Pick(cards, idx)) && NoDuplicates(Pick(cards, idx))
    ensures FiveOf(E7.CardSet(Pick(cards, idx)), E7.CardSet(cards))
  {
    assert InBounds(cards, idx);
    var five := Pick(cards, idx);
    forall i, j | 0 <= i < j < 5
      ensures five[i] != five[j]
    {
      assert idx[i] < idx[j];
    }
    E7.SevenCards(five);
  }

  lemma PickScored(cards: seq<int>, idx: seq<int>)
    requires AllIndices(cards) && NoDuplicates(cards) && IsChoice(idx, |cards|, 5)
    ensures FiveIndices(Pick(cards, idx))
    ensures PickedScore(cards, idx) == Encode(Evaluate(ProfileOf(E7.CardSet(Pick(cards, idx)))), 1)
  {
    hide Score5Of, Encode, Evaluate, ProfileOf, FiveRating, IsChoice, E7.CardSet, NoDuplicates;
    PickDistinct(cards, idx);
    Score5Agrees(Pick(cards, idx));
    FiveAgree(Pick(cards, idx));
  }

  lemma SubsetPicked(cards: seq<int>, s: set<int>) returns (idx: seq<int>)
    requires FiveOf(s, E7.CardSet(cards))
    ensures IsChoice(idx, |cards|, 5) && E7.CardSet(Pick(cards, idx)) == s
  {
    forall c
      ensures multiset(s)[c] <= multiset(cards)[c]
    {
      if c in s { assert c in cards; }
    }
    idx := SubIsChoice(cards, multiset(s));
    var five := Pick(cards, idx);
    forall c
      ensures c in E7.CardSet(five) <==> c in s
    {
      assert c in five <==> c in multiset(five);
    }
  }

  /** Seven distinct cards: the score the contract accepts is the reference's best score. */
  lemma OnChainIsReference(cards: seq<int>, s: int)
    requires |cards| == 7 && AllIndices(cards) && NoDuplicates(cards) && IsBestPick(cards, s)
    ensures s == Encode(Evaluate(ProfileOf(E7.CardSet(cards))), 1)
  {
    hide PickedScore, Encode, Evaluate, ProfileOf, IsChoice, E7.CardSet, NoDuplicates, AllIndices, RatingLe, WellFormed, Pick;
    var t := E7.CardSet(cards);
    var e := Evaluate(ProfileOf(t));
    SevenDistinct(cards);
    OnePassIsBest(t);
    var top :| FiveOf(top, t) && Evaluate(ProfileOf(top)) == e;
    var idx := SubsetPicked(cards, top);
    PickScored(cards, idx);
    var best :| IsChoice(best, |cards|, 5) && PickedScore(cards, best) == s;
    PickScored(cards, best);
    var sub := E7.CardSet(Pick(cards, best));
    PickDistinct(cards, best);
    assert NotAbove(sub, e);
    EncodeOrders(Evaluate(ProfileOf(sub)), e, 1);
  }

  lemma SevenDistinct(cards: seq<int>)
    requires |cards| == 7 && AllIndices(cards) && NoDuplicates(cards)
    ensures InDeck(E7.CardSet(cards)) && |E7.CardSet(cards)| == 7
  {
    E7.SevenCards(cards);
  }

  // ----- TypeScript against Go, on any number of cards -----

  lemma PoolPick(cards: seq<int>, idx: seq<int>)
    requires AllIndices(cards) && NoDuplicates(cards) && IsChoice(idx, |cards|, 5)
    ensures FiveIndices(Pick(cards, idx)) && FiveValid(CardsOf(Pick(cards, idx)))
    ensures Allowed(CardsOf(cards), [], 0, CardsOf(Pick(cards, idx)))
    ensures PickedScore(cards, idx) == Encode(FiveRating(CardsOf(Pick(cards, idx))), 1)
    ensures WellFormed(FiveRating(CardsOf(Pick(cards, idx))))
  {
    hide Score5Of, Encode, FiveRating, Evaluate, ProfileOf, WellFormed;
    PickDistinct(cards, idx);
    var five := Pick(cards, idx);
    Score5Agrees(five);
    FiveAgree(five);
    assert CardsOf(cards) + [] == CardsOf(cards);
    assert InBounds(CardsOf(cards), idx) && CardsOf(five) == Pick(CardsOf(cards), idx);
    assert PicksPool(CardsOf(cards) + [], idx, CardsOf(five));
  }

  /** The best scores of one hand under both encodings come from one rating. */
  lemma OneRating(cards: seq<int>, s: int, g: int) returns (v: Rating)
    requires AllIndices(cards) && NoDuplicates(cards)
    requires IsBestPick(cards, s) && IsBestScore(CardsOf(cards), [], 0, g)
    ensures WellFormed(v) && s == Encode(v, 1) && g == Encode(v, 2)
  {
    hide PickedScore, Encode, FiveRating, IsChoice, NoDuplicates, AllIndices, RatingLe, WellFormed, Pick, CardsOf;
    var five :| Allowed(CardsOf(cards), [], 0, five) && Scores5(five, g);
    assert CardsOf(cards) + [] == CardsOf(cards);
    var idx :| PicksPool(CardsOf(cards) + [], idx, five);
    SameLengthCards(cards);
    PoolPick(cards, idx);
    PickCommutes(cards, idx);
    v := FiveRating(five);
    var best :| IsChoice(best, |cards|, 5) && PickedScore(cards, best) == s;
    PoolPick(cards, best);
    var other := CardsOf(Pick(cards, best));
    assert ScoresAtMost(other, g);
    EncodeOrders(FiveRating(other), v, 2);
    EncodeOrders(FiveRating(other), v, 1);
  }

  lemma SameLengthCards(cards: seq<int>)
    requires AllIndices(cards)
    ensures |CardsOf(cards)| == |cards|
  {
  }

  lemma PickCommutes(cards: seq<int>, idx: seq<int>)
    requires AllIndices(cards) && IsChoice(idx, |cards|, 5)
    ensures FiveIndices(Pick(cards, idx)) && CardsOf(Pick(cards, idx)) == Pick(CardsOf(cards), idx)
  {
    assert InBounds(cards, idx) && InBounds(CardsOf(cards), idx);
  }

  /** `bestScore` and Go's `Best` order any two hands of five or more distinct cards alike. */
  lemma SameOrder(a: seq<int>, b: seq<int>, sa: int, sb: int, ga: int, gb: int)
    requires AllIndices(a) && NoDuplicates(a) && AllIndices(b) && NoDuplicates(b)
    requires IsBestPick(a, sa) && IsBestScore(CardsOf(a), [], 0, ga)
    requires IsBestPick(b, sb) && IsBestScore(CardsOf(b), [], 0, gb)
    ensures sa <= sb <==> ga <= gb
  {
    hide Encode, IsBestPick, IsBestScore, RatingLe, WellFormed;
    var v := OneRating(a, sa, ga);
    var w := OneRating(b, sb, gb);
    EncodeOrders(v, w, 1);
    EncodeOrders(v, w, 2);
  }
}
