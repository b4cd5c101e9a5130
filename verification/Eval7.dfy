/**
 The on-chain seven-card evaluator: straight-line code generated from the loops below, which count
 ranks and suits once and read the score off the counts.

 Inside the contract a rank is stored plus one, with 0 for none.
 */
module Eval7 {
  import opened Ratings
  import opened Cards
  import opened Sums
  import opened BestHand
  import opened Scores

  function CardSet(cards: seq<int>): set<int> {
    set i | 0 <= i < |cards| :: cards[i]
  }

  // ----- counting -----

  lemma NextCard(cards: seq<int>, i: int)
    requires 0 <= i < |cards| && NoDuplicates(cards)
    ensures CardSet(cards[..i + 1]) == CardSet(cards[..i]) + {cards[i]} && cards[i] !in CardSet(cards[..i])
  {
    assert cards[..i + 1] == cards[..i] + [cards[i]];
  }

  method CountOfRank(cards: seq<int>, r: int) returns (c: int)
    requires AllIndices(cards) && 0 <= r < RANKS
    ensures c >= 0 && (NoDuplicates(cards) ==> c == CountRank(CardSet(cards), r))
  {
    c := 0;
    for i := 0 to |cards|
      invariant c >= 0 && (NoDuplicates(cards) ==> c == CountRank(CardSet(cards[..i]), r))
    {
      if NoDuplicates(cards) {
        NextCard(cards, i);
        AddCard(CardSet(cards[..i]), cards[i], cards[i] / 4, r);
      }
      if cards[i] / 4 == r {
        c := c + 1;
      }
    }
    assert cards[..|cards|] == cards;
  }

  lemma AddSuited(s: set<int>, c: int, u: int)
    requires 0 <= c < DECK && c !in s && 0 <= u < 4
    ensures CountSuit(s + {c}, u) == CountSuit(s, u) + One(c % 4 == u)
  {
    hide Available;
    SuitCounted(s, u, RANKS);
    SuitCounted(s + {c}, u, RANKS);
    var a, b := OfSuit(s, u, RANKS), OfSuit(s + {c}, u, RANKS);
    if c % 4 == u {
      assert b == a + {c};
    } else {
      assert b == a;
    }
  }

  method CountOfSuit(cards: seq<int>, u: int) returns (c: int)
    requires AllIndices(cards) && 0 <= u < 4
    ensures NoDuplicates(cards) ==> c == CountSuit(CardSet(cards), u)
  {
    c := 0;
    assert CardSet(cards[..0]) == {};
    NoneOfSuit(u, RANKS);
    for i := 0 to |cards|
      invariant NoDuplicates(cards) ==> c == CountSuit(CardSet(cards[..i]), u)
    {
      if NoDuplicates(cards) {
        NextCard(cards, i);
        AddSuited(CardSet(cards[..i]), cards[i], u);
      }
      if cards[i] % 4 == u {
        c := c + 1;
      }
    }
    assert cards[..|cards|] == cards;
  }

  lemma {:induction false} NoneOfSuit(u: int, n: nat)
    requires n <= RANKS
    ensures Available(SuitRanks({}, u), -1, -1, n) == 0
  {
    if n > 0 { NoneOfSuit(u, n - 1); }
  }

  method Tally(cards: seq<int>) returns (c: seq<int>)
    requires AllIndices(cards)
    ensures |c| == RANKS && (NoDuplicates(cards) ==> c == Counts(CardSet(cards)))
  {
    c := [];
    for r := 0 to RANKS
      invariant |c| == r
      invariant NoDuplicates(cards) ==> forall x :: 0 <= x < r ==> c[x] == CountRank(CardSet(cards), x)
    {
      var n := CountOfRank(cards, r);
      c := c + [n];
    }
  }

  /** The flush suit plus one, or 0. */
  method FindFlush(cards: seq<int>) returns (fs: int)
    requires AllIndices(cards)
    ensures 0 <= fs <= 4 && (NoDuplicates(cards) ==> fs == FlushSuit(CardSet(cards)) + 1)
  {
    fs := 0;
    for s := 0 to 4
      invariant 0 <= fs <= s
      invariant NoDuplicates(cards) && fs > 0 ==> CountSuit(CardSet(cards), fs - 1) >= 5
      invariant NoDuplicates(cards) ==> forall x :: fs <= x < s ==> CountSuit(CardSet(cards), x) < 5
    {
      var n := CountOfSuit(cards, s);
      if n >= 5 {
        fs := s + 1;
      }
    }
    hide CountSuit;
    assert NoDuplicates(cards) && fs <= 3 ==> CountSuit(CardSet(cards), 3) < 5;
    assert NoDuplicates(cards) && fs <= 2 ==> CountSuit(CardSet(cards), 2) < 5;
    assert NoDuplicates(cards) && fs <= 1 ==> CountSuit(CardSet(cards), 1) < 5;
    assert NoDuplicates(cards) && fs <= 0 ==> CountSuit(CardSet(cards), 0) < 5;
  }

  /** Which ranks of the flush suit are held: all 0 without a flush. */
  method FlushFlags(cards: seq<int>, fs: int) returns (f: seq<int>)
    requires AllIndices(cards) && 0 <= fs <= 4
    ensures |f| == RANKS
    ensures forall r :: 0 <= r < RANKS ==> f[r] == One(fs > 0 && 4 * r + fs - 1 in CardSet(cards))
  {
    f := [];
    for r := 0 to RANKS
      invariant |f| == r
      invariant forall x :: 0 <= x < r ==> f[x] == One(fs > 0 && 4 * x + fs - 1 in CardSet(cards))
    {
      var flag := 0;
      var want := 4 * r + fs - 1;
      for i := 0 to |cards|
        invariant flag == One(fs > 0 && want in CardSet(cards[..i]))
      {
        assert cards[..i + 1] == cards[..i] + [cards[i]];
        assert CardSet(cards[..i + 1]) == CardSet(cards[..i]) + {cards[i]};
        if cards[i] % 4 + 1 == fs && cards[i] / 4 == r {
          flag := 1;
        }
      }
      assert cards[..|cards|] == cards;
      f := f + [flag];
    }
  }

  // ----- reading the counts -----

  /** The highest straight plus one, or 0. */
  method FindStraight(c: seq<int>) returns (st: int)
    requires |c| == RANKS
    ensures st == BestStraight(Present(c), 12) + 1
  {
    hide BestStraight;
    st := 0;
    var h := 12;
    while h > 3
      invariant 3 <= h <= 12
      invariant BestStraight(Present(c), 12) + 1 == if st != 0 then st else BestStraight(Present(c), h) + 1
    {
      StraightStep(Present(c), h);
      if st == 0 && c[h] > 0 && c[h - 1] > 0 && c[h - 2] > 0 && c[h - 3] > 0 && c[h - 4] > 0 {
        st := h + 1;
      }
      h := h - 1;
    }
    StraightStep(Present(c), 3);
    if st == 0 && c[12] > 0 && c[0] > 0 && c[1] > 0 && c[2] > 0 && c[3] > 0 {
      st := 4;
    }
  }

  datatype Groups = Groups(quad: int, trip1: int, trip2: int, pair1: int, pair2: int)

  /** The ranks held four, three and two times, each plus one, or 0. */
  method FindGroups(c: seq<int>) returns (g: Groups)
    requires |c| == RANKS
    ensures g.quad >= 0 && (g.quad == 0 ==> Highest(c, 4, RANKS) < 0)
    ensures g.quad > 0 ==> g.quad <= RANKS && c[g.quad - 1] == 4
    ensures g.trip1 == Highest(c, 3, RANKS) + 1 && g.trip2 == NextHighest(c, 3, Highest(c, 3, RANKS)) + 1
    ensures g.pair1 == Highest(c, 2, RANKS) + 1 && g.pair2 == NextHighest(c, 2, Highest(c, 2, RANKS)) + 1
  {
    var q, trip1, trip2, p1, p2 := 0, 0, 0, 0, 0;
    var r := 12;
    while r >= 0
      invariant -1 <= r <= 12
      invariant 0 <= q <= RANKS && (q > 0 ==> c[q - 1] == 4)
      invariant q == 0 ==> forall x :: r < x < RANKS ==> c[x] != 4
      invariant Found(c, 3, r, trip1, trip2) && Found(c, 2, r, p1, p2)
    {
      if c[r] == 4 { q := r + 1; }
      if c[r] == 3 && trip1 > 0 && trip2 == 0 { trip2 := r + 1; }
      if c[r] == 3 && trip1 == 0 { trip1 := r + 1; }
      if c[r] == 2 && p1 > 0 && p2 == 0 { p2 := r + 1; }
      if c[r] == 2 && p1 == 0 { p1 := r + 1; }
      r := r - 1;
    }
    g := Groups(q, trip1, trip2, p1, p2);
  }

  /** The first two ranks above r that occur m times. */
  ghost predicate Found(c: seq<int>, m: int, r: int, first: int, second: int)
    requires |c| == RANKS && -1 <= r < RANKS
  {
    && (first == 0 || r + 1 < first <= RANKS) && (second == 0 || r + 1 < second < first)
    && (first > 0 ==> c[first - 1] == m) && (second > 0 ==> c[second - 1] == m)
    && (forall x :: first <= x < RANKS && r < x ==> c[x] != m)
    && (forall x :: second <= x < first - 1 && r < x ==> c[x] != m)
  }

  /** The kicker loop: the top ranks left in, written into consecutive slots. */
  method Kickers(flags: seq<int>, ex1: int, ex2: int, wanted: nat, first: nat, before: seq<int>) returns (k: seq<int>)
    requires |flags| == RANKS && |before| == 5 && 1 <= first && first + wanted <= 6
    ensures |k| == 5
    ensures var t := Top(Present(flags), ex1 - 1, ex2 - 1, wanted, RANKS);
            forall i :: 0 <= i < 5 ==>
              k[i] == if first - 1 <= i < first - 1 + |t| then t[i - (first - 1)] + 1 else before[i]
  {
    k := before;
    var want, slot := wanted, first;
    ghost var t := Top(Present(flags), ex1 - 1, ex2 - 1, wanted, RANKS);
    var r := 12;
    while r >= 0
      invariant -1 <= r <= 12 && first <= slot && 0 <= want == wanted - (slot - first) && |k| == 5
      invariant slot - first <= |t|
      invariant t[slot - first..] == Top(Present(flags), ex1 - 1, ex2 - 1, want, r + 1)
      invariant forall i :: 0 <= i < 5 ==>
                  k[i] == if first - 1 <= i < slot - 1 then t[i - (first - 1)] + 1 else before[i]
    {
      if want > 0 && flags[r] > 0 && ex1 != r + 1 && ex2 != r + 1 {
        assert t[slot - first] == r;
        assert t[slot - first + 1..] == t[slot - first..][1..];
        k := k[slot - 1 := r + 1];
        slot := slot + 1;
        want := want - 1;
      }
      r := r - 1;
    }
  }

  // ----- the category chain -----

  /** What the counting passes found is what the profile says. */
  ghost predicate Matches(p: Profile, c: seq<int>, f: seq<int>, fs: int, st: int, sf: int, g: Groups) {
    && Playable(p) && |c| == RANKS && |f| == RANKS && c == p.count && p.flush == (fs > 0)
    && (fs > 0 ==> Present(f) == p.suited)
    && st == BestStraight(Present(c), 12) + 1
    && sf == (if p.flush then BestStraight(p.suited, 12) + 1 else 0)
    && g.quad == Highest(c, 4, RANKS) + 1
    && g.trip1 == Highest(c, 3, RANKS) + 1 && g.trip2 == NextHighest(c, 3, Highest(c, 3, RANKS)) + 1
    && g.pair1 == Highest(c, 2, RANKS) + 1 && g.pair2 == NextHighest(c, 2, Highest(c, 2, RANKS)) + 1
  }

  /** The contract's working state after the category chain. */
  datatype Plan = Plan(cat: int, k1: int, k2: int, ex1: int, ex2: int, want: nat, useFlush: bool, slot: nat)

  method Choose(fs: int, st: int, sf: int, g: Groups) returns (x: Plan)
    ensures x == PlanOf(fs, st, sf, g)
  {
    x := Plan(0, 0, 0, 0, 0, 0, false, 0);
    var done := false;
    if !done && sf > 0 { x := x.(cat := 8, k1 := sf); done := true; }
    if !done && g.quad > 0 { x := x.(cat := 7, k1 := g.quad, ex1 := g.quad, want := 1, slot := 2); done := true; }
    var fh := false;
    if g.trip1 > 0 && g.trip2 > 0 { fh := true; }
    if g.trip1 > 0 && g.pair1 > 0 { fh := true; }
    var fhPair := g.pair1;
    if g.trip2 > g.pair1 { fhPair := g.trip2; }
    if !done && fh { x := x.(cat := 6, k1 := g.trip1, k2 := fhPair); done := true; }
    if !done && fs > 0 { x := x.(cat := 5, want := 5, useFlush := true, slot := 1); done := true; }
    if !done && st > 0 { x := x.(cat := 4, k1 := st); done := true; }
    if !done && g.trip1 > 0 { x := x.(cat := 3, k1 := g.trip1, ex1 := g.trip1, want := 2, slot := 2); done := true; }
    if !done && g.pair2 > 0 {
      x := x.(cat := 2, k1 := g.pair1, k2 := g.pair2, ex1 := g.pair1, ex2 := g.pair2, want := 1, slot := 3);
      done := true;
    }
    if !done && g.pair1 > 0 { x := x.(cat := 1, k1 := g.pair1, ex1 := g.pair1, want := 3, slot := 2); done := true; }
    if !done { x := x.(want := 5, slot := 1); }
  }

  function PlanOf(fs: int, st: int, sf: int, g: Groups): Plan {
    if sf > 0 then Plan(8, sf, 0, 0, 0, 0, false, 0)
    else if g.quad > 0 then Plan(7, g.quad, 0, g.quad, 0, 1, false, 2)
    else if g.trip1 > 0 && (g.trip2 > 0 || g.pair1 > 0) then
      Plan(6, g.trip1, if g.trip2 > g.pair1 then g.trip2 else g.pair1, 0, 0, 0, false, 0)
    else if fs > 0 then Plan(5, 0, 0, 0, 0, 5, true, 1)
    else if st > 0 then Plan(4, st, 0, 0, 0, 0, false, 0)
    else if g.trip1 > 0 then Plan(3, g.trip1, 0, g.trip1, 0, 2, false, 2)
    else if g.pair2 > 0 then Plan(2, g.pair1, g.pair2, g.pair1, g.pair2, 1, false, 3)
    else if g.pair1 > 0 then Plan(1, g.pair1, 0, g.pair1, 0, 3, false, 2)
    else Plan(0, 0, 0, 0, 0, 5, false, 1)
  }

  /** The plan and its kickers spell the evaluated rating. */
  lemma PlanSpells(p: Profile, c: seq<int>, f: seq<int>, fs: int, st: int, sf: int, g: Groups, k: seq<int>)
    requires Matches(p, c, f, fs, st, sf, g) && |k| == 5
    requires var x := PlanOf(fs, st, sf, g);
             var t := Top(Present(if x.useFlush then f else c), x.ex1 - 1, x.ex2 - 1, x.want, RANKS);
             forall i :: 0 <= i < 5 ==>
               k[i] == if x.want > 0 && x.slot - 1 <= i < x.slot - 1 + |t| then t[i - (x.slot - 1)] + 1
                       else if i == 0 then x.k1 else if i == 1 then x.k2 else 0
    ensures PlanOf(fs, st, sf, g).cat == Evaluate(p).cat
    ensures forall i :: 0 <= i < 5 ==> k[i] == Digit(Evaluate(p), 1, i)
  {
    hide Top, Present, BestStraight, Available, Sum;
  }

  lemma QuadUnique(c: seq<int>, a: int, b: int)
    requires 0 <= a < |c| && 0 <= b < |c| && c[a] == 4 && c[b] == 4 && Sum(c) <= 7
    requires forall r :: 0 <= r < |c| ==> c[r] >= 0
    ensures a == b
  {
    if a != b { SumOfThree(c, a, b, a); }
  }

  /** The category chain, the kickers and the packing. */
  method ScoreOf(c: seq<int>, f: seq<int>, fs: int, st: int, sf: int, g: Groups, ghost p: Profile) returns (score: int)
    requires |c| == RANKS && |f| == RANKS
    ensures Matches(p, c, f, fs, st, sf, g) ==> score == Encode(Evaluate(p), 1)
  {
    hide Encode, PlanOf, Top, BestStraight, Highest, NextHighest, Digit, Evaluate, Matches, Shaped;
    var x := Choose(fs, st, sf, g);
    PlanFits(fs, st, sf, g);
    var k := [x.k1, x.k2, 0, 0, 0];
    if x.want > 0 {
      k := Kickers(if x.useFlush then f else c, x.ex1, x.ex2, x.want, x.slot, k);
    }
    score := x.cat * 1048576 + k[0] * 65536 + k[1] * 4096 + k[2] * 256 + k[3] * 16 + k[4];
    if Matches(p, c, f, fs, st, sf, g) {
      MatchedShape(p, c, f, fs, st, sf, g);
      PlanSpells(p, c, f, fs, st, sf, g, k);
      Spelled(Evaluate(p), k);
    }
  }

  lemma MatchedShape(p: Profile, c: seq<int>, f: seq<int>, fs: int, st: int, sf: int, g: Groups)
    requires Matches(p, c, f, fs, st, sf, g)
    ensures Shaped(p)
  {
  }

  /** `check`: refuses a card out of range, and otherwise accepts exactly the claimed score that the
      best five of seven distinct cards are worth. */
  method Check(cards: seq<int>, expected: int) returns (accepted: bool)
    requires |cards| == 7
    ensures accepted ==> AllIndices(cards)
    ensures AllIndices(cards) && NoDuplicates(cards) ==>
              (accepted <==> expected == Encode(Evaluate(ProfileOf(CardSet(cards))), 1))
  {
    if !AllIndices(cards) {
      return false;
    }
    hide CardSet, ProfileOf, Counts, FlushSuit, Encode, BestStraight, Highest, NextHighest, Evaluate, Matches, CountRank, CountSuit;
    var c := Tally(cards);
    var fs := FindFlush(cards);
    var f := FlushFlags(cards, fs);
    var st := FindStraight(c);
    var sf := FindStraight(f);
    var g := FindGroups(c);
    ghost var p := ProfileOf(CardSet(cards));
    var score := ScoreOf(c, f, fs, st, sf, g, p);
    accepted := score == expected;
    if NoDuplicates(cards) {
      PassesMatch(cards, c, f, fs, st, sf, g);
    }
  }

  lemma Spelled(v: Rating, k: seq<int>)
    requires |k| == 5 && forall i :: 0 <= i < 5 ==> k[i] == Digit(v, 1, i)
    ensures Encode(v, 1) == v.cat * 1048576 + k[0] * 65536 + k[1] * 4096 + k[2] * 256 + k[3] * 16 + k[4]
  {
  }

  lemma PlanFits(fs: int, st: int, sf: int, g: Groups)
    ensures var x := PlanOf(fs, st, sf, g); x.want > 0 ==> 1 <= x.slot && x.slot + x.want <= 6
  {
  }

  lemma PassesMatch(cards: seq<int>, c: seq<int>, f: seq<int>, fs: int, st: int, sf: int, g: Groups)
    requires |cards| == 7 && AllIndices(cards) && NoDuplicates(cards) && |f| == RANKS
    requires c == Counts(CardSet(cards)) && fs == FlushSuit(CardSet(cards)) + 1
    requires forall r :: 0 <= r < RANKS ==> f[r] == One(fs > 0 && 4 * r + fs - 1 in CardSet(cards))
    requires st == BestStraight(Present(c), 12) + 1 && sf == BestStraight(Present(f), 12) + 1
    requires g.quad == 0 ==> Highest(c, 4, RANKS) < 0
    requires g.quad > 0 ==> g.quad <= RANKS && c[g.quad - 1] == 4
    requires g.trip1 == Highest(c, 3, RANKS) + 1 && g.trip2 == NextHighest(c, 3, Highest(c, 3, RANKS)) + 1
    requires g.pair1 == Highest(c, 2, RANKS) + 1 && g.pair2 == NextHighest(c, 2, Highest(c, 2, RANKS)) + 1
    requires g.quad >= 0
    ensures Matches(ProfileOf(CardSet(cards)), c, f, fs, st, sf, g)
  {
    hide CountRank, CountSuit, Sum, Available, RunFrom, Wheel;
    var t := CardSet(cards);
    var p := ProfileOf(t);
    SevenCards(cards);
    HandPlayable(t);
    if fs > 0 {
      assert Present(f) == p.suited;
    } else {
      NoStraight(f);
    }
    if g.quad > 0 {
      QuadUnique(c, g.quad - 1, Highest(c, 4, RANKS));
    }
  }

  lemma NoStraight(f: seq<int>)
    requires |f| == RANKS && forall r :: 0 <= r < RANKS ==> f[r] == 0
    ensures BestStraight(Present(f), 12) == -1
  {
    hide BestStraight;
    assert forall h :: !IsStraight(Present(f), h);
  }

  lemma {:induction false} SevenCards(cards: seq<int>)
    requires AllIndices(cards) && NoDuplicates(cards)
    ensures InDeck(CardSet(cards)) && |CardSet(cards)| == |cards|
  {
    if cards == [] {
      assert CardSet(cards) == {};
    } else {
      var n := |cards| - 1;
      SevenCards(cards[..n]);
      NextCard(cards, n);
      assert cards[..n + 1] == cards;
    }
  }
}
