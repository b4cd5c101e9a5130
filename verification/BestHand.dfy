/**
 Sets of cards and the best five of them. A card is its index 0..51: rank index / 4, suit index % 4.
 */
module BestHand {
  import opened Ratings
  import opened Sums

  const DECK: int := 52

  predicate InDeck(s: set<int>) {
    forall c :: c in s ==> 0 <= c < DECK
  }

  function One(b: bool): (n: nat)
    ensures n <= 1
  {
    if b then 1 else 0
  }

  function CountRank(s: set<int>, r: int): (n: nat)
    ensures n <= 4
  {
    One(4 * r in s) + One(4 * r + 1 in s) + One(4 * r + 2 in s) + One(4 * r + 3 in s)
  }

  function SuitRanks(s: set<int>, u: int): (b: seq<bool>)
    ensures |b| == RANKS && forall r :: 0 <= r < RANKS ==> b[r] == (4 * r + u in s)
  {
    seq(RANKS, r => 4 * r + u in s)
  }

  function CountSuit(s: set<int>, u: int): nat {
    Available(SuitRanks(s, u), -1, -1, RANKS)
  }

  /** The last suit with five cards, or -1. */
  function FlushSuit(s: set<int>): (u: int)
    ensures -1 <= u <= 3 && (u >= 0 ==> CountSuit(s, u) >= 5)
    ensures u < 0 ==> forall x :: 0 <= x <= 3 ==> CountSuit(s, x) < 5
  {
    if CountSuit(s, 3) >= 5 then 3
    else if CountSuit(s, 2) >= 5 then 2
    else if CountSuit(s, 1) >= 5 then 1
    else if CountSuit(s, 0) >= 5 then 0
    else -1
  }

  function Counts(s: set<int>): (c: seq<int>)
    ensures |c| == RANKS && forall r :: 0 <= r < RANKS ==> c[r] == CountRank(s, r)
  {
    seq(RANKS, r => CountRank(s, r))
  }

  function ProfileOf(s: set<int>): (p: Profile)
    ensures Shaped(p)
  {
    var u := FlushSuit(s);
    Profile(Counts(s), u >= 0, SuitRanks(s, u))
  }

  // ----- counting -----

  function Below(s: set<int>, n: int): set<int> {
    set c | c in s && c < n
  }

  lemma {:induction false} CountsBelow(s: set<int>, n: nat)
    requires InDeck(s) && n <= RANKS
    ensures |Below(s, 4 * n)| == Sum(Counts(s)[..n])
  {
    if n == 0 {
      assert Below(s, 0) == {};
    } else {
      var r := n - 1;
      CountsBelow(s, r);
      BelowRank(s, r);
      SumSnoc(Counts(s)[..r], Counts(s)[r]);
      assert Counts(s)[..n] == Counts(s)[..r] + [Counts(s)[r]];
    }
  }

  lemma BelowRank(s: set<int>, r: int)
    ensures |Below(s, 4 * r + 4)| == |Below(s, 4 * r)| + CountRank(s, r)
  {
    BelowNext(s, 4 * r);
    BelowNext(s, 4 * r + 1);
    BelowNext(s, 4 * r + 2);
    BelowNext(s, 4 * r + 3);
  }

  lemma BelowNext(s: set<int>, n: int)
    ensures |Below(s, n + 1)| == |Below(s, n)| + One(n in s)
  {
    if n in s {
      assert Below(s, n + 1) == Below(s, n) + {n};
    } else {
      assert Below(s, n + 1) == Below(s, n);
    }
  }

  /** The rank counts add up to the number of cards. */
  lemma CardsCounted(s: set<int>)
    requires InDeck(s)
    ensures Sum(Counts(s)) == |s|
  {
    CountsBelow(s, RANKS);
    assert Counts(s)[..RANKS] == Counts(s);
    assert Below(s, DECK) == s;
  }

  function OfSuit(s: set<int>, u: int, n: int): set<int> {
    set c | c in s && 0 <= c < 4 * n && c % 4 == u
  }

  lemma {:induction false} SuitCounted(s: set<int>, u: int, n: nat)
    requires 0 <= u < 4 && n <= RANKS
    ensures |OfSuit(s, u, n)| == Available(SuitRanks(s, u), -1, -1, n)
  {
    if n == 0 {
      assert OfSuit(s, u, 0) == {};
    } else {
      SuitCounted(s, u, n - 1);
      OfSuitNext(s, u, n - 1);
    }
  }

  lemma OfSuitNext(s: set<int>, u: int, r: nat)
    requires 0 <= u < 4
    ensures |OfSuit(s, u, r + 1)| == |OfSuit(s, u, r)| + One(4 * r + u in s)
  {
    var x := 4 * r + u;
    var a, b := OfSuit(s, u, r), OfSuit(s, u, r + 1);
    assert forall c :: c in b && c !in a ==> c == x;
    if x in s {
      assert b == a + {x};
    } else {
      assert b == a;
    }
  }

  /** Fewer than ten cards hold at most one flush. */
  lemma OneFlush(s: set<int>, u: int)
    requires InDeck(s) && |s| < 10 && 0 <= u < 4 && CountSuit(s, u) >= 5
    ensures FlushSuit(s) == u
  {
    hide Available, SuitRanks;
    var v := FlushSuit(s);
    if v != u {
      SuitCounted(s, u, RANKS);
      SuitCounted(s, v, RANKS);
      var a, b := OfSuit(s, u, RANKS), OfSuit(s, v, RANKS);
      assert |a + b| == |a| + |b| by { assert a !! b; }
      SubsetSize(a + b, s);
    }
  }

  lemma SubsetSize(a: set<int>, b: set<int>)
    requires a <= b
    ensures |a| <= |b|
  {
    assert b == a + (b - a);
    assert |a + (b - a)| == |a| + |b - a|;
  }

  lemma HandPlayable(s: set<int>)
    requires InDeck(s) && 5 <= |s| <= 7
    ensures Playable(ProfileOf(s))
  {
    CardsCounted(s);
  }

  // ----- more cards show at least as much -----

  lemma {:induction false} AvailableMonotone(a: seq<bool>, b: seq<bool>, n: nat)
    requires |a| == |b| && n <= |a| && forall i :: 0 <= i < |a| && a[i] ==> b[i]
    ensures Available(a, -1, -1, n) <= Available(b, -1, -1, n)
  {
    if n > 0 { AvailableMonotone(a, b, n - 1); }
  }

  lemma FlushMonotone(s: set<int>, t: set<int>)
    requires s <= t && InDeck(t) && |t| < 10 && FlushSuit(s) >= 0
    ensures FlushSuit(t) == FlushSuit(s)
  {
    var u := FlushSuit(s);
    AvailableMonotone(SuitRanks(s, u), SuitRanks(t, u), RANKS);
    OneFlush(t, u);
  }

  lemma CountMonotone(s: set<int>, t: set<int>, r: int)
    requires s <= t
    ensures CountRank(s, r) <= CountRank(t, r)
  {
  }

  lemma ShowsMonotone(s: set<int>, t: set<int>, v: Rating)
    requires s <= t && InDeck(t) && |t| < 10 && Shows(ProfileOf(s), v)
    ensures Shows(ProfileOf(t), v)
  {
    hide CountRank, FlushSuit;
    var p, q := ProfileOf(s), ProfileOf(t);
    if FlushSuit(s) >= 0 { FlushMonotone(s, t); }
    forall r | 0 <= r < RANKS
      ensures p.count[r] <= q.count[r]
    {
      CountMonotone(s, t, r);
    }
    ProfileMonotone(p, q, v);
  }

  lemma ProfileMonotone(p: Profile, q: Profile, v: Rating)
    requires Shaped(p) && Shaped(q) && Shows(p, v)
    requires forall r :: 0 <= r < RANKS ==> p.count[r] <= q.count[r]
    requires p.flush ==> q.flush && forall r :: 0 <= r < RANKS && p.suited[r] ==> q.suited[r]
    ensures Shows(q, v)
  {
    var a, b := Present(p.count), Present(q.count);
    assert forall r :: 0 <= r < RANKS && a[r] ==> b[r];
  }

  // ----- five of the cards already show it -----

  /** Cards of the listed ranks, one per entry. */
  lemma {:induction false} PickRanks(t: set<int>, ranks: seq<int>) returns (s: set<int>)
    requires forall r :: 0 <= r < RANKS ==> multiset(ranks)[r] <= CountRank(t, r)
    requires forall i :: 0 <= i < |ranks| ==> 0 <= ranks[i] < RANKS
    ensures s <= t && |s| == |ranks|
    ensures forall r :: 0 <= r < RANKS ==> CountRank(s, r) == multiset(ranks)[r]
  {
    if ranks == [] {
      s := {};
    } else {
      var r0, rest := ranks[0], ranks[1..];
      assert ranks == [r0] + rest;
      assert multiset(ranks) == multiset{r0} + multiset(rest);
      s := PickRanks(t, rest);
      var c := SpareCard(s, t, r0);
      forall r | 0 <= r < RANKS
        ensures CountRank(s + {c}, r) == multiset(ranks)[r]
      {
        AddCard(s, c, r0, r);
      }
      s := s + {c};
    }
  }

  lemma SpareCard(s: set<int>, t: set<int>, r: int) returns (c: int)
    requires s <= t && CountRank(s, r) < CountRank(t, r)
    ensures c in t && c !in s && 4 * r <= c < 4 * r + 4
  {
    if 4 * r in t && 4 * r !in s {
      c := 4 * r;
    } else if 4 * r + 1 in t && 4 * r + 1 !in s {
      c := 4 * r + 1;
    } else if 4 * r + 2 in t && 4 * r + 2 !in s {
      c := 4 * r + 2;
    } else {
      c := 4 * r + 3;
    }
  }

  lemma AddCard(s: set<int>, c: int, r0: int, r: int)
    requires c !in s && 4 * r0 <= c < 4 * r0 + 4
    ensures CountRank(s + {c}, r) == CountRank(s, r) + One(r == r0)
  {
  }

  /** The ranks of the five cards that make a rating, with repetitions. */
  function CardRanks(v: Rating): (l: seq<int>)
    requires WellFormed(v) && v.cat != 8 && v.cat != 5 && (v.cat == 4 ==> v.ties[0] >= 3)
    ensures |l| == 5
  {
    var t := v.ties;
    match v.cat
    case 7 => [t[0], t[0], t[0], t[0], t[1]]
    case 6 => [t[0], t[0], t[0], t[1], t[1]]
    case 4 => StraightRanks(t[0])
    case 3 => [t[0], t[0], t[0], t[1], t[2]]
    case 2 => [t[0], t[0], t[1], t[1], t[2]]
    case 1 => [t[0], t[0], t[1], t[2], t[3]]
    case _ => t
  }

  function StraightRanks(h: int): (l: seq<int>)
    requires 3 <= h < RANKS
    ensures |l| == 5 && forall i :: 0 <= i < 5 ==> 0 <= l[i] < RANKS
  {
    if h == 3 then [12, 3, 2, 1, 0] else [h, h - 1, h - 2, h - 3, h - 4]
  }

  lemma FiveCounted(l: seq<int>, r: int)
    requires |l| == 5
    ensures multiset(l)[r] == One(l[0] == r) + One(l[1] == r) + One(l[2] == r) + One(l[3] == r) + One(l[4] == r)
  {
    assert l == [l[0], l[1], l[2], l[3], l[4]];
    assert multiset(l) == multiset{l[0], l[1], l[2], l[3], l[4]};
  }

  lemma CardRanksPresent(p: Profile, v: Rating, r: int)
    requires Shaped(p) && Shows(p, v) && v.cat != 8 && v.cat != 5 && 0 <= r < RANKS
    ensures v.cat == 4 ==> v.ties[0] >= 3
    ensures multiset(CardRanks(v))[r] <= p.count[r]
  {
    if v.cat == 4 { StraightPresent(p.count, v.ties[0], r); }
    hide Marked, IsStraight, Present;
    FiveCounted(CardRanks(v), r);
    if v.cat == 4 {
      StraightPresent(p.count, v.ties[0], r);
    } else {
      TiesApart(p, v);
      if v.cat < 4 { TiesPresent(p, v); }
    }
  }

  lemma StraightPresent(c: seq<int>, h: int, r: int)
    requires |c| == RANKS && 0 <= r < RANKS && 0 <= h < RANKS && c[r] >= 0 && IsStraight(Present(c), h)
    ensures h >= 3
    ensures multiset(StraightRanks(h))[r] <= c[r]
  {
    FiveCounted(StraightRanks(h), r);
  }

  lemma TiesPresent(p: Profile, v: Rating)
    requires Shaped(p) && Shows(p, v) && v.cat < 4
    ensures forall i :: 0 <= i < |v.ties| ==> p.count[v.ties[i]] >= 1
  {
    var t := v.ties;
    if v.cat == 3 || v.cat == 1 {
      assert forall i :: 1 <= i < |t| ==> t[i] == t[1..][i - 1];
    } else if v.cat == 2 {
      assert t[2] == t[2..][0];
    }
  }

  /** The tie-breaking ranks of a shown rating are pairwise different. */
  lemma TiesApart(p: Profile, v: Rating)
    requires Shaped(p) && Shows(p, v)
    ensures forall i, j :: 0 <= i < j < |v.ties| ==> v.ties[i] != v.ties[j]
  {
    var t := v.ties;
    if v.cat == 3 || v.cat == 1 {
      assert forall i :: 1 <= i < |t| ==> t[i] == t[1..][i - 1];
    } else if v.cat == 2 {
      assert t[2] == t[2..][0];
    }
  }

  lemma ShowsFromCounts(p: Profile, s: set<int>, v: Rating)
    requires Shaped(p) && Shows(p, v) && v.cat != 8 && v.cat != 5 && (v.cat == 4 ==> v.ties[0] >= 3)
    requires forall r :: 0 <= r < RANKS ==> CountRank(s, r) == multiset(CardRanks(v))[r]
    ensures Shows(ProfileOf(s), v)
  {
    hide CountRank, FlushSuit, SuitRanks, Shows;
    ShowsFromList(p, ProfileOf(s), v);
  }

  lemma ShowsFromList(p: Profile, q: Profile, v: Rating)
    requires Shaped(p) && Shaped(q) && Shows(p, v) && v.cat != 8 && v.cat != 5 && (v.cat == 4 ==> v.ties[0] >= 3)
    requires forall r :: 0 <= r < RANKS ==> q.count[r] == multiset(CardRanks(v))[r]
    ensures Shows(q, v)
  {
    hide Marked, IsStraight, Present;
    CardRanksBounded(v);
    var l := CardRanks(v);
    forall i | 0 <= i < 5
      ensures q.count[l[i]] >= 1
    {
      FiveCounted(l, l[i]);
    }
    if v.cat == 4 {
      StraightFromRanks(q.count, v.ties[0]);
    } else {
      FiveCounted(l, v.ties[0]);
      FiveCounted(l, v.ties[1]);
      KickersCarry(p, q, v);
    }
  }

  lemma StraightFromRanks(c: seq<int>, h: int)
    requires |c| == RANKS && 3 <= h < RANKS && forall i :: 0 <= i < 5 ==> c[StraightRanks(h)[i]] >= 1
    ensures IsStraight(Present(c), h)
  {
    var l := StraightRanks(h);
    assert c[l[0]] >= 1 && c[l[1]] >= 1 && c[l[2]] >= 1 && c[l[3]] >= 1 && c[l[4]] >= 1;
  }

  lemma KickersCarry(p: Profile, q: Profile, v: Rating)
    requires Shaped(p) && Shaped(q) && Shows(p, v) && v.cat < 8 && v.cat != 5 && v.cat != 4
    requires forall i :: 0 <= i < 5 ==> q.count[CardRanks(v)[i]] >= 1
    requires v.cat == 7 ==> q.count[v.ties[0]] >= 4
    requires v.cat == 6 || v.cat == 3 ==> q.count[v.ties[0]] >= 3
    requires v.cat == 2 || v.cat == 1 ==> q.count[v.ties[0]] >= 2
    requires v.cat == 6 || v.cat == 2 ==> q.count[v.ties[1]] >= 2
    ensures Shows(q, v)
  {
    var l, t := CardRanks(v), v.ties;
    assert q.count[l[0]] >= 1 && q.count[l[1]] >= 1 && q.count[l[2]] >= 1 && q.count[l[3]] >= 1 && q.count[l[4]] >= 1;
    assert forall i :: 0 <= i < |t| ==> q.count[t[i]] >= 1;
  }

  /** Five suited cards of the listed ranks. */
  function SuitedCards(ranks: seq<int>, u: int): set<int> {
    set i | 0 <= i < |ranks| :: 4 * ranks[i] + u
  }

  lemma {:induction false} SuitedSize(ranks: seq<int>, u: int)
    requires forall i, j :: 0 <= i < j < |ranks| ==> ranks[i] != ranks[j]
    ensures |SuitedCards(ranks, u)| == |ranks|
  {
    if ranks == [] {
      assert SuitedCards(ranks, u) == {};
    } else {
      var n := |ranks| - 1;
      var rest := ranks[..n];
      SuitedSize(rest, u);
      var x := 4 * ranks[n] + u;
      assert SuitedCards(ranks, u) == SuitedCards(rest, u) + {x};
      assert x !in SuitedCards(rest, u);
    }
  }

  lemma SuitedFlush(s: set<int>, ranks: seq<int>, u: int)
    requires |ranks| == 5 && 0 <= u < 4 && s == SuitedCards(ranks, u) && |s| == 5
    requires forall i :: 0 <= i < 5 ==> 0 <= ranks[i] < RANKS
    ensures ProfileOf(s).flush && forall i :: 0 <= i < 5 ==> ProfileOf(s).suited[ranks[i]]
  {
    hide Available;
    SuitCounted(s, u, RANKS);
    assert OfSuit(s, u, RANKS) == s;
    assert InDeck(s);
    OneFlush(s, u);
  }

  /** A suited pattern names five ranks of the flush suit. */
  function SuitedRanks(v: Rating): (l: seq<int>)
    requires WellFormed(v) && (v.cat == 5 || (v.cat == 8 && v.ties[0] >= 3))
    ensures |l| == 5 && forall i :: 0 <= i < 5 ==> 0 <= l[i] < RANKS
  {
    if v.cat == 5 then v.ties else StraightRanks(v.ties[0])
  }

  lemma ShownWellFormed(p: Profile, v: Rating)
    requires Shaped(p) && Shows(p, v)
    ensures WellFormed(v)
  {
  }

  lemma SuitedPattern(p: Profile, v: Rating)
    requires Shaped(p) && Shows(p, v) && (v.cat == 5 || v.cat == 8)
    ensures p.flush && (v.cat == 8 ==> v.ties[0] >= 3)
    ensures forall i :: 0 <= i < 5 ==> p.suited[SuitedRanks(v)[i]]
    ensures forall i, j :: 0 <= i < j < 5 ==> SuitedRanks(v)[i] != SuitedRanks(v)[j]
  {
  }

  lemma SuitedPatternCarries(p: Profile, q: Profile, v: Rating)
    requires Shaped(p) && Shaped(q) && Shows(p, v) && q.flush && (v.cat == 5 || (v.cat == 8 && v.ties[0] >= 3))
    requires forall i :: 0 <= i < 5 ==> q.suited[SuitedRanks(v)[i]]
    ensures Shows(q, v)
  {
    var l := SuitedRanks(v);
    assert q.suited[l[0]] && q.suited[l[1]] && q.suited[l[2]] && q.suited[l[3]] && q.suited[l[4]];
  }

  lemma SuitedSubset(t: set<int>, l: seq<int>)
    requires ProfileOf(t).flush && forall i :: 0 <= i < |l| ==> 0 <= l[i] < RANKS && ProfileOf(t).suited[l[i]]
    ensures 0 <= FlushSuit(t) < 4 && SuitedCards(l, FlushSuit(t)) <= t
  {
    hide CountSuit, CountRank;
  }

  lemma SuitedFive(t: set<int>, v: Rating) returns (s: set<int>)
    requires InDeck(t) && Shows(ProfileOf(t), v) && (v.cat == 5 || v.cat == 8)
    ensures s <= t && |s| == 5 && Shows(ProfileOf(s), v)
  {
    hide Shows, ProfileOf, WellFormed, SuitedCards, SuitedRanks;
    ShownWellFormed(ProfileOf(t), v);
    SuitedPattern(ProfileOf(t), v);
    var u, l := FlushSuit(t), SuitedRanks(v);
    s := SuitedCards(l, u);
    SuitedSubset(t, l);
    SuitedSize(l, u);
    SuitedFlush(s, l, u);
    SuitedPatternCarries(ProfileOf(t), ProfileOf(s), v);
  }

  lemma CountedFive(t: set<int>, v: Rating) returns (s: set<int>)
    requires InDeck(t) && Shows(ProfileOf(t), v) && v.cat != 5 && v.cat != 8
    ensures s <= t && |s| == 5 && Shows(ProfileOf(s), v)
  {
    hide Shows, CountRank, CardRanks, WellFormed, FlushSuit, SuitRanks;
    ShownWellFormed(ProfileOf(t), v);
    CardRanksPresent(ProfileOf(t), v, 0);
    forall r | 0 <= r < RANKS
      ensures multiset(CardRanks(v))[r] <= CountRank(t, r)
    {
      CardRanksPresent(ProfileOf(t), v, r);
    }
    CardRanksBounded(v);
    s := PickRanks(t, CardRanks(v));
    ShowsFromCounts(ProfileOf(t), s, v);
  }

  lemma CardRanksBounded(v: Rating)
    requires WellFormed(v) && v.cat != 8 && v.cat != 5 && (v.cat == 4 ==> v.ties[0] >= 3)
    ensures forall i :: 0 <= i < 5 ==> 0 <= CardRanks(v)[i] < RANKS
  {
  }

  /** Whatever the cards show, five of them show on their own. */
  lemma FiveShow(t: set<int>, v: Rating) returns (s: set<int>)
    requires InDeck(t) && Shows(ProfileOf(t), v)
    ensures s <= t && |s| == 5 && Shows(ProfileOf(s), v)
  {
    hide Shows, ProfileOf;
    if v.cat == 8 || v.cat == 5 {
      s := SuitedFive(t, v);
    } else {
      s := CountedFive(t, v);
    }
  }

  // ----- the best five of any hand -----

  /** v is what the best five-card subset of t is worth: reached, and never exceeded. */
  ghost predicate IsBest(t: set<int>, v: Rating) {
    && WellFormed(v)
    && (exists s :: FiveOf(s, t) && Evaluate(ProfileOf(s)) == v)
    && (forall s :: FiveOf(s, t) ==> NotAbove(s, v))
  }

  ghost predicate FiveOf(s: set<int>, t: set<int>) {
    s <= t && |s| == 5
  }

  ghost predicate NotAbove(s: set<int>, v: Rating)
    requires WellFormed(v)
  {
    WellFormed(Evaluate(ProfileOf(s))) && RatingLe(Evaluate(ProfileOf(s)), v)
  }

  lemma {:induction false} LexAntisymmetric(a: seq<int>, b: seq<int>)
    requires |a| == |b| && LexLe(a, b) && LexLe(b, a)
    ensures a == b
  {
    if a != [] {
      LexAntisymmetric(a[1..], b[1..]);
      assert a == [a[0]] + a[1..] && b == [b[0]] + b[1..];
    }
  }

  /** For five to seven cards, one pass over the counts is worth exactly the best five-card subset. */
  lemma OnePassIsBest(t: set<int>)
    requires InDeck(t) && 5 <= |t| <= 7
    ensures IsBest(t, Evaluate(ProfileOf(t)))
  {
    hide Shows, ProfileOf, Evaluate, Playable, WellFormed, LexLe;
    var e := Evaluate(ProfileOf(t));
    HandPlayable(t);
    EvaluateShows(ProfileOf(t));
    ShownWellFormed(ProfileOf(t), e);
    forall s | FiveOf(s, t)
      ensures NotAbove(s, e)
    {
      HandPlayable(s);
      EvaluateShows(ProfileOf(s));
      ShowsMonotone(s, t, Evaluate(ProfileOf(s)));
      ShownWellFormed(ProfileOf(s), Evaluate(ProfileOf(s)));
      EvaluateDominates(ProfileOf(t), Evaluate(ProfileOf(s)));
    }
    var s := FiveShow(t, e);
    assert FiveOf(s, t) && NotAbove(s, e);
    HandPlayable(s);
    EvaluateDominates(ProfileOf(s), e);
    SameLength(Evaluate(ProfileOf(s)), e);
    LexAntisymmetric(Evaluate(ProfileOf(s)).ties, e.ties);
  }

  lemma SameLength(a: Rating, b: Rating)
    requires WellFormed(a) && WellFormed(b) && RatingLe(a, b) && RatingLe(b, a)
    ensures a.cat == b.cat && |a.ties| == |b.ties| && LexLe(a.ties, b.ties) && LexLe(b.ties, a.ties)
  {
  }
}
