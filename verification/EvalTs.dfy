/** The TypeScript reference evaluator: card indices, library sorts, and a recursive search. */
module EvalTs {
  import opened Ratings
  import opened Sums
  import opened FiveCards
  import opened Scores
  import opened Combinations
  import opened Cards
  import opened EvalGo
  import opened Options

  predicate FiveIndices(cs: seq<int>) {
    |cs| == 5 && AllIndices(cs)
  }

  /** The cards the indices stand for. */
  function CardsOf(cs: seq<int>): (out: seq<Card>)
    requires AllIndices(cs)
    ensures |out| == |cs| && AllValid(out) && forall i :: 0 <= i < |cs| ==> out[i] == FromIndex(cs[i])
  {
    seq(|cs|, i requires 0 <= i < |cs| => FromIndex(cs[i]))
  }

  // ----- library sorts -----

  function InsertBy(c: seq<int>, x: int, s: seq<int>): (t: seq<int>)
    requires |c| == RANKS && 0 <= x < RANKS && InRanks(s)
    ensures |t| == |s| + 1 && InRanks(t) && multiset(t) == multiset{x} + multiset(s)
  {
    if s == [] then [x]
    else if Before(c, x, s[0]) then assert s == [s[0]] + s[1..]; [x] + s
    else assert s == [s[0]] + s[1..]; [s[0]] + InsertBy(c, x, s[1..])
  }

  /** Sorting by count and then rank, both descending; with all counts equal, by rank. */
  function SortBy(c: seq<int>, s: seq<int>): (t: seq<int>)
    requires |c| == RANKS && InRanks(s)
    ensures |t| == |s| && InRanks(t) && multiset(t) == multiset(s)
  {
    if s == [] then [] else assert s == [s[0]] + s[1..]; InsertBy(c, s[0], SortBy(c, s[1..]))
  }

  ghost predicate InOrder(c: seq<int>, s: seq<int>)
    requires |c| == RANKS && InRanks(s)
  {
    forall i, j :: 0 <= i < j < |s| ==> Before(c, s[i], s[j])
  }

  lemma {:induction false} InsertInOrder(c: seq<int>, x: int, s: seq<int>)
    requires |c| == RANKS && 0 <= x < RANKS && InRanks(s) && InOrder(c, s)
    ensures InOrder(c, InsertBy(c, x, s))
  {
    if s != [] && !Before(c, x, s[0]) {
      InsertInOrder(c, x, s[1..]);
      var t := InsertBy(c, x, s[1..]);
      forall j | 0 <= j < |t|
        ensures Before(c, s[0], t[j])
      {
        assert t[j] in multiset(t);
        if t[j] != x {
          assert t[j] in multiset(s[1..]);
          var k :| 0 <= k < |s| - 1 && s[1..][k] == t[j];
          assert s[k + 1] == t[j];
        }
      }
    }
  }

  lemma {:induction false} SortInOrder(c: seq<int>, s: seq<int>)
    requires |c| == RANKS && InRanks(s)
    ensures InOrder(c, SortBy(c, s))
  {
    if s != [] {
      SortInOrder(c, s[1..]);
      InsertInOrder(c, s[0], SortBy(c, s[1..]));
    }
  }

  function Zeros(): (z: seq<int>)
    ensures |z| == RANKS && forall r :: 0 <= r < RANKS ==> z[r] == 0
  {
    seq(RANKS, _ => 0)
  }

  /** The distinct values of a descending list, in order. */
  function Uniq(s: seq<int>): (u: seq<int>)
    ensures |u| <= |s| && (forall x :: x in u <==> x in s) && (InRanks(s) ==> InRanks(u))
  {
    if s == [] then []
    else if s[0] in s[1..] then Uniq(s[1..])
    else [s[0]] + Uniq(s[1..])
  }

  lemma {:induction false} UniqDistinct(s: seq<int>)
    ensures forall i, j :: 0 <= i < j < |Uniq(s)| ==> Uniq(s)[i] != Uniq(s)[j]
    ensures |Uniq(s)| == |s| ==> Uniq(s) == s
  {
    if s != [] {
      UniqDistinct(s[1..]);
      if |Uniq(s)| == |s| {
        assert s == [s[0]] + s[1..];
      }
    }
  }

  // ----- score5 -----

  function RanksOf(cs: seq<int>): (r: seq<int>)
    requires AllIndices(cs)
    ensures |r| == |cs| && InRanks(r) && forall i :: 0 <= i < |cs| ==> r[i] == cs[i] / 4
  {
    seq(|cs|, i requires 0 <= i < |cs| => cs[i] / 4)
  }

  function CountIn(ranks: seq<int>): (c: seq<int>)
    ensures |c| == RANKS && forall r :: 0 <= r < RANKS ==> c[r] == multiset(ranks)[r]
  {
    seq(RANKS, r => multiset(ranks)[r])
  }

  function StraightFrom(ranks: seq<int>, uniq: seq<int>): int
    requires |ranks| == 5
  {
    if |uniq| == 5 && ranks[0] == 12 && ranks[1] == 3 then 3
    else if |uniq| == 5 && ranks[0] - ranks[4] == 4 then ranks[0]
    else -1
  }

  predicate SameSuit(cs: seq<int>) {
    forall i :: 0 <= i < |cs| ==> cs[i] % 4 == cs[0] % 4
  }

  /** `score5` on five indices in range. */
  function Score5Of(cs: seq<int>): int
    requires FiveIndices(cs)
  {
    var ranks := SortBy(Zeros(), RanksOf(cs));
    var uniq := Uniq(ranks);
    var c := CountIn(ranks);
    var groups := SortBy(c, uniq);
    GroupsMatch(cs);
    Encode(Rate(c, SameSuit(cs), StraightFrom(ranks, uniq), groups, ranks), 1)
  }

  lemma LastIndex(cs: seq<int>)
    requires AllIndices(cs) && cs != []
    ensures AllIndices(cs[..|cs| - 1]) && 0 <= cs[|cs| - 1] < DECK_SIZE
    ensures RanksOf(cs) == RanksOf(cs[..|cs| - 1]) + [cs[|cs| - 1] / 4]
    ensures CardsOf(cs) == CardsOf(cs[..|cs| - 1]) + [FromIndex(cs[|cs| - 1])]
  {
  }

  lemma AddTally(a: multiset<int>, b: multiset<Card>, x: int, r: int)
    requires 0 <= x < DECK_SIZE && a[r] == RankTally(b, r)
    ensures (a + multiset{x / 4})[r] == RankTally(b + multiset{FromIndex(x)}, r)
  {
    hide RankTally;
    TallyAdd(b, FromIndex(x), r);
  }

  lemma {:induction false} RankTallies(cs: seq<int>, r: int)
    requires AllIndices(cs) && 0 <= r < RANKS
    ensures multiset(RanksOf(cs))[r] == RankTally(multiset(CardsOf(cs)), r)
  {
    if cs == [] {
      assert RanksOf(cs) == [] && CardsOf(cs) == [];
    } else {
      hide RankTally, RanksOf, CardsOf, FromIndex;
      var n := |cs| - 1;
      LastIndex(cs);
      RankTallies(cs[..n], r);
      var a, b := multiset(RanksOf(cs[..n])), multiset(CardsOf(cs[..n]));
      assert multiset(RanksOf(cs)) == a + multiset{cs[n] / 4};
      assert multiset(CardsOf(cs)) == b + multiset{FromIndex(cs[n])};
      AddTally(a, b, cs[n], r);
    }
  }

  /** The counts and groups are the same as over cards. */
  lemma GroupsMatch(cs: seq<int>)
    requires FiveIndices(cs)
    ensures var ranks := SortBy(Zeros(), RanksOf(cs));
            var c := CountIn(ranks);
            var g := SortBy(c, Uniq(ranks));
            && c == Tallies(multiset(CardsOf(cs))) && g == GroupsOf(c, 5)
            && (GroupSize(c, g, 0) == 4 ==> |g| >= 2)
  {
    hide Tallies, RankTally, GroupsOf, GroupSize, IsGroups, SortBy, Before, Uniq;
    var ranks := SortBy(Zeros(), RanksOf(cs));
    var c, m := CountIn(ranks), multiset(CardsOf(cs));
    forall r | 0 <= r < RANKS
      ensures c[r] == Tallies(m)[r]
    {
      RankTallies(cs, r);
    }
    assert c == Tallies(m);
    FiveGroups(CardsOf(cs));
    var uniq := Uniq(ranks);
    UniqDistinct(ranks);
    SortInOrder(c, uniq);
    forall r
      ensures r in uniq <==> 0 <= r < RANKS && c[r] > 0
    {
      InRanksMember(ranks, r);
    }
    SortedIsGroups(c, uniq, SortBy(c, uniq));
    GroupsUnique(c, SortBy(c, uniq), GroupsOf(c, 5));
  }

  lemma InRanksMember(ranks: seq<int>, r: int)
    requires InRanks(ranks)
    ensures r in ranks <==> 0 <= r < RANKS && multiset(ranks)[r] > 0
  {
    assert r in ranks <==> r in multiset(ranks);
  }

  // ----- score5 rates the same five cards as the Go evaluator -----

  ghost predicate NonIncreasing(a: seq<int>) {
    forall i, j :: 0 <= i < j < |a| ==> a[i] >= a[j]
  }

  lemma SameTop(a: seq<int>, b: seq<int>)
    requires multiset(a) == multiset(b) && a != [] && NonIncreasing(a) && NonIncreasing(b)
    ensures b != [] && a[0] == b[0]
  {
    assert a[0] in multiset(b);
    assert a[0] in b;
    assert b[0] in multiset(a);
    assert b[0] in a;
  }

  lemma DropTop(a: seq<int>)
    requires a != [] && NonIncreasing(a)
    ensures multiset(a[1..]) == multiset(a) - multiset{a[0]} && NonIncreasing(a[1..])
  {
    assert a == [a[0]] + a[1..];
    assert multiset(a) == multiset{a[0]} + multiset(a[1..]);
  }

  /** Two non-increasing lists with the same members are equal. */
  lemma {:induction false} NonIncreasingUnique(a: seq<int>, b: seq<int>)
    requires multiset(a) == multiset(b) && NonIncreasing(a) && NonIncreasing(b)
    ensures a == b
  {
    hide NonIncreasing;
    if a == [] {
      assert |multiset(b)| == 0;
    } else {
      SameTop(a, b);
      DropTop(a);
      DropTop(b);
      NonIncreasingUnique(a[1..], b[1..]);
      assert a == [a[0]] + a[1..] && b == [b[0]] + b[1..];
    }
  }

  lemma {:induction false} DescendingShape(c: seq<int>, n: nat)
    requires n <= |c|
    ensures var d := DescendingRanks(c, n); NonIncreasing(d) && forall i :: 0 <= i < |d| ==> 0 <= d[i] < n
  {
    if n > 0 {
      DescendingShape(c, n - 1);
      var times := if c[n - 1] < 0 then 0 else c[n - 1];
      RepeatShape(n - 1, times);
      assert Repeat(n - 1, c[n - 1]) == Repeat(n - 1, times);
      var a, b := Repeat(n - 1, times), DescendingRanks(c, n - 1);
      JoinNonIncreasing(a, b, n - 1);
    }
  }

  lemma JoinNonIncreasing(a: seq<int>, b: seq<int>, m: int)
    requires NonIncreasing(b) && m >= 0
    requires (forall i :: 0 <= i < |a| ==> a[i] == m) && (forall i :: 0 <= i < |b| ==> 0 <= b[i] < m)
    ensures NonIncreasing(a + b) && forall i :: 0 <= i < |a + b| ==> 0 <= (a + b)[i] <= m
  {
  }

  lemma {:induction false} DescendingCounts(c: seq<int>, n: nat, r: int)
    requires n <= |c| && forall x :: 0 <= x < |c| ==> c[x] >= 0
    ensures multiset(DescendingRanks(c, n))[r] == if 0 <= r < n then c[r] else 0
  {
    hide Repeat;
    if n > 0 {
      DescendingCounts(c, n - 1, r);
      RepeatShape(n - 1, c[n - 1]);
      JoinCounts(Repeat(n - 1, c[n - 1]), DescendingRanks(c, n - 1), r);
    }
  }

  lemma JoinCounts(a: seq<int>, b: seq<int>, r: int)
    ensures multiset(a + b)[r] == multiset(a)[r] + multiset(b)[r]
  {
  }

  lemma {:induction false} RepeatShape(r: int, times: nat)
    ensures |Repeat(r, times)| == times
    ensures forall i :: 0 <= i < times ==> Repeat(r, times)[i] == r
    ensures forall x :: multiset(Repeat(r, times))[x] == if x == r then times else 0
  {
    if times > 0 {
      RepeatShape(r, times - 1);
      assert multiset(Repeat(r, times)) == multiset{r} + multiset(Repeat(r, times - 1));
    }
  }

  lemma RanksMatch(cs: seq<int>)
    requires FiveIndices(cs)
    ensures SortBy(Zeros(), RanksOf(cs)) == DescendingRanks(CountIn(SortBy(Zeros(), RanksOf(cs))), RANKS)
  {
    hide SortBy, DescendingRanks;
    var ranks := SortBy(Zeros(), RanksOf(cs));
    SortInOrder(Zeros(), RanksOf(cs));
    var c := CountIn(ranks);
    DescendingShape(c, RANKS);
    forall r
      ensures multiset(ranks)[r] == multiset(DescendingRanks(c, RANKS))[r]
    {
      DescendingCounts(c, RANKS, r);
      InRanksMember(ranks, r);
    }
    forall i, j | 0 <= i < j < |ranks|
      ensures ranks[i] >= ranks[j]
    {
      assert Before(Zeros(), ranks[i], ranks[j]);
    }
    NonIncreasingUnique(ranks, DescendingRanks(c, RANKS));
  }

  lemma SuitsMatch(cs: seq<int>)
    requires FiveIndices(cs)
    ensures SameSuit(cs) == OneSuit(multiset(CardsOf(cs)))
  {
    var five := CardsOf(cs);
    assert forall c :: c in multiset(five) <==> c in five;
    if SameSuit(cs) {
      assert AllOf(multiset(five), cs[0] % 4);
    }
    if OneSuit(multiset(five)) {
      var u :| 0 <= u <= 3 && AllOf(multiset(five), u);
      forall i | 0 <= i < 5
        ensures cs[i] % 4 == u
      {
        assert five[i] in multiset(five);
      }
    }
  }

  /** Five sorted ranks form a straight exactly when the counts show one. */
  lemma StraightMatch(ranks: seq<int>)
    requires |ranks| == 5 && InRanks(ranks) && forall i, j :: 0 <= i < j < 5 ==> ranks[i] >= ranks[j]
    ensures StraightFrom(ranks, Uniq(ranks)) == BestStraight(Present(CountIn(ranks)), 12)
  {
    hide BestStraight, Uniq;
    var b := Present(CountIn(ranks));
    forall r | 0 <= r < RANKS
      ensures b[r] <==> r in ranks
    {
      InRanksMember(ranks, r);
    }
    UniqDistinct(ranks);
    if |Uniq(ranks)| == 5 {
      DistinctStraight(ranks, b);
    } else {
      RepeatedNoStraight(ranks, b);
    }
  }

  /** Five descending ranks cover h down to h - 4 exactly when they are those ranks. */
  lemma RunIffConsecutive(ranks: seq<int>, b: seq<bool>, h: int)
    requires |ranks| == 5 && |b| == RANKS && InRanks(ranks)
    requires forall i, j :: 0 <= i < j < 5 ==> ranks[i] > ranks[j]
    requires forall r :: 0 <= r < RANKS ==> (b[r] <==> r in ranks)
    ensures RunFrom(b, h) <==> ranks[0] == h && ranks[4] == h - 4
    ensures Wheel(b) <==> ranks[0] == 12 && ranks[1] == 3
  {
    assert ranks == [ranks[0], ranks[1], ranks[2], ranks[3], ranks[4]];
    assert ranks[0] > ranks[1] > ranks[2] > ranks[3] > ranks[4] >= 0;
    assert b[ranks[0]] && b[ranks[1]] && b[ranks[2]] && b[ranks[3]] && b[ranks[4]];
  }

  lemma DistinctStraight(ranks: seq<int>, b: seq<bool>)
    requires |ranks| == 5 && |b| == RANKS && InRanks(ranks)
    requires forall i, j :: 0 <= i < j < 5 ==> ranks[i] > ranks[j]
    requires forall r :: 0 <= r < RANKS ==> (b[r] <==> r in ranks)
    ensures BestStraight(b, 12) == if ranks[0] == 12 && ranks[1] == 3 then 3
                                   else if ranks[0] - ranks[4] == 4 then ranks[0] else -1
  {
    hide BestStraight, RunFrom, Wheel;
    forall h
      ensures IsStraight(b, h) <==>
                (ranks[0] == h && ranks[4] == h - 4) || (h == 3 && ranks[0] == 12 && ranks[1] == 3)
    {
      RunIffConsecutive(ranks, b, h);
    }
    assert ranks[0] > ranks[1] > ranks[2] > ranks[3] > ranks[4] >= 0;
    var s := BestStraight(b, 12);
    assert IsStraight(b, 3) ==> s >= 3;
    assert IsStraight(b, ranks[0]) ==> s >= ranks[0];
  }

  lemma RepeatedNoStraight(ranks: seq<int>, b: seq<bool>)
    requires |ranks| == 5 && |b| == RANKS && InRanks(ranks) && |Uniq(ranks)| < 5
    requires forall r :: 0 <= r < RANKS ==> (b[r] <==> r in ranks)
    ensures BestStraight(b, 12) == -1
  {
    var s := BestStraight(b, 12);
    hide BestStraight, IsStraight;
    if s >= 0 {
      var l := StraightRanks(b, s);
      var u := Uniq(ranks);
      hide Uniq;
      assert forall i :: 0 <= i < 5 ==> l[i] in ranks && l[i] in u;
      FiveDistinctMembers(u, l[0], l[1], l[2], l[3], l[4]);
    }
  }

  /** The five different ranks of a straight. */
  lemma StraightRanks(b: seq<bool>, s: int) returns (l: seq<int>)
    requires |b| == RANKS && IsStraight(b, s)
    ensures |l| == 5 && (forall i :: 0 <= i < 5 ==> 0 <= l[i] < RANKS && b[l[i]])
    ensures forall i, j :: 0 <= i < j < 5 ==> l[i] != l[j]
  {
    l := if s == 3 then [12, 3, 2, 1, 0] else [s, s - 1, s - 2, s - 3, s - 4];
  }

  lemma FiveDistinctMembers(u: seq<int>, a: int, b: int, c: int, d: int, e: int)
    requires a in u && b in u && c in u && d in u && e in u
    requires a != b && a != c && a != d && a != e && b != c && b != d && b != e && c != d && c != e && d != e
    ensures |u| >= 5
  {
    var s := set x | x in u;
    assert {a, b, c, d, e} <= s;
    assert |{a, b, c, d, e}| == 5;
    BoundedBySeq(u);
    var rest := s - {a, b, c, d, e};
    assert s == {a, b, c, d, e} + rest;
    assert |s| == 5 + |rest|;
  }

  lemma {:induction false} BoundedBySeq(u: seq<int>)
    ensures |set x | x in u| <= |u|
  {
    if u == [] {
      assert (set x | x in u) == {};
    } else {
      var n := |u| - 1;
      BoundedBySeq(u[..n]);
      assert u == u[..n] + [u[n]];
      assert (set x | x in u) == (set x | x in u[..n]) + {u[n]};
    }
  }

  /** Both reference evaluators rate five cards alike and differ only in the rank offset. */
  lemma Score5Agrees(cs: seq<int>)
    requires FiveIndices(cs)
    ensures FiveValid(CardsOf(cs)) && Score5Of(cs) == Encode(FiveRating(CardsOf(cs)), 1)
  {
    hide Encode, Rate, OneSuit, SameSuit, BestStraight, GroupsOf, DescendingRanks, Uniq, SortBy, Tallies, StraightFrom, GroupSize;
    var ranks := SortBy(Zeros(), RanksOf(cs));
    GroupsMatch(cs);
    RanksMatch(cs);
    SuitsMatch(cs);
    assert forall i, j :: 0 <= i < j < 5 ==> ranks[i] >= ranks[j] by { SortedDescending(cs); }
    StraightMatch(ranks);
  }

  lemma SortedDescending(cs: seq<int>)
    requires FiveIndices(cs)
    ensures var ranks := SortBy(Zeros(), RanksOf(cs)); forall i, j :: 0 <= i < j < 5 ==> ranks[i] >= ranks[j]
  {
    var ranks := SortBy(Zeros(), RanksOf(cs));
    SortInOrder(Zeros(), RanksOf(cs));
    forall i, j | 0 <= i < j < 5
      ensures ranks[i] >= ranks[j]
    {
      assert Before(Zeros(), ranks[i], ranks[j]);
    }
  }

  // ----- bestScore -----

  /** The picks that complete a partial pick with indices from `start` on. */
  ghost predicate Completes(idx: seq<int>, pick: seq<int>, start: int, n: int) {
    && IsChoice(idx, n, 5) && |pick| <= 5 && idx[..|pick|] == pick
    && forall j :: |pick| <= j < 5 ==> idx[j] >= start
  }

  function PickedScore(cards: seq<int>, idx: seq<int>): int {
    if FiveIndices(Pick(cards, idx)) then Score5Of(Pick(cards, idx)) else -1
  }

  /** `rec`: the recursive search. pick is pushed and popped around each call. */
  method Search(cards: seq<int>, pick: seq<int>, start: int, best: int) returns (r: int)
    requires AllIndices(cards) && |pick| <= 5 && 0 <= start <= |cards|
    requires IsChoice(pick, start, |pick|)
    ensures r >= best
    ensures forall idx :: Completes(idx, pick, start, |cards|) ==> PickedScore(cards, idx) <= r
    ensures r == best || exists idx :: Completes(idx, pick, start, |cards|) && PickedScore(cards, idx) == r
    decreases 5 - |pick|
  {
    hide Score5Of;
    var n := |cards|;
    if |pick| == 5 {
      PickInRange(cards, pick, start);
      var s := Score5Of(Pick(cards, pick));
      assert Completes(pick, pick, start, n);
      assert forall idx :: Completes(idx, pick, start, n) ==> idx == pick by {
        assert forall idx: seq<int> :: |idx| == 5 ==> idx[..5] == idx;
      }
      return if s > best then s else best;
    }
    r := best;
    var i := start;
    while i < n
      invariant start <= i <= n && r >= best
      invariant forall idx :: Completes(idx, pick, start, n) && idx[|pick|] < i ==> PickedScore(cards, idx) <= r
      invariant r == best || exists idx :: Completes(idx, pick, start, n) && PickedScore(cards, idx) == r
    {
      var pushed := pick + [i];
      assert IsChoice(pushed, i + 1, |pushed|);
      var was := r;
      r := Search(cards, pushed, i + 1, r);
      PushedCompletes(pick, start, i, n);
      i := i + 1;
    }
    assert forall idx :: Completes(idx, pick, start, n) ==> idx[|pick|] < n;
  }

  lemma PickInRange(cards: seq<int>, pick: seq<int>, start: int)
    requires AllIndices(cards) && |pick| == 5 && start <= |cards| && IsChoice(pick, start, 5)
    ensures IsChoice(pick, |cards|, 5) && FiveIndices(Pick(cards, pick))
  {
    assert InBounds(cards, pick);
  }

  /** Pushing i covers exactly the completions whose next index is i. */
  lemma PushedCompletes(pick: seq<int>, start: int, i: int, n: int)
    requires |pick| < 5 && start <= i < n && IsChoice(pick, start, |pick|)
    ensures forall idx :: Completes(idx, pick + [i], i + 1, n) <==> Completes(idx, pick, start, n) && idx[|pick|] == i
  {
    var pushed, m := pick + [i], |pick|;
    forall idx
      ensures Completes(idx, pushed, i + 1, n) <==> Completes(idx, pick, start, n) && idx[m] == i
    {
      if Completes(idx, pushed, i + 1, n) {
        assert idx[..m] == idx[..m + 1][..m] == pick;
        assert idx[m] == idx[..m + 1][m] == i;
      }
      if Completes(idx, pick, start, n) && idx[m] == i {
        assert idx[..m + 1] == idx[..m] + [idx[m]] == pushed;
      }
    }
  }

  /** s is the best score over every five of the cards. */
  ghost predicate IsBestPick(cards: seq<int>, s: int) {
    && (exists idx :: IsChoice(idx, |cards|, 5) && PickedScore(cards, idx) == s)
    && (forall idx :: IsChoice(idx, |cards|, 5) ==> PickedScore(cards, idx) <= s)
  }

  /** `bestScore`. None stands for a thrown RangeError. */
  method BestScore(cards: seq<int>) returns (r: Option<int>)
    ensures r.Some? <==> |cards| >= 5 && NoDuplicates(cards) && AllIndices(cards)
    ensures r.Some? ==> IsBestPick(cards, r.value)
  {
    if |cards| < 5 || !NoDuplicates(cards) {
      return None;
    }
    // score5 throws on the first index out of range; every card is in some five.
    if !AllIndices(cards) {
      return None;
    }
    assert IsChoice([], 0, 0);
    hide PickedScore, AllIndices, NoDuplicates, Completes, IsChoice, IsBestPick;
    var best := Search(cards, [], 0, -1);
    SearchedAll(cards, best);
    r := Some(best);
  }

  lemma SearchedAll(cards: seq<int>, best: int)
    requires |cards| >= 5 && AllIndices(cards)
    requires forall idx :: Completes(idx, [], 0, |cards|) ==> PickedScore(cards, idx) <= best
    requires best == -1 || exists idx :: Completes(idx, [], 0, |cards|) && PickedScore(cards, idx) == best
    ensures IsBestPick(cards, best)
  {
    hide PickedScore, AllIndices, Completes, IsChoice;
    AllComplete(|cards|);
    ScoreNotNegative(cards);
    assert Completes(First(5), [], 0, |cards|);
    assert best >= PickedScore(cards, First(5));
  }

  lemma AllComplete(n: int)
    ensures forall idx :: IsChoice(idx, n, 5) <==> Completes(idx, [], 0, n)
  {
  }

  lemma ScoreNotNegative(cards: seq<int>)
    requires |cards| >= 5 && AllIndices(cards)
    ensures IsChoice(First(5), |cards|, 5) && PickedScore(cards, First(5)) >= 0
  {
    hide Score5Of, Encode, FiveRating;
    PickInRange(cards, First(5), 5);
    var five := Pick(cards, First(5));
    Score5Agrees(five);
    RatingEncodes(CardsOf(five));
  }

  lemma RatingEncodes(five: seq<Card>)
    requires FiveValid(five)
    ensures Encode(FiveRating(five), 1) >= 0
  {
    hide Tallies, OneSuit, BestStraight, Present, Sum, IsGroups, GroupsOf, DescendingRanks, Encode;
    FiveGroups(five);
    var c := Tallies(multiset(five));
    DescendingBounded(c, RANKS);
    EncodeNatural(FiveRating(five));
  }

  lemma EncodeNatural(v: Rating)
    requires forall i :: 0 <= i < |v.ties| ==> 0 <= v.ties[i]
    ensures Encode(v, 1) >= 0
  {
  }
}
