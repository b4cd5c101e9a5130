/** The Go evaluator: five cards by rank groups, and the best five by exhaustive choice. */
module EvalGo {
  import opened Ratings
  import opened Sums
  import opened FiveCards
  import opened Scores
  import opened Combinations
  import opened Cards
  import opened Options

  // ----- what five cards are worth, as a function of which cards they are -----

  /** Cards of rank r + 2 among the five. */
  function RankTally(m: multiset<Card>, r: int): nat {
    m[Card(r + 2, 0)] + m[Card(r + 2, 1)] + m[Card(r + 2, 2)] + m[Card(r + 2, 3)]
  }

  function Tallies(m: multiset<Card>): (c: seq<int>)
    ensures |c| == RANKS && forall r :: 0 <= r < RANKS ==> c[r] == RankTally(m, r)
  {
    seq(RANKS, r => RankTally(m, r))
  }

  predicate OneSuit(m: multiset<Card>) {
    exists u :: 0 <= u <= 3 && AllOf(m, u)
  }

  predicate AllOf(m: multiset<Card>, u: int) {
    forall c :: c in m ==> c.suit == u
  }

  /** The ranks below n that occur exactly k times, highest first. */
  function RanksWith(c: seq<int>, k: int, n: nat): (g: seq<int>)
    requires n <= |c|
    ensures forall i :: 0 <= i < |g| ==> 0 <= g[i] < n && c[g[i]] == k
    ensures forall i, j :: 0 <= i < j < |g| ==> g[i] > g[j]
    ensures forall r :: 0 <= r < n && c[r] == k ==> r in g
  {
    if n == 0 then []
    else if c[n - 1] == k then [n - 1] + RanksWith(c, k, n - 1)
    else RanksWith(c, k, n - 1)
  }

  /** The ranks in kicker precedence, group size by group size. */
  function GroupsOf(c: seq<int>, k: nat): seq<int>
    requires |c| == RANKS
  {
    if k == 0 then [] else RanksWith(c, k, RANKS) + GroupsOf(c, k - 1)
  }

  /** Every rank as often as it occurs, highest first. */
  function DescendingRanks(c: seq<int>, n: nat): seq<int>
    requires n <= |c|
  {
    if n == 0 then [] else Repeat(n - 1, c[n - 1]) + DescendingRanks(c, n - 1)
  }

  function Repeat(r: int, times: int): seq<int> {
    if times <= 0 then [] else [r] + Repeat(r, times - 1)
  }

  /** The ranks that occur between 1 and k times, in kicker precedence. */
  ghost predicate GroupList(c: seq<int>, k: nat, g: seq<int>)
    requires |c| == RANKS
  {
    && InRanks(g)
    && (forall i :: 0 <= i < |g| ==> 1 <= c[g[i]] <= k)
    && (forall r :: 0 <= r < RANKS && 1 <= c[r] <= k ==> r in g)
    && (forall i, j :: 0 <= i < j < |g| ==> g[i] != g[j] && Before(c, g[i], g[j]))
  }

  lemma GroupListAppend(c: seq<int>, k: nat, a: seq<int>, b: seq<int>)
    requires |c| == RANKS && k > 0 && GroupList(c, k - 1, b)
    requires forall i :: 0 <= i < |a| ==> 0 <= a[i] < RANKS && c[a[i]] == k
    requires forall i, j :: 0 <= i < j < |a| ==> a[i] > a[j]
    requires forall r :: 0 <= r < RANKS && c[r] == k ==> r in a
    ensures GroupList(c, k, a + b)
  {
    var g := a + b;
    forall i | 0 <= i < |g|
      ensures 0 <= g[i] < RANKS && 1 <= c[g[i]] <= k && (i >= |a| ==> c[g[i]] < k)
    {
      assert g[i] == if i < |a| then a[i] else b[i - |a|];
    }
    forall i, j | 0 <= i < j < |g|
      ensures g[i] != g[j] && Before(c, g[i], g[j])
    {
      assert g[i] == if i < |a| then a[i] else b[i - |a|];
      assert g[j] == if j < |a| then a[j] else b[j - |a|];
    }
  }

  lemma {:induction false} GroupsAreGroups(c: seq<int>, k: nat)
    requires |c| == RANKS
    ensures GroupList(c, k, GroupsOf(c, k))
  {
    if k > 0 {
      GroupsAreGroups(c, k - 1);
      hide GroupList;
      GroupListAppend(c, k, RanksWith(c, k, RANKS), GroupsOf(c, k - 1));
    }
  }

  lemma {:induction false} TalliesBounded(m: multiset<Card>)
    requires |m| == 5
    ensures forall r :: 0 <= r < RANKS ==> 0 <= Tallies(m)[r] <= 5
  {
    forall r | 0 <= r < RANKS
      ensures RankTally(m, r) <= 5
    {
      TallyBound(m, r);
    }
  }

  lemma TallyBound(m: multiset<Card>, r: int)
    ensures RankTally(m, r) <= |m|
  {
    var a, b, c, d := Card(r + 2, 0), Card(r + 2, 1), Card(r + 2, 2), Card(r + 2, 3);
    var m1 := m[a := 0];
    var m2 := m1[b := 0];
    var m3 := m2[c := 0];
    var m4 := m3[d := 0];
    assert |m| == |m1| + m[a] && |m1| == |m2| + m1[b] && |m2| == |m3| + m2[c] && |m3| == |m4| + m3[d];
  }

  lemma TallyAdd(m: multiset<Card>, c: Card, r: int)
    requires Valid(c)
    ensures RankTally(m + multiset{c}, r) == RankTally(m, r) + (if c.rank == r + 2 then 1 else 0)
  {
  }

  /** The tallies of valid cards add up to their number. */
  lemma {:induction false} TalliesSum(cs: seq<Card>)
    requires AllValid(cs)
    ensures Sum(Tallies(multiset(cs))) == |cs|
  {
    if cs == [] {
      ZeroSum(Tallies(multiset(cs)));
    } else {
      var n := |cs| - 1;
      var c, m := cs[n], multiset(cs[..n]);
      TalliesSum(cs[..n]);
      assert cs == cs[..n] + [c];
      assert multiset(cs) == m + multiset{c};
      forall r | 0 <= r < RANKS
        ensures Tallies(multiset(cs))[r] == Tallies(m)[r] + (if c.rank == r + 2 then 1 else 0)
      {
        TallyAdd(m, c, r);
      }
      var a := c.rank - 2;
      assert Tallies(multiset(cs)) == Tallies(m)[a := Tallies(m)[a] + 1];
      SumBump(Tallies(m), a);
    }
  }

  predicate FiveValid(five: seq<Card>) {
    |five| == 5 && AllValid(five)
  }

  lemma FiveGroups(five: seq<Card>)
    requires FiveValid(five)
    ensures var c := Tallies(multiset(five));
            var g := GroupsOf(c, 5);
            IsGroups(c, g) && InRanks(g) && (GroupSize(c, g, 0) == 4 ==> |g| >= 2)
  {
    hide GroupsOf, Sum, Tallies;
    var m := multiset(five);
    TalliesBounded(m);
    TalliesSum(five);
    GroupsAreGroups(Tallies(m), 5);
    var c, g := Tallies(m), GroupsOf(Tallies(m), 5);
    assert c[..RANKS] == c;
    if GroupSize(c, g, 0) == 4 && |g| < 2 {
      EnoughRanks(c, g[0], -1, 0, RANKS);
    }
  }

  /** What the five cards are worth: it depends on which cards they are, not on their order. */
  function FiveRating(five: seq<Card>): Rating
    requires FiveValid(five)
  {
    var c := Tallies(multiset(five));
    FiveGroups(five);
    Rate(c, OneSuit(multiset(five)), BestStraight(Present(c), 12), GroupsOf(c, 5), DescendingRanks(c, RANKS))
  }

  function FiveScore(five: seq<Card>): int
    requires FiveValid(five)
  {
    Encode(FiveRating(five), 2)
  }

  // ----- score5 -----

  lemma EmptyTally(five: seq<Card>)
    ensures forall r :: RankTally(multiset(five[..0]), r) == 0
  {
    assert five[..0] == [];
  }

  lemma NextTally(five: seq<Card>, i: nat)
    requires AllValid(five) && i < |five|
    ensures forall r :: 0 <= r < RANKS ==>
              (RankTally(multiset(five[..i + 1]), r)
               == RankTally(multiset(five[..i]), r) + (if five[i].rank == r + 2 then 1 else 0))
  {
    assert five[..i + 1] == five[..i] + [five[i]];
    assert multiset(five[..i + 1]) == multiset(five[..i]) + multiset{five[i]};
    forall r | 0 <= r < RANKS
      ensures RankTally(multiset(five[..i + 1]), r)
           == RankTally(multiset(five[..i]), r) + (if five[i].rank == r + 2 then 1 else 0)
    {
      TallyAdd(multiset(five[..i]), five[i], r);
    }
  }

  /** How often each rank occurs. */
  method CountRanks(five: seq<Card>) returns (c: seq<int>)
    requires FiveValid(five)
    ensures c == Tallies(multiset(five))
  {
    hide RankTally;
    assert forall r :: RankTally(multiset(five[..0]), r) == 0 by { EmptyTally(five); }
    c := seq(RANKS, _ => 0);
    for i := 0 to 5
      invariant |c| == RANKS && forall r :: 0 <= r < RANKS ==> c[r] == RankTally(multiset(five[..i]), r)
    {
      NextTally(five, i);
      c := c[five[i].rank - 2 := c[five[i].rank - 2] + 1];
    }
    assert five[..5] == five;
  }

  /** Whether some suit occurs five times. */
  method IsFlush(five: seq<Card>) returns (flush: bool)
    requires FiveValid(five)
    ensures flush == OneSuit(multiset(five))
  {
    flush := false;
    for u := 0 to 4
      invariant flush <==> exists x :: 0 <= x < u && AllOf(multiset(five), x)
    {
      var n := 0;
      for i := 0 to 5
        invariant 0 <= n <= i
        invariant n == i <==> forall j :: 0 <= j < i ==> five[j].suit == u
      {
        if five[i].suit == u { n := n + 1; }
      }
      assert n == 5 <==> AllOf(multiset(five), u) by {
        assert forall c :: c in multiset(five) <==> c in five;
        assert forall j :: 0 <= j < 5 ==> five[j] in five;
      }
      if n == 5 { flush := true; }
    }
  }

  /** The ranks that occur, highest first, then sorted in place into kicker precedence. */
  method ByCount(c: seq<int>) returns (g: seq<int>)
    requires |c| == RANKS && forall r :: 0 <= r < RANKS ==> 0 <= c[r] <= 5
    ensures g == GroupsOf(c, 5)
  {
    var listed: seq<int> := [];
    var r := 12;
    while r >= 0
      invariant -1 <= r <= 12
      invariant forall x :: x in listed <==> r < x < RANKS && c[x] > 0
      invariant forall i, j :: 0 <= i < j < |listed| ==> listed[i] != listed[j]
    {
      if c[r] > 0 { listed := listed + [r]; }
      r := r - 1;
    }
    var rs := new int[|listed|](i requires 0 <= i < |listed| => listed[i]);
    assert rs[..] == listed;
    assert forall i :: 0 <= i < |listed| ==> listed[i] in listed;
    SortGroups(rs, c);
    g := rs[..];
    SortedIsGroups(c, listed, g);
    GroupsAreGroups(c, 5);
    GroupsUnique(c, g, GroupsOf(c, 5));
  }

  /** The scan for five ranks in a row; 0 stands for no straight, as ranks start at 2. */
  method StraightHigh(c: seq<int>) returns (high: int)
    requires |c| == RANKS
    ensures high == if BestStraight(Present(c), 12) >= 0 then BestStraight(Present(c), 12) + 2 else 0
  {
    hide BestStraight;
    var b := Present(c);
    high := 0;
    var hi := 12;
    while hi > 3 && high == 0
      invariant 3 <= hi <= 12
      invariant high == 0 ==> BestStraight(b, 12) == BestStraight(b, hi)
      invariant high != 0 ==> high == BestStraight(b, 12) + 2 && BestStraight(b, 12) >= 0
    {
      StraightStep(b, hi);
      if c[hi] > 0 && c[hi - 1] > 0 && c[hi - 2] > 0 && c[hi - 3] > 0 && c[hi - 4] > 0 {
        high := hi + 2;
      }
      hi := hi - 1;
    }
    StraightStep(b, 3);
    if high == 0 && c[12] > 0 && c[0] > 0 && c[1] > 0 && c[2] > 0 && c[3] > 0 {
      high := 5;
    }
  }

  method AppendTimes(before: seq<int>, r: int, times: int) returns (d: seq<int>)
    ensures d == before + Repeat(r, times)
  {
    d := before;
    var left := times;
    while left > 0
      invariant d + Repeat(r, left) == before + Repeat(r, times)
    {
      assert d + ([r] + Repeat(r, left - 1)) == (d + [r]) + Repeat(r, left - 1);
      d := d + [r];
      left := left - 1;
    }
    assert d + [] == d;
  }

  method Descending5(c: seq<int>) returns (d: seq<int>)
    requires |c| == RANKS
    ensures d == DescendingRanks(c, RANKS)
  {
    d := [];
    var r := 12;
    while r >= 0
      invariant -1 <= r <= 12
      invariant d + DescendingRanks(c, r + 1) == DescendingRanks(c, RANKS)
    {
      assert DescendingRanks(c, r + 1) == Repeat(r, c[r]) + DescendingRanks(c, r);
      assert d + (Repeat(r, c[r]) + DescendingRanks(c, r)) == (d + Repeat(r, c[r])) + DescendingRanks(c, r);
      d := AppendTimes(d, r, c[r]);
      r := r - 1;
    }
    assert d + [] == d;
  }

  /** Packing: the category, then each tie-breaker shifted in, then zeros. */
  method Pack(v: Rating, bump: int) returns (score: int)
    requires |v.ties| <= 5
    ensures score == Encode(v, bump)
  {
    score := v.cat;
    var i := 0;
    while i < 5
      invariant 0 <= i <= 5
      invariant score == Partial(v, bump, i)
    {
      if i < |v.ties| {
        score := score * 16 + (v.ties[i] + bump);
      } else {
        score := score * 16;
      }
      i := i + 1;
    }
    PartialIsEncode(v, bump);
  }

  function Partial(v: Rating, bump: int, i: nat): int {
    if i == 0 then v.cat else Partial(v, bump, i - 1) * 16 + Digit(v, bump, i - 1)
  }

  lemma PartialIsEncode(v: Rating, bump: int)
    ensures Partial(v, bump, 5) == Encode(v, bump)
  {
    assert Partial(v, bump, 1) == v.cat * 16 + Digit(v, bump, 0);
    assert Partial(v, bump, 2) == Partial(v, bump, 1) * 16 + Digit(v, bump, 1);
    assert Partial(v, bump, 3) == Partial(v, bump, 2) * 16 + Digit(v, bump, 2);
    assert Partial(v, bump, 4) == Partial(v, bump, 3) * 16 + Digit(v, bump, 3);
  }

  lemma {:induction false} DescendingLength(c: seq<int>, n: nat)
    requires n <= |c| && forall r :: 0 <= r < |c| ==> c[r] >= 0
    ensures |DescendingRanks(c, n)| == Sum(c[..n])
  {
    if n > 0 {
      DescendingLength(c, n - 1);
      SumSnoc(c[..n - 1], c[n - 1]);
      assert c[..n] == c[..n - 1] + [c[n - 1]];
      RepeatLength(n - 1, c[n - 1]);
    } else {
      assert c[..0] == [];
    }
  }

  lemma {:induction false} RepeatLength(r: int, times: nat)
    ensures |Repeat(r, times)| == times
  {
    if times > 0 { RepeatLength(r, times - 1); }
  }

  lemma RatedLength(five: seq<Card>)
    requires FiveValid(five)
    ensures |FiveRating(five).ties| <= 5
  {
    hide Tallies, OneSuit, BestStraight, GroupsOf, DescendingRanks, Present, Sum, IsGroups;
    var c := Tallies(multiset(five));
    FiveGroups(five);
    TalliesSum(five);
    TalliesBounded(multiset(five));
    GroupsShort(c, GroupsOf(c, 5));
    DescendingLength(c, RANKS);
    assert c[..RANKS] == c;
  }

  method Score5(five: seq<Card>) returns (cat: nat, score: int)
    requires FiveValid(five)
    ensures cat == FiveRating(five).cat && score == FiveScore(five)
  {
    hide Tallies, OneSuit, BestStraight, GroupsOf, DescendingRanks, Encode, Present;
    FiveGroups(five);
    TalliesBounded(multiset(five));
    var c := CountRanks(five);
    var flush := IsFlush(five);
    var high := StraightHigh(c);
    var g := ByCount(c);
    var d := Descending5(c);
    var v := Rate(c, flush, high - 2, g, d);
    RatedLength(five);
    score := Pack(v, 2);
    cat := v.cat;
  }

  // ----- the best five -----

  predicate InBounds<T>(hand: seq<T>, idx: seq<int>) {
    forall i :: 0 <= i < |idx| ==> 0 <= idx[i] < |hand|
  }

  /** The cards at the chosen indices. */
  function Pick<T>(hand: seq<T>, idx: seq<int>): (five: seq<T>)
    ensures InBounds(hand, idx) ==> |five| == |idx| && forall i :: 0 <= i < |idx| ==> five[i] == hand[idx[i]]
  {
    if InBounds(hand, idx) then seq(|idx|, i requires 0 <= i < |idx| => hand[idx[i]]) else []
  }

  datatype Result = Result(category: nat, score: int, best: seq<Card>)

  /** Five cards the rules allow: any five when useHole is not positive, and otherwise exactly that
      many from the hole with the rest from the board. */
  ghost predicate Allowed(hole: seq<Card>, board: seq<Card>, useHole: int, five: seq<Card>) {
    if useHole <= 0 then exists idx :: PicksPool(hole + board, idx, five)
    else exists h, b :: PicksSplit(hole, board, useHole, h, b, five)
  }

  ghost predicate PicksPool(hand: seq<Card>, idx: seq<int>, five: seq<Card>) {
    IsChoice(idx, |hand|, 5) && five == Pick(hand, idx)
  }

  ghost predicate PicksSplit(hole: seq<Card>, board: seq<Card>, useHole: int, h: seq<int>, b: seq<int>, five: seq<Card>) {
    && 0 < useHole < 5 && IsChoice(h, |hole|, useHole) && IsChoice(b, |board|, 5 - useHole)
    && five == Pick(hole, h) + Pick(board, b)
  }

  /** When a hand can be scored at all. Using all five hole cards is refused, because no choice of
      zero board cards is ever visited. */
  predicate Scorable(hole: seq<Card>, board: seq<Card>, useHole: int) {
    && AllValid(hole) && AllValid(board)
    && if useHole <= 0 then |hole| + |board| >= 5 else useHole < 5 && useHole <= |hole| && 5 - useHole <= |board|
  }

  lemma AllowedValid(hole: seq<Card>, board: seq<Card>, useHole: int, five: seq<Card>)
    requires AllValid(hole) && AllValid(board) && Allowed(hole, board, useHole, five)
    ensures FiveValid(five)
  {
  }

  /** s is the highest score any allowed five reach. */
  ghost predicate IsBestScore(hole: seq<Card>, board: seq<Card>, useHole: int, s: int) {
    && (exists five :: Allowed(hole, board, useHole, five) && Scores5(five, s))
    && (forall five :: Allowed(hole, board, useHole, five) ==> ScoresAtMost(five, s))
  }

  ghost predicate Scores5(five: seq<Card>, s: int) {
    FiveValid(five) && FiveScore(five) == s
  }

  ghost predicate ScoresAtMost(five: seq<Card>, s: int) {
    FiveValid(five) ==> FiveScore(five) <= s
  }

  method Best(hand: seq<Card>) returns (r: Option<Result>)
    ensures r.Some? <==> |hand| >= 5 && AllValid(hand)
    ensures r.Some? ==> IsBestScore(hand, [], 0, r.value.score) && Allowed(hand, [], 0, r.value.best)
    ensures r.Some? ==> FiveValid(r.value.best) && FiveScore(r.value.best) == r.value.score
    ensures r.Some? ==> FiveRating(r.value.best).cat == r.value.category
  {
    if |hand| < 5 {
      return None;
    }
    var i := 0;
    while i < |hand|
      invariant 0 <= i <= |hand| && forall j :: 0 <= j < i ==> Valid(hand[j])
    {
      if !Valid(hand[i]) {
        return None;
      }
      i := i + 1;
    }
    hide FiveRating, FiveScore, Less;
    assert hand + [] == hand;
    var visits := ForEach(|hand|, 5);
    FirstVisited(|hand|, 5, visits);
    var best := Result(0, 0, []);
    var v := 0;
    while v < |visits|
      invariant 0 <= v <= |visits|
      invariant v > 0 ==> FiveValid(best.best) && FiveScore(best.best) == best.score && FiveRating(best.best).cat == best.category
      invariant v > 0 ==> Allowed(hand, [], 0, best.best)
      invariant forall u :: 0 <= u < v ==> ScoresAtMost(Pick(hand, visits[u]), best.score)
    {
      assert visits[v] in visits;
      var five := Pick(hand, visits[v]);
      var cat, score := Score5(five);
      assert PicksPool(hand + [], visits[v], five);
      if v == 0 || score > best.score {
        best := Result(cat, score, five);
      }
      v := v + 1;
    }
    forall five | Allowed(hand, [], 0, five)
      ensures ScoresAtMost(five, best.score)
    {
      var idx :| PicksPool(hand + [], idx, five);
      assert idx in visits;
      var u :| 0 <= u < |visits| && visits[u] == idx;
    }
    r := Some(best);
  }

  lemma FirstVisited(n: int, k: int, visits: seq<seq<int>>)
    requires 0 < k <= n && forall s :: s in visits <==> 0 < k && IsChoice(s, n, k)
    ensures |visits| > 0
  {
    assert IsChoice(First(k), n, k);
    assert First(k) in visits;
  }

  ghost predicate ValidBest(hole: seq<Card>, board: seq<Card>, useHole: int, r: Result) {
    FiveValid(r.best) && FiveScore(r.best) == r.score && FiveRating(r.best).cat == r.category && Allowed(hole, board, useHole, r.best)
  }

  lemma SplitAllowed(hole: seq<Card>, board: seq<Card>, useHole: int, h: seq<int>, b: seq<int>)
    requires 0 < useHole < 5 && IsChoice(h, |hole|, useHole) && IsChoice(b, |board|, 5 - useHole)
    ensures Allowed(hole, board, useHole, Pick(hole, h) + Pick(board, b))
  {
    assert PicksSplit(hole, board, useHole, h, b, Pick(hole, h) + Pick(board, b));
  }

  /** The inner search over board cards, for one choice of hole cards. */
  method SearchBoard(hole: seq<Card>, board: seq<Card>, useHole: int, h: seq<int>, bVisits: seq<seq<int>>, sofar: Option<Result>)
    returns (best: Option<Result>)
    requires 0 < useHole < 5 && AllValid(hole) && AllValid(board) && IsChoice(h, |hole|, useHole)
    requires forall b :: b in bVisits ==> IsChoice(b, |board|, 5 - useHole)
    requires sofar.Some? ==> ValidBest(hole, board, useHole, sofar.value)
    ensures best.Some? ==> ValidBest(hole, board, useHole, best.value)
    ensures best.None? ==> sofar.None? && bVisits == []
    ensures sofar.Some? ==> best.Some? && best.value.score >= sofar.value.score
    ensures forall b :: b in bVisits ==> best.Some? && ScoresAtMost(Pick(hole, h) + Pick(board, b), best.value.score)
  {
    hide FiveRating, FiveScore, Less, AllValid, Allowed, IsChoice, Pick, FiveValid;
    best := sofar;
    var v := 0;
    while v < |bVisits|
      invariant 0 <= v <= |bVisits|
      invariant best.Some? ==> ValidBest(hole, board, useHole, best.value)
      invariant best.None? ==> sofar.None? && v == 0
      invariant sofar.Some? ==> best.Some? && best.value.score >= sofar.value.score
      invariant forall u :: 0 <= u < v ==>
                  best.Some? && ScoresAtMost(Pick(hole, h) + Pick(board, bVisits[u]), best.value.score)
    {
      var b := bVisits[v];
      assert b in bVisits;
      var five := Pick(hole, h) + Pick(board, b);
      SplitAllowed(hole, board, useHole, h, b);
      AllowedValid(hole, board, useHole, five);
      var cat, score := Score5(five);
      if best.None? || score > best.value.score {
        best := Some(Result(cat, score, five));
      }
      v := v + 1;
    }
  }

  method BestSplit(hole: seq<Card>, board: seq<Card>, useHole: int) returns (r: Result)
    requires 0 < useHole < 5 && useHole <= |hole| && 5 - useHole <= |board| && AllValid(hole) && AllValid(board)
    ensures IsBestScore(hole, board, useHole, r.score) && ValidBest(hole, board, useHole, r)
  {
    hide FiveRating, FiveScore, Less, AllValid, IsChoice, Pick, FiveValid, ValidBest, Allowed, ScoresAtMost;
    var hVisits := ForEach(|hole|, useHole);
    var bVisits := ForEach(|board|, 5 - useHole);
    FirstVisited(|hole|, useHole, hVisits);
    FirstVisited(|board|, 5 - useHole, bVisits);
    var best: Option<Result> := None;
    var v := 0;
    while v < |hVisits|
      invariant 0 <= v <= |hVisits|
      invariant v > 0 ==> best.Some?
      invariant best.Some? ==> ValidBest(hole, board, useHole, best.value)
      invariant forall u, b :: 0 <= u < v && b in bVisits ==>
                  best.Some? && ScoresAtMost(Pick(hole, hVisits[u]) + Pick(board, b), best.value.score)
    {
      assert hVisits[v] in hVisits;
      ghost var was := best;
      best := SearchBoard(hole, board, useHole, hVisits[v], bVisits, best);
      forall u, b | 0 <= u < v && b in bVisits
        ensures ScoresAtMost(Pick(hole, hVisits[u]) + Pick(board, b), best.value.score)
      {
        AtMostWeakens(Pick(hole, hVisits[u]) + Pick(board, b), was.value.score, best.value.score);
      }
      v := v + 1;
    }
    r := best.value;
    SplitBest(hole, board, useHole, hVisits, bVisits, r);
  }

  lemma AtMostWeakens(five: seq<Card>, s: int, t: int)
    requires ScoresAtMost(five, s) && s <= t
    ensures ScoresAtMost(five, t)
  {
  }

  lemma SplitBest(hole: seq<Card>, board: seq<Card>, useHole: int, hVisits: seq<seq<int>>, bVisits: seq<seq<int>>, r: Result)
    requires 0 < useHole < 5 && ValidBest(hole, board, useHole, r)
    requires forall h :: h in hVisits <==> 0 < useHole && IsChoice(h, |hole|, useHole)
    requires forall b :: b in bVisits <==> 0 < 5 - useHole && IsChoice(b, |board|, 5 - useHole)
    requires forall u, b :: 0 <= u < |hVisits| && b in bVisits ==>
               ScoresAtMost(Pick(hole, hVisits[u]) + Pick(board, b), r.score)
    ensures IsBestScore(hole, board, useHole, r.score)
  {
    hide FiveScore, FiveRating, IsChoice, Pick, ScoresAtMost;
    forall five | Allowed(hole, board, useHole, five)
      ensures ScoresAtMost(five, r.score)
    {
      var h, b :| PicksSplit(hole, board, useHole, h, b, five);
      assert h in hVisits && b in bVisits;
      var u :| 0 <= u < |hVisits| && hVisits[u] == h;
      assert five == Pick(hole, hVisits[u]) + Pick(board, b);
    }
    assert Scores5(r.best, r.score);
  }

  method BestConstrained(hole: seq<Card>, board: seq<Card>, useHole: int) returns (r: Option<Result>)
    ensures r.Some? <==> Scorable(hole, board, useHole)
    ensures r.Some? ==> IsBestScore(hole, board, useHole, r.value.score) && ValidBest(hole, board, useHole, r.value)
  {
    if useHole <= 0 {
      r := Best(hole + board);
      PoolValid(hole, board);
      PoolBest(hole, board, useHole, r);
      return;
    }
    // No choice of zero or fewer board cards is ever visited, so nothing is found from 5 up.
    if useHole > |hole| || 5 - useHole > |board| || !AllValid(hole) || !AllValid(board) || 5 - useHole <= 0 {
      return None;
    }
    var best := BestSplit(hole, board, useHole);
    r := Some(best);
  }

  lemma PoolBest(hole: seq<Card>, board: seq<Card>, useHole: int, r: Option<Result>)
    requires useHole <= 0
    ensures r.Some? && IsBestScore(hole + board, [], 0, r.value.score) ==> IsBestScore(hole, board, useHole, r.value.score)
    ensures r.Some? && Allowed(hole + board, [], 0, r.value.best) ==> Allowed(hole, board, useHole, r.value.best)
  {
    hide FiveScore;
    assert (hole + board) + [] == hole + board;
    assert forall five :: Allowed(hole + board, [], 0, five) <==> Allowed(hole, board, useHole, five);
  }

  lemma PoolValid(hole: seq<Card>, board: seq<Card>)
    ensures AllValid(hole + board) <==> AllValid(hole) && AllValid(board)
  {
    var p := hole + board;
    assert forall i :: 0 <= i < |hole| ==> p[i] == hole[i];
    assert forall i :: 0 <= i < |board| ==> p[|hole| + i] == board[i];
  }

  // ----- the score depends only on which cards are held -----

  lemma {:induction false} ChoiceIsSub<T(!new)>(hand: seq<T>, idx: seq<int>)
    requires IsChoice(idx, |hand|, |idx|)
    ensures multiset(Pick(hand, idx)) <= multiset(hand)
    decreases |hand|
  {
    hide IsChoice;
    if idx == [] {
      assert Pick(hand, idx) == [];
    } else {
      var n, k := |hand| - 1, |idx| - 1;
      ChoiceEnds<T>(idx, |hand|);
      assert hand == hand[..n] + [hand[n]];
      assert multiset(hand) == multiset(hand[..n]) + multiset{hand[n]};
      if idx[k] == n {
        ChoiceIsSub(hand[..n], idx[..k]);
        PickLast(hand, idx[..k]);
        assert idx == idx[..k] + [n];
      } else {
        ChoiceIsSub(hand[..n], idx);
        PickEarlier(hand, idx);
      }
    }
  }

  lemma ChoiceEnds<T(!new)>(idx: seq<int>, n: int)
    requires IsChoice(idx, n, |idx|) && |idx| > 0
    ensures n > 0 && 0 <= idx[|idx| - 1] < n
    ensures idx[|idx| - 1] == n - 1 ==> IsChoice(idx[..|idx| - 1], n - 1, |idx| - 1)
    ensures idx[|idx| - 1] != n - 1 ==> IsChoice(idx, n - 1, |idx|)
    ensures forall hand: seq<T> :: |hand| == n - 1 ==> InBounds(hand, idx[..|idx| - 1])
    ensures idx[|idx| - 1] != n - 1 ==> forall hand: seq<T> :: |hand| == n - 1 ==> InBounds(hand, idx)
  {
    var k := |idx| - 1;
    assert forall i :: 0 <= i < k ==> idx[i] < idx[k];
  }

  lemma PickLast<T>(hand: seq<T>, rest: seq<int>)
    requires hand != [] && InBounds(hand[..|hand| - 1], rest)
    ensures Pick(hand, rest + [|hand| - 1]) == Pick(hand[..|hand| - 1], rest) + [hand[|hand| - 1]]
  {
    assert InBounds(hand, rest + [|hand| - 1]);
  }

  lemma PickEarlier<T>(hand: seq<T>, idx: seq<int>)
    requires hand != [] && InBounds(hand[..|hand| - 1], idx)
    ensures Pick(hand, idx) == Pick(hand[..|hand| - 1], idx)
  {
    assert InBounds(hand, idx);
  }

  lemma ChoiceExtends<T(!new)>(rest: seq<int>, n: int, k: int)
    requires IsChoice(rest, n, k) && n >= 0
    ensures IsChoice(rest + [n], n + 1, k + 1) && IsChoice(rest, n + 1, k)
    ensures forall hand: seq<T> :: |hand| == n + 1 ==> InBounds(hand, rest + [n]) && InBounds(hand, rest)
  {
  }

  lemma SubWithout<T>(m: multiset<T>, h: multiset<T>, c: T)
    requires m <= h + multiset{c}
    ensures c in m ==> m - multiset{c} <= h && |m - multiset{c}| == |m| - 1 && m == (m - multiset{c}) + multiset{c}
    ensures c !in m ==> m <= h
  {
  }

  lemma {:induction false} SubIsChoice<T(!new)>(hand: seq<T>, m: multiset<T>) returns (idx: seq<int>)
    requires m <= multiset(hand)
    ensures IsChoice(idx, |hand|, |m|) && InBounds(hand, idx) && multiset(Pick(hand, idx)) == m
    decreases |hand|
  {
    if hand == [] {
      assert m == multiset{};
      idx := [];
    } else {
      hide Pick, IsChoice, InBounds;
      var n := |hand| - 1;
      var c := hand[n];
      assert hand == hand[..n] + [c];
      assert multiset(hand) == multiset(hand[..n]) + multiset{c};
      SubWithout(m, multiset(hand[..n]), c);
      if c in m {
        var rest := SubIsChoice(hand[..n], m - multiset{c});
        idx := rest + [n];
        ChoiceExtends<T>(rest, n, |m| - 1);
        PickLast(hand, rest);
      } else {
        idx := SubIsChoice(hand[..n], m);
        ChoiceExtends<T>(idx, n, |m|);
        PickEarlier(hand, idx);
      }
    }
  }

  lemma SameCardsSameScore(a: seq<Card>, b: seq<Card>)
    requires FiveValid(a) && multiset(a) == multiset(b)
    ensures FiveValid(b) && FiveScore(a) == FiveScore(b)
  {
    hide Tallies, Rate, Encode, OneSuit;
    assert |multiset(a)| == |a| && |multiset(b)| == |b|;
    forall i | 0 <= i < |b|
      ensures Valid(b[i])
    {
      assert b[i] in multiset(b);
      assert b[i] in a;
    }
  }

  ghost predicate SameCards(hole: seq<Card>, board: seq<Card>, hole': seq<Card>, board': seq<Card>) {
    multiset(hole) == multiset(hole') && multiset(board) == multiset(board')
  }

  /** Any five of a pooled hand can be picked from any reordering of it. */
  lemma ReorderedPool(hole: seq<Card>, board: seq<Card>, hole': seq<Card>, board': seq<Card>, useHole: int, five: seq<Card>)
    returns (same: seq<Card>)
    requires SameCards(hole, board, hole', board') && useHole <= 0 && Allowed(hole, board, useHole, five)
    ensures Allowed(hole', board', useHole, same) && multiset(same) == multiset(five)
  {
    var idx :| PicksPool(hole + board, idx, five);
    ChoiceIsSub(hole + board, idx);
    assert multiset(hole + board) == multiset(hole' + board');
    var j := SubIsChoice(hole' + board', multiset(five));
    same := Pick(hole' + board', j);
    assert PicksPool(hole' + board', j, same);
  }

  /** The same with a fixed number of hole cards. */
  lemma ReorderedSplit(hole: seq<Card>, board: seq<Card>, hole': seq<Card>, board': seq<Card>, useHole: int, five: seq<Card>)
    returns (same: seq<Card>)
    requires SameCards(hole, board, hole', board') && useHole > 0 && Allowed(hole, board, useHole, five)
    ensures Allowed(hole', board', useHole, same) && multiset(same) == multiset(five)
  {
    var h, b :| PicksSplit(hole, board, useHole, h, b, five);
    ChoiceIsSub(hole, h);
    ChoiceIsSub(board, b);
    var p, q := Pick(hole, h), Pick(board, b);
    assert |multiset(p)| == |p| && |multiset(q)| == |q|;
    var h' := SubIsChoice(hole', multiset(p));
    var b' := SubIsChoice(board', multiset(q));
    same := Pick(hole', h') + Pick(board', b');
    assert PicksSplit(hole', board', useHole, h', b', same);
  }

  lemma BestNotAbove(hole: seq<Card>, board: seq<Card>, hole': seq<Card>, board': seq<Card>, useHole: int, s: int, t: int)
    requires SameCards(hole, board, hole', board') && AllValid(hole) && AllValid(board)
    requires IsBestScore(hole, board, useHole, s) && IsBestScore(hole', board', useHole, t)
    ensures s <= t
  {
    hide FiveScore, Allowed;
    var five :| Allowed(hole, board, useHole, five) && Scores5(five, s);
    var same: seq<Card>;
    if useHole <= 0 {
      same := ReorderedPool(hole, board, hole', board', useHole, five);
    } else {
      same := ReorderedSplit(hole, board, hole', board', useHole, five);
    }
    SameCardsSameScore(five, same);
    assert ScoresAtMost(same, t);
  }

  /** `Best` and `BestConstrained` give the same score however the hole and board cards are ordered. */
  lemma BestIgnoresOrder(hole: seq<Card>, board: seq<Card>, hole': seq<Card>, board': seq<Card>, useHole: int)
    requires SameCards(hole, board, hole', board')
    ensures Scorable(hole, board, useHole) <==> Scorable(hole', board', useHole)
    ensures forall s, t :: Scorable(hole, board, useHole) && IsBestScore(hole, board, useHole, s) && IsBestScore(hole', board', useHole, t) ==> s == t
  {
    hide IsBestScore;
    ScorableReordered(hole, board, hole', board', useHole);
    forall s, t | Scorable(hole, board, useHole) && IsBestScore(hole, board, useHole, s) && IsBestScore(hole', board', useHole, t)
      ensures s == t
    {
      BestNotAbove(hole, board, hole', board', useHole, s, t);
      BestNotAbove(hole', board', hole, board, useHole, t, s);
    }
  }

  lemma ScorableReordered(hole: seq<Card>, board: seq<Card>, hole': seq<Card>, board': seq<Card>, useHole: int)
    requires SameCards(hole, board, hole', board')
    ensures Scorable(hole, board, useHole) <==> Scorable(hole', board', useHole)
  {
    ValidReordered(hole, hole');
    ValidReordered(board, board');
  }

  lemma ValidReordered(a: seq<Card>, b: seq<Card>)
    requires multiset(a) == multiset(b)
    ensures |a| == |b| && (AllValid(a) <==> AllValid(b))
  {
    assert |multiset(a)| == |a| && |multiset(b)| == |b|;
    if AllValid(a) { ValidFrom(a, b); }
    if AllValid(b) { ValidFrom(b, a); }
  }

  lemma ValidFrom(a: seq<Card>, b: seq<Card>)
    requires multiset(a) == multiset(b) && AllValid(a)
    ensures AllValid(b)
  {
    forall i | 0 <= i < |b|
      ensures Valid(b[i])
    {
      assert b[i] in multiset(b);
      assert b[i] in multiset(a);
      var j :| 0 <= j < |a| && a[j] == b[i];
    }
  }

  // ----- the score as a function, for the engine -----

  lemma BestUnique(hole: seq<Card>, board: seq<Card>, useHole: int, s: int, t: int)
    requires IsBestScore(hole, board, useHole, s) && IsBestScore(hole, board, useHole, t)
    ensures s == t
  {
    hide FiveScore, Allowed;
    var a :| Allowed(hole, board, useHole, a) && Scores5(a, s);
    var b :| Allowed(hole, board, useHole, b) && Scores5(b, t);
    assert ScoresAtMost(a, t) && ScoresAtMost(b, s);
  }

  lemma {:induction false} DescendingBounded(c: seq<int>, n: nat)
    requires n <= |c|
    ensures forall i :: 0 <= i < |DescendingRanks(c, n)| ==> 0 <= DescendingRanks(c, n)[i] < n
  {
    if n > 0 {
      DescendingBounded(c, n - 1);
      RepeatBounded(n - 1, c[n - 1]);
    }
  }

  lemma {:induction false} RepeatBounded(r: int, times: int)
    ensures forall i :: 0 <= i < |Repeat(r, times)| ==> Repeat(r, times)[i] == r
  {
    if times > 0 { RepeatBounded(r, times - 1); }
  }

  /** A score is never negative, so it always beats the engine's initial -1. */
  lemma ScoreRange(five: seq<Card>)
    requires FiveValid(five)
    ensures 0 <= FiveScore(five) < 10 * 1048576
  {
    hide Tallies, OneSuit, BestStraight, GroupsOf, DescendingRanks, Present, IsGroups;
    FiveGroups(five);
    RatedLength(five);
    DescendingBounded(Tallies(multiset(five)), RANKS);
    EncodeRange(FiveRating(five));
  }

  lemma EncodeRange(v: Rating)
    requires v.cat <= 8 && |v.ties| <= 5 && forall i :: 0 <= i < |v.ties| ==> 0 <= v.ties[i] < RANKS
    ensures 0 <= Encode(v, 2) < 10 * 1048576
  {
  }

  /** A straight flush outscores every hand of mixed suits. */
  lemma MixedSuitsScore(five: seq<Card>)
    requires FiveValid(five) && !OneSuit(multiset(five))
    ensures FiveScore(five) < 8 * 1048576
  {
    hide Tallies, OneSuit, BestStraight, GroupsOf, DescendingRanks, Present, IsGroups;
    FiveGroups(five);
    RatedLength(five);
    DescendingBounded(Tallies(multiset(five)), RANKS);
    EncodeBelow(FiveRating(five));
  }

  lemma EncodeBelow(v: Rating)
    requires v.cat <= 7 && |v.ties| <= 5 && forall i :: 0 <= i < |v.ties| ==> 0 <= v.ties[i] < RANKS
    ensures Encode(v, 2) < 8 * 1048576
  {
  }

  /** A royal flush. */
  lemma RoyalScore(five: seq<Card>)
    requires FiveValid(five) && OneSuit(multiset(five))
    requires forall r :: 8 <= r < RANKS ==> RankTally(multiset(five), r) > 0
    ensures FiveScore(five) >= 8 * 1048576
  {
    hide OneSuit, GroupsOf, DescendingRanks, IsGroups, RankTally;
    FiveGroups(five);
    var c := Tallies(multiset(five));
    assert RunFrom(Present(c), 12);
    assert FiveRating(five) == Rating(8, [12]);
  }

  lemma SomeAllowed(hole: seq<Card>, board: seq<Card>, useHole: int)
    requires Scorable(hole, board, useHole)
    ensures exists five :: Allowed(hole, board, useHole, five) && FiveValid(five)
  {
    var five;
    if useHole <= 0 {
      five := Pick(hole + board, First(5));
      assert PicksPool(hole + board, First(5), five);
    } else {
      five := Pick(hole, First(useHole)) + Pick(board, First(5 - useHole));
      assert PicksSplit(hole, board, useHole, First(useHole), First(5 - useHole), five);
    }
    assert Allowed(hole, board, useHole, five);
    AllowedValid(hole, board, useHole, five);
  }

  lemma BestExists(hole: seq<Card>, board: seq<Card>, useHole: int) returns (s: int)
    requires Scorable(hole, board, useHole)
    ensures IsBestScore(hole, board, useHole, s) && s >= 0
  {
    hide FiveScore, Allowed, FiveValid;
    SomeAllowed(hole, board, useHole);
    var some :| Allowed(hole, board, useHole, some) && FiveValid(some);
    s := 10 * 1048576;
    forall five | Allowed(hole, board, useHole, five)
      ensures ScoresAtMost(five, s)
    {
      if FiveValid(five) { ScoreRange(five); }
    }
    ScoreRange(some);
    while !(exists five :: Allowed(hole, board, useHole, five) && Scores5(five, s))
      invariant s >= FiveScore(some)
      invariant forall five :: Allowed(hole, board, useHole, five) ==> ScoresAtMost(five, s)
      decreases s
    {
      forall five | Allowed(hole, board, useHole, five)
        ensures ScoresAtMost(five, s - 1)
      {
        assert !Scores5(five, s);
      }
      assert ScoresAtMost(some, s - 1);
      s := s - 1;
    }
  }

  /** The score of a seat's best hand, or None where scoring fails. */
  ghost function ScoreOf(hole: seq<Card>, board: seq<Card>, useHole: int): (r: Option<int>)
    ensures r.Some? <==> Scorable(hole, board, useHole)
    ensures r.Some? ==> r.value >= 0 && IsBestScore(hole, board, useHole, r.value)
  {
    if Scorable(hole, board, useHole) then
      assert exists s :: IsBestScore(hole, board, useHole, s) && s >= 0 by {
        var s := BestExists(hole, board, useHole);
      }
      var s :| IsBestScore(hole, board, useHole, s) && s >= 0;
      Some(s)
    else None
  }
}
