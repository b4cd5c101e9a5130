/**
 Five cards rated by their rank groups, the way both reference evaluators do it: the ranks sorted by
 how often they occur and then by height, and a category read off the first two group sizes.
 */
module FiveCards {
  import opened Ratings
  import opened Sums
  import opened BestHand

  /** The kicker precedence: larger groups first, then higher ranks. */
  predicate Before(c: seq<int>, a: int, b: int)
    requires |c| == RANKS && 0 <= a < RANKS && 0 <= b < RANKS
  {
    c[a] > c[b] || (c[a] == c[b] && a >= b)
  }

  predicate InRanks(g: seq<int>) {
    forall i :: 0 <= i < |g| ==> 0 <= g[i] < RANKS
  }

  /** g lists every rank that occurs, once, in kicker precedence. */
  ghost predicate IsGroups(c: seq<int>, g: seq<int>)
    requires |c| == RANKS
  {
    && InRanks(g)
    && (forall i :: 0 <= i < |g| ==> c[g[i]] > 0)
    && (forall r :: 0 <= r < RANKS && c[r] > 0 ==> r in g)
    && (forall i, j :: 0 <= i < j < |g| ==> g[i] != g[j] && Before(c, g[i], g[j]))
  }

  lemma {:induction false} GroupsUnique(c: seq<int>, g: seq<int>, h: seq<int>)
    requires |c| == RANKS && IsGroups(c, g) && IsGroups(c, h)
    ensures g == h
    decreases |g|
  {
    hide IsGroups;
    if g != [] || h != [] {
      SameHead(c, g, h);
      var d := c[g[0] := 0];
      TailGroups(c, g, d);
      TailGroups(c, h, d);
      GroupsUnique(d, g[1..], h[1..]);
      assert g == [g[0]] + g[1..] && h == [h[0]] + h[1..];
    }
  }

  lemma SameHead(c: seq<int>, g: seq<int>, h: seq<int>)
    requires |c| == RANKS && IsGroups(c, g) && IsGroups(c, h) && (g != [] || h != [])
    ensures g != [] && h != [] && g[0] == h[0] && 0 <= g[0] < RANKS
  {
    if h != [] { assert c[h[0]] > 0 && h[0] in g; }
    if g != [] { assert c[g[0]] > 0 && g[0] in h; }
  }

  lemma TailGroups(c: seq<int>, g: seq<int>, d: seq<int>)
    requires |c| == RANKS && IsGroups(c, g) && g != [] && 0 <= g[0] < RANKS && d == c[g[0] := 0]
    ensures IsGroups(d, g[1..])
  {
    var t := g[1..];
    forall i | 0 <= i < |t|
      ensures 0 <= t[i] < RANKS && d[t[i]] > 0
    {
      TailEntry(c, g, d, i);
    }
    forall i, j | 0 <= i < j < |t|
      ensures t[i] != t[j] && Before(d, t[i], t[j])
    {
      TailEntry(c, g, d, i);
      TailEntry(c, g, d, j);
      assert Before(c, g[i + 1], g[j + 1]);
    }
    forall r | 0 <= r < RANKS && d[r] > 0
      ensures r in t
    {
      TailCovers(c, g, d, r);
    }
    hide Before;
  }

  lemma TailEntry(c: seq<int>, g: seq<int>, d: seq<int>, i: int)
    requires |c| == RANKS && IsGroups(c, g) && g != [] && 0 <= g[0] < RANKS && d == c[g[0] := 0] && 0 <= i < |g| - 1
    ensures g[1..][i] == g[i + 1] && 0 <= g[i + 1] < RANKS && d[g[i + 1]] == c[g[i + 1]] > 0
  {
    assert g[0] != g[i + 1];
  }

  lemma TailCovers(c: seq<int>, g: seq<int>, d: seq<int>, r: int)
    requires |c| == RANKS && IsGroups(c, g) && g != [] && 0 <= g[0] < RANKS && d == c[g[0] := 0] && 0 <= r < RANKS && d[r] > 0
    ensures r in g[1..]
  {
    hide Before;
    assert r in g;
    assert g == [g[0]] + g[1..];
  }

  /** There are no more groups than cards. */
  lemma {:induction false} GroupsShort(c: seq<int>, g: seq<int>)
    requires |c| == RANKS && IsGroups(c, g) && forall r :: 0 <= r < RANKS ==> c[r] >= 0
    ensures |g| <= Sum(c)
    decreases |g|
  {
    if g == [] {
      SumNonNegative(c);
    } else {
      assert c[g[0]] > 0;
      var d := c[g[0] := 0];
      TailGroups(c, g, d);
      SumUpdate(c, g[0]);
      hide IsGroups;
      GroupsShort(d, g[1..]);
    }
  }

  /** Everything up to index i is in precedence order, except that entry j may belong earlier. */
  ghost predicate SortedExcept(c: seq<int>, s: seq<int>, i: int, j: int)
    requires |c| == RANKS && InRanks(s) && i < |s|
  {
    forall x, y :: 0 <= x < y <= i && y != j ==> Before(c, s[x], s[y])
  }

  function Swapped(s: seq<int>, j: int): (t: seq<int>)
    requires 0 < j < |s|
    ensures |t| == |s|
  {
    s[j - 1 := s[j]][j := s[j - 1]]
  }

  lemma SwapKeeps(c: seq<int>, s: seq<int>, i: int, j: int)
    requires |c| == RANKS && InRanks(s) && 0 < j <= i < |s| && SortedExcept(c, s, i, j)
    requires !Before(c, s[j - 1], s[j])
    ensures InRanks(Swapped(s, j)) && multiset(Swapped(s, j)) == multiset(s)
    ensures SortedExcept(c, Swapped(s, j), i, j - 1)
  {
    var t := Swapped(s, j);
    forall x, y | 0 <= x < y <= i && y != j - 1
      ensures Before(c, t[x], t[y])
    {
      if y == j && x < j - 1 { assert Before(c, s[x], s[j - 1]); }
      if y > j && x == j - 1 { assert Before(c, s[j], s[y]); }
      if y > j && x == j { assert Before(c, s[j - 1], s[y]); }
      if x != j && x != j - 1 && y != j { assert Before(c, s[x], s[y]); }
    }
  }

  lemma BreakSorted(c: seq<int>, s: seq<int>, i: int, j: int)
    requires |c| == RANKS && InRanks(s) && 0 <= j <= i < |s| && SortedExcept(c, s, i, j)
    requires j > 0 ==> Before(c, s[j - 1], s[j])
    ensures SortedExcept(c, s, i, -1)
  {
    forall x, y | 0 <= x < y <= i
      ensures Before(c, s[x], s[y])
    {
      if y == j && x < j - 1 { assert Before(c, s[x], s[j - 1]); }
    }
  }

  /** The in-place insertion sort over a short list of ranks. */
  method SortGroups(rs: array<int>, c: seq<int>)
    requires |c| == RANKS && InRanks(rs[..])
    modifies rs
    ensures multiset(rs[..]) == multiset(old(rs[..])) && InRanks(rs[..])
    ensures forall x, y :: 0 <= x < y < rs.Length ==> Before(c, rs[..][x], rs[..][y])
  {
    var i := 1;
    while i < rs.Length
      invariant 1 <= i && (rs.Length > 0 ==> i <= rs.Length)
      invariant multiset(rs[..]) == multiset(old(rs[..])) && InRanks(rs[..])
      invariant rs.Length > 0 ==> SortedExcept(c, rs[..], i - 1, -1)
    {
      var j := i;
      while j > 0
        invariant 0 <= j <= i
        invariant multiset(rs[..]) == multiset(old(rs[..])) && InRanks(rs[..])
        invariant SortedExcept(c, rs[..], i, j)
      {
        ghost var s := rs[..];
        if Before(c, rs[j - 1], rs[j]) {
          break;
        }
        SwapKeeps(c, s, i, j);
        rs[j - 1], rs[j] := rs[j], rs[j - 1];
        assert rs[..] == Swapped(s, j);
        j := j - 1;
      }
      BreakSorted(c, rs[..], i, j);
      i := i + 1;
    }
  }

  lemma SortedIsGroups(c: seq<int>, listed: seq<int>, g: seq<int>)
    requires |c| == RANKS && multiset(g) == multiset(listed) && InRanks(g)
    requires forall i, j :: 0 <= i < j < |listed| ==> listed[i] != listed[j]
    requires forall r :: r in listed <==> 0 <= r < RANKS && c[r] > 0
    requires forall i, j :: 0 <= i < j < |g| ==> Before(c, g[i], g[j])
    ensures IsGroups(c, g)
  {
    forall r
      ensures r in g <==> r in listed
    {
      assert r in multiset(g) <==> r in multiset(listed);
    }
    forall i, j | 0 <= i < j < |g|
      ensures g[i] != g[j]
    {
      OnceEach(listed, g[i]);
      if g[i] == g[j] {
        TwiceIn(g, i, j);
      }
    }
  }

  lemma {:induction false} OnceEach(s: seq<int>, x: int)
    requires forall i, j :: 0 <= i < j < |s| ==> s[i] != s[j]
    ensures multiset(s)[x] <= 1
  {
    if s != [] {
      var n := |s| - 1;
      OnceEach(s[..n], x);
      assert s == s[..n] + [s[n]];
      if x == s[n] {
        assert x !in multiset(s[..n]);
      }
    }
  }

  lemma TwiceIn(s: seq<int>, i: int, j: int)
    requires 0 <= i < j < |s| && s[i] == s[j]
    ensures multiset(s)[s[i]] >= 2
  {
    assert s == s[..i] + [s[i]] + s[i + 1..j] + [s[j]] + s[j + 1..];
  }

  // ----- the category -----

  function GroupSize(c: seq<int>, g: seq<int>, i: nat): int
    requires |c| == RANKS && InRanks(g)
  {
    if i < |g| then c[g[i]] else 0
  }

  /** The shared switch. `straight` is the straight's high rank or -1, d the ranks in descending order. */
  function Rate(c: seq<int>, flush: bool, straight: int, g: seq<int>, d: seq<int>): Rating
    requires |c| == RANKS && InRanks(g) && (GroupSize(c, g, 0) == 4 ==> |g| >= 2)
  {
    if straight >= 0 && flush then Rating(8, [straight])
    else if GroupSize(c, g, 0) == 4 then Rating(7, [g[0], g[1]])
    else if GroupSize(c, g, 0) == 3 && GroupSize(c, g, 1) == 2 then Rating(6, [g[0], g[1]])
    else if flush then Rating(5, d)
    else if straight >= 0 then Rating(4, [straight])
    else if GroupSize(c, g, 0) == 3 then Rating(3, g)
    else if GroupSize(c, g, 0) == 2 && GroupSize(c, g, 1) == 2 then Rating(2, g)
    else if GroupSize(c, g, 0) == 2 then Rating(1, g)
    else Rating(0, d)
  }

  predicate FiveCounts(c: seq<int>) {
    |c| == RANKS && (forall r :: 0 <= r < RANKS ==> 0 <= c[r] <= 4) && Sum(c) == 5
  }

  /** The groups written with the single pass's own searches. */
  function GroupTies(c: seq<int>): seq<int>
    requires |c| == RANKS
  {
    var b := Present(c);
    var quad, trip, pair := Highest(c, 4, RANKS), Highest(c, 3, RANKS), Highest(c, 2, RANKS);
    var low := NextHighest(c, 2, pair);
    if quad >= 0 then [quad] + Top(b, quad, -1, 1, RANKS)
    else if trip >= 0 && pair >= 0 then [trip, pair]
    else if trip >= 0 then [trip] + Top(b, trip, -1, 2, RANKS)
    else if low >= 0 then [pair, low] + Top(b, pair, low, 1, RANKS)
    else if pair >= 0 then [pair] + Top(b, pair, -1, 3, RANKS)
    else Top(b, -1, -1, 5, RANKS)
  }

  lemma {:induction false} AtMostRanks(c: seq<int>, ex1: int, ex2: int, n: int)
    requires 0 <= n <= |c| && forall r :: 0 <= r < |c| ==> 0 <= c[r]
    ensures Available(Present(c), ex1, ex2, n) + (if 0 <= ex1 < n then c[ex1] else 0)
            + (if 0 <= ex2 < n && ex2 != ex1 then c[ex2] else 0) <= Sum(c[..n])
  {
    if n > 0 {
      hide Sum;
      AtMostRanks(c, ex1, ex2, n - 1);
      SumSnoc(c[..n - 1], c[n - 1]);
      assert c[..n] == c[..n - 1] + [c[n - 1]];
    } else {
      assert c[..0] == [];
    }
  }

  lemma {:induction false} TopTakesAll(b: seq<bool>, ex1: int, ex2: int, want: nat, n: int, r: int)
    requires 0 <= r < n <= |b| && b[r] && r != ex1 && r != ex2 && Available(b, ex1, ex2, n) <= want
    ensures r in Top(b, ex1, ex2, want, n)
  {
    if b[n - 1] && n - 1 != ex1 && n - 1 != ex2 {
      if r < n - 1 { TopTakesAll(b, ex1, ex2, want - 1, n - 1, r); }
    } else {
      TopTakesAll(b, ex1, ex2, want, n - 1, r);
    }
  }

  // ----- five cards: the groups are what the single pass finds -----

  /** The ranks outside the excluded ones are exactly the kickers. */
  lemma ExactKickers(c: seq<int>, ex1: int, ex2: int, want: nat)
    requires FiveCounts(c) && -1 <= ex1 < RANKS && -1 <= ex2 < RANKS && (ex1 >= 0 && ex2 >= 0 ==> ex1 != ex2)
    requires (if ex1 >= 0 then c[ex1] else 0) + (if ex2 >= 0 then c[ex2] else 0) + want == 5
    requires forall r :: 0 <= r < RANKS && r != ex1 && r != ex2 ==> c[r] <= 1
    ensures var t := Top(Present(c), ex1, ex2, want, RANKS);
            && |t| == want && Marked(Present(c), ex1, ex2, RANKS, t)
            && forall r :: 0 <= r < RANKS && c[r] > 0 && r != ex1 && r != ex2 ==> r in t
  {
    hide Sum, Top, Available, Marked;
    EnoughRanks(c, ex1, ex2, 1, RANKS);
    AtMostRanks(c, ex1, ex2, RANKS);
    assert c[..RANKS] == c;
    TopMarked(Present(c), ex1, ex2, want, RANKS);
    forall r | 0 <= r < RANKS && c[r] > 0 && r != ex1 && r != ex2
      ensures r in Top(Present(c), ex1, ex2, want, RANKS)
    {
      TopTakesAll(Present(c), ex1, ex2, want, RANKS, r);
    }
  }

  /** A leading group list followed by single kickers is in precedence order. */
  lemma LeadThenKickers(c: seq<int>, lead: seq<int>, t: seq<int>, ex1: int, ex2: int)
    requires FiveCounts(c) && InRanks(lead) && Marked(Present(c), ex1, ex2, RANKS, t)
    requires |lead| <= 2 && (forall i :: 0 <= i < |lead| ==> lead[i] == ex1 || lead[i] == ex2)
    requires forall i :: 0 <= i < |lead| ==> c[lead[i]] >= 2
    requires |lead| == 2 ==> lead[0] != lead[1] && Before(c, lead[0], lead[1])
    requires forall i :: 0 <= i < |t| ==> c[t[i]] == 1
    requires forall r :: 0 <= r < RANKS && c[r] > 0 ==> r in lead || r in t
    ensures IsGroups(c, lead + t)
  {
    hide Sum, Present;
    var g := lead + t;
    forall i | 0 <= i < |g|
      ensures 0 <= g[i] < RANKS && c[g[i]] > 0
    {
      assert g[i] == if i < |lead| then lead[i] else t[i - |lead|];
    }
    forall i, j | 0 <= i < j < |g|
      ensures g[i] != g[j] && Before(c, g[i], g[j])
    {
      assert g[i] == if i < |lead| then lead[i] else t[i - |lead|];
      assert g[j] == if j < |lead| then lead[j] else t[j - |lead|];
    }
    hide Marked, Before, FiveCounts;
  }

  lemma QuadGroups(c: seq<int>)
    requires FiveCounts(c) && Highest(c, 4, RANKS) >= 0
    ensures IsGroups(c, GroupTies(c)) && GroupTies(c)[0] == Highest(c, 4, RANKS) && |GroupTies(c)| == 2
  {
    hide Sum, Top, Marked, IsGroups, Present;
    var x := Highest(c, 4, RANKS);
    OthersAtMost(c, x);
    ExactKickers(c, x, -1, 1);
    KickersSingle(c, x, -1, Top(Present(c), x, -1, 1, RANKS));
    LeadThenKickers(c, [x], Top(Present(c), x, -1, 1, RANKS), x, -1);
  }

  lemma OthersAtMost(c: seq<int>, x: int)
    requires FiveCounts(c) && 0 <= x < RANKS
    ensures forall r :: 0 <= r < RANKS && r != x ==> c[r] <= 5 - c[x]
  {
    forall r | 0 <= r < RANKS && r != x
      ensures c[r] <= 5 - c[x]
    {
      SumOfThree(c, x, r, x);
    }
  }

  lemma OthersAtMost2(c: seq<int>, x: int, y: int)
    requires FiveCounts(c) && 0 <= x < RANKS && 0 <= y < RANKS && x != y
    ensures forall r :: 0 <= r < RANKS && r != x && r != y ==> c[r] <= 5 - c[x] - c[y]
  {
    forall r | 0 <= r < RANKS && r != x && r != y
      ensures c[r] <= 5 - c[x] - c[y]
    {
      SumOfThree(c, x, y, r);
    }
  }

  lemma KickersSingle(c: seq<int>, ex1: int, ex2: int, t: seq<int>)
    requires |c| == RANKS && Marked(Present(c), ex1, ex2, RANKS, t)
    requires forall r :: 0 <= r < RANKS && r != ex1 && r != ex2 ==> c[r] <= 1
    ensures InRanks(t) && forall i :: 0 <= i < |t| ==> c[t[i]] == 1
  {
  }

  lemma FullHouseGroups(c: seq<int>)
    requires FiveCounts(c) && Highest(c, 4, RANKS) < 0 && Highest(c, 3, RANKS) >= 0 && Highest(c, 2, RANKS) >= 0
    ensures IsGroups(c, GroupTies(c)) && GroupTies(c) == [Highest(c, 3, RANKS), Highest(c, 2, RANKS)]
    ensures FullHousePair(c) == Highest(c, 2, RANKS)
  {
    hide Sum;
    OthersAtMost2(c, Highest(c, 3, RANKS), Highest(c, 2, RANKS));
  }

  lemma TripGroups(c: seq<int>)
    requires FiveCounts(c) && Highest(c, 4, RANKS) < 0 && Highest(c, 3, RANKS) >= 0 && Highest(c, 2, RANKS) < 0
    ensures IsGroups(c, GroupTies(c)) && |GroupTies(c)| == 3 && GroupTies(c)[0] == Highest(c, 3, RANKS)
    ensures c[GroupTies(c)[1]] == 1 && FullHousePair(c) < 0
  {
    hide Sum, Top, Marked, IsGroups, Present;
    var x := Highest(c, 3, RANKS);
    OthersAtMost(c, x);
    ExactKickers(c, x, -1, 2);
    KickersSingle(c, x, -1, Top(Present(c), x, -1, 2, RANKS));
    LeadThenKickers(c, [x], Top(Present(c), x, -1, 2, RANKS), x, -1);
  }

  lemma TwoPairGroups(c: seq<int>)
    requires FiveCounts(c) && Highest(c, 4, RANKS) < 0 && Highest(c, 3, RANKS) < 0
    requires NextHighest(c, 2, Highest(c, 2, RANKS)) >= 0
    ensures IsGroups(c, GroupTies(c)) && |GroupTies(c)| == 3
    ensures GroupTies(c)[0] == Highest(c, 2, RANKS) && GroupTies(c)[1] == NextHighest(c, 2, Highest(c, 2, RANKS))
  {
    hide Sum, Top, Marked, IsGroups, Present;
    var x := Highest(c, 2, RANKS);
    var y := NextHighest(c, 2, x);
    OthersAtMost2(c, x, y);
    ExactKickers(c, x, y, 1);
    KickersSingle(c, x, y, Top(Present(c), x, y, 1, RANKS));
    LeadThenKickers(c, [x, y], Top(Present(c), x, y, 1, RANKS), x, y);
  }

  lemma PairGroups(c: seq<int>)
    requires FiveCounts(c) && Highest(c, 4, RANKS) < 0 && Highest(c, 3, RANKS) < 0
    requires Highest(c, 2, RANKS) >= 0 && NextHighest(c, 2, Highest(c, 2, RANKS)) < 0
    ensures IsGroups(c, GroupTies(c)) && |GroupTies(c)| == 4 && GroupTies(c)[0] == Highest(c, 2, RANKS)
    ensures c[GroupTies(c)[1]] == 1
  {
    hide Sum, Top, Marked, IsGroups, Present;
    var x := Highest(c, 2, RANKS);
    assert forall r :: 0 <= r < RANKS && r != x ==> c[r] <= 1;
    ExactKickers(c, x, -1, 3);
    KickersSingle(c, x, -1, Top(Present(c), x, -1, 3, RANKS));
    LeadThenKickers(c, [x], Top(Present(c), x, -1, 3, RANKS), x, -1);
  }

  lemma NoGroups(c: seq<int>)
    requires FiveCounts(c) && Highest(c, 4, RANKS) < 0 && Highest(c, 3, RANKS) < 0 && Highest(c, 2, RANKS) < 0
    ensures IsGroups(c, GroupTies(c)) && |GroupTies(c)| == 5 && c[GroupTies(c)[0]] == 1
    ensures GroupTies(c) == Top(Present(c), -1, -1, 5, RANKS)
  {
    hide Sum, Top, Marked;
    assert forall r :: 0 <= r < RANKS ==> c[r] <= 1;
    ExactKickers(c, -1, -1, 5);
    var t := Top(Present(c), -1, -1, 5, RANKS);
    SinglesGroups(c, t);
  }

  lemma SinglesGroups(c: seq<int>, t: seq<int>)
    requires |c| == RANKS && Marked(Present(c), -1, -1, RANKS, t) && |t| == 5
    requires forall r :: 0 <= r < RANKS ==> 0 <= c[r] <= 1
    requires forall r :: 0 <= r < RANKS && c[r] > 0 ==> r in t
    ensures IsGroups(c, t) && c[t[0]] == 1
  {
  }

  /** Five cards' profile in the terms the group evaluators use. */
  ghost predicate FiveProfile(p: Profile, straight: int, g: seq<int>, d: seq<int>) {
    && Shaped(p) && FiveCounts(p.count) && IsGroups(p.count, g)
    && straight == BestStraight(Present(p.count), 12)
    && (p.flush ==> p.suited == Present(p.count) && forall r :: 0 <= r < RANKS ==> p.count[r] <= 1)
    && ((forall r :: 0 <= r < RANKS ==> p.count[r] <= 1) ==> d == Top(Present(p.count), -1, -1, 5, RANKS))
  }

  /** The group switch gives the single pass's rating on any five distinct cards. */
  lemma RateIsEvaluate(p: Profile, straight: int, g: seq<int>, d: seq<int>)
    requires FiveProfile(p, straight, g, d)
    ensures GroupSize(p.count, g, 0) == 4 ==> |g| >= 2
    ensures Rate(p.count, p.flush, straight, g, d) == Evaluate(p)
  {
    hide Sum, Top, IsGroups, BestStraight, Available, Present;
    var c := p.count;
    var quad, trip, pair := Highest(c, 4, RANKS), Highest(c, 3, RANKS), Highest(c, 2, RANKS);
    var low := NextHighest(c, 2, pair);
    if quad >= 0 {
      QuadGroups(c);
    } else if trip >= 0 && pair >= 0 {
      FullHouseGroups(c);
    } else if trip >= 0 {
      TripGroups(c);
    } else if low >= 0 {
      TwoPairGroups(c);
    } else if pair >= 0 {
      PairGroups(c);
    } else {
      NoGroups(c);
      assert forall r :: 0 <= r < RANKS ==> c[r] <= 1;
    }
    GroupsUnique(c, g, GroupTies(c));
    if p.flush {
      assert quad < 0 && trip < 0 && pair < 0;
    }
  }
}
