/**
 What a set of cards is worth, independently of any evaluator: the patterns a hand shows, the order
 on them, and a single pass over rank counts that finds the best one.

 Ranks run from 0 (deuce) to 12 (ace).
 */
module Ratings {
  import opened Sums

  const RANKS: nat := 13

  /** Category 0 (high card) to 8 (straight flush) and the ranks that break ties, most significant first. */
  datatype Rating = Rating(cat: nat, ties: seq<int>)

  /** How many cards of each rank, and, when five or more share a suit, that suit's ranks. */
  datatype Profile = Profile(count: seq<int>, flush: bool, suited: seq<bool>)

  predicate Shaped(p: Profile) {
    && |p.count| == RANKS && |p.suited| == RANKS
    && (forall r :: 0 <= r < RANKS ==> 0 <= p.count[r] <= 4)
    && (p.flush ==> forall r :: 0 <= r < RANKS && p.suited[r] ==> p.count[r] > 0)
  }

  /** A profile of five to seven distinct cards. */
  ghost predicate Playable(p: Profile) {
    && Shaped(p) && 5 <= Sum(p.count) <= 7
    && (p.flush ==> Available(p.suited, -1, -1, RANKS) >= 5)
  }

  function Present(c: seq<int>): (b: seq<bool>)
    ensures |b| == |c| && forall r :: 0 <= r < |c| ==> b[r] == (c[r] > 0)
  {
    seq(|c|, i requires 0 <= i < |c| => c[i] > 0)
  }

  // ----- straights -----

  predicate RunFrom(b: seq<bool>, h: int)
    requires |b| == RANKS
  {
    4 <= h < RANKS && b[h] && b[h - 1] && b[h - 2] && b[h - 3] && b[h - 4]
  }

  predicate Wheel(b: seq<bool>)
    requires |b| == RANKS
  {
    b[12] && b[0] && b[1] && b[2] && b[3]
  }

  /** Five consecutive ranks ending at h; the wheel counts as ending at rank 3. */
  predicate IsStraight(b: seq<bool>, h: int)
    requires |b| == RANKS
  {
    RunFrom(b, h) || (h == 3 && Wheel(b))
  }

  /** The highest straight at or below h, or -1. */
  function BestStraight(b: seq<bool>, h: int): (s: int)
    requires |b| == RANKS && 3 <= h < RANKS
    ensures -1 <= s <= h && s != 0 && (s >= 0 ==> IsStraight(b, s))
    ensures forall x :: s < x <= h ==> !IsStraight(b, x)
  {
    if h == 3 then (if Wheel(b) then 3 else -1)
    else if RunFrom(b, h) then h
    else BestStraight(b, h - 1)
  }

  lemma StraightStep(b: seq<bool>, h: int)
    requires |b| == RANKS && 3 <= h <= 12
    ensures BestStraight(b, h) == if h == 3 then (if Wheel(b) then 3 else -1)
                                  else if RunFrom(b, h) then h else BestStraight(b, h - 1)
  {
  }

  // ----- groups of one rank -----

  /** The highest rank below n that occurs exactly m times, or -1. */
  function Highest(c: seq<int>, m: int, n: int): (r: int)
    requires 0 <= n <= |c|
    ensures -1 <= r < n && (r >= 0 ==> c[r] == m)
    ensures forall x :: r < x < n ==> c[x] != m
  {
    if n == 0 then -1 else if c[n - 1] == m then n - 1 else Highest(c, m, n - 1)
  }

  /** The next rank below r that also occurs exactly m times, or -1. */
  function NextHighest(c: seq<int>, m: int, r: int): (x: int)
    requires r < |c|
    ensures -1 <= x && (x >= 0 ==> x < r && c[x] == m)
    ensures forall y :: x < y < r && 0 <= y ==> c[y] != m
  {
    if r < 0 then -1 else Highest(c, m, r)
  }

  // ----- kickers -----

  /** The top `want` marked ranks below n, leaving out two. */
  function Top(b: seq<bool>, ex1: int, ex2: int, want: nat, n: int): (t: seq<int>)
    requires 0 <= n <= |b|
    ensures |t| <= want
  {
    if n == 0 || want == 0 then []
    else if b[n - 1] && n - 1 != ex1 && n - 1 != ex2 then [n - 1] + Top(b, ex1, ex2, want - 1, n - 1)
    else Top(b, ex1, ex2, want, n - 1)
  }

  function Available(b: seq<bool>, ex1: int, ex2: int, n: int): nat
    requires 0 <= n <= |b|
  {
    if n == 0 then 0
    else Available(b, ex1, ex2, n - 1) + (if b[n - 1] && n - 1 != ex1 && n - 1 != ex2 then 1 else 0)
  }

  predicate Descending(t: seq<int>) {
    forall i, j :: 0 <= i < j < |t| ==> t[i] > t[j]
  }

  /** Distinct marked ranks below n, in descending order, avoiding two. */
  predicate Marked(b: seq<bool>, ex1: int, ex2: int, n: int, t: seq<int>)
    requires 0 <= n <= |b|
  {
    Descending(t) && forall i :: 0 <= i < |t| ==> 0 <= t[i] < n && b[t[i]] && t[i] != ex1 && t[i] != ex2
  }

  lemma {:induction false} TopMarked(b: seq<bool>, ex1: int, ex2: int, want: nat, n: int)
    requires 0 <= n <= |b|
    ensures Marked(b, ex1, ex2, n, Top(b, ex1, ex2, want, n))
    ensures |Top(b, ex1, ex2, want, n)| == if Available(b, ex1, ex2, n) < want then Available(b, ex1, ex2, n) else want
  {
    if n > 0 && want > 0 {
      TopMarked(b, ex1, ex2, want - 1, n - 1);
      TopMarked(b, ex1, ex2, want, n - 1);
    } else if n > 0 {
      assert Top(b, ex1, ex2, want, n) == [];
    }
  }

  predicate LexLe(a: seq<int>, b: seq<int>)
    requires |a| == |b|
  {
    a == [] || a[0] < b[0] || (a[0] == b[0] && LexLe(a[1..], b[1..]))
  }

  lemma MarkedHead(b: seq<bool>, ex1: int, ex2: int, n: int, xs: seq<int>)
    requires 0 <= n <= |b| && Marked(b, ex1, ex2, n, xs) && |xs| > 0
    ensures 0 <= xs[0] < n
  {
  }

  lemma MarkedTail(b: seq<bool>, ex1: int, ex2: int, n: int, xs: seq<int>)
    requires 0 < n <= |b| && Marked(b, ex1, ex2, n, xs) && |xs| > 0
    ensures Marked(b, ex1, ex2, n - 1, xs[1..])
  {
    forall i | 0 <= i < |xs| - 1
      ensures xs[1..][i] < n - 1
    {
      assert xs[0] > xs[i + 1];
    }
  }

  lemma MarkedBelow(b: seq<bool>, ex1: int, ex2: int, n: int, xs: seq<int>)
    requires 0 < n <= |b| && Marked(b, ex1, ex2, n, xs) && (!b[n - 1] || n - 1 == ex1 || n - 1 == ex2)
    ensures Marked(b, ex1, ex2, n - 1, xs)
  {
    forall i | 0 <= i < |xs|
      ensures xs[i] < n - 1
    {
      assert xs[i] != n - 1;
    }
  }

  lemma TopNext(b: seq<bool>, ex1: int, ex2: int, want: nat, n: int)
    requires 0 < n <= |b| && want > 0
    ensures Top(b, ex1, ex2, want, n)
            == if b[n - 1] && n - 1 != ex1 && n - 1 != ex2 then [n - 1] + Top(b, ex1, ex2, want - 1, n - 1)
               else Top(b, ex1, ex2, want, n - 1)
  {
  }

  lemma LexCons(xs: seq<int>, y: int, ys: seq<int>)
    requires |xs| == |ys| + 1 && xs[0] <= y && LexLe(xs[1..], ys)
    ensures LexLe(xs, [y] + ys)
  {
    assert ([y] + ys)[1..] == ys;
  }

  /** No descending choice of marked ranks beats the top ones. */
  lemma {:induction false} TopDominates(b: seq<bool>, ex1: int, ex2: int, n: int, xs: seq<int>)
    requires 0 <= n <= |b| && Marked(b, ex1, ex2, n, xs)
    ensures |Top(b, ex1, ex2, |xs|, n)| == |xs|
    ensures LexLe(xs, Top(b, ex1, ex2, |xs|, n))
  {
    if |xs| > 0 {
      MarkedHead(b, ex1, ex2, n, xs);
      TopNext(b, ex1, ex2, |xs|, n);
      hide Marked, Top;
      if b[n - 1] && n - 1 != ex1 && n - 1 != ex2 {
        MarkedTail(b, ex1, ex2, n, xs);
        TopDominates(b, ex1, ex2, n - 1, xs[1..]);
        LexCons(xs, n - 1, Top(b, ex1, ex2, |xs| - 1, n - 1));
      } else {
        MarkedBelow(b, ex1, ex2, n, xs);
        TopDominates(b, ex1, ex2, n - 1, xs);
      }
    }
  }

  /** If every rank left in occurs at most m times, enough cards mean enough ranks. */
  lemma {:induction false} EnoughRanks(c: seq<int>, ex1: int, ex2: int, m: int, n: int)
    requires 0 <= n <= |c| && m >= 0
    requires forall r :: 0 <= r < |c| ==> 0 <= c[r]
    requires forall r :: 0 <= r < |c| && r != ex1 && r != ex2 ==> c[r] <= m
    ensures Sum(c[..n]) <= (if 0 <= ex1 < n then c[ex1] else 0) + (if 0 <= ex2 < n && ex2 != ex1 then c[ex2] else 0)
                           + m * Available(Present(c), ex1, ex2, n)
  {
    if n > 0 {
      hide Sum;
      EnoughRanks(c, ex1, ex2, m, n - 1);
      SumSnoc(c[..n - 1], c[n - 1]);
      assert c[..n] == c[..n - 1] + [c[n - 1]];
      OneMore(m, Available(Present(c), ex1, ex2, n - 1));
    }
  }

  /** Two or three different ranks account for no more cards than there are. */
  lemma SumOfThree(c: seq<int>, x: int, y: int, z: int)
    requires 0 <= x < |c| && 0 <= y < |c| && 0 <= z < |c| && x != y
    requires forall r :: 0 <= r < |c| ==> c[r] >= 0
    ensures c[x] + c[y] + (if z == x || z == y then 0 else c[z]) <= Sum(c)
  {
    SumUpdate(c, x);
    var d := c[x := 0];
    SumUpdate(d, y);
    var e := d[y := 0];
    SumUpdate(e, z);
    SumNonNegative(e[z := 0]);
  }

  // ----- patterns and their order -----

  /** The number of tie-breaking ranks a category carries. */
  function TieLength(cat: nat): nat {
    if cat == 8 || cat == 4 then 1
    else if cat == 7 || cat == 6 then 2
    else if cat == 3 || cat == 2 then 3
    else if cat == 1 then 4
    else 5
  }

  predicate WellFormed(v: Rating) {
    v.cat <= 8 && |v.ties| == TieLength(v.cat) && forall i :: 0 <= i < |v.ties| ==> 0 <= v.ties[i] < RANKS
  }

  predicate RatingLe(a: Rating, b: Rating)
    requires WellFormed(a) && WellFormed(b)
  {
    a.cat < b.cat || (a.cat == b.cat && LexLe(a.ties, b.ties))
  }

  /** The cards contain five that make this rating: the rules of the game, one category at a time. */
  predicate Shows(p: Profile, v: Rating)
    requires Shaped(p)
  {
    && WellFormed(v)
    && var c, t := p.count, v.ties;
       match v.cat
       case 8 => p.flush && IsStraight(p.suited, t[0])
       case 7 => c[t[0]] == 4 && c[t[1]] >= 1 && t[0] != t[1]
       case 6 => c[t[0]] >= 3 && c[t[1]] >= 2 && t[0] != t[1]
       case 5 => p.flush && Marked(p.suited, -1, -1, RANKS, t)
       case 4 => IsStraight(Present(c), t[0])
       case 3 => c[t[0]] >= 3 && Marked(Present(c), t[0], -1, RANKS, t[1..])
       case 2 => c[t[0]] >= 2 && c[t[1]] >= 2 && t[0] > t[1] && Marked(Present(c), t[0], t[1], RANKS, t[2..])
       case 1 => c[t[0]] >= 2 && Marked(Present(c), t[0], -1, RANKS, t[1..])
       case _ => Marked(Present(c), -1, -1, RANKS, t)
  }

  // ----- the single pass -----

  function FullHousePair(c: seq<int>): int
    requires |c| == RANKS
  {
    var pair, trip := Highest(c, 2, RANKS), NextHighest(c, 3, Highest(c, 3, RANKS));
    if trip > pair then trip else pair
  }

  /** The best pattern, chosen category by category from the top. */
  function Evaluate(p: Profile): (v: Rating)
    requires Shaped(p)
    ensures v.cat <= 8
  {
    var c := p.count;
    var b := Present(c);
    var straight, quad, trip, pair := BestStraight(b, 12), Highest(c, 4, RANKS), Highest(c, 3, RANKS), Highest(c, 2, RANKS);
    if p.flush && BestStraight(p.suited, 12) >= 0 then Rating(8, [BestStraight(p.suited, 12)])
    else if quad >= 0 then Rating(7, [quad] + Top(b, quad, -1, 1, RANKS))
    else if trip >= 0 && FullHousePair(c) >= 0 then Rating(6, [trip, FullHousePair(c)])
    else if p.flush then Rating(5, Top(p.suited, -1, -1, 5, RANKS))
    else if straight >= 0 then Rating(4, [straight])
    else if trip >= 0 then Rating(3, [trip] + Top(b, trip, -1, 2, RANKS))
    else if NextHighest(c, 2, pair) >= 0 then
      Rating(2, [pair, NextHighest(c, 2, pair)] + Top(b, pair, NextHighest(c, 2, pair), 1, RANKS))
    else if pair >= 0 then Rating(1, [pair] + Top(b, pair, -1, 3, RANKS))
    else Rating(0, Top(b, -1, -1, 5, RANKS))
  }

  lemma FewerTimes(m: int, a: int, want: int)
    requires m > 0
    ensures a < want ==> m * a <= m * (want - 1)
  {
  }

  /** Among n cards' ranks there are enough kickers for what the pass chose. */
  lemma EnoughKickers(p: Profile, ex1: int, ex2: int, m: int, want: nat)
    requires Playable(p) && -1 <= ex1 < RANKS && -1 <= ex2 < RANKS && m > 0
    requires ex1 >= 0 && ex2 >= 0 ==> ex1 != ex2
    requires forall r :: 0 <= r < RANKS && r != ex1 && r != ex2 ==> p.count[r] <= m
    requires (if ex1 >= 0 then p.count[ex1] else 0) + (if ex2 >= 0 then p.count[ex2] else 0) + m * (want - 1) < 5
    ensures Available(Present(p.count), ex1, ex2, RANKS) >= want
    ensures |Top(Present(p.count), ex1, ex2, want, RANKS)| == want
  {
    hide Sum, Available, Top, Marked;
    EnoughRanks(p.count, ex1, ex2, m, RANKS);
    assert p.count[..RANKS] == p.count;
    FewerTimes(m, Available(Present(p.count), ex1, ex2, RANKS), want);
    TopMarked(Present(p.count), ex1, ex2, want, RANKS);
  }

  // ----- the pass shows what it claims -----

  lemma EvaluateShows(p: Profile)
    requires Playable(p)
    ensures Shows(p, Evaluate(p))
  {
    hide Sum, Available, Top, RunFrom, Wheel, Marked, IsStraight;
    var v := Evaluate(p);
    if v.cat == 7 {
      KickersAfter(p, Highest(p.count, 4, RANKS), -1, 4, 1);
      QuadKicker(Present(p.count), Highest(p.count, 4, RANKS));
    } else if v.cat == 5 {
      FlushRanks(p);
    } else if v.cat == 3 || v.cat == 1 {
      GroupShows(p);
    } else if v.cat == 2 {
      PairsShow(p);
    } else if v.cat == 0 {
      HighCardShows(p);
    }
  }

  lemma FlushRanks(p: Profile)
    requires Playable(p) && p.flush
    ensures var t := Top(p.suited, -1, -1, 5, RANKS);
            |t| == 5 && Marked(p.suited, -1, -1, RANKS, t) && forall i :: 0 <= i < 5 ==> 0 <= t[i] < RANKS
  {
    TopMarked(p.suited, -1, -1, 5, RANKS);
  }

  lemma GroupShows(p: Profile)
    requires Playable(p) && (Evaluate(p).cat == 3 || Evaluate(p).cat == 1)
    ensures Shows(p, Evaluate(p))
  {
    hide Sum, Available, Top, Marked, IsStraight, BestStraight;
    var v := Evaluate(p);
    var x := v.ties[0];
    var want := if v.cat == 3 then 2 else 3;
    assert forall r :: 0 <= r < RANKS && r != x ==> p.count[r] <= 1;
    KickersAfter(p, x, -1, 1, want);
    assert v.ties[1..] == Top(Present(p.count), x, -1, want, RANKS);
  }

  lemma PairsShow(p: Profile)
    requires Playable(p) && Evaluate(p).cat == 2
    ensures Shows(p, Evaluate(p))
  {
    hide Sum, Available, Top, Marked, IsStraight, BestStraight;
    var v := Evaluate(p);
    KickersAfter(p, v.ties[0], v.ties[1], 2, 1);
    assert v.ties[2..] == Top(Present(p.count), v.ties[0], v.ties[1], 1, RANKS);
  }

  lemma HighCardShows(p: Profile)
    requires Playable(p) && Evaluate(p).cat == 0
    ensures Shows(p, Evaluate(p))
  {
    hide Sum, Available, Top, Marked, IsStraight, BestStraight;
    KickersAfter(p, -1, -1, 1, 5);
  }

  lemma KickersAfter(p: Profile, ex1: int, ex2: int, m: int, want: nat)
    requires Playable(p) && -1 <= ex1 < RANKS && -1 <= ex2 < RANKS && m > 0
    requires ex1 >= 0 && ex2 >= 0 ==> ex1 != ex2
    requires forall r :: 0 <= r < RANKS && r != ex1 && r != ex2 ==> p.count[r] <= m
    requires (if ex1 >= 0 then p.count[ex1] else 0) + (if ex2 >= 0 then p.count[ex2] else 0) + m * (want - 1) < 5
    ensures var t := Top(Present(p.count), ex1, ex2, want, RANKS);
            |t| == want && Marked(Present(p.count), ex1, ex2, RANKS, t) && forall i :: 0 <= i < want ==> 0 <= t[i] < RANKS
  {
    EnoughKickers(p, ex1, ex2, m, want);
    TopMarked(Present(p.count), ex1, ex2, want, RANKS);
  }

  lemma QuadKicker(b: seq<bool>, quad: int)
    requires |b| == RANKS && |Top(b, quad, -1, 1, RANKS)| == 1
    ensures var k := Top(b, quad, -1, 1, RANKS)[0]; 0 <= k < RANKS && b[k] && k != quad
  {
    TopMarked(b, quad, -1, 1, RANKS);
  }

  // ----- nothing the cards show beats the pass -----

  lemma EvaluateDominates(p: Profile, v: Rating)
    requires Playable(p) && Shows(p, v)
    ensures WellFormed(Evaluate(p)) && RatingLe(v, Evaluate(p))
  {
    hide Sum, Available, Top, RunFrom, Wheel, LexLe;
    EvaluateShows(p);
    var e := Evaluate(p);
    if v.cat == e.cat {
      SameCategory(p, v);
    } else {
      HigherCategory(p, v);
    }
  }

  /** Every pattern the cards show is found at its own category or a higher one. */
  lemma HigherCategory(p: Profile, v: Rating)
    requires Playable(p) && Shows(p, v)
    ensures v.cat <= Evaluate(p).cat
  {
    hide Sum, Available, Top, RunFrom, Wheel;
    var c := p.count;
    var trip := Highest(c, 3, RANKS);
    if v.cat == 6 || v.cat == 2 {
      var x, y := v.ties[0], v.ties[1];
      assert Highest(c, 4, RANKS) < 0 ==> c[x] <= 3 && c[y] <= 3;
    }
  }

  lemma SameCategory(p: Profile, v: Rating)
    requires Playable(p) && Shows(p, v) && v.cat == Evaluate(p).cat
    requires WellFormed(Evaluate(p))
    ensures LexLe(v.ties, Evaluate(p).ties)
  {
    hide Sum, Available, Top, RunFrom, Wheel;
    var c := p.count;
    var b := Present(c);
    var e := Evaluate(p);
    match v.cat
    case 8 => LexOne(v.ties, e.ties);
    case 4 => LexOne(v.ties, e.ties);
    case 7 =>
      SingleKicker(b, v.ties, e.ties, Highest(c, 4, RANKS));
    case 6 =>
      if v.ties[0] == e.ties[0] { LexOne(v.ties[1..], e.ties[1..]); }
    case 5 => TopDominates(p.suited, -1, -1, RANKS, v.ties);
    case 3 => GroupThenKickers(b, v.ties, e.ties, Highest(c, 3, RANKS));
    case 2 =>
      var x, y := v.ties[0], v.ties[1];
      assert c[x] != 3 && c[x] != 4 && c[y] != 3 && c[y] != 4;
      TwoPairs(p, v.ties, e.ties);
    case 1 => GroupThenKickers(b, v.ties, e.ties, Highest(c, 2, RANKS));
    case _ => TopDominates(b, -1, -1, RANKS, v.ties);
  }

  lemma LexOne(v: seq<int>, w: seq<int>)
    requires |v| == |w| == 1 && v[0] <= w[0]
    ensures LexLe(v, w)
  {
  }

  lemma GroupThenKickers(b: seq<bool>, v: seq<int>, w: seq<int>, group: int)
    requires |b| == RANKS && |v| == |w| >= 1 && v[0] <= group
    requires Marked(b, v[0], -1, RANKS, v[1..]) && w == [group] + Top(b, group, -1, |v| - 1, RANKS)
    ensures LexLe(v, w)
  {
    hide Top, Marked;
    if v[0] == group {
      TopDominates(b, group, -1, RANKS, v[1..]);
      assert w[1..] == Top(b, group, -1, |v| - 1, RANKS);
    }
  }

  lemma SingleKicker(b: seq<bool>, v: seq<int>, w: seq<int>, group: int)
    requires |b| == RANKS && |v| == |w| == 2 && v[0] <= group
    requires 0 <= v[1] < RANKS && b[v[1]] && v[1] != v[0] && w == [group] + Top(b, group, -1, 1, RANKS)
    ensures LexLe(v, w)
  {
    assert v[1..] == [v[1]];
    assert Marked(b, v[0], -1, RANKS, v[1..]);
    GroupThenKickers(b, v, w, group);
  }

  lemma TwoPairs(p: Profile, v: seq<int>, w: seq<int>)
    requires Shaped(p) && |v| == |w| == 3
    requires 0 <= v[1] < v[0] < RANKS && p.count[v[0]] == 2 && p.count[v[1]] == 2
    requires Marked(Present(p.count), v[0], v[1], RANKS, v[2..])
    requires var high := Highest(p.count, 2, RANKS);
             var low := NextHighest(p.count, 2, high);
             w == [high, low] + Top(Present(p.count), high, low, 1, RANKS)
    ensures LexLe(v, w)
  {
    hide Top;
    var b := Present(p.count);
    assert w[1..][1..] == w[2..] && v[1..][1..] == v[2..];
    if v[0] == w[0] && v[1] == w[1] {
      TopDominates(b, w[0], w[1], RANKS, v[2..]);
      assert w[2..] == Top(b, w[0], w[1], 1, RANKS);
    }
  }
}
