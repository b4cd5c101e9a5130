/**
 Layered side pots: what each seat is owed when a hand is scored. A layer runs between two successive
 distinct commitments, is paid by every seat that reached it and goes to the best of the unfolded ones.
 */
module SidePots {
  import opened Options
  import opened Sums

  /** A seat at showdown: its commitment, whether it is unfolded, and its score if it has one. */
  datatype Entry = Entry(total: int, live: bool, score: Option<int>)

  ghost predicate Committed(es: seq<Entry>) {
    forall i :: 0 <= i < |es| ==> es[i].total >= 0
  }

  // ----- levels -----

  ghost predicate Ascending(s: seq<int>) {
    forall i, j :: 0 <= i < j < |s| ==> s[i] < s[j]
  }

  /** s with x added in its place, unless it is there already. */
  function Insert(s: seq<int>, x: int): (r: seq<int>)
    requires Ascending(s)
    ensures Ascending(r) && forall y :: y in r <==> y in s || y == x
    ensures s == [] || x < s[0] ==> r == [x] + s
    ensures r != [] && (s == [] || r[0] == x || r[0] == s[0])
  {
    if s == [] || x < s[0] then [x] + s
    else if x == s[0] then s
    else [s[0]] + Insert(s[1..], x)
  }

  /** The distinct positive commitments in increasing order. */
  function Levels(es: seq<Entry>): (r: seq<int>)
    ensures Ascending(r)
    ensures forall y :: y in r <==> IsLevel(es, y)
  {
    if es == [] then []
    else
      var rest := Levels(es[1..]);
      assert forall y :: IsLevel(es, y) <==> IsLevel(es[1..], y) || (y > 0 && es[0].total == y) by {
        LevelCons(es);
      }
      if es[0].total > 0 then Insert(rest, es[0].total) else rest
  }

  predicate IsLevel(es: seq<Entry>, y: int) {
    y > 0 && exists i :: 0 <= i < |es| && es[i].total == y
  }

  lemma LevelCons(es: seq<Entry>)
    requires es != []
    ensures forall y :: IsLevel(es, y) <==> IsLevel(es[1..], y) || (y > 0 && es[0].total == y)
  {
    forall y
      ensures IsLevel(es, y) <==> IsLevel(es[1..], y) || (y > 0 && es[0].total == y)
    {
      if IsLevel(es, y) && es[0].total != y {
        var i :| 0 <= i < |es| && es[i].total == y;
        assert es[1..][i - 1].total == y;
      }
      if IsLevel(es[1..], y) {
        var i :| 0 <= i < |es[1..]| && es[1..][i].total == y;
        assert es[i + 1].total == y;
      }
    }
  }

  /** An increasing list is determined by its elements. */
  lemma {:induction false} AscendingUnique(a: seq<int>, b: seq<int>)
    requires Ascending(a) && Ascending(b) && forall y :: y in a <==> y in b
    ensures a == b
  {
    assert a != [] ==> a[0] in a && a[0] in b;
    assert b != [] ==> b[0] in b && b[0] in a;
    if a != [] && b != [] {
      assert a[0] == b[0];
      forall y
        ensures y in a[1..] <==> y in b[1..]
      {
        TailMembers(a, y);
        TailMembers(b, y);
      }
      AscendingUnique(a[1..], b[1..]);
      assert a == [a[0]] + a[1..] && b == [b[0]] + b[1..];
    }
  }

  lemma TailMembers(a: seq<int>, y: int)
    requires a != [] && Ascending(a)
    ensures y in a[1..] <==> y in a && y != a[0]
  {
    assert a == [a[0]] + a[1..];
    if y in a[1..] {
      var i :| 0 <= i < |a[1..]| && a[1..][i] == y;
      assert a[i + 1] == y;
    }
  }

  // ----- who is paid in a layer, and how much -----

  /** How many seats reached the level. */
  function Reached(es: seq<Entry>, lvl: int): nat {
    if es == [] then 0 else (if es[0].total >= lvl then 1 else 0) + Reached(es[1..], lvl)
  }

  ghost predicate HasLive(es: seq<Entry>, lvl: int) {
    exists i :: 0 <= i < |es| && es[i].live && es[i].total >= lvl
  }

  /** The unfolded seats that reached the level, or every unfolded seat when none did. */
  ghost predicate Contends(es: seq<Entry>, lvl: int, i: int) {
    0 <= i < |es| && es[i].live && (HasLive(es, lvl) ==> es[i].total >= lvl)
  }

  ghost predicate Scored(es: seq<Entry>, lvl: int) {
    && (exists i :: Contends(es, lvl, i))
    && (forall i :: Contends(es, lvl, i) ==> es[i].score.Some?)
  }

  /** A top score among the contenders. */
  ghost predicate Wins(es: seq<Entry>, lvl: int, i: int)
    requires Scored(es, lvl)
  {
    Contends(es, lvl, i) && forall j :: Contends(es, lvl, j) ==> es[j].score.value <= es[i].score.value
  }

  /** The winners below seat k, lowest first. */
  ghost function Winners(es: seq<Entry>, lvl: int, k: nat): (w: seq<int>)
    requires Scored(es, lvl)
    ensures Ascending(w) && forall i :: i in w <==> i < k && Wins(es, lvl, i)
  {
    if k == 0 then []
    else
      var w := Winners(es, lvl, k - 1);
      assert forall j :: 0 <= j < |w| ==> w[j] in w;
      if Wins(es, lvl, k - 1) then w + [k - 1] else w
  }

  lemma SomeWinner(es: seq<Entry>, lvl: int)
    requires Scored(es, lvl)
    ensures |Winners(es, lvl, |es|)| > 0
  {
    var i :| Contends(es, lvl, i);
    var w := TopFrom(es, lvl, |es|, i);
    assert w in Winners(es, lvl, |es|);
  }

  lemma {:induction false} TopFrom(es: seq<Entry>, lvl: int, k: nat, i: int) returns (w: int)
    requires Scored(es, lvl) && Contends(es, lvl, i) && k <= |es|
    ensures Contends(es, lvl, w) && es[w].score.value >= es[i].score.value
    ensures forall j :: 0 <= j < k && Contends(es, lvl, j) ==> es[j].score.value <= es[w].score.value
  {
    if k == 0 { return i; }
    w := TopFrom(es, lvl, k - 1, i);
    if Contends(es, lvl, k - 1) && es[k - 1].score.value > es[w].score.value { w := k - 1; }
  }

  function Pot(es: seq<Entry>, lvl: int, prev: int): int {
    (lvl - prev) * Reached(es, lvl)
  }

  /** An equal share for every winner, and the odd chips to the lowest one. */
  ghost function Share(es: seq<Entry>, lvl: int, pot: int, i: int): int
    requires Scored(es, lvl)
  {
    SomeWinner(es, lvl);
    var w := Winners(es, lvl, |es|);
    if i !in w then 0 else pot / |w| + if i == w[0] then pot % |w| else 0
  }

  /** What seat i is paid over the layers above prev. */
  ghost function Won(es: seq<Entry>, levels: seq<int>, prev: int, i: int): int
    requires forall l :: l in levels ==> Scored(es, l)
  {
    if levels == [] then 0
    else Share(es, levels[0], Pot(es, levels[0], prev), i) + Won(es, levels[1..], levels[0], i)
  }

  ghost predicate WinsSome(es: seq<Entry>, levels: seq<int>, i: int)
    requires forall l :: l in levels ==> Scored(es, l)
  {
    exists k :: 0 <= k < |levels| && Wins(es, levels[k], i)
  }

  ghost predicate Settles(es: seq<Entry>) {
    forall l :: l in Levels(es) ==> Scored(es, l)
  }

  /** The payout of every seat that wins one of these layers. */
  ghost function PayoutsOver(es: seq<Entry>, levels: seq<int>): map<int, int>
    requires forall l :: l in levels ==> Scored(es, l)
  {
    map i | 0 <= i < |es| && WinsSome(es, levels, i) :: Won(es, levels, 0, i)
  }

  ghost function Payouts(es: seq<Entry>): map<int, int>
    requires Settles(es)
  {
    PayoutsOver(es, Levels(es))
  }

  lemma SomeContender(es: seq<Entry>, l: int)
    requires exists i :: 0 <= i < |es| && es[i].live
    ensures exists i :: Contends(es, l, i)
  {
    var some :| 0 <= some < |es| && es[some].live;
    if HasLive(es, l) {
      var i :| 0 <= i < |es| && es[i].live && es[i].total >= l;
      assert Contends(es, l, i);
    } else {
      assert Contends(es, l, some);
    }
  }

  /** With every unfolded seat in for something, scoring succeeds exactly when every one of them has a score. */
  lemma SettlesExactly(es: seq<Entry>)
    requires exists i :: 0 <= i < |es| && es[i].live
    requires forall i :: 0 <= i < |es| && es[i].live ==> es[i].total > 0
    ensures Settles(es) <==> forall i :: 0 <= i < |es| && es[i].live ==> es[i].score.Some?
  {
    if forall i :: 0 <= i < |es| && es[i].live ==> es[i].score.Some? {
      forall l | l in Levels(es)
        ensures Scored(es, l)
      {
        SomeContender(es, l);
      }
    }
    if Settles(es) {
      forall i | 0 <= i < |es| && es[i].live
        ensures es[i].score.Some?
      {
        assert IsLevel(es, es[i].total);
        assert es[i].total in Levels(es);
        assert Contends(es, es[i].total, i);
      }
    }
  }

  /** Adding the next layer up. */
  lemma {:induction false} WonSnoc(es: seq<Entry>, levels: seq<int>, prev: int, l: int, i: int)
    requires (forall k :: k in levels ==> Scored(es, k)) && Scored(es, l)
    ensures forall k :: k in levels + [l] ==> Scored(es, k)
    ensures Won(es, levels + [l], prev, i)
            == Won(es, levels, prev, i) + Share(es, l, Pot(es, l, if levels == [] then prev else levels[|levels| - 1]), i)
  {
    if levels == [] {
      assert [] + [l] == [l];
    } else {
      WonSnoc(es, levels[1..], levels[0], l, i);
      assert (levels + [l])[1..] == levels[1..] + [l];
    }
  }

  lemma WinsSnoc(es: seq<Entry>, levels: seq<int>, l: int, i: int)
    requires (forall k :: k in levels ==> Scored(es, k)) && Scored(es, l)
    ensures forall k :: k in levels + [l] ==> Scored(es, k)
    ensures WinsSome(es, levels + [l], i) <==> WinsSome(es, levels, i) || Wins(es, l, i)
  {
    var all := levels + [l];
    assert all[|levels|] == l;
    if WinsSome(es, levels, i) {
      var k :| 0 <= k < |levels| && Wins(es, levels[k], i);
      assert Wins(es, all[k], i);
    }
  }

  // ----- conservation -----

  function Totals(es: seq<Entry>): seq<int> {
    seq(|es|, i requires 0 <= i < |es| => es[i].total)
  }

  function Min(a: int, b: int): int { if a < b then a else b }

  /** Every seat's commitment up to a limit. */
  function Capped(es: seq<Entry>, limit: int): seq<int> {
    seq(|es|, i requires 0 <= i < |es| => Min(es[i].total, limit))
  }

  function Slices(es: seq<Entry>, lvl: int, x: int): seq<int> {
    seq(|es|, i requires 0 <= i < |es| => if es[i].total >= lvl then x else 0)
  }

  lemma {:induction false} SliceSum(es: seq<Entry>, lvl: int, x: int)
    ensures Sum(Slices(es, lvl, x)) == x * Reached(es, lvl)
  {
    if es != [] {
      SliceSum(es[1..], lvl, x);
      assert Slices(es, lvl, x)[1..] == Slices(es[1..], lvl, x);
      var d := if es[0].total >= lvl then 1 else 0;
      assert x * (d + Reached(es[1..], lvl)) == x * d + x * Reached(es[1..], lvl);
    }
  }

  /** levels are exactly the commitments above prev. */
  ghost predicate Above(es: seq<Entry>, levels: seq<int>, prev: int) {
    && Ascending(levels)
    && (forall l :: l in levels ==> l > prev)
    && (forall i :: 0 <= i < |es| && es[i].total > prev ==> es[i].total in levels)
  }

  lemma AboveTail(es: seq<Entry>, levels: seq<int>, prev: int)
    requires Above(es, levels, prev) && levels != []
    ensures Above(es, levels[1..], levels[0])
    ensures forall l :: l in levels[1..] ==> l in levels
  {
    forall y
      ensures y in levels[1..] <==> y in levels && y != levels[0]
    {
      TailMembers(levels, y);
    }
    assert levels[0] in levels;
    forall i | 0 <= i < |es| && es[i].total > levels[0]
      ensures es[i].total in levels[1..]
    {
      assert es[i].total in levels;
    }
  }

  /** The layer identity: a layer holds exactly what the seats put in between its two levels. */
  lemma LayerIdentity(es: seq<Entry>, levels: seq<int>, prev: int)
    requires Above(es, levels, prev) && levels != []
    ensures Pot(es, levels[0], prev) == Sum(Capped(es, levels[0])) - Sum(Capped(es, prev))
  {
    var lvl := levels[0];
    assert lvl in levels;
    SliceSum(es, lvl, lvl - prev);
    forall i | 0 <= i < |es|
      ensures Capped(es, lvl)[i] == Capped(es, prev)[i] + Slices(es, lvl, lvl - prev)[i]
    {
      if es[i].total > prev {
        assert es[i].total in levels;
        assert es[i].total >= lvl;
      }
    }
    SumOfSums(Capped(es, prev), Slices(es, lvl, lvl - prev), Capped(es, lvl));
  }

  ghost function Shares(es: seq<Entry>, lvl: int, pot: int): seq<int>
    requires Scored(es, lvl)
  {
    seq(|es|, i requires 0 <= i < |es| => Share(es, lvl, pot, i))
  }

  ghost function Even(es: seq<Entry>, lvl: int, x: int, k: nat): seq<int>
    requires Scored(es, lvl)
  {
    seq(k, i requires 0 <= i < k => if Wins(es, lvl, i) then x else 0)
  }

  lemma {:induction false} EvenSum(es: seq<Entry>, lvl: int, x: int, k: nat)
    requires Scored(es, lvl)
    ensures Sum(Even(es, lvl, x, k)) == x * |Winners(es, lvl, k)|
  {
    hide Wins, Scored;
    if k > 0 {
      EvenSum(es, lvl, x, k - 1);
      var y := if Wins(es, lvl, k - 1) then x else 0;
      assert Even(es, lvl, x, k) == Even(es, lvl, x, k - 1) + [y];
      SumSnoc(Even(es, lvl, x, k - 1), y);
      OneMore(x, |Winners(es, lvl, k - 1)|);
    }
  }

  /** Every chip of a layer is paid out. */
  lemma LayerPaid(es: seq<Entry>, lvl: int, pot: int)
    requires Scored(es, lvl)
    ensures Sum(Shares(es, lvl, pot)) == pot
  {
    hide Scored, Sum, Winners;
    SomeWinner(es, lvl);
    WinnersFit(es, lvl);
    var w := Winners(es, lvl, |es|);
    var each := pot / |w|;
    EvenSum(es, lvl, each, |es|);
    var even := Even(es, lvl, each, |es|);
    SumReplace(even, w[0], each + pot % |w|);
    assert Shares(es, lvl, pot) == even[w[0] := each + pot % |w|] by { hide Wins; }
    assert pot == each * |w| + pot % |w|;
  }

  lemma WinnersFit(es: seq<Entry>, lvl: int)
    requires Scored(es, lvl) && |Winners(es, lvl, |es|)| > 0
    ensures var w := Winners(es, lvl, |es|); 0 <= w[0] < |es| && w[0] in w && Wins(es, lvl, w[0])
  {
    hide Scored;
    assert Winners(es, lvl, |es|)[0] in Winners(es, lvl, |es|);
  }

  ghost function Wons(es: seq<Entry>, levels: seq<int>, prev: int): seq<int>
    requires forall l :: l in levels ==> Scored(es, l)
  {
    seq(|es|, i requires 0 <= i < |es| => Won(es, levels, prev, i))
  }

  lemma {:induction false} LayersPaid(es: seq<Entry>, levels: seq<int>, prev: int)
    requires Above(es, levels, prev) && forall l :: l in levels ==> Scored(es, l)
    ensures Sum(Wons(es, levels, prev)) == Sum(Totals(es)) - Sum(Capped(es, prev))
  {
    if levels == [] {
      ZeroSum(Wons(es, levels, prev));
      assert Totals(es) == Capped(es, prev);
    } else {
      var lvl := levels[0];
      AboveTail(es, levels, prev);
      LayersPaid(es, levels[1..], lvl);
      LayerIdentity(es, levels, prev);
      LayerPaid(es, lvl, Pot(es, lvl, prev));
      SumOfSums(Shares(es, lvl, Pot(es, lvl, prev)), Wons(es, levels[1..], lvl), Wons(es, levels, prev));
    }
  }

  lemma LevelsAbove(es: seq<Entry>)
    ensures Above(es, Levels(es), 0)
  {
    forall i | 0 <= i < |es| && es[i].total > 0
      ensures es[i].total in Levels(es)
    {
      assert IsLevel(es, es[i].total);
    }
  }

  /** What seat i receives, nothing unless it is paid. */
  function Received(p: map<int, int>, i: int): int {
    if i in p then p[i] else 0
  }

  function AllReceived(p: map<int, int>, n: nat): seq<int> {
    seq(n, i => Received(p, i))
  }

  lemma {:induction false} UnpaidWonNothing(es: seq<Entry>, levels: seq<int>, prev: int, i: int)
    requires 0 <= i < |es| && (forall l :: l in levels ==> Scored(es, l)) && !WinsSome(es, levels, i)
    ensures Won(es, levels, prev, i) == 0
  {
    if levels != [] {
      forall k | 0 <= k < |levels[1..]|
        ensures !Wins(es, levels[1..][k], i)
      {
        assert levels[1..][k] == levels[k + 1];
      }
      assert !Wins(es, levels[0], i);
      UnpaidWonNothing(es, levels[1..], levels[0], i);
    }
  }

  /** A settlement pays out exactly what was committed. */
  lemma PayoutsConserve(es: seq<Entry>)
    requires Committed(es) && Settles(es)
    ensures Sum(AllReceived(Payouts(es), |es|)) == Sum(Totals(es))
  {
    LevelsAbove(es);
    LayersPaid(es, Levels(es), 0);
    ZeroSum(Capped(es, 0));
    forall i | 0 <= i < |es|
      ensures AllReceived(Payouts(es), |es|)[i] == Wons(es, Levels(es), 0)[i]
    {
      if !WinsSome(es, Levels(es), i) { UnpaidWonNothing(es, Levels(es), 0, i); }
    }
    assert AllReceived(Payouts(es), |es|) == Wons(es, Levels(es), 0);
  }

  // ----- fairness -----

  /** A folded seat is never paid, and nobody is paid a negative amount. */
  lemma OnlyLivePaid(es: seq<Entry>, i: int)
    requires Committed(es) && Settles(es) && i in Payouts(es)
    ensures es[i].live && Payouts(es)[i] >= 0
  {
    LevelsAbove(es);
    WonNonNegative(es, Levels(es), 0, i);
  }

  lemma {:induction false} WonNonNegative(es: seq<Entry>, levels: seq<int>, prev: int, i: int)
    requires Above(es, levels, prev) && forall l :: l in levels ==> Scored(es, l)
    ensures Won(es, levels, prev, i) >= 0
  {
    if levels != [] {
      AboveTail(es, levels, prev);
      WonNonNegative(es, levels[1..], levels[0], i);
      assert levels[0] in levels;
      PotNonNegative(es, levels[0], prev);
      ShareBounds(es, levels[0], Pot(es, levels[0], prev), i);
    }
  }

  lemma PotNonNegative(es: seq<Entry>, lvl: int, prev: int)
    requires lvl > prev
    ensures Pot(es, lvl, prev) >= 0
  {
  }

  lemma ShareBounds(es: seq<Entry>, lvl: int, pot: int, i: int)
    requires Scored(es, lvl) && pot >= 0
    ensures 0 <= Share(es, lvl, pot, i) <= pot
    ensures Share(es, lvl, pot, i) > 0 ==> Wins(es, lvl, i)
  {
    SomeWinner(es, lvl);
    PartsOf(pot, |Winners(es, lvl, |es|)|);
    hide Scored;
  }

  lemma PartsOf(pot: int, n: int)
    requires pot >= 0 && n > 0
    ensures 0 <= pot / n && 0 <= pot % n && pot / n + pot % n <= pot
  {
    QuotientBound(pot / n, n, pot % n);
  }

  lemma Scale(a: int, b: int, n: int)
    requires n >= 0
    ensures a <= b ==> a * n <= b * n
    ensures a >= b ==> a * n >= b * n
  {
  }

  lemma QuotientBound(q: int, n: int, r: int)
    requires n > 0 && 0 <= r < n && q * n + r >= 0
    ensures q >= 0 && q * n >= q
  {
    if q < 0 {
      Scale(q, -1, n);
    } else {
      Scale(q, 0, n - 1);
      assert q * n == q * (n - 1) + q;
    }
  }

  /** Two winners of a layer receive the same, but for the odd chips, fewer than there are winners,
      that go to the lowest of them. */
  lemma EvenSplit(es: seq<Entry>, lvl: int, pot: int, i: int, j: int)
    requires Scored(es, lvl) && pot >= 0 && Wins(es, lvl, i) && Wins(es, lvl, j) && i < j
    ensures var odd := Share(es, lvl, pot, i) - Share(es, lvl, pot, j);
            && 0 <= odd < |Winners(es, lvl, |es|)|
            && (odd > 0 ==> forall k :: Wins(es, lvl, k) ==> i <= k)
  {
    var w := Winners(es, lvl, |es|);
    assert i in w && j in w;
    assert w[0] in w;
    assert w[0] <= i;
    assert j != w[0];
    forall k | Wins(es, lvl, k)
      ensures w[0] <= k
    {
      assert k in w;
    }
  }

  /** Some unfolded seat has committed as much as anyone. */
  ghost predicate LeaderLive(es: seq<Entry>) {
    exists i :: 0 <= i < |es| && es[i].live && forall j :: 0 <= j < |es| ==> es[j].total <= es[i].total
  }

  lemma LeaderReaches(es: seq<Entry>, lvl: int)
    requires LeaderLive(es) && IsLevel(es, lvl)
    ensures HasLive(es, lvl)
  {
  }

  lemma LeaderReachesAll(es: seq<Entry>)
    requires LeaderLive(es)
    ensures forall l :: l in Levels(es) ==> HasLive(es, l)
  {
    forall l | l in Levels(es)
      ensures HasLive(es, l)
    {
      LeaderReaches(es, l);
    }
  }

  lemma NothingCapped(es: seq<Entry>)
    requires Committed(es)
    ensures Sum(Capped(es, 0)) == 0
  {
    ZeroSum(Capped(es, 0));
  }

  lemma CapSettled(es: seq<Entry>, prev: int, i: int)
    requires Above(es, [], prev) && 0 <= i < |es| && prev <= es[i].total
    ensures Capped(es, es[i].total) == Capped(es, prev)
  {
  }

  lemma NoneBetween(es: seq<Entry>, levels: seq<int>, prev: int, i: int)
    requires Above(es, levels, prev) && levels != [] && 0 <= i < |es| && es[i].total > prev
    ensures es[i].total >= levels[0] > prev
  {
    assert es[i].total in levels && levels[0] in levels;
  }

  lemma LevelsRise(es: seq<Entry>, levels: seq<int>, prev: int)
    requires Above(es, levels, prev) && levels != []
    ensures levels[0] > prev
  {
    assert levels[0] in levels;
  }

  /** With an unfolded leader no seat wins more than the others' stakes against its own. */
  lemma CappedWinnings(es: seq<Entry>, i: int)
    requires Committed(es) && Settles(es) && LeaderLive(es) && i in Payouts(es)
    ensures Payouts(es)[i] <= Sum(Capped(es, es[i].total))
  {
    hide Won, Scored, Sum, HasLive, Above, Levels, IsLevel, LeaderLive, WinsSome;
    LevelsAbove(es);
    LeaderReachesAll(es);
    NothingCapped(es);
    CappedFrom(es, Levels(es), 0, i);
  }

  lemma ShareWithin(es: seq<Entry>, lvl: int, prev: int, i: int)
    requires Scored(es, lvl) && HasLive(es, lvl) && lvl > prev && 0 <= i < |es|
    ensures Share(es, lvl, Pot(es, lvl, prev), i) <= if es[i].total >= lvl then Pot(es, lvl, prev) else 0
  {
    PotNonNegative(es, lvl, prev);
    ShareBounds(es, lvl, Pot(es, lvl, prev), i);
  }

  lemma {:induction false} CappedFrom(es: seq<Entry>, levels: seq<int>, prev: int, i: int)
    requires Above(es, levels, prev) && (forall l :: l in levels ==> Scored(es, l) && HasLive(es, l))
    requires 0 <= i < |es|
    ensures Won(es, levels, prev, i) <= if prev <= es[i].total then Sum(Capped(es, es[i].total)) - Sum(Capped(es, prev)) else 0
  {
    hide Share, Scored, HasLive, Pot, Sum, Above, Capped;
    if levels == [] {
      if prev <= es[i].total { CapSettled(es, prev, i); }
    } else {
      var lvl := levels[0];
      assert lvl in levels;
      AboveTail(es, levels, prev);
      CappedFrom(es, levels[1..], lvl, i);
      LayerIdentity(es, levels, prev);
      LevelsRise(es, levels, prev);
      ShareWithin(es, lvl, prev, i);
      if es[i].total > prev { NoneBetween(es, levels, prev, i); }
    }
  }

  /** An unfolded seat beaten by one that has put in as much or more is paid nothing. */
  lemma BeatenUnpaid(es: seq<Entry>, i: int, j: int)
    requires Settles(es) && 0 <= i < |es| && 0 <= j < |es| && es[i].live && es[i].total >= es[j].total
    requires es[i].score.Some? && es[j].score.Some? && es[i].score.value > es[j].score.value
    ensures j !in Payouts(es)
  {
    forall k | 0 <= k < |Levels(es)|
      ensures !Wins(es, Levels(es)[k], j)
    {
      assert Levels(es)[k] in Levels(es);
      if Contends(es, Levels(es)[k], j) { assert Contends(es, Levels(es)[k], i); }
    }
  }

  /** Strictly better than every other unfolded seat. */
  ghost predicate StrictlyBest(es: seq<Entry>, i: int) {
    && 0 <= i < |es| && es[i].live && es[i].score.Some?
    && forall j :: 0 <= j < |es| && j != i && es[j].live && es[j].score.Some? ==> es[j].score.value < es[i].score.value
  }

  /** With an unfolded leader the one best hand wins from every seat what that seat put in against it. */
  lemma BestHandTakes(es: seq<Entry>, i: int)
    requires Committed(es) && Settles(es) && LeaderLive(es) && StrictlyBest(es, i) && es[i].total > 0
    ensures i in Payouts(es) && Payouts(es)[i] == Sum(Capped(es, es[i].total))
  {
    hide Won, Scored, Sum, HasLive, Above, Levels, IsLevel, LeaderLive, WinsSome, Capped;
    LevelsAbove(es);
    LeaderReachesAll(es);
    NothingCapped(es);
    BestTakesFrom(es, Levels(es), 0, i);
    BestIsPaid(es, i);
  }

  lemma BestIsPaid(es: seq<Entry>, i: int)
    requires Settles(es) && StrictlyBest(es, i) && es[i].total > 0 && forall l :: l in Levels(es) ==> HasLive(es, l)
    ensures WinsSome(es, Levels(es), i)
  {
    assert IsLevel(es, es[i].total);
    hide Scored, HasLive, IsLevel;
    assert es[i].total in Levels(es);
    var k :| 0 <= k < |Levels(es)| && Levels(es)[k] == es[i].total;
    BestWinsLayer(es, Levels(es)[k], i);
  }

  lemma BestWinsLayer(es: seq<Entry>, lvl: int, i: int)
    requires Scored(es, lvl) && HasLive(es, lvl) && StrictlyBest(es, i)
    ensures es[i].total >= lvl ==> Wins(es, lvl, i) && forall j :: Wins(es, lvl, j) ==> j == i
    ensures es[i].total < lvl ==> !Wins(es, lvl, i)
  {
    if es[i].total >= lvl { assert Contends(es, lvl, i); }
  }

  lemma BestShare(es: seq<Entry>, lvl: int, prev: int, i: int)
    requires Scored(es, lvl) && HasLive(es, lvl) && StrictlyBest(es, i)
    ensures Share(es, lvl, Pot(es, lvl, prev), i) == if es[i].total >= lvl then Pot(es, lvl, prev) else 0
  {
    BestWinsLayer(es, lvl, i);
    hide Scored, HasLive, StrictlyBest, Wins;
    if es[i].total >= lvl { SoleWinner(es, lvl, Pot(es, lvl, prev), i); }
  }

  lemma {:induction false} BestTakesFrom(es: seq<Entry>, levels: seq<int>, prev: int, i: int)
    requires Above(es, levels, prev) && (forall l :: l in levels ==> Scored(es, l) && HasLive(es, l))
    requires StrictlyBest(es, i)
    ensures Won(es, levels, prev, i) == if prev <= es[i].total then Sum(Capped(es, es[i].total)) - Sum(Capped(es, prev)) else 0
  {
    hide Share, Scored, HasLive, Pot, Sum, Above, Capped;
    if levels == [] {
      if prev <= es[i].total { CapSettled(es, prev, i); }
    } else {
      var lvl := levels[0];
      assert lvl in levels;
      AboveTail(es, levels, prev);
      BestTakesFrom(es, levels[1..], lvl, i);
      LayerIdentity(es, levels, prev);
      LevelsRise(es, levels, prev);
      BestShare(es, lvl, prev, i);
      if es[i].total > prev { NoneBetween(es, levels, prev, i); }
    }
  }

  /** Every layer goes to seats that paid into it exactly when some unfolded seat leads. */
  lemma PaidWhereCommitted(es: seq<Entry>)
    requires Committed(es) && Settles(es) && (exists i :: 0 <= i < |es| && es[i].live)
    requires exists i :: 0 <= i < |es| && es[i].total > 0
    ensures LeaderLive(es) <==> forall l, i :: l in Levels(es) && Wins(es, l, i) ==> es[i].total >= l
  {
    if LeaderLive(es) {
      forall l, i | l in Levels(es) && Wins(es, l, i)
        ensures es[i].total >= l
      {
        LeaderReaches(es, l);
      }
    } else {
      var m := Leader(es, |es|);
      var some :| 0 <= some < |es| && es[some].total > 0;
      var l := es[m].total;
      assert l >= es[some].total;
      assert IsLevel(es, l);
      assert l in Levels(es);
      SomeWinner(es, l);
      var w := Winners(es, l, |es|)[0];
      assert w in Winners(es, l, |es|);
      assert Wins(es, l, w);
      assert es[w].live;
    }
  }

  lemma {:induction false} Leader(es: seq<Entry>, k: nat) returns (m: int)
    requires 0 < k <= |es|
    ensures 0 <= m < k && forall j :: 0 <= j < k ==> es[j].total <= es[m].total
  {
    if k == 1 { return 0; }
    m := Leader(es, k - 1);
    if es[k - 1].total > es[m].total { m := k - 1; }
  }

  lemma SoleWinner(es: seq<Entry>, lvl: int, pot: int, i: int)
    requires Scored(es, lvl) && Wins(es, lvl, i) && forall j :: Wins(es, lvl, j) ==> j == i
    ensures forall j :: Share(es, lvl, pot, j) == if j == i then pot else 0
  {
    SomeWinner(es, lvl);
    var w := Winners(es, lvl, |es|);
    assert i in w;
    AscendingUnique(w, [i]);
  }

  /** Two seats all in for 5 and 7, the first with the better hand, and a folded one that had put in 10. */
  function Overcalled(a: int, b: int, c: Option<int>): seq<Entry> {
    [Entry(5, true, Some(a)), Entry(7, true, Some(b)), Entry(10, false, c)]
  }

  lemma ReachedOfThree(es: seq<Entry>, lvl: int)
    requires |es| == 3
    ensures Reached(es, lvl) == (if es[0].total >= lvl then 1 else 0) + (if es[1].total >= lvl then 1 else 0) + if es[2].total >= lvl then 1 else 0
  {
    var b, c := es[1..], es[2..];
    assert b[1..] == c && c[1..] == [];
    assert Reached(c, lvl) == (if c[0].total >= lvl then 1 else 0) + Reached(c[1..], lvl);
    assert Reached(b, lvl) == (if b[0].total >= lvl then 1 else 0) + Reached(b[1..], lvl);
  }

  lemma OvercalledLayers(a: int, b: int, c: Option<int>)
    ensures var es := Overcalled(a, b, c);
            Levels(es) == [5, 7, 10] && Reached(es, 5) == 3 && Reached(es, 7) == 2 && Reached(es, 10) == 1
  {
    var es := Overcalled(a, b, c);
    forall y
      ensures y in Levels(es) <==> y in [5, 7, 10]
    {
      assert es[0].total == 5 && es[1].total == 7 && es[2].total == 10;
      assert y in Levels(es) <==> IsLevel(es, y);
    }
    AscendingUnique(Levels(es), [5, 7, 10]);
    ReachedOfThree(es, 5);
    ReachedOfThree(es, 7);
    ReachedOfThree(es, 10);
  }

  lemma OvercalledWinners(a: int, b: int, c: Option<int>)
    requires a > b
    ensures var es := Overcalled(a, b, c);
            && Scored(es, 5) && Scored(es, 7) && Scored(es, 10)
            && (forall j :: Wins(es, 5, j) <==> j == 0)
            && (forall j :: Wins(es, 7, j) <==> j == 1)
            && (forall j :: Wins(es, 10, j) <==> j == 0)
  {
    var es := Overcalled(a, b, c);
    assert es[0].live && es[1].live && !es[2].live;
    assert HasLive(es, 5) && HasLive(es, 7) && !HasLive(es, 10);
    assert forall i :: Contends(es, 5, i) <==> i == 0 || i == 1;
    assert forall i :: Contends(es, 7, i) <==> i == 1;
    assert forall i :: Contends(es, 10, i) <==> i == 0 || i == 1;
    assert Contends(es, 5, 0) && Contends(es, 5, 1) && Contends(es, 7, 1) && Contends(es, 10, 0) && Contends(es, 10, 1);
  }

  /** The folded leader's excess is paid out beyond the winner's cap. */
  lemma OvercalledPayout(a: int, b: int, c: Option<int>)
    requires a > b
    ensures var es := Overcalled(a, b, c);
            && Settles(es) && 0 in Payouts(es)
            && Payouts(es)[0] == 18 && Sum(Capped(es, 5)) == 15
  {
    hide Scored, Wins, Levels, Reached, Share;
    var es := Overcalled(a, b, c);
    OvercalledLayers(a, b, c);
    OvercalledWinners(a, b, c);
    var ls := [5, 7, 10];
    assert Settles(es);
    assert Wins(es, ls[0], 0);
    SoleWinner(es, 5, 15, 0);
    SoleWinner(es, 7, 4, 1);
    SoleWinner(es, 10, 3, 0);
    assert ls[1..] == [7, 10] && ls[1..][1..] == [10] && ls[1..][1..][1..] == [];
    assert Won(es, [10], 7, 0) == 3;
    assert Won(es, [7, 10], 5, 0) == 3;
    assert Won(es, ls, 0, 0) == 18;
    assert Capped(es, 5) == [5, 5, 5];
    assert [5, 5, 5][1..] == [5, 5] && [5, 5][1..] == [5] && [5][1..] == [];
  }
}
