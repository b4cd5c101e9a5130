/** The lexicographic k-subset enumerator the evaluator searches with. */
module Combinations {

  /** A strictly increasing sequence of k indices below n. */
  ghost predicate IsChoice(s: seq<int>, n: int, k: int) {
    && |s| == k
    && (forall i :: 0 <= i < k ==> 0 <= s[i] < n)
    && (forall i, j :: 0 <= i < j < k ==> s[i] < s[j])
  }

  /** a comes strictly before b in lexicographic order: they first differ at p, where a is smaller. */
  ghost predicate LessAt(a: seq<int>, b: seq<int>, p: int) {
    0 <= p < |a| && p < |b| && a[..p] == b[..p] && a[p] < b[p]
  }

  ghost predicate Less(a: seq<int>, b: seq<int>) {
    exists p :: LessAt(a, b, p)
  }

  /** The indices of a choice leave room for the ones after them. */
  lemma {:induction false} Room(s: seq<int>, n: int, k: int, i: int)
    requires IsChoice(s, n, k) && 0 <= i < k
    ensures i <= s[i] <= n - k + i
    decreases k - i
  {
    RoomBelow(s, n, k, i);
    if i + 1 < k {
      Room(s, n, k, i + 1);
    }
  }

  lemma {:induction false} RoomBelow(s: seq<int>, n: int, k: int, i: int)
    requires IsChoice(s, n, k) && 0 <= i < k
    ensures i <= s[i]
  {
    if i > 0 { RoomBelow(s, n, k, i - 1); }
  }

  ghost function First(k: int): (s: seq<int>)
    requires k >= 0
    ensures |s| == k && forall i :: 0 <= i < k ==> s[i] == i
  {
    seq(k, i => i)
  }

  /** The choice after idx when position i is the last one with room: bump it and restart the tail. */
  ghost predicate Follows(idx: seq<int>, next: seq<int>, i: int) {
    && |next| == |idx| && 0 <= i < |idx| && next[..i] == idx[..i]
    && forall j :: i <= j < |idx| ==> next[j] == idx[i] + 1 + (j - i)
  }

  ghost predicate FullAfter(idx: seq<int>, n: int, i: int) {
    forall j :: i < j < |idx| && 0 <= j ==> idx[j] == n - |idx| + j
  }

  lemma NextIsChoice(idx: seq<int>, next: seq<int>, n: int, k: int, i: int)
    requires IsChoice(idx, n, k) && Follows(idx, next, i) && idx[i] < n - k + i
    ensures IsChoice(next, n, k) && Less(idx, next)
  {
    assert forall j :: 0 <= j < i ==> next[j] == next[..i][j] == idx[..i][j];
    assert LessAt(idx, next, i);
  }

  /** Nothing lies strictly between a choice and its successor. */
  lemma NothingBetween(idx: seq<int>, next: seq<int>, n: int, k: int, i: int, s: seq<int>)
    requires IsChoice(idx, n, k) && IsChoice(s, n, k) && Follows(idx, next, i)
    requires FullAfter(idx, n, i) && idx[i] < n - k + i
    requires Less(idx, s)
    ensures s == next || Less(next, s)
  {
    var p :| LessAt(idx, s, p);
    Room(s, n, k, p);
    assert p <= i;
    assert forall j :: 0 <= j < p ==> idx[j] == idx[..p][j] == s[..p][j] == s[j];
    if p < i {
      assert next[..p] == next[..i][..p] == idx[..i][..p] == s[..p];
      assert next[p] == next[..i][p] == idx[p];
      assert LessAt(next, s, p);
    } else {
      AtLeastRestart(s, idx[i] + 1, i, n, k);
      assert s[..i] == next[..i];
      BelowOrEqual(next, s, i);
    }
  }

  lemma {:induction false} AtLeastRestart(s: seq<int>, v: int, i: int, n: int, k: int)
    requires IsChoice(s, n, k) && 0 <= i < k && s[i] >= v
    ensures forall j :: i <= j < k ==> s[j] >= v + (j - i)
    decreases k - i
  {
    if i + 1 < k {
      AtLeastRestart(s, v + 1, i + 1, n, k);
    }
  }

  lemma {:induction false} BelowOrEqual(a: seq<int>, b: seq<int>, i: int)
    requires |a| == |b| && 0 <= i <= |a| && a[..i] == b[..i] && forall j :: i <= j < |a| ==> a[j] <= b[j]
    ensures a == b || Less(a, b)
    decreases |a| - i
  {
    if i < |a| {
      if a[i] < b[i] {
        assert LessAt(a, b, i);
      } else {
        assert a[..i + 1] == a[..i] + [a[i]] && b[..i + 1] == b[..i] + [b[i]];
        BelowOrEqual(a, b, i + 1);
      }
    } else {
      assert a == a[..i] && b == b[..i];
    }
  }

  lemma FirstIsLeast(s: seq<int>, n: int, k: int)
    requires IsChoice(s, n, k) && 0 < k <= n
    ensures s == First(k) || Less(First(k), s)
  {
    forall j | 0 <= j < k
      ensures First(k)[j] <= s[j]
    {
      Room(s, n, k, j);
    }
    BelowOrEqual(First(k), s, 0);
  }

  lemma LastIsGreatest(idx: seq<int>, s: seq<int>, n: int, k: int)
    requires IsChoice(idx, n, k) && IsChoice(s, n, k) && FullAfter(idx, n, -1)
    ensures !Less(idx, s)
  {
    if Less(idx, s) {
      var p :| LessAt(idx, s, p);
      Room(s, n, k, p);
    }
  }

  lemma LessTransitive(a: seq<int>, b: seq<int>, c: seq<int>)
    requires |a| == |b| == |c| && Less(a, b) && Less(b, c)
    ensures Less(a, c)
  {
    var p :| LessAt(a, b, p);
    var q :| LessAt(b, c, q);
    var m := if p < q then p else q;
    assert a[..m] == a[..p][..m] == b[..p][..m] == b[..m];
    assert b[..m] == b[..q][..m] == c[..q][..m] == c[..m];
    if p < q {
      assert b[p] == b[..q][p] == c[..q][p] == c[p];
    } else if q < p {
      assert a[q] == a[..p][q] == b[..p][q] == b[q];
    }
    assert LessAt(a, c, m);
  }

  /** Every visit so far is a choice, they are in strict lexicographic order, and nothing at or
      before the last one was missed. */
  ghost predicate VisitedUpTo(visits: seq<seq<int>>, last: seq<int>, n: int, k: int) {
    && |visits| > 0 && visits[|visits| - 1] == last
    && (forall v :: 0 <= v < |visits| ==> IsChoice(visits[v], n, k))
    && (forall v :: 0 < v < |visits| ==> Less(visits[v - 1], visits[v]))
    && (forall s :: IsChoice(s, n, k) && !Less(last, s) ==> s in visits)
  }

  lemma VisitNext(visits: seq<seq<int>>, idx: seq<int>, next: seq<int>, n: int, k: int, i: int)
    requires VisitedUpTo(visits, idx, n, k) && IsChoice(idx, n, k) && Follows(idx, next, i)
    requires FullAfter(idx, n, i) && idx[i] < n - k + i
    ensures VisitedUpTo(visits + [next], next, n, k)
  {
    hide Less, IsChoice, Follows;
    NextIsChoice(idx, next, n, k, i);
    var vs := visits + [next];
    assert forall v :: 0 <= v < |visits| ==> vs[v] == visits[v];
    forall s | IsChoice(s, n, k) && !Less(next, s)
      ensures s in vs
    {
      if Less(idx, s) {
        NothingBetween(idx, next, n, k, i, s);
        assert vs[|vs| - 1] == next;
      } else {
        assert s in visits;
      }
    }
  }

  lemma {:induction false} Ordered(visits: seq<seq<int>>, u: int, v: int, n: int, k: int)
    requires 0 <= u < v < |visits|
    requires forall x :: 0 <= x < |visits| ==> IsChoice(visits[x], n, k)
    requires forall x :: 0 < x < |visits| ==> Less(visits[x - 1], visits[x])
    ensures Less(visits[u], visits[v]) && visits[u] != visits[v]
    decreases v
  {
    hide Less;
    if u < v - 1 {
      Ordered(visits, u, v - 1, n, k);
      LessTransitive(visits[u], visits[v - 1], visits[v]);
    }
    Irreflexive(visits[u]);
  }

  lemma Irreflexive(a: seq<int>)
    ensures !Less(a, a)
  {
  }

  /** `forEachCombination`: goOn is what the callback returns, and the result lists the index slices
      passed to it. Every choice is visited, once and in order, up to the first that stops it. */
  method ForEachUntil(n: int, k: int, goOn: seq<int> -> bool) returns (visits: seq<seq<int>>)
    ensures forall s :: s in visits ==> 0 < k && IsChoice(s, n, k)
    ensures forall u, v :: 0 <= u < v < |visits| ==> Less(visits[u], visits[v]) && visits[u] != visits[v]
    ensures forall u :: 0 <= u < |visits| - 1 ==> goOn(visits[u])
    ensures forall s :: 0 < k && IsChoice(s, n, k) && s !in visits ==> StoppedBefore(visits, goOn, s)
  {
    if k <= 0 || k > n {
      forall s
        ensures !(0 < k && IsChoice(s, n, k))
      {
        if 0 < k && IsChoice(s, n, k) { Room(s, n, k, 0); }
      }
      return [];
    }
    hide Less, VisitedUpTo, StoppedBefore, FullAfter, SlackSum;
    var idx := new int[k](i => i);
    visits := [idx[..]];
    StartVisits(idx[..], n, k);
    while goOn(idx[..])
      invariant IsChoice(idx[..], n, k) && VisitedUpTo(visits, idx[..], n, k)
      invariant forall u :: 0 <= u < |visits| - 1 ==> goOn(visits[u])
      decreases SlackSum(idx[..], n, k)
    {
      ghost var was := idx[..];
      var i := LastFree(idx, n);
      if i < 0 {
        AllVisited(visits, was, n, k);
        VisitsOrdered(visits, was, n, k);
        return;
      }
      Room(was, n, k, i);
      Advance(idx, i);
      VisitNext(visits, was, idx[..], n, k, i);
      SlackFalls(was, idx[..], n, k, i);
      LastVisit(visits, was, n, k);
      visits := visits + [idx[..]];
    }
    LastVisit(visits, idx[..], n, k);
    VisitsOrdered(visits, idx[..], n, k);
    Stopped(visits, idx[..], n, k, goOn);
  }

  /** The last index that can still be bumped, or -1. */
  method LastFree(idx: array<int>, n: int) returns (i: int)
    ensures -1 <= i < idx.Length && FullAfter(idx[..], n, i) && (i >= 0 ==> idx[i] != n - idx.Length + i)
  {
    i := idx.Length - 1;
    while i >= 0 && idx[i] == n - idx.Length + i
      invariant -1 <= i < idx.Length && FullAfter(idx[..], n, i)
    {
      i := i - 1;
    }
  }

  lemma AllVisited(visits: seq<seq<int>>, idx: seq<int>, n: int, k: int)
    requires VisitedUpTo(visits, idx, n, k) && FullAfter(idx, n, -1) && IsChoice(idx, n, k)
    ensures forall s :: IsChoice(s, n, k) ==> s in visits
  {
    hide Less;
    forall s | IsChoice(s, n, k)
      ensures s in visits
    {
      LastIsGreatest(idx, s, n, k);
    }
  }

  lemma Stopped(visits: seq<seq<int>>, idx: seq<int>, n: int, k: int, goOn: seq<int> -> bool)
    requires VisitedUpTo(visits, idx, n, k) && !goOn(idx)
    ensures forall s :: IsChoice(s, n, k) && s !in visits ==> StoppedBefore(visits, goOn, s)
  {
    hide Less, IsChoice;
  }

  /** The last visit stopped the enumeration, and s comes after it. */
  ghost predicate StoppedBefore(visits: seq<seq<int>>, goOn: seq<int> -> bool, s: seq<int>) {
    visits != [] && !goOn(visits[|visits| - 1]) && Less(visits[|visits| - 1], s)
  }

  lemma LastVisit(visits: seq<seq<int>>, idx: seq<int>, n: int, k: int)
    requires VisitedUpTo(visits, idx, n, k)
    ensures |visits| > 0 && visits[|visits| - 1] == idx
  {
  }

  lemma VisitsOrdered(visits: seq<seq<int>>, idx: seq<int>, n: int, k: int)
    requires VisitedUpTo(visits, idx, n, k)
    ensures forall u, v :: 0 <= u < v < |visits| ==> Less(visits[u], visits[v]) && visits[u] != visits[v]
    ensures forall s :: s in visits ==> IsChoice(s, n, k)
  {
    forall u, v | 0 <= u < v < |visits|
      ensures Less(visits[u], visits[v]) && visits[u] != visits[v]
    {
      Ordered(visits, u, v, n, k);
    }
  }

  /** With a callback that never stops it, which is how every caller uses it, every choice is visited. */
  method ForEach(n: int, k: int) returns (visits: seq<seq<int>>)
    ensures forall s :: s in visits <==> 0 < k && IsChoice(s, n, k)
    ensures forall u, v :: 0 <= u < v < |visits| ==> Less(visits[u], visits[v]) && visits[u] != visits[v]
  {
    visits := ForEachUntil(n, k, _ => true);
  }

  lemma StartVisits(idx: seq<int>, n: int, k: int)
    requires 0 < k <= n && idx == First(k)
    ensures IsChoice(idx, n, k) && VisitedUpTo([idx], idx, n, k)
  {
    forall s | IsChoice(s, n, k) && !Less(idx, s)
      ensures s in [idx]
    {
      FirstIsLeast(s, n, k);
    }
  }

  /** The in-place step: bump one index and restart the ones after it. */
  method Advance(idx: array<int>, i: int)
    requires 0 <= i < idx.Length
    modifies idx
    ensures Follows(old(idx[..]), idx[..], i)
  {
    idx[i] := idx[i] + 1;
    for j := i + 1 to idx.Length
      invariant idx[..i] == old(idx[..i])
      invariant forall x :: i <= x < j ==> idx[x] == old(idx[i]) + 1 + (x - i)
    {
      idx[j] := idx[j - 1] + 1;
    }
    assert old(idx[..])[..i] == old(idx[..i]);
  }

  // ----- termination: a positional weight falls at each step -----

  /** The slack of each index weighed in base n + 1, most significant first. */
  ghost function SlackSum(idx: seq<int>, n: int, k: int): nat
    requires n >= 0
  {
    Weigh(idx, n, |idx|)
  }

  ghost function Weigh(idx: seq<int>, n: int, m: nat): nat
    requires n >= 0 && m <= |idx|
  {
    if m == 0 then 0 else Weigh(idx, n, m - 1) * (n + 1) + Slack(idx[m - 1], n)
  }

  ghost function Slack(v: int, n: int): (s: nat)
    requires n >= 0
    ensures s <= n
  {
    if 0 <= v <= n then n - v else 0
  }

  lemma {:induction false} WeighSame(a: seq<int>, b: seq<int>, n: int, m: nat)
    requires n >= 0 && m <= |a| && m <= |b| && a[..m] == b[..m]
    ensures Weigh(a, n, m) == Weigh(b, n, m)
  {
    if m > 0 {
      assert a[..m - 1] == a[..m][..m - 1] == b[..m][..m - 1] == b[..m - 1];
      assert a[m - 1] == a[..m][m - 1] == b[..m][m - 1] == b[m - 1];
      WeighSame(a, b, n, m - 1);
    }
  }

  lemma {:induction false} WeighStays(a: seq<int>, b: seq<int>, n: int, i: nat, m: nat)
    requires n >= 0 && i < m <= |a| == |b| && Weigh(b, n, i + 1) < Weigh(a, n, i + 1)
    ensures Weigh(b, n, m) < Weigh(a, n, m)
  {
    if m > i + 1 {
      WeighStays(a, b, n, i, m - 1);
      Dominates(Weigh(b, n, m - 1), Weigh(a, n, m - 1), n + 1, Slack(b[m - 1], n), Slack(a[m - 1], n));
    }
  }

  lemma Dominates(x: int, y: int, w: int, s: int, t: int)
    requires x < y && w > 0 && 0 <= s < w && 0 <= t
    ensures x * w + s < y * w + t
  {
    var gap: nat := y - x - 1;
    assert y * w == x * w + w + gap * w;
  }

  lemma SlackFalls(was: seq<int>, now: seq<int>, n: int, k: int, i: int)
    requires IsChoice(was, n, k) && IsChoice(now, n, k) && n >= 0 && Follows(was, now, i)
    ensures SlackSum(now, n, k) < SlackSum(was, n, k)
  {
    WeighSame(was, now, n, i);
    WeighStays(was, now, n, i, k);
  }
}
