/** Finite sums of integer sequences. */
module Sums {
  function Sum(c: seq<int>): int {
    if c == [] then 0 else c[0] + Sum(c[1..])
  }

  lemma {:induction false} SumSnoc(c: seq<int>, x: int)
    ensures Sum(c + [x]) == Sum(c) + x
  {
    if c == [] {
      assert c + [x] == [x];
    } else {
      SumSnoc(c[1..], x);
      assert (c + [x])[1..] == c[1..] + [x];
    }
  }

  lemma {:induction false} SumUpdate(c: seq<int>, a: int)
    requires 0 <= a < |c|
    ensures Sum(c) == c[a] + Sum(c[a := 0])
  {
    if a > 0 {
      SumUpdate(c[1..], a - 1);
      assert c[a := 0][1..] == c[1..][a - 1 := 0];
    } else {
      assert c[a := 0][1..] == c[1..];
    }
  }

  lemma {:induction false} SumNonNegative(c: seq<int>)
    requires forall r :: 0 <= r < |c| ==> c[r] >= 0
    ensures Sum(c) >= 0
  {
    if c != [] { SumNonNegative(c[1..]); }
  }

  lemma {:induction false} ZeroSum(c: seq<int>)
    requires forall r :: 0 <= r < |c| ==> c[r] == 0
    ensures Sum(c) == 0
  {
    if c != [] { ZeroSum(c[1..]); }
  }

  lemma {:induction false} SumBump(c: seq<int>, a: int)
    requires 0 <= a < |c|
    ensures Sum(c[a := c[a] + 1]) == Sum(c) + 1
  {
    SumUpdate(c, a);
    SumUpdate(c[a := c[a] + 1], a);
    assert c[a := c[a] + 1][a := 0] == c[a := 0];
  }

  lemma {:induction false} SumReplace(c: seq<int>, a: int, x: int)
    requires 0 <= a < |c|
    ensures Sum(c[a := x]) == Sum(c) - c[a] + x
  {
    SumUpdate(c, a);
    SumUpdate(c[a := x], a);
    assert c[a := x][a := 0] == c[a := 0];
  }

  lemma {:induction false} SumOfSums(a: seq<int>, b: seq<int>, c: seq<int>)
    requires |a| == |b| == |c| && forall i :: 0 <= i < |a| ==> c[i] == a[i] + b[i]
    ensures Sum(c) == Sum(a) + Sum(b)
  {
    if a != [] { SumOfSums(a[1..], b[1..], c[1..]); }
  }

  lemma {:induction false} SumAtMost(a: seq<int>, b: seq<int>)
    requires |a| == |b| && forall i :: 0 <= i < |a| ==> a[i] <= b[i]
    ensures Sum(a) <= Sum(b)
  {
    if a != [] { SumAtMost(a[1..], b[1..]); }
  }

  lemma OneMore(m: int, a: int)
    ensures m * (a + 1) == m * a + m && (a + 1) * m == a * m + m
  {
  }
}
