/**
 Arithmetic modulo a number, and modulo a prime: congruences, uniqueness of quotients and
 Fermat's little theorem, which makes a power an inverse.
 */
module Modular {

  /** a and b leave the same remainder modulo p. */
  ghost predicate Cong(a: int, b: int, p: int)
    requires p > 0
  {
    exists k: int :: DiffersBy(a, b, k, p)
  }

  ghost predicate DiffersBy(a: int, b: int, k: int, p: int) {
    a - b == k * p
  }

  ghost predicate IsPrime(p: int) {
    p >= 2 && forall d :: Undivided(p, d)
  }

  ghost predicate Undivided(p: int, d: int) {
    2 <= d < p ==> p % d != 0
  }

  function Pow(b: int, e: nat): int {
    if e == 0 then 1 else b * Pow(b, e - 1)
  }

  // ----- congruence is an equivalence that sums and products respect -----

  lemma CongWitness(a: int, b: int, k: int, p: int)
    requires p > 0 && a - b == k * p
    ensures Cong(a, b, p)
  {
    assert DiffersBy(a, b, k, p);
  }

  lemma CongRefl(a: int, p: int)
    requires p > 0
    ensures Cong(a, a, p)
  {
    CongWitness(a, a, 0, p);
  }

  lemma CongSym(a: int, b: int, p: int)
    requires p > 0 && Cong(a, b, p)
    ensures Cong(b, a, p)
  {
    var k :| DiffersBy(a, b, k, p);
    CongWitness(b, a, -k, p);
  }

  lemma CongTrans(a: int, b: int, c: int, p: int)
    requires p > 0 && Cong(a, b, p) && Cong(b, c, p)
    ensures Cong(a, c, p)
  {
    var k :| DiffersBy(a, b, k, p);
    var m :| DiffersBy(b, c, m, p);
    assert a - c == (k + m) * p;
    CongWitness(a, c, k + m, p);
  }

  lemma CongAdd(a: int, b: int, c: int, d: int, p: int)
    requires p > 0 && Cong(a, b, p) && Cong(c, d, p)
    ensures Cong(a + c, b + d, p)
    ensures Cong(a - c, b - d, p)
  {
    var k :| DiffersBy(a, b, k, p);
    var m :| DiffersBy(c, d, m, p);
    assert (a + c) - (b + d) == (k + m) * p;
    assert (a - c) - (b - d) == (k - m) * p;
    CongWitness(a + c, b + d, k + m, p);
    CongWitness(a - c, b - d, k - m, p);
  }

  lemma CongScale(a: int, b: int, s: int, p: int)
    requires p > 0 && Cong(a, b, p)
    ensures Cong(s * a, s * b, p)
  {
    var k :| DiffersBy(a, b, k, p);
    calc { s * a - s * b; s * (a - b); s * (k * p); (s * k) * p; }
    CongWitness(s * a, s * b, s * k, p);
  }

  lemma CongMul(a: int, b: int, c: int, d: int, p: int)
    requires p > 0 && Cong(a, b, p) && Cong(c, d, p)
    ensures Cong(a * c, b * d, p)
  {
    CongScale(a, b, c, p);
    CongScale(c, d, b, p);
    assert c * a == a * c && c * b == b * c;
    CongTrans(a * c, b * c, b * d, p);
  }

  // ----- remainders -----

  lemma ModWitness(a: int, q: int, r: int, p: int)
    requires 0 <= r < p && a == q * p + r
    ensures a % p == r && a / p == q
  {
    var q', r' := a / p, a % p;
    assert a == p * q' + r';
    assert (q - q') * p == r' - r by { assert q * p == p * q; assert (q - q') * p == q * p - q' * p; assert q' * p == p * q'; }
    if q > q' {
      MulAtLeast(q - q', p);
    } else if q < q' {
      MulAtLeast(q' - q, p);
    }
  }

  lemma MulAtLeast(k: int, p: int)
    requires k >= 1 && p >= 0
    ensures k * p >= p
  {
    assert k * p == (k - 1) * p + p;
    assert (k - 1) * p >= 0;
  }

  lemma CongMod(a: int, p: int)
    requires p > 0
    ensures 0 <= a % p < p
    ensures Cong(a, a % p, p) && Cong(a % p, a, p)
  {
    assert a == p * (a / p) + a % p;
    assert p * (a / p) == (a / p) * p;
    CongWitness(a, a % p, a / p, p);
    CongSym(a, a % p, p);
  }

  /** Congruent numbers have equal remainders, and conversely. */
  lemma CongIffMod(a: int, b: int, p: int)
    requires p > 0
    ensures Cong(a, b, p) <==> a % p == b % p
  {
    CongMod(a, p);
    CongMod(b, p);
    if Cong(a, b, p) {
      var k :| DiffersBy(a, b, k, p);
      assert b == (b / p) * p + b % p by { assert p * (b / p) == (b / p) * p; }
      assert a == (k + b / p) * p + b % p;
      ModWitness(a, k + b / p, b % p, p);
    }
    if a % p == b % p {
      CongTrans(a, a % p, b, p);
    }
  }

  lemma ModSmall(a: int, p: int)
    requires 0 <= a < p
    ensures a % p == a
  {
    ModWitness(a, 0, a, p);
  }

  /** Two canonical residues that are congruent are equal. */
  lemma CongEq(a: int, b: int, p: int)
    requires 0 <= a < p && 0 <= b < p && Cong(a, b, p)
    ensures a == b
  {
    CongIffMod(a, b, p);
    ModSmall(a, p);
    ModSmall(b, p);
  }

  lemma CongZero(a: int, p: int)
    requires p > 0
    ensures Cong(a, 0, p) <==> a % p == 0
  {
    CongIffMod(a, 0, p);
    ModSmall(0, p);
  }

  // ----- primes -----

  lemma PrimeIsOdd(p: int)
    requires IsPrime(p) && p > 2
    ensures p % 2 == 1
  {
    assert Undivided(p, 2);
  }

  /** Some multiple of a is congruent to any common-divisor-free target: Euclid's argument, by descent. */
  lemma PrimeInverse(a: int, p: int) returns (b: int)
    requires IsPrime(p) && 0 < a < p
    ensures Cong(a * b, 1, p)
    decreases a
  {
    if a == 1 {
      b := 1;
      CongRefl(1, p);
    } else {
      // p = q*a + r with 0 < r < a, so a*q is congruent to -r, and r has an inverse.
      var q, r := p / a, p % a;
      assert Undivided(p, a);
      assert p == a * q + r;
      var c := PrimeInverse(r, p);
      b := -q * c;
      assert a * b == r * c - c * p by {
        calc { a * b; a * (-q * c); -(a * q) * c; -(p - r) * c; r * c - p * c; }
      }
      CongWitness(a * b, r * c, -c, p);
      CongTrans(a * b, r * c, 1, p);
    }
  }

  /** A factor that is not a multiple of the prime can be cancelled. */
  lemma CongCancel(a: int, x: int, y: int, p: int)
    requires IsPrime(p) && a % p != 0 && Cong(a * x, a * y, p)
    ensures Cong(x, y, p)
  {
    var r := a % p;
    CongMod(a, p);
    var b := PrimeInverse(r, p);
    CongRefl(b, p);
    CongMul(a, r, b, b, p);
    CongTrans(a * b, r * b, 1, p);
    // x = 1*x = b*a*x = b*a*y = y
    CongUnitTimes(a, b, x, p);
    CongUnitTimes(a, b, y, p);
    CongScale(a * x, a * y, b, p);
    CongSym(b * (a * x), x, p);
    CongTrans(x, b * (a * x), b * (a * y), p);
    CongTrans(x, b * (a * y), y, p);
  }

  lemma CongUnitTimes(a: int, b: int, x: int, p: int)
    requires p > 0 && Cong(a * b, 1, p)
    ensures Cong(b * (a * x), x, p)
  {
    CongScale(a * b, 1, x, p);
    assert x * (a * b) == b * (a * x);
  }

  /** Euclid's lemma: a prime dividing a product divides a factor. */
  lemma PrimeProduct(a: int, b: int, p: int)
    requires IsPrime(p) && (a * b) % p == 0
    ensures a % p == 0 || b % p == 0
  {
    if a % p != 0 {
      CongZero(a * b, p);
      assert a * 0 == 0;
      CongCancel(a, b, 0, p);
      CongZero(b, p);
    }
  }

  // ----- Fermat's little theorem -----

  ghost function Product(s: seq<int>): int {
    if s == [] then 1 else s[0] * Product(s[1..])
  }

  lemma {:induction false} ProductRemove(s: seq<int>, i: int)
    requires 0 <= i < |s|
    ensures Product(s) == s[i] * Product(s[..i] + s[i + 1..])
    decreases |s|
  {
    var rest := s[..i] + s[i + 1..];
    if i == 0 {
      assert rest == s[1..];
    } else {
      ProductRemove(s[1..], i - 1);
      var inner := s[1..][..i - 1] + s[1..][i..];
      assert rest[0] == s[0] && rest[1..] == inner;
      calc { Product(s); s[0] * (s[i] * Product(inner)); s[i] * (s[0] * Product(inner)); }
    }
  }

  /** A product does not depend on the order of its factors. */
  lemma {:induction false} ProductPermuted(s: seq<int>, t: seq<int>)
    requires multiset(s) == multiset(t)
    ensures Product(s) == Product(t)
    decreases |s|
  {
    if s == [] {
      assert |multiset(t)| == 0;
    } else {
      assert s[0] in multiset(t);
      var i :| 0 <= i < |t| && t[i] == s[0];
      var rest := t[..i] + t[i + 1..];
      assert t == t[..i] + [t[i]] + t[i + 1..];
      assert s == [s[0]] + s[1..];
      assert multiset(t) == multiset(t[..i]) + multiset{t[i]} + multiset(t[i + 1..]);
      assert multiset(s) == multiset{s[0]} + multiset(s[1..]);
      assert multiset(s[1..]) == multiset(s) - multiset{s[0]} == multiset(rest);
      ProductPermuted(s[1..], rest);
      ProductRemove(t, i);
    }
  }

  /** The residues 1 .. m. */
  ghost function Residues(m: nat): (s: seq<int>)
    ensures |s| == m
    ensures forall i :: 0 <= i < m ==> s[i] == i + 1
  {
    seq(m, i => i + 1)
  }

  /** The residues 1 .. m, each multiplied by a modulo p. */
  ghost function Multiples(a: int, m: nat, p: int): (s: seq<int>)
    requires p > 0
    ensures |s| == m
    ensures forall i :: 0 <= i < m ==> s[i] == (a * (i + 1)) % p
  {
    seq(m, i => (a * (i + 1)) % p)
  }

  lemma {:induction false} ProductOfMultiples(a: int, m: nat, p: int)
    requires p > 0
    ensures Cong(Product(Multiples(a, m, p)), Pow(a, m) * Product(Residues(m)), p)
  {
    if m == 0 {
      CongRefl(1, p);
    } else {
      var x, y := Multiples(a, m, p), Residues(m);
      var x', y' := Multiples(a, m - 1, p), Residues(m - 1);
      ProductOfMultiples(a, m - 1, p);
      assert x[..m - 1] + x[m..] == x';
      assert y[..m - 1] + y[m..] == y';
      ProductRemove(x, m - 1);
      ProductRemove(y, m - 1);
      CongMod(a * m, p);
      CongMul((a * m) % p, a * m, Product(x'), Pow(a, m - 1) * Product(y'), p);
      calc {
        (a * m) * (Pow(a, m - 1) * Product(y'));
        (a * Pow(a, m - 1)) * (m * Product(y'));
        Pow(a, m) * Product(y);
      }
    }
  }

  /** Distinct numbers in 1 .. m, m of them, are exactly 1 .. m. */
  lemma {:induction false} PigeonholeSet(s: set<int>, m: nat)
    requires |s| == m && forall x :: x in s ==> 1 <= x <= m
    ensures forall x :: 1 <= x <= m ==> x in s
  {
    if m > 0 {
      if m !in s {
        var t := s;
        InitialSegmentSize(t, m - 1);
      } else {
        PigeonholeSet(s - {m}, m - 1);
      }
    }
  }

  lemma {:induction false} InitialSegmentSize(s: set<int>, m: nat)
    requires forall x :: x in s ==> 1 <= x <= m
    ensures |s| <= m
  {
    if m == 0 {
      assert forall x :: x in s ==> 1 <= x <= 0;
      assert s == {};
    } else {
      InitialSegmentSize(s - {m}, m - 1);
    }
  }

  lemma {:induction false} DistinctSize(s: seq<int>)
    requires forall i, j :: 0 <= i < j < |s| ==> s[i] != s[j]
    ensures |set x | x in s| == |s|
    ensures forall x :: x in multiset(s) ==> multiset(s)[x] == 1
  {
    if s == [] {
      assert (set x | x in s) == {};
    } else {
      var n := |s| - 1;
      var t := s[..n];
      DistinctSize(t);
      assert s == t + [s[n]];
      assert s[n] !in t;
      assert (set x | x in s) == (set x | x in t) + {s[n]};
      assert multiset(s) == multiset(t) + multiset{s[n]};
    }
  }

  lemma MultipleIsUnit(a: int, i: nat, p: int)
    requires IsPrime(p) && a % p != 0 && 1 <= i < p
    ensures 1 <= (a * i) % p <= p - 1
  {
    CongMod(a * i, p);
    if (a * i) % p == 0 {
      PrimeProduct(a, i, p);
      ModSmall(i, p);
    }
  }

  lemma MultiplesDistinct(a: int, i: nat, j: nat, p: int)
    requires IsPrime(p) && a % p != 0 && 0 <= i < p && 0 <= j < p
    requires (a * i) % p == (a * j) % p
    ensures i == j
  {
    CongIffMod(a * i, a * j, p);
    CongCancel(a, i, j, p);
    CongEq(i, j, p);
  }

  lemma SegmentMultiset(s: seq<int>, m: nat)
    requires |s| == m
    requires forall i :: 0 <= i < m ==> 1 <= s[i] <= m
    requires forall i, j :: 0 <= i < j < m ==> s[i] != s[j]
    ensures forall v :: multiset(s)[v] == if 1 <= v <= m then 1 else 0
  {
    DistinctSize(s);
    var t := set x | x in s;
    PigeonholeSet(t, m);
    forall v
      ensures multiset(s)[v] == if 1 <= v <= m then 1 else 0
    {
      if 1 <= v <= m {
        assert v in t;
        assert v in multiset(s);
      } else {
        assert v !in multiset(s);
      }
    }
  }

  /** Multiplication by a nonzero residue permutes the nonzero residues. */
  lemma MultiplesPermute(a: int, p: int)
    requires IsPrime(p) && a % p != 0
    ensures multiset(Multiples(a, p - 1, p)) == multiset(Residues(p - 1))
  {
    var x, y := Multiples(a, p - 1, p), Residues(p - 1);
    forall i | 0 <= i < p - 1
      ensures 1 <= x[i] <= p - 1
    {
      MultipleIsUnit(a, i + 1, p);
    }
    forall i, j | 0 <= i < j < p - 1
      ensures x[i] != x[j]
    {
      if x[i] == x[j] {
        MultiplesDistinct(a, i + 1, j + 1, p);
      }
    }
    SegmentMultiset(x, p - 1);
    SegmentMultiset(y, p - 1);
  }

  lemma {:induction false} ResidueProductUnit(m: nat, p: int)
    requires IsPrime(p) && m < p
    ensures Product(Residues(m)) % p != 0
  {
    if m == 0 {
      ModSmall(1, p);
    } else {
      var y := Residues(m);
      assert y[..m - 1] + y[m..] == Residues(m - 1);
      ProductRemove(y, m - 1);
      ResidueProductUnit(m - 1, p);
      ModSmall(m, p);
      if Product(y) % p == 0 {
        PrimeProduct(m, Product(Residues(m - 1)), p);
      }
    }
  }

  /** Fermat: a to the p - 1 is congruent to 1 when the prime p does not divide a. */
  lemma Fermat(a: int, p: int)
    requires IsPrime(p) && a % p != 0
    ensures Cong(Pow(a, p - 1), 1, p)
  {
    var r := Product(Residues(p - 1));
    ProductOfMultiples(a, p - 1, p);
    MultiplesPermute(a, p);
    ProductPermuted(Multiples(a, p - 1, p), Residues(p - 1));
    assert Cong(r, Pow(a, p - 1) * r, p);
    ResidueProductUnit(p - 1, p);
    CongSym(r, Pow(a, p - 1) * r, p);
    assert Pow(a, p - 1) * r == r * Pow(a, p - 1) && r == r * 1;
    CongCancel(r, Pow(a, p - 1), 1, p);
  }
}
