/**
 secp256k1 (SEC 2 section 2.4.1) in affine coordinates: the chord-and-tangent sum of SEC 1
 section 2.2.1 written out, scalar multiples by repeated addition, and what follows once the sum is
 known to make the curve an abelian group of prime order.
 */
module Curve {
  import opened Modular

  type Modulus = m: int | m > 3 witness 5

  /** The field size and the group order. */
  datatype Params = Params(field: Modulus, order: Modulus)

  datatype Point = Infinity | Affine(x: int, y: int)

  predicate Canonical(c: Params, v: int) {
    0 <= v < c.field
  }

  predicate OnCurve(c: Params, p: Point) {
    p.Affine? ==>
      Canonical(c, p.x) && Canonical(c, p.y) && (p.y * p.y) % c.field == (p.x * p.x * p.x + 7) % c.field
  }

  /** a / b in the field, dividing by a power as Fermat's theorem allows. */
  function Quotient(c: Params, a: int, b: int): (q: int)
    ensures Canonical(c, q)
  {
    (a * Pow(b % c.field, c.field - 2)) % c.field
  }

  /** The third point of the line of the given slope through p, reflected. */
  function ThroughSlope(c: Params, p: Point, slope: int, otherX: int): (r: Point)
    requires p.Affine?
    ensures r.Affine? && Canonical(c, r.x) && Canonical(c, r.y)
  {
    var x := (slope * slope - p.x - otherX) % c.field;
    Affine(x, (slope * (p.x - x) - p.y) % c.field)
  }

  function ChordSlope(c: Params, p: Point, q: Point): int
    requires p.Affine? && q.Affine?
  {
    Quotient(c, q.y - p.y, q.x - p.x)
  }

  function TangentSlope(c: Params, p: Point): int
    requires p.Affine?
  {
    Quotient(c, 3 * p.x * p.x, 2 * p.y)
  }

  function Add(c: Params, p: Point, q: Point): Point {
    if p.Infinity? then q
    else if q.Infinity? then p
    else if p.x != q.x then ThroughSlope(c, p, ChordSlope(c, p, q), q.x)
    else if p.y == q.y && p.y != 0 then ThroughSlope(c, p, TangentSlope(c, p), p.x)
    else Infinity
  }

  function Neg(c: Params, p: Point): Point {
    if p.Infinity? then p else Affine(p.x, (-p.y) % c.field)
  }

  function Mul(c: Params, k: nat, p: Point): Point {
    if k == 0 then Infinity else Add(c, Mul(c, k - 1, p), p)
  }

  ghost predicate Commutes(c: Params, p: Point, q: Point) {
    OnCurve(c, p) && OnCurve(c, q) ==> OnCurve(c, Add(c, p, q)) && Add(c, p, q) == Add(c, q, p)
  }

  ghost predicate Associates(c: Params, p: Point, q: Point, r: Point) {
    OnCurve(c, p) && OnCurve(c, q) && OnCurve(c, r) ==> Add(c, Add(c, p, q), r) == Add(c, p, Add(c, q, r))
  }

  ghost predicate HasGroupOrder(c: Params, p: Point) {
    OnCurve(c, p) ==> Mul(c, c.order, p) == Infinity
  }

  /** What is taken from the standard: both moduli are prime and the sum makes the points an
      abelian group whose order is c.order. */
  ghost predicate GroupLaw(c: Params) {
    && IsPrime(c.field) && IsPrime(c.order)
    && (forall p, q :: Commutes(c, p, q))
    && (forall p, q, r :: Associates(c, p, q, r))
    && (forall p :: HasGroupOrder(c, p))
  }

  // ----- the field -----

  lemma QuotientTimes(c: Params, a: int, b: int)
    requires IsPrime(c.field) && b % c.field != 0
    ensures Cong(Quotient(c, a, b) * b, a, c.field)
  {
    var d := b % c.field;
    CongMod(b, c.field);
    ModSmall(d, c.field);
    Fermat(d, c.field);
    var e := Pow(d, c.field - 2);
    CongMod(a * e, c.field);
    CongMul(Quotient(c, a, b), a * e, b, d, c.field);
    assert (a * e) * d == a * (d * e);
    assert Pow(d, c.field - 1) == d * e;
    CongScale(d * e, 1, a, c.field);
    CongTrans(Quotient(c, a, b) * b, a * (d * e), a, c.field);
  }

  /** A slope that passes the checker's congruence is the quotient, whatever its representative. */
  lemma QuotientUnique(c: Params, l: int, a: int, b: int)
    requires IsPrime(c.field) && b % c.field != 0 && Cong(l * b, a, c.field)
    ensures l % c.field == Quotient(c, a, b)
  {
    var q := Quotient(c, a, b);
    QuotientTimes(c, a, b);
    CongSym(q * b, a, c.field);
    CongTrans(l * b, a, q * b, c.field);
    assert l * b == b * l && q * b == b * q;
    CongCancel(b, l, q, c.field);
    CongIffMod(l, q, c.field);
    ModSmall(q, c.field);
  }

  lemma DifferenceNonzero(c: Params, a: int, b: int)
    requires Canonical(c, a) && Canonical(c, b) && a != b
    ensures (a - b) % c.field != 0
  {
    if (a - b) % c.field == 0 {
      CongZero(a - b, c.field);
      CongRefl(b, c.field);
      CongAdd(a - b, 0, b, b, c.field);
      CongEq(a, b, c.field);
    }
  }

  lemma DoubleNonzero(c: Params, y: int)
    requires IsPrime(c.field) && Canonical(c, y) && y != 0
    ensures (2 * y) % c.field != 0
  {
    ModSmall(y, c.field);
    ModSmall(2, c.field);
    if (2 * y) % c.field == 0 {
      PrimeProduct(2, y, c.field);
    }
  }

  /** The next point depends on the slope only through its residue. */
  lemma SlopeResidue(c: Params, p: Point, l: int, otherX: int)
    requires p.Affine?
    ensures ThroughSlope(c, p, l, otherX) == ThroughSlope(c, p, l % c.field, otherX)
  {
    var m := l % c.field;
    CongMod(l, c.field);
    CongMul(l, m, l, m, c.field);
    CongRefl(p.x + otherX, c.field);
    CongAdd(l * l, m * m, p.x + otherX, p.x + otherX, c.field);
    CongIffMod(l * l - p.x - otherX, m * m - p.x - otherX, c.field);
    var x := (l * l - p.x - otherX) % c.field;
    CongScale(l, m, p.x - x, c.field);
    CongRefl(p.y, c.field);
    CongAdd((p.x - x) * l, (p.x - x) * m, p.y, p.y, c.field);
    assert l * (p.x - x) == (p.x - x) * l && m * (p.x - x) == (p.x - x) * m;
    CongIffMod(l * (p.x - x) - p.y, m * (p.x - x) - p.y, c.field);
  }

  // ----- the group -----

  lemma NegSquare(c: Params, y: int)
    requires Canonical(c, y)
    ensures Canonical(c, (-y) % c.field)
    ensures (((-y) % c.field) * ((-y) % c.field)) % c.field == (y * y) % c.field
    ensures (-y) % c.field == if y == 0 then 0 else c.field - y
  {
    var y' := (-y) % c.field;
    CongMod(-y, c.field);
    CongMul(y', -y, y', -y, c.field);
    assert (-y) * (-y) == y * y;
    CongIffMod(y' * y', y * y, c.field);
    if y == 0 {
      ModSmall(0, c.field);
    } else {
      ModWitness(-y, -1, c.field - y, c.field);
    }
  }

  lemma OppositeSum(c: Params, x: int, y: int, y': int)
    requires c.field % 2 == 1 && y' == if y == 0 then 0 else c.field - y
    ensures Add(c, Affine(x, y), Affine(x, y')) == Infinity
  {
  }

  lemma NegOnCurve(c: Params, p: Point)
    requires IsPrime(c.field) && OnCurve(c, p)
    ensures OnCurve(c, Neg(c, p)) && Add(c, p, Neg(c, p)) == Infinity
  {
    if p.Affine? {
      NegSquare(c, p.y);
      PrimeIsOdd(c.field);
      OppositeSum(c, p.x, p.y, (-p.y) % c.field);
    }
  }

  lemma AddClosed(c: Params, p: Point, q: Point)
    requires GroupLaw(c) && OnCurve(c, p) && OnCurve(c, q)
    ensures OnCurve(c, Add(c, p, q)) && Add(c, p, q) == Add(c, q, p)
  {
    assert Commutes(c, p, q);
  }

  lemma AddAssociative(c: Params, p: Point, q: Point, r: Point)
    requires GroupLaw(c) && OnCurve(c, p) && OnCurve(c, q) && OnCurve(c, r)
    ensures Add(c, Add(c, p, q), r) == Add(c, p, Add(c, q, r))
  {
    assert Associates(c, p, q, r);
  }

  lemma AddThenSubtract(c: Params, p: Point, h: Point)
    requires GroupLaw(c) && OnCurve(c, p) && OnCurve(c, h)
    ensures Add(c, Add(c, p, h), Neg(c, h)) == p
  {
    NegOnCurve(c, h);
    AddAssociative(c, p, h, Neg(c, h));
  }

  lemma Cancel(c: Params, p: Point, q: Point, h: Point)
    requires GroupLaw(c) && OnCurve(c, p) && OnCurve(c, q) && OnCurve(c, h)
    requires Add(c, p, h) == Add(c, q, h)
    ensures p == q
  {
    AddThenSubtract(c, p, h);
    AddThenSubtract(c, q, h);
  }

  lemma {:induction false} MulOnCurve(c: Params, k: nat, p: Point)
    requires GroupLaw(c) && OnCurve(c, p)
    ensures OnCurve(c, Mul(c, k, p))
  {
    if k > 0 {
      MulOnCurve(c, k - 1, p);
      AddClosed(c, Mul(c, k - 1, p), p);
    }
  }

  lemma {:induction false} MulSum(c: Params, a: nat, b: nat, p: Point)
    requires GroupLaw(c) && OnCurve(c, p)
    ensures Mul(c, a + b, p) == Add(c, Mul(c, a, p), Mul(c, b, p))
    decreases b
  {
    MulOnCurve(c, a, p);
    if b > 0 {
      MulOnCurve(c, b - 1, p);
      MulSum(c, a, b - 1, p);
      AddAssociative(c, Mul(c, a, p), Mul(c, b - 1, p), p);
    }
  }

  lemma {:induction false} MulInfinity(c: Params, k: nat)
    ensures Mul(c, k, Infinity) == Infinity
  {
    if k > 0 { MulInfinity(c, k - 1); }
  }

  /** Multiples compose: this is why masks commute. */
  lemma {:induction false} MulMul(c: Params, a: nat, b: nat, p: Point)
    requires GroupLaw(c) && OnCurve(c, p)
    ensures a * b >= 0
    ensures Mul(c, a * b, p) == Mul(c, a, Mul(c, b, p))
    decreases a
  {
    if a == 0 {
      assert a * b == 0;
    } else {
      MulMul(c, a - 1, b, p);
      assert a * b == (a - 1) * b + b;
      MulSum(c, (a - 1) * b, b, p);
    }
  }

  /** A multiple depends on the scalar only modulo the group order. */
  lemma MulMod(c: Params, k: nat, p: Point)
    requires GroupLaw(c) && OnCurve(c, p)
    ensures k % c.order >= 0
    ensures Mul(c, k, p) == Mul(c, k % c.order, p)
  {
    var q, r := k / c.order, k % c.order;
    assert k == q * c.order + r && q >= 0;
    assert HasGroupOrder(c, p);
    MulMul(c, q, c.order, p);
    MulInfinity(c, q);
    MulSum(c, q * c.order, r, p);
  }

  /** A canonical scalar that multiplies k back to 1 modulo the group order. */
  lemma ScalarInverse(c: Params, k: nat) returns (inv: nat)
    requires IsPrime(c.order) && 0 < k < c.order
    ensures 0 < inv < c.order && (inv * k) % c.order == 1
  {
    var b := PrimeInverse(k, c.order);
    inv := b % c.order;
    CongMod(b, c.order);
    CongScale(inv, b, k, c.order);
    CongTrans(k * inv, k * b, 1, c.order);
    CongIffMod(k * inv, 1, c.order);
    ModSmall(1, c.order);
    assert inv * k == k * inv;
    if inv == 0 {
      ModSmall(0, c.order);
    }
  }

  lemma MulUndo(c: Params, k: nat, inv: nat, p: Point)
    requires GroupLaw(c) && OnCurve(c, p) && (inv * k) % c.order == 1
    ensures Mul(c, inv, Mul(c, k, p)) == p
  {
    MulMul(c, inv, k, p);
    MulMod(c, inv * k, p);
    assert Mul(c, 1, p) == Add(c, Mul(c, 0, p), p);
  }

  /** No multiple by a nonzero residue is the identity. */
  lemma MulNonzero(c: Params, k: nat, p: Point)
    requires GroupLaw(c) && OnCurve(c, p) && p.Affine? && 0 < k < c.order
    ensures Mul(c, k, p).Affine?
  {
    var inv := ScalarInverse(c, k);
    MulUndo(c, k, inv, p);
    MulInfinity(c, inv);
  }

  lemma MulDifference(c: Params, a: nat, b: nat, p: Point)
    requires GroupLaw(c) && OnCurve(c, p) && p.Affine? && a < b < c.order
    ensures Mul(c, a, p) != Mul(c, b, p)
  {
    var d := b - a;
    MulSum(c, d, a, p);
    MulOnCurve(c, d, p);
    MulOnCurve(c, a, p);
    MulNonzero(c, d, p);
    if Mul(c, a, p) == Mul(c, b, p) {
      Cancel(c, Infinity, Mul(c, d, p), Mul(c, a, p));
    }
  }

  /** Equal multiples of one point by canonical scalars come from equal scalars. */
  lemma MulInjective(c: Params, a: nat, b: nat, p: Point)
    requires GroupLaw(c) && OnCurve(c, p) && p.Affine? && a < c.order && b < c.order
    requires Mul(c, a, p) == Mul(c, b, p)
    ensures a == b
  {
    if a < b {
      MulDifference(c, a, b, p);
    } else if b < a {
      MulDifference(c, b, a, p);
    }
  }

  lemma MulTwo(c: Params, p: Point)
    ensures Mul(c, 1, p) == p && Mul(c, 2, p) == Add(c, p, p)
  {
    assert Mul(c, 1, p) == Add(c, Mul(c, 0, p), p);
    assert Mul(c, 2, p) == Add(c, Mul(c, 1, p), p);
  }

  /** The group order is odd, so no affine point has y = 0 and a tangent slope is always pinned. */
  lemma NoVerticalTangent(c: Params, p: Point)
    requires GroupLaw(c) && OnCurve(c, p) && p.Affine?
    ensures p.y != 0
  {
    MulNonzero(c, 2, p);
    MulTwo(c, p);
  }
}
