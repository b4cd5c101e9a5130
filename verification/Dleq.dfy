/**
 Chaum-Pedersen proofs of equal discrete logarithms, and the byte encodings the prover and the
 referee must share.
 */
module Dleq {
  import opened Modular
  import opened Curve
  import opened ScriptBytes
  import opened Options

  type Hash = seq<byte> -> seq<byte>

  /** What collision resistance is taken to mean. */
  ghost predicate Injective(hash: Hash) {
    forall x, y :: hash(x) == hash(y) ==> x == y
  }

  // ----- big-endian bytes and 64-byte affine points -----

  function BigEndian(b: seq<byte>): nat {
    if b == [] then 0 else BigEndian(b[..|b| - 1]) * 256 + b[|b| - 1]
  }

  function ToBigEndian(v: nat, width: nat): (b: seq<byte>)
    ensures |b| == width
  {
    if width == 0 then [] else ToBigEndian(v / 256, width - 1) + [v % 256]
  }

  function Reversed(b: seq<byte>): (r: seq<byte>)
    ensures |r| == |b|
  {
    if b == [] then [] else [b[|b| - 1]] + Reversed(b[..|b| - 1])
  }

  lemma {:induction false} BigEndianBound(b: seq<byte>)
    ensures BigEndian(b) < Pow2(8 * |b|)
  {
    if b != [] {
      BigEndianBound(b[..|b| - 1]);
      Pow2Byte(8 * (|b| - 1));
    }
  }

  lemma {:induction false} BigEndianRoundTrip(v: nat, width: nat)
    requires v < Pow2(8 * width)
    ensures BigEndian(ToBigEndian(v, width)) == v
  {
    if width > 0 {
      Pow2Byte(8 * (width - 1));
      BigEndianRoundTrip(v / 256, width - 1);
      var b := ToBigEndian(v, width);
      assert b[..width - 1] == ToBigEndian(v / 256, width - 1);
    }
  }

  lemma {:induction false} BigEndianInverse(b: seq<byte>)
    ensures ToBigEndian(BigEndian(b), |b|) == b
  {
    if b != [] {
      BigEndianInverse(b[..|b| - 1]);
      assert b == b[..|b| - 1] + [b[|b| - 1]];
    }
  }

  lemma {:induction false} ReversedValue(b: seq<byte>)
    ensures LittleEndian(Reversed(b)) == BigEndian(b)
  {
    if b != [] {
      ReversedValue(b[..|b| - 1]);
      assert Reversed(b)[1..] == Reversed(b[..|b| - 1]);
    }
  }

  function Affine64(p: Point): (b: seq<byte>)
    requires p.Affine? && p.x >= 0 && p.y >= 0
    ensures |b| == 64
  {
    ToBigEndian(p.x, 32) + ToBigEndian(p.y, 32)
  }

  function PointAt(b: seq<byte>): (p: Point)
    requires |b| == 64
    ensures p.Affine? && p.x >= 0 && p.y >= 0
  {
    Affine(BigEndian(b[..32]), BigEndian(b[32..]))
  }

  /** The affine encoding loses nothing in either direction. */
  lemma AffineRoundTrip(b: seq<byte>)
    requires |b| == 64
    ensures Affine64(PointAt(b)) == b
  {
    BigEndianInverse(b[..32]);
    BigEndianInverse(b[32..]);
    assert b == b[..32] + b[32..];
  }

  lemma PointRoundTrip(c: Params, p: Point)
    requires p.Affine? && OnCurve(c, p) && c.field <= Pow2(256)
    ensures PointAt(Affine64(p)) == p
  {
    BigEndianRoundTrip(p.x, 32);
    BigEndianRoundTrip(p.y, 32);
    var b := Affine64(p);
    assert b[..32] == ToBigEndian(p.x, 32) && b[32..] == ToBigEndian(p.y, 32);
  }

  // ----- the challenge -----

  function StatementBytes(domain: seq<byte>, b1: seq<byte>, p1: seq<byte>, b2: seq<byte>, p2: seq<byte>,
                          a1: seq<byte>, a2: seq<byte>): seq<byte> {
    domain + [0] + b1 + p1 + b2 + p2 + a1 + a2
  }

  /** The i-th of the 64-byte points that follow a domain of this length and its zero byte. */
  function PointBytes(bytes: seq<byte>, domainLength: nat, i: nat): seq<byte>
    requires domainLength + 1 + 64 * (i + 1) <= |bytes|
  {
    bytes[domainLength + 1 + 64 * i..domainLength + 1 + 64 * (i + 1)]
  }

  /** The bytes are the domain, a zero byte and then exactly these points. */
  ghost predicate LaidOut(bytes: seq<byte>, domain: seq<byte>, points: seq<seq<byte>>) {
    && |bytes| == |domain| + 1 + 64 * |points| && bytes[..|domain|] == domain && bytes[|domain|] == 0
    && forall i :: 0 <= i < |points| ==> PointBytes(bytes, |domain|, i) == points[i]
  }

  /** Where every part of a hashed statement stands. */
  lemma StatementLaidOut(domain: seq<byte>, b1: seq<byte>, p1: seq<byte>, b2: seq<byte>, p2: seq<byte>, a1: seq<byte>, a2: seq<byte>)
    requires |b1| == |p1| == |b2| == |p2| == |a1| == |a2| == 64
    ensures LaidOut(StatementBytes(domain, b1, p1, b2, p2, a1, a2), domain, [b1, p1, b2, p2, a1, a2])
  {
    var bytes, n := StatementBytes(domain, b1, p1, b2, p2, a1, a2), |domain|;
    assert PointBytes(bytes, n, 0) == b1 && PointBytes(bytes, n, 1) == p1 && PointBytes(bytes, n, 2) == b2;
    assert PointBytes(bytes, n, 3) == p2 && PointBytes(bytes, n, 4) == a1 && PointBytes(bytes, n, 5) == a2;
  }

  /** The same bytes are the same domain and the same points. */
  lemma LayoutDetermines(bytes: seq<byte>, domain: seq<byte>, points: seq<seq<byte>>, domain': seq<byte>, points': seq<seq<byte>>)
    requires LaidOut(bytes, domain, points) && LaidOut(bytes, domain', points') && |points| == |points'|
    ensures domain == domain' && points == points'
  {
    forall i | 0 <= i < |points|
      ensures points[i] == points'[i]
    {
      assert points[i] == PointBytes(bytes, |domain|, i);
    }
  }

  /** Off chain: the digest read big-endian, reduced. */
  function Challenge(c: Params, digest: seq<byte>): (r: int)
    ensures 0 <= r < c.order
  {
    BigEndian(digest) % c.order
  }

  /** On chain: bin2num of the reversed digest with a zero byte appended, reduced. */
  function ChallengeOnChain(c: Params, digest: seq<byte>): int {
    Bin2Num(Reversed(digest) + [0]) % c.order
  }

  /** Both sides derive the same challenge from the same digest. */
  lemma ChallengesAgree(c: Params, digest: seq<byte>)
    ensures ChallengeOnChain(c, digest) == Challenge(c, digest)
  {
    var r := Reversed(digest);
    ReversedValue(digest);
    LittleEndianAppend(r, [0]);
    assert LittleEndian([0]) == 0;
    assert Pow2(8 * |r|) * 0 == 0;
  }

  // ----- the proof -----

  datatype Statement = Statement(domain: seq<byte>, b1: Point, p1: Point, b2: Point, p2: Point)

  datatype Proof = Proof(a1: Point, a2: Point, z: int)

  predicate Finite(c: Params, p: Point) {
    p.Affine? && OnCurve(c, p)
  }

  predicate SameAffine(a: Point, b: Point) {
    a.Affine? && b.Affine? && a == b
  }

  predicate AllFinite(c: Params, st: Statement, a1: Point, a2: Point) {
    && Finite(c, st.b1) && Finite(c, st.p1) && Finite(c, st.b2) && Finite(c, st.p2)
    && Finite(c, a1) && Finite(c, a2)
  }

  /** What is hashed: the statement with the commitments. */
  function Hashed(c: Params, st: Statement, a1: Point, a2: Point): seq<byte>
    requires AllFinite(c, st, a1, a2)
  {
    StatementBytes(st.domain, Affine64(st.b1), Affine64(st.p1), Affine64(st.b2), Affine64(st.p2), Affine64(a1), Affine64(a2))
  }

  function ChallengeOf(c: Params, hash: Hash, st: Statement, a1: Point, a2: Point): int
    requires AllFinite(c, st, a1, a2)
  {
    Challenge(c, hash(Hashed(c, st, a1, a2)))
  }

  /** The points of a statement and its commitments, in the order they are hashed. */
  function PointsOf(st: Statement, a1: Point, a2: Point): seq<Point> {
    [st.b1, st.p1, st.b2, st.p2, a1, a2]
  }

  /** The bytes are the domain, a zero byte and then encodings of exactly these points. */
  ghost predicate Spells(bytes: seq<byte>, domain: seq<byte>, points: seq<Point>) {
    && |bytes| == |domain| + 1 + 64 * |points| && bytes[..|domain|] == domain && bytes[|domain|] == 0
    && forall i :: 0 <= i < |points| ==> PointAt(PointBytes(bytes, |domain|, i)) == points[i]
  }

  /** The challenge is the big-endian digest, modulo the order, of bytes that spell the domain, the
      bases, the statement's points and both commitments. */
  lemma ChallengeCovers(c: Params, hash: Hash, st: Statement, a1: Point, a2: Point)
    requires AllFinite(c, st, a1, a2) && c.field <= Pow2(256)
    ensures exists bytes :: Spells(bytes, st.domain, PointsOf(st, a1, a2)) && ChallengeOf(c, hash, st, a1, a2) == BigEndian(hash(bytes)) % c.order
  {
    hide Affine64, PointAt, PointBytes, Pow2, OnCurve;
    var bytes, points, e := Hashed(c, st, a1, a2), PointsOf(st, a1, a2), Encodings(c, st, a1, a2);
    StatementLaidOut(st.domain, e[0], e[1], e[2], e[3], e[4], e[5]);
    hide StatementBytes;
    forall i | 0 <= i < |points|
      ensures PointAt(PointBytes(bytes, |st.domain|, i)) == points[i]
    {
      PointRoundTrip(c, points[i]);
      assert PointBytes(bytes, |st.domain|, i) == e[i] == Affine64(points[i]);
    }
    assert Spells(bytes, st.domain, points);
  }

  /** Under an injective hash one digest belongs to one statement and one pair of commitments. */
  lemma DigestFixes(c: Params, hash: Hash, st: Statement, a1: Point, a2: Point, st': Statement, a1': Point, a2': Point)
    requires AllFinite(c, st, a1, a2) && AllFinite(c, st', a1', a2') && c.field <= Pow2(256)
    requires Injective(hash) && hash(Hashed(c, st, a1, a2)) == hash(Hashed(c, st', a1', a2'))
    ensures st == st' && a1 == a1' && a2 == a2'
  {
    hide Affine64, PointAt, Pow2, OnCurve, LaidOut;
    var e, e' := Encodings(c, st, a1, a2), Encodings(c, st', a1', a2');
    StatementLaidOut(st.domain, e[0], e[1], e[2], e[3], e[4], e[5]);
    StatementLaidOut(st'.domain, e'[0], e'[1], e'[2], e'[3], e'[4], e'[5]);
    hide StatementBytes;
    assert e == [e[0], e[1], e[2], e[3], e[4], e[5]] && e' == [e'[0], e'[1], e'[2], e'[3], e'[4], e'[5]];
    LayoutDetermines(Hashed(c, st, a1, a2), st.domain, e, st'.domain, e');
    var points, points' := PointsOf(st, a1, a2), PointsOf(st', a1', a2');
    forall i | 0 <= i < 6
      ensures points[i] == points'[i]
    {
      PointRoundTrip(c, points[i]);
      PointRoundTrip(c, points'[i]);
      assert e[i] == Affine64(points[i]) && e'[i] == Affine64(points'[i]);
    }
    assert points[0] == points'[0] && points[1] == points'[1] && points[2] == points'[2];
    assert points[3] == points'[3] && points[4] == points'[4] && points[5] == points'[5];
  }

  function Encodings(c: Params, st: Statement, a1: Point, a2: Point): (e: seq<seq<byte>>)
    requires AllFinite(c, st, a1, a2)
    ensures |e| == 6 && forall i :: 0 <= i < 6 ==> |e[i]| == 64
  {
    [Affine64(st.b1), Affine64(st.p1), Affine64(st.b2), Affine64(st.p2), Affine64(a1), Affine64(a2)]
  }

  predicate Equation(c: Params, z: nat, b: Point, a: Point, ch: nat, p: Point) {
    Mul(c, z, b) == Add(c, a, Mul(c, ch, p))
  }

  /** `verify`: never raises, whatever the proof holds. */
  predicate Verifies(c: Params, hash: Hash, st: Statement, pr: Proof) {
    && AllFinite(c, st, pr.a1, pr.a2) && 0 < pr.z < c.order
    && var ch := ChallengeOf(c, hash, st, pr.a1, pr.a2);
       && SameAffine(Mul(c, pr.z, st.b1), Add(c, pr.a1, Mul(c, ch, st.p1)))
       && SameAffine(Mul(c, pr.z, st.b2), Add(c, pr.a2, Mul(c, ch, st.p2)))
  }

  /** `prove` for the witness s, with the derived nonce w. None stands for a thrown error. */
  function Prove(c: Params, hash: Hash, st: Statement, s: int, w: nat): Option<Proof>
    requires Finite(c, st.b1) && Finite(c, st.b2) && OnCurve(c, st.p1) && OnCurve(c, st.p2) && GroupLaw(c)
  {
    if s <= 0 || s >= c.order then None
    else if !SameAffine(Mul(c, s, st.b1), st.p1) || !SameAffine(Mul(c, s, st.b2), st.p2) then None
    else if w % c.order == 0 then None
    else
      var v: nat := w % c.order;
      var a1, a2 := Mul(c, v, st.b1), Mul(c, v, st.b2);
      MulOnCurve(c, v, st.b1);
      MulOnCurve(c, v, st.b2);
      MulNonzero(c, v, st.b1);
      MulNonzero(c, v, st.b2);
      var z := (v + ChallengeOf(c, hash, st, a1, a2) * s) % c.order;
      if z == 0 then None else Some(Proof(a1, a2, z))
  }

  lemma ResponseSolves(c: Params, b: Point, s: nat, v: nat, ch: nat, z: nat)
    requires GroupLaw(c) && OnCurve(c, b) && ch * s >= 0 && z == (v + ch * s) % c.order
    ensures Equation(c, z, b, Mul(c, v, b), ch, Mul(c, s, b))
  {
    hide Curve.Add, Curve.GroupLaw, Curve.OnCurve;
    MulMod(c, v + ch * s, b);
    MulSum(c, v, ch * s, b);
    MulMul(c, ch, s, b);
  }

  /** Whatever `prove` returns, `verify` accepts. */
  lemma ProvedVerifies(c: Params, hash: Hash, st: Statement, s: int, w: nat)
    requires GroupLaw(c) && Finite(c, st.b1) && Finite(c, st.b2) && OnCurve(c, st.p1) && OnCurve(c, st.p2)
    requires Prove(c, hash, st, s, w).Some?
    ensures Verifies(c, hash, st, Prove(c, hash, st, s, w).value)
  {
    hide Curve.Add, Curve.GroupLaw, Curve.OnCurve, Affine64, Challenge;
    var pr := Prove(c, hash, st, s, w).value;
    var v: nat := w % c.order;
    MulOnCurve(c, v, st.b1);
    MulOnCurve(c, v, st.b2);
    MulNonzero(c, v, st.b1);
    MulNonzero(c, v, st.b2);
    var ch: nat := ChallengeOf(c, hash, st, pr.a1, pr.a2);
    assert ch * s >= 0;
    ResponseSolves(c, st.b1, s, v, ch, pr.z);
    ResponseSolves(c, st.b2, s, v, ch, pr.z);
    MulNonzero(c, pr.z, st.b1);
    MulNonzero(c, pr.z, st.b2);
  }

  // ----- soundness of the proof -----

  /** A response to a challenge on both equations. */
  predicate Answers(c: Params, st: Statement, a1: Point, a2: Point, ch: nat, z: nat) {
    Equation(c, z, st.b1, a1, ch, st.p1) && Equation(c, z, st.b2, a2, ch, st.p2)
  }

  /** Two answers to one commitment differ by a multiple of the point in question. */
  lemma AnswersDiffer(c: Params, b: Point, p: Point, a: Point, ch: nat, z: nat, ch': nat, z': nat)
    requires GroupLaw(c) && OnCurve(c, b) && OnCurve(c, p) && OnCurve(c, a) && ch' < ch && z' < c.order
    requires Equation(c, z, b, a, ch, p) && Equation(c, z', b, a, ch', p)
    ensures Mul(c, z + c.order - z', b) == Mul(c, ch - ch', p)
  {
    hide Curve.Add, Curve.GroupLaw, Curve.OnCurve;
    var d, e := ch - ch', z + c.order - z';
    var dp, cp := Mul(c, d, p), Mul(c, ch', p);
    MulOnCurve(c, d, p);
    MulOnCurve(c, ch', p);
    MulOnCurve(c, e, b);
    MulOnCurve(c, z', b);
    MulSum(c, d, ch', p);
    AddClosed(c, dp, cp);
    AddAssociative(c, a, cp, dp);
    AddClosed(c, Mul(c, z', b), dp);
    MulSum(c, e, z', b);
    MulMod(c, z + c.order, b);
    MulMod(c, z, b);
    WholeOrder(z, c.order);
    Cancel(c, Mul(c, e, b), dp, Mul(c, z', b));
  }

  lemma WholeOrder(z: nat, n: nat)
    requires n > 0
    ensures (z + n) % n == z % n
  {
    ModWitness(z + n, z / n + 1, z % n, n);
  }

  /** Special soundness: two answers to different challenges on the same commitments give the common
      discrete logarithm, so for a false statement at most one challenge can be answered. */
  lemma SpecialSoundness(c: Params, st: Statement, a1: Point, a2: Point, ch: nat, z: nat, ch': nat, z': nat) returns (s: nat)
    requires GroupLaw(c) && OnCurve(c, st.b1) && OnCurve(c, st.p1) && OnCurve(c, st.b2) && OnCurve(c, st.p2) && OnCurve(c, a1) && OnCurve(c, a2)
    requires ch' < ch < c.order && z' < c.order
    requires Answers(c, st, a1, a2, ch, z) && Answers(c, st, a1, a2, ch', z')
    ensures st.p1 == Mul(c, s, st.b1) && st.p2 == Mul(c, s, st.b2)
  {
    var inv := OrderInverse(c, ch - ch');
    hide Curve.Add, Curve.GroupLaw, Curve.OnCurve;
    var e := z + c.order - z';
    AnswersDiffer(c, st.b1, st.p1, a1, ch, z, ch', z');
    AnswersDiffer(c, st.b2, st.p2, a2, ch, z, ch', z');
    MulUndo(c, ch - ch', inv, st.p1);
    MulUndo(c, ch - ch', inv, st.p2);
    MulMul(c, inv, e, st.b1);
    MulMul(c, inv, e, st.b2);
    s := inv * e;
  }

  lemma OrderInverse(c: Params, d: nat) returns (inv: nat)
    requires GroupLaw(c) && 0 < d < c.order
    ensures (inv * d) % c.order == 1
  {
    inv := ScalarInverse(c, d);
  }
}
