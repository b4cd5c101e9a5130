/**
 The off-chain producer of the checker's slopes, and its agreement with the checker: what it
 returns is accepted, what it refuses has no witness, and the one input family for which it
 returns a useless witness.
 */
module EcMulWitness {
  import opened Modular
  import opened Curve
  import opened ScriptBytes
  import opened EcMulCheck
  import opened Options

  // ----- the field inverse, by square and multiply -----

  lemma {:induction false} PowCong(a: int, b: int, e: nat, p: int)
    requires p > 0 && Cong(a, b, p)
    ensures Cong(Pow(a, e), Pow(b, e), p)
  {
    if e == 0 {
      CongRefl(1, p);
    } else {
      PowCong(a, b, e - 1, p);
      CongMul(a, b, Pow(a, e - 1), Pow(b, e - 1), p);
    }
  }

  lemma {:induction false} PowSquare(b: int, e: nat)
    ensures Pow(b * b, e) == Pow(b, 2 * e)
  {
    if e > 0 {
      PowSquare(b, e - 1);
      calc {
        Pow(b, 2 * e);
        b * Pow(b, 2 * e - 1);
        b * (b * Pow(b, 2 * (e - 1)));
        (b * b) * Pow(b * b, e - 1);
      }
    }
  }

  /** One turn of the loop keeps r * b^e. */
  lemma PowerStep(r: int, b: int, e: nat, p: int)
    requires p > 0 && e > 0
    ensures var r' := if e % 2 == 1 then (r * b) % p else r;
            Cong(r' * Pow((b * b) % p, e / 2), r * Pow(b, e), p)
  {
    var h, sq := e / 2, (b * b) % p;
    CongMod(b * b, p);
    PowCong(sq, b * b, h, p);
    PowSquare(b, h);
    if e % 2 == 1 {
      CongMod(r * b, p);
      CongMul((r * b) % p, r * b, Pow(sq, h), Pow(b, 2 * h), p);
      assert (r * b) * Pow(b, 2 * h) == r * (b * Pow(b, 2 * h)) == r * Pow(b, e);
    } else {
      CongScale(Pow(sq, h), Pow(b, 2 * h), r, p);
    }
  }

  method Inv(c: Params, a: int) returns (r: int)
    ensures r == Pow(a % c.field, c.field - 2) % c.field
    ensures IsPrime(c.field) && a % c.field != 0 ==> (a * r) % c.field == 1
  {
    var p: int := c.field;
    r := 1;
    var b := Reduce(c, a);
    ReduceIsMod(c, a);
    ghost var b0 := b;
    var e: nat := p - 2;
    CongRefl(1 * Pow(b, e), p);
    ModSmall(1, p);
    while e > 0
      invariant 0 <= r < p
      invariant Cong(r * Pow(b, e), Pow(b0, p - 2), p)
    {
      PowerStep(r, b, e, p);
      ghost var before := r * Pow(b, e);
      if e % 2 == 1 {
        r := (r * b) % p;
        CongMod(r, p);
      }
      b := (b * b) % p;
      e := e / 2;
      CongTrans(r * Pow(b, e), before, Pow(b0, p - 2), p);
    }
    assert r * Pow(b, 0) == r;
    CongIffMod(r, Pow(b0, p - 2), p);
    ModSmall(r, p);
    if IsPrime(p) && a % p != 0 {
      InverseTimes(c, a, r);
    }
  }

  lemma InverseTimes(c: Params, a: int, r: int)
    requires IsPrime(c.field) && a % c.field != 0 && r == Pow(a % c.field, c.field - 2) % c.field
    ensures (a * r) % c.field == 1
  {
    hide Modular.IsPrime;
    QuotientTimes(c, 1, a);
    assert Quotient(c, 1, a) == r;
    assert r * a == a * r;
    CongIffMod(a * r, 1, c.field);
    ModSmall(1, c.field);
  }

  /** Multiplying by the reduced inverse and reducing is the field quotient. */
  method Divide(c: Params, a: int, b: int) returns (q: int)
    ensures q == Quotient(c, a, b)
  {
    var i := Inv(c, b);
    q := Reduce(c, a * i);
    ReduceIsMod(c, a * i);
    var e := Pow(b % c.field, c.field - 2);
    CongMod(e, c.field);
    CongScale(e % c.field, e, a, c.field);
    CongIffMod(a * i, a * e, c.field);
  }

  // ----- the witness -----

  /** 33 little-endian bytes. */
  method Le33(v: nat) returns (b: seq<byte>)
    ensures b == ToLittleEndian(v, SLOPE_BYTES)
  {
    b := [];
    var rest := v;
    var i := 0;
    while i < SLOPE_BYTES
      invariant 0 <= i <= SLOPE_BYTES
      invariant b + ToLittleEndian(rest, SLOPE_BYTES - i) == ToLittleEndian(v, SLOPE_BYTES)
    {
      assert ToLittleEndian(rest, SLOPE_BYTES - i) == [rest % 256] + ToLittleEndian(rest / 256, SLOPE_BYTES - i - 1);
      assert b + ([rest % 256] + ToLittleEndian(rest / 256, SLOPE_BYTES - i - 1))
          == (b + [rest % 256]) + ToLittleEndian(rest / 256, SLOPE_BYTES - i - 1);
      b := b + [rest % 256];
      rest := rest / 256;
      i := i + 1;
    }
    assert b + [] == b;
  }

  datatype Progress = Progress(q: Point, r: Point, rest: nat, w: seq<byte>)

  /** One iteration; None when the accumulator meets plus or minus Q. */
  function Produce(c: Params, s: Progress): Option<Progress>
    requires s.q.Affine? && s.r.Affine?
  {
    var d := TangentSlope(c, s.q);
    var q' := ThroughSlope(c, s.q, d, s.q.x);
    if s.rest % 2 == 1 then
      if s.r.x == s.q.x then None
      else
        var l := ChordSlope(c, s.r, s.q);
        Some(Progress(q', ThroughSlope(c, s.r, l, s.q.x), s.rest / 2,
                      s.w + ToLittleEndian(l, SLOPE_BYTES) + ToLittleEndian(d, SLOPE_BYTES)))
    else
      Some(Progress(q', s.r, s.rest / 2, s.w + ToLittleEndian(0, SLOPE_BYTES) + ToLittleEndian(d, SLOPE_BYTES)))
  }

  function Produced(g: Setting, i: nat, base: Point, k: nat): (r: Option<Progress>)
    requires base.Affine? && g.h.Affine?
    ensures r.Some? ==> r.value.q.Affine? && r.value.r.Affine? && |r.value.w| == i * STEP_BYTES
  {
    if i == 0 then Some(Progress(base, g.h, k, []))
    else
      match Produced(g, i - 1, base, k)
      case None => None
      case Some(s) => Produce(g.curve, s)
  }

  /** R - H, by the chord formula whatever the points are. */
  function Claimed(g: Setting, r: Point): (out: Point)
    requires r.Affine? && g.h.Affine?
    ensures out.Affine?
  {
    ThroughSlope(g.curve, r, ChordSlope(g.curve, r, Neg(g.curve, g.h)), g.h.x)
  }

  function WitnessOf(g: Setting, base: Point, k: int): Option<seq<byte>>
    requires base.Affine? && g.h.Affine?
  {
    if k <= 0 || k >= g.curve.order then None
    else
      match Produced(g, STEPS, base, k)
      case None => None
      case Some(s) =>
        var out := Claimed(g, s.r);
        if out.x == g.h.x then None
        else Some(s.w + ToLittleEndian(ChordSlope(g.curve, out, g.h), SLOPE_BYTES))
  }

  lemma {:induction false} RefusalSticks(g: Setting, i: nat, j: nat, base: Point, k: nat)
    requires base.Affine? && g.h.Affine? && i <= j && Produced(g, i, base, k).None?
    ensures Produced(g, j, base, k).None?
  {
    if i < j { RefusalSticks(g, i, j - 1, base, k); }
  }

  method StepPoint(c: Params, a: Point, l: int, bx: int) returns (p: Point)
    requires a.Affine?
    ensures p == ThroughSlope(c, a, l, bx)
  {
    var x := Reduce(c, l * l - a.x - bx);
    ReduceIsMod(c, l * l - a.x - bx);
    ReduceIsMod(c, l * (a.x - x) - a.y);
    p := Affine(x, Reduce(c, l * (a.x - x) - a.y));
  }

  /** `ecMulWitness`. None stands for a thrown error. */
  method Produces(g: Setting, base: Point, k: int) returns (w: Option<seq<byte>>)
    requires base.Affine? && g.h.Affine?
    ensures w == WitnessOf(g, base, k)
  {
    hide Curve.ThroughSlope, Curve.Quotient, ToLittleEndian;
    if k <= 0 || k >= g.curve.order {
      return None;
    }
    var c := g.curve;
    var q, r, rest, bytes := base, g.h, k, [];
    var i := 0;
    while i < STEPS
      invariant 0 <= i <= STEPS && q.Affine? && r.Affine? && rest >= 0
      invariant Produced(g, i, base, k) == Some(Progress(q, r, rest, bytes))
    {
      ghost var before := Progress(q, r, rest, bytes);
      var bit := rest % 2;
      rest := rest / 2;
      if bit == 1 {
        if r.x == q.x {
          assert Produced(g, i + 1, base, k) == None;
          RefusalSticks(g, i + 1, STEPS, base, k);
          return None;
        }
        var l := Divide(c, q.y - r.y, q.x - r.x);
        var b := Le33(l);
        bytes := bytes + b;
        r := StepPoint(c, r, l, q.x);
      } else {
        var b := Le33(0);
        bytes := bytes + b;
      }
      var d := Divide(c, 3 * q.x * q.x, 2 * q.y);
      var b := Le33(d);
      bytes := bytes + b;
      q := StepPoint(c, q, d, q.x);
      i := i + 1;
      assert Produced(g, i, base, k) == Produce(c, before);
    }
    ReduceIsMod(c, -g.h.y);
    var l := Divide(c, Reduce(c, -g.h.y) - r.y, g.h.x - r.x);
    var out := StepPoint(c, r, l, g.h.x);
    if out.x == g.h.x {
      return None;
    }
    var f := Divide(c, g.h.y - out.y, g.h.x - out.x);
    var b := Le33(f);
    return Some(bytes + b);
  }

  // ----- the checker accepts what the producer returns -----

  function LocalsOf(s: Progress): Locals
    requires s.q.Affine? && s.r.Affine?
  {
    Locals(s.q.x, s.q.y, s.r.x, s.r.y, s.rest)
  }

  /** The quotient passes the checker's congruence. */
  lemma QuotientPasses(c: Params, rise: int, run: int)
    requires IsPrime(c.field) && run % c.field != 0
    ensures Rem(c, Quotient(c, rise, run) * run - rise) == 0
  {
    hide Modular.IsPrime;
    var q := Quotient(c, rise, run);
    QuotientTimes(c, rise, run);
    CongRefl(rise, c.field);
    CongAdd(q * run, rise, rise, rise, c.field);
    CongZero(q * run - rise, c.field);
    RemIsZero(c, q * run - rise);
  }

  lemma AllowedIntro(c: Params, s: Locals, la: int, ld: int)
    requires s.rest % 2 == 1 ==> s.qx != s.rx && Rem(c, la * (s.qx - s.rx) - (s.qy - s.ry)) == 0
    requires Rem(c, ld * (2 * s.qy) - 3 * s.qx * s.qx) == 0
    ensures StepAllowed(c, s, la, ld)
  {
    assert ld * 2 * s.qy == ld * (2 * s.qy);
    if s.rest % 2 == 0 {
      ModSmall(0, c.field);
    }
  }

  lemma HonestSlopes(c: Params, s: Progress, la: int, ld: int)
    requires GroupLaw(c) && s.q.Affine? && s.r.Affine? && OnCurve(c, s.q) && OnCurve(c, s.r)
    requires s.rest % 2 == 1 ==> s.r.x != s.q.x && la == ChordSlope(c, s.r, s.q)
    requires ld == TangentSlope(c, s.q)
    ensures StepAllowed(c, LocalsOf(s), la, ld)
  {
    hide Rem, StepAllowed, Curve.Quotient, Curve.GroupLaw;
    PrimeField(c);
    NoVerticalTangent(c, s.q);
    DoubleNonzero(c, s.q.y);
    QuotientPasses(c, 3 * s.q.x * s.q.x, 2 * s.q.y);
    if s.rest % 2 == 1 {
      DifferenceNonzero(c, s.q.x, s.r.x);
      QuotientPasses(c, s.q.y - s.r.y, s.q.x - s.r.x);
    }
    AllowedIntro(c, LocalsOf(s), la, ld);
  }

  lemma HonestStep(c: Params, s: Progress, la: int, ld: int)
    requires GroupLaw(c) && s.q.Affine? && s.r.Affine? && OnCurve(c, s.q) && OnCurve(c, s.r)
    requires Produce(c, s).Some? && ld == TangentSlope(c, s.q)
    requires la == if s.rest % 2 == 1 then ChordSlope(c, s.r, s.q) else 0
    ensures Checked(c, LocalsOf(s), la, ld) == Some(LocalsOf(Produce(c, s).value))
  {
    hide StepAllowed, StepNext, Curve.Quotient, Curve.GroupLaw, Curve.OnCurve, Curve.ThroughSlope, ToLittleEndian;
    var z := LocalsOf(s);
    HonestSlopes(c, s, la, ld);
    ModSmall(ld, c.field);
    DoublingStep(c, z, la, ld);
    if s.rest % 2 == 1 {
      ModSmall(la, c.field);
      CountedStep(c, z, la, ld);
    } else {
      UncountedStep(c, z, la, ld);
    }
    RestHalves(c, z, la, ld);
  }

  lemma RestHalves(c: Params, s: Locals, la: int, ld: int)
    ensures StepNext(c, s, la, ld).rest == s.rest / 2
  {
  }

  /** A slope below the field size is read back from its 33 bytes. */
  lemma SlopeReadBack(g: Setting, l: nat, w: seq<byte>, at: nat)
    requires g.curve.field <= Pow2(STEPS) && l < g.curve.field && at + SLOPE_BYTES <= |w|
    requires w[at..at + SLOPE_BYTES] == ToLittleEndian(l, SLOPE_BYTES)
    ensures Slope(w, at) == l
  {
    Pow2Monotone(STEPS, 8 * SLOPE_BYTES - 1);
    Bin2NumOfNum2Bin(l, SLOPE_BYTES);
  }

  ghost predicate Ready(g: Setting, base: Point, k: int) {
    Sound(g) && base.Affine? && OnCurve(g.curve, base) && 0 < k < g.curve.order
  }

  /** The add and double slopes produced in one iteration. */
  lemma PairReadBack(g: Setting, s: Progress, w: seq<byte>)
    requires s.q.Affine? && s.r.Affine? && g.curve.field <= Pow2(STEPS)
    requires Produce(g.curve, s).Some? && Produce(g.curve, s).value.w <= w
    ensures |s.w| + STEP_BYTES <= |w| && s.w <= w
    ensures Slope(w, |s.w|) == if s.rest % 2 == 1 then ChordSlope(g.curve, s.r, s.q) else 0
    ensures Slope(w, |s.w| + SLOPE_BYTES) == TangentSlope(g.curve, s.q)
  {
    hide Curve.Quotient, Curve.ThroughSlope, ToLittleEndian, Bin2Num, Pow2, Slope;
    var n := |s.w|;
    var la := if s.rest % 2 == 1 then ChordSlope(g.curve, s.r, s.q) else 0;
    var ld := TangentSlope(g.curve, s.q);
    var t := Produce(g.curve, s).value.w;
    assert t == s.w + ToLittleEndian(la, SLOPE_BYTES) + ToLittleEndian(ld, SLOPE_BYTES);
    assert w[..|t|] == t;
    assert w[n..n + SLOPE_BYTES] == t[n..n + SLOPE_BYTES] == ToLittleEndian(la, SLOPE_BYTES);
    assert w[n + SLOPE_BYTES..n + STEP_BYTES] == t[n + SLOPE_BYTES..] == ToLittleEndian(ld, SLOPE_BYTES);
    SlopeReadBack(g, la, w, n);
    SlopeReadBack(g, ld, w, n + SLOPE_BYTES);
  }

  lemma {:induction false} CheckerFollows(g: Setting, i: nat, base: Point, k: int, w: seq<byte>)
    requires Ready(g, base, k) && i <= STEPS && |w| == WITNESS_BYTES
    requires Produced(g, i, base, k).Some? && Produced(g, i, base, k).value.w <= w
    ensures After(g, i, base, k, w) == Some(LocalsOf(Produced(g, i, base, k).value))
  {
    hide Produce, Checked, Sound, Slope;
    SoundParts(g);
    if i > 0 {
      var s := Produced(g, i - 1, base, k).value;
      PairReadBack(g, s, w);
      CheckerFollows(g, i - 1, base, k, w);
      StepsKeep(g, i - 1, base, k, w);
      assert |s.w| == (i - 1) * STEP_BYTES;
      HonestStep(g.curve, s, Slope(w, |s.w|), Slope(w, |s.w| + SLOPE_BYTES));
    }
  }

  lemma SoundParts(g: Setting)
    requires Sound(g)
    ensures GroupLaw(g.curve) && g.curve.field <= Pow2(STEPS) && IsPrime(g.curve.field)
    ensures g.h.Affine? && OnCurve(g.curve, g.h) && g.h.x != 0
  {
  }

  lemma ProducedInvariant(g: Setting, i: nat, base: Point, k: int)
    requires Ready(g, base, k) && i <= STEPS && Produced(g, i, base, k).Some?
    ensures var s := Produced(g, i, base, k).value; StepInvariant(g, i, s.q, s.r, s.rest, base, k)
  {
    hide Produced, Sound, StepInvariant;
    SoundParts(g);
    var s := Produced(g, i, base, k).value;
    var w := s.w + seq(WITNESS_BYTES - |s.w|, _ => 0);
    CheckerFollows(g, i, base, k, w);
    StepsKeep(g, i, base, k, w);
  }

  // ----- the closing slope -----

  lemma SameX(c: Params, p: Point, q: Point)
    requires IsPrime(c.field) && OnCurve(c, p) && OnCurve(c, q) && p.Affine? && q.Affine? && p.x == q.x
    ensures p == q || p == Neg(c, q)
  {
    hide Modular.IsPrime;
    NegSquare(c, q.y);
    SameSquare(p.y, q.y, c.field);
  }

  /** A prime divides a² - b² only through one of its factors. */
  lemma SameSquare(a: int, b: int, p: int)
    requires IsPrime(p) && 0 <= a < p && 0 <= b < p && (a * a) % p == (b * b) % p
    ensures a == b || a == (-b) % p
  {
    hide Modular.IsPrime;
    SquareDifference(a, b, p);
    PrimeProduct(a - b, a + b, p);
    if (a - b) % p == 0 { SameResidue(a, b, p); } else { OppositeResidue(a, b, p); }
  }

  lemma SquareDifference(a: int, b: int, p: int)
    requires p > 0 && (a * a) % p == (b * b) % p
    ensures ((a - b) * (a + b)) % p == 0
  {
    CongIffMod(a * a, b * b, p);
    CongRefl(b * b, p);
    CongAdd(a * a, b * b, b * b, b * b, p);
    assert a * a - b * b == (a - b) * (a + b);
    CongZero((a - b) * (a + b), p);
  }

  lemma SameResidue(a: int, b: int, p: int)
    requires 0 <= a < p && 0 <= b < p && (a - b) % p == 0
    ensures a == b
  {
    CongZero(a - b, p);
    CongRefl(b, p);
    CongAdd(a - b, 0, b, b, p);
    CongEq(a, b, p);
  }

  lemma OppositeResidue(a: int, b: int, p: int)
    requires 0 <= a < p && (a + b) % p == 0
    ensures a == (-b) % p
  {
    CongZero(a + b, p);
    CongRefl(b, p);
    CongAdd(a + b, 0, b, b, p);
    CongIffMod(a, -b, p);
    ModSmall(a, p);
  }

  /** Away from the offset's x, the producer's closing chord is a true subtraction of H. */
  lemma ClaimedIsDifference(g: Setting, r: Point, product: Point)
    requires Sound(g) && r.Affine? && OnCurve(g.curve, r) && OnCurve(g.curve, product)
    requires r == Add(g.curve, g.h, product) && r.x != g.h.x
    ensures Claimed(g, r) == product
  {
    hide Curve.Quotient, Curve.ThroughSlope, Curve.OnCurve, Curve.GroupLaw;
    AddClosed(g.curve, g.h, product);
    AddThenSubtract(g.curve, product, g.h);
  }

  lemma ClosingAccepted(g: Setting, s: Locals, out: Point)
    requires Sound(g) && out.Affine? && OnCurve(g.curve, out) && out.x != g.h.x
    requires ROf(s) == Add(g.curve, out, g.h)
    ensures FinalAllowed(g, s, out, ChordSlope(g.curve, out, g.h))
  {
    var lf := ChordSlope(g.curve, out, g.h);
    FinalIntro(g, s, out, lf);
  }

  lemma FinalIntro(g: Setting, s: Locals, out: Point, lf: int)
    requires Sound(g) && out.Affine? && OnCurve(g.curve, out) && out.x != g.h.x
    requires lf == ChordSlope(g.curve, out, g.h)
    requires ROf(s) == ThroughSlope(g.curve, out, lf, g.h.x)
    ensures FinalAllowed(g, s, out, lf)
  {
    hide Curve.Quotient, Curve.ThroughSlope, Rem, Reduce, Curve.GroupLaw;
    var c := g.curve;
    PrimeField(c);
    DifferenceNonzero(c, g.h.x, out.x);
    QuotientPasses(c, g.h.y - out.y, g.h.x - out.x);
    ReducedPoint(c, out, lf, g.h.x);
    ModSmall(lf, c.field);
  }

  // ----- the degenerate case: k*base = -2H -----

  lemma QuotientOfZero(c: Params, b: int)
    ensures Quotient(c, 0, b) == 0
  {
    ModSmall(0, c.field);
  }

  /** When the accumulator is -H the producer's last slope is 0. */
  lemma DegenerateSlope(g: Setting, r: Point)
    requires Sound(g) && r == Neg(g.curve, g.h)
    ensures Claimed(g, r).y == g.h.y
    ensures ChordSlope(g.curve, Claimed(g, r), g.h) == 0
  {
    hide Curve.Quotient, Curve.GroupLaw;
    var c := g.curve;
    QuotientOfZero(c, g.h.x - r.x);
    var out := Claimed(g, r);
    assert out.y == (-r.y) % c.field;
    NegSquare(c, g.h.y);
    NegSquare(c, r.y);
    QuotientOfZero(c, g.h.x - out.x);
  }

  lemma CubeOfMinusTwice(x: int, y: int, p: int)
    requires p > 0 && Cong(y, -2 * x, p)
    ensures Cong(y * y * y, -8 * (x * x * x), p)
  {
    var m := -2 * x;
    CongMul(y, m, y, m, p);
    CongMul(y * y, m * m, y, m, p);
    assert m * m * m == -8 * (x * x * x);
  }

  lemma NineNotZero(p: int)
    requires IsPrime(p) && p > 3
    ensures 9 % p != 0
  {
    assert !Undivided(9, 3);
    if p < 9 {
      assert p == 4 || p == 5 || p == 6 || p == 7 || p == 8;
    } else if p > 9 {
      ModSmall(9, p);
    }
  }

  lemma CubeNotZero(x: int, p: int)
    requires IsPrime(p) && 0 < x < p
    ensures (x * x * x) % p != 0
  {
    hide IsPrime;
    ModSmall(x, p);
    if (x * x * x) % p == 0 {
      PrimeProduct(x * x, x, p);
      PrimeProduct(x, x, p);
    }
  }

  /** No curve point has the offset's y at minus twice its x. */
  lemma NoHorizontalTangent(c: Params, x: int, x': int, y: int)
    requires IsPrime(c.field) && 0 < x < c.field && Cong(x', -2 * x, c.field) && OnCurve(c, Affine(x, y))
    ensures !OnCurve(c, Affine(x', y))
  {
    hide Modular.IsPrime;
    var p := c.field;
    var u, v := x * x * x, x' * x' * x';
    NineNotZero(p);
    CubeNotZero(x, p);
    if OnCurve(c, Affine(x', y)) {
      CongIffMod(v + 7, u + 7, p);
      CongRefl(7, p);
      CongAdd(v + 7, u + 7, 7, 7, p);
      CubeOfMinusTwice(x, x', p);
      CongSym(v, u, p);
      CongTrans(u, v, -8 * u, p);
      CongRefl(8 * u, p);
      CongAdd(u, -8 * u, 8 * u, 8 * u, p);
      CongZero(9 * u, p);
      PrimeProduct(9, u, p);
    }
  }

  lemma DegenerateRefused(g: Setting, s: Locals, out: Point)
    requires Sound(g) && out.Affine? && ROf(s) == Neg(g.curve, g.h)
    ensures !FinalAllowed(g, s, out, 0)
  {
    if FinalAllowed(g, s, out, 0) {
      DegenerateCoordinates(g, s, out);
      SoundParts(g);
      NoHorizontalTangent(g.curve, g.h.x, out.x, g.h.y);
    }
  }

  lemma DegenerateCoordinates(g: Setting, s: Locals, out: Point)
    requires Sound(g) && out.Affine? && ROf(s) == Neg(g.curve, g.h) && FinalAllowed(g, s, out, 0)
    ensures out.y == g.h.y && Cong(out.x, -2 * g.h.x, g.curve.field) && OnCurve(g.curve, out)
  {
    hide Curve.GroupLaw;
    var p: int := g.curve.field;
    var hx, ox := g.h.x, out.x;
    assert 0 * (hx - ox) == 0;
    RemIsZero(g.curve, -(g.h.y - out.y));
    CongZero(out.y - g.h.y, p);
    CongRefl(g.h.y, p);
    CongAdd(out.y - g.h.y, 0, g.h.y, g.h.y, p);
    CongEq(out.y, g.h.y, p);
    ReduceIsMod(g.curve, 0 - ox - hx);
    CongMod(0 - ox - hx, p);
    assert Cong(0 - ox - hx, hx, p);
    CongRefl(ox - hx, p);
    CongAdd(0 - ox - hx, hx, ox - hx, ox - hx, p);
    CongSym(-2 * hx, ox, p);
  }

  // ----- the producer against the checker, for every input -----

  lemma FinalAccumulator(g: Setting, base: Point, k: int)
    requires Ready(g, base, k) && Produced(g, STEPS, base, k).Some?
    ensures var r := Produced(g, STEPS, base, k).value.r;
            OnCurve(g.curve, r) && r == Add(g.curve, g.h, Mul(g.curve, k, base))
    ensures Mul(g.curve, k, base).Affine? && OnCurve(g.curve, Mul(g.curve, k, base))
  {
    ProducedInvariant(g, STEPS, base, k);
    ModSmall(k, Pow2(STEPS));
    MulOnCurve(g.curve, k, base);
    MulNonzero(g.curve, k, base);
  }

  /** The accumulator shares the offset's x exactly in the degenerate case. */
  lemma DegenerateIff(g: Setting, product: Point, r: Point)
    requires Sound(g) && product.Affine? && OnCurve(g.curve, product)
    requires r.Affine? && OnCurve(g.curve, r) && r == Add(g.curve, g.h, product)
    ensures r.x == g.h.x <==> product == Neg(g.curve, Add(g.curve, g.h, g.h))
    ensures r.x == g.h.x ==> r == Neg(g.curve, g.h)
  {
    hide Curve.Add, Curve.GroupLaw, Curve.Neg, Curve.OnCurve;
    var c := g.curve;
    SoundParts(g);
    AddClosed(c, g.h, g.h);
    AddClosed(c, g.h, product);
    NegOnCurve(c, g.h);
    NegOnCurve(c, Add(c, g.h, g.h));
    DoubleThenHalve(g);
    if product == Neg(c, Add(c, g.h, g.h)) {
      assert r == Neg(c, g.h);
      NegKeepsX(c, g.h);
    }
    if r.x == g.h.x {
      SameX(c, r, g.h);
      if r == g.h {
        IdentitySum(c, g.h);
        AddClosed(c, g.h, Infinity);
        Cancel(c, product, Infinity, g.h);
      }
      Cancel(c, product, Neg(c, Add(c, g.h, g.h)), g.h);
    }
  }

  lemma NegKeepsX(c: Params, p: Point)
    requires p.Affine?
    ensures Neg(c, p).Affine? && Neg(c, p).x == p.x
  {
  }

  lemma IdentitySum(c: Params, p: Point)
    ensures Add(c, p, Infinity) == p == Add(c, Infinity, p)
    ensures OnCurve(c, Infinity)
  {
  }

  /** -2H + H == -H. */
  lemma DoubleThenHalve(g: Setting)
    requires Sound(g)
    ensures var m := Neg(g.curve, Add(g.curve, g.h, g.h));
            OnCurve(g.curve, m) && Add(g.curve, m, g.h) == Neg(g.curve, g.h) == Add(g.curve, g.h, m)
  {
    hide Curve.Add, Curve.GroupLaw, Curve.Neg, Curve.OnCurve;
    var c := g.curve;
    SoundParts(g);
    var d := Add(c, g.h, g.h);
    AddClosed(c, g.h, g.h);
    NegOnCurve(c, d);
    NegOnCurve(c, g.h);
    var m := Neg(c, d);
    AddClosed(c, m, g.h);
    AddClosed(c, d, m);
    // (-2H + H) + H == -2H + 2H == infinity == -H + H
    AddAssociative(c, m, g.h, g.h);
    AddClosed(c, m, d);
    AddClosed(c, g.h, Neg(c, g.h));
    Cancel(c, Add(c, m, g.h), Neg(c, g.h), g.h);
    AddClosed(c, g.h, m);
  }

  /** A witness for the true product exists and is accepted, unless the product is -2H. */
  lemma ReturnedWitness(g: Setting, base: Point, k: int)
    requires Ready(g, base, k) && WitnessOf(g, base, k).Some?
    ensures Mul(g.curve, k, base).Affine?
    ensures var w := WitnessOf(g, base, k).value;
            && |w| == WITNESS_BYTES
            && (Accepts(g, base, k, Mul(g.curve, k, base), w)
                <==> Mul(g.curve, k, base) != Neg(g.curve, Add(g.curve, g.h, g.h)))
  {
    hide Curve.Add, Curve.GroupLaw, Curve.Neg, Curve.OnCurve, Curve.Quotient, FinalAllowed, Sound, Claimed, Produced, ToLittleEndian, After, Slope;
    SoundParts(g);
    var c := g.curve;
    var s := Produced(g, STEPS, base, k).value;
    var product := Mul(c, k, base);
    var w := WitnessOf(g, base, k).value;
    FinalAccumulator(g, base, k);
    DegenerateIff(g, product, s.r);
    CheckerFollows(g, STEPS, base, k, w);
    var lf := ChordSlope(c, Claimed(g, s.r), g.h);
    assert w[STEPS * STEP_BYTES..STEPS * STEP_BYTES + SLOPE_BYTES] == ToLittleEndian(lf, SLOPE_BYTES);
    SlopeReadBack(g, lf, w, STEPS * STEP_BYTES);
    if s.r.x == g.h.x {
      DegenerateSlope(g, s.r);
      DegenerateRefused(g, LocalsOf(s), product);
    } else {
      ClaimedIsDifference(g, s.r, product);
      AddClosed(c, g.h, product);
      ClosingAccepted(g, LocalsOf(s), product);
    }
  }

  /** Wherever the producer stops, every checker run stops too. */
  lemma {:induction false} StopsTogether(g: Setting, i: nat, base: Point, k: int, w: seq<byte>)
    requires Ready(g, base, k) && i <= STEPS && |w| == WITNESS_BYTES && Produced(g, i, base, k).None?
    ensures After(g, i, base, k, w).None?
  {
    hide Checked, Slope, Sound, Produce;
    SoundParts(g);
    if Produced(g, i - 1, base, k).None? {
      StopsTogether(g, i - 1, base, k, w);
    } else if After(g, i - 1, base, k, w).Some? {
      var s, z := Produced(g, i - 1, base, k).value, After(g, i - 1, base, k, w).value;
      SameProgress(g, i - 1, base, k, w);
      StoppedProduce(g.curve, s);
      StuckStep(g.curve, z, Slope(w, (i - 1) * STEP_BYTES), Slope(w, (i - 1) * STEP_BYTES + SLOPE_BYTES));
    }
  }

  /** As long as both run, the producer and the checker are at the same points. */
  lemma SameProgress(g: Setting, i: nat, base: Point, k: int, w: seq<byte>)
    requires Ready(g, base, k) && i <= STEPS && |w| == WITNESS_BYTES
    requires g.h.Affine? && Produced(g, i, base, k).Some? && After(g, i, base, k, w).Some?
    ensures var s, z := Produced(g, i, base, k).value, After(g, i, base, k, w).value;
            QOf(z) == s.q && ROf(z) == s.r && z.rest == s.rest
  {
    hide Produced, After, Sound, Curve.Add, Curve.GroupLaw, Curve.OnCurve;
    ProducedInvariant(g, i, base, k);
    StepsKeep(g, i, base, k, w);
  }

  lemma StoppedProduce(c: Params, s: Progress)
    requires s.q.Affine? && s.r.Affine? && Produce(c, s).None?
    ensures s.rest % 2 == 1 && s.r.x == s.q.x
  {
    hide Curve.Quotient, Curve.ThroughSlope, ToLittleEndian;
  }

  lemma StuckStep(c: Params, s: Locals, la: int, ld: int)
    requires s.rest % 2 == 1 && s.qx == s.rx
    ensures Checked(c, s, la, ld).None?
  {
  }

  /** When the producer refuses, no witness exists for any claimed product. */
  lemma RefusedMeansNone(g: Setting, base: Point, k: int, out: Point, w: seq<byte>)
    requires Sound(g) && base.Affine? && OnCurve(g.curve, base) && out.Affine?
    requires WitnessOf(g, base, k).None?
    ensures !Accepts(g, base, k, out, w)
  {
    hide Curve.Add, Curve.GroupLaw, Curve.Neg, Curve.Quotient, Sound, Claimed, Produced, ToLittleEndian, After, Slope, Produce;
    SoundParts(g);
    if Accepts(g, base, k, out, w) {
      if Produced(g, STEPS, base, k).None? {
        StopsTogether(g, STEPS, base, k, w);
      } else {
        var s := Produced(g, STEPS, base, k).value;
        CheckerSound(g, base, k, out, w);
        FinalAccumulator(g, base, k);
        DegenerateIff(g, out, s.r);
        if s.r.x == g.h.x {
          DegenerateNotRefused(g, s.r);
        } else {
          ClaimedIsDifference(g, s.r, out);
        }
      }
    }
  }

  /** In the degenerate case the producer does return: its claimed x is -2 times the offset's. */
  lemma DegenerateNotRefused(g: Setting, r: Point)
    requires Sound(g) && r == Neg(g.curve, g.h)
    ensures Claimed(g, r).x != g.h.x
  {
    hide Curve.GroupLaw, Curve.Quotient;
    SoundParts(g);
    DegenerateSlope(g, r);
    var c := g.curve;
    var p: int := c.field;
    QuotientOfZero(c, g.h.x - r.x);
    var x := Claimed(g, r).x;
    assert x == (0 - g.h.x - g.h.x) % p;
    CongMod(0 - g.h.x - g.h.x, p);
    if x == g.h.x {
      CongRefl(g.h.x, p);
      assert Cong(g.h.x, 0 - g.h.x - g.h.x, p);
      NoHorizontalTangent(c, g.h.x, g.h.x, g.h.y);
    }
  }

  // ----- the one product the producer gets wrong -----

  /** -2H is a finite point off the offset's x. */
  lemma MinusTwoH(g: Setting)
    requires Sound(g)
    ensures var m := Neg(g.curve, Add(g.curve, g.h, g.h)); m.Affine? && OnCurve(g.curve, m) && m.x != g.h.x
  {
    hide Curve.Add, Curve.GroupLaw, Curve.OnCurve, Curve.Mul;
    var c := g.curve;
    SoundParts(g);
    var d := Add(c, g.h, g.h);
    var m := Neg(c, d);
    AddClosed(c, g.h, g.h);
    NegOnCurve(c, g.h);
    DoubleThenHalve(g);
    MulTwo(c, g.h);
    MulNonzero(c, 2, g.h);
    TripleNonzero(g);
    AddClosed(c, Neg(c, g.h), g.h);
    if m.x == g.h.x { SameX(c, m, g.h); }
  }

  lemma TripleNonzero(g: Setting)
    requires Sound(g)
    ensures Add(g.curve, g.h, g.h) != Neg(g.curve, g.h)
  {
    hide Curve.Add, Curve.GroupLaw, Curve.OnCurve, Curve.Neg;
    var c := g.curve;
    SoundParts(g);
    NegOnCurve(c, g.h);
    MulTwo(c, g.h);
    MulNonzero(c, 3, g.h);
    assert Mul(c, 3, g.h) == Add(c, Mul(c, 2, g.h), g.h);
    AddClosed(c, g.h, Neg(c, g.h));
  }

  /** The producer's bytes with the closing slope of the true product. */
  function Corrected(g: Setting, base: Point, k: int): seq<byte>
    requires base.Affine? && g.h.Affine? && k >= 0 && Produced(g, STEPS, base, k).Some? && Mul(g.curve, k, base).Affine?
  {
    Produced(g, STEPS, base, k).value.w + ToLittleEndian(ChordSlope(g.curve, Mul(g.curve, k, base), g.h), SLOPE_BYTES)
  }

  /** Wherever the producer's loop runs through and the product is not on the offset's x, they are accepted. */
  lemma CorrectedAccepted(g: Setting, base: Point, k: int)
    requires Ready(g, base, k) && Produced(g, STEPS, base, k).Some?
    requires Mul(g.curve, k, base).Affine? && Mul(g.curve, k, base).x != g.h.x
    ensures |Corrected(g, base, k)| == WITNESS_BYTES && Accepts(g, base, k, Mul(g.curve, k, base), Corrected(g, base, k))
  {
    hide Curve.Add, Curve.GroupLaw, Curve.Neg, Curve.OnCurve, Curve.Quotient, FinalAllowed, Sound, Produced, ToLittleEndian, After, Slope;
    SoundParts(g);
    var c := g.curve;
    var s, product, w := Produced(g, STEPS, base, k).value, Mul(c, k, base), Corrected(g, base, k);
    FinalAccumulator(g, base, k);
    CheckerFollows(g, STEPS, base, k, w);
    var lf := ChordSlope(c, product, g.h);
    assert w[STEPS * STEP_BYTES..STEPS * STEP_BYTES + SLOPE_BYTES] == ToLittleEndian(lf, SLOPE_BYTES);
    SlopeReadBack(g, lf, w, STEPS * STEP_BYTES);
    AddClosed(c, g.h, product);
    ClosingAccepted(g, LocalsOf(s), product);
  }

  /** A product can be proved to the checker if and only if the producer returns. */
  lemma ProvableExactly(g: Setting, base: Point, k: int)
    requires Ready(g, base, k) && g.h.Affine?
    ensures Provable(g, base, k) <==> WitnessOf(g, base, k).Some?
  {
    hide Curve.Add, Curve.GroupLaw, Curve.Neg, Curve.OnCurve, Curve.Quotient, Accepts, Claimed, Produced, ToLittleEndian;
    SoundParts(g);
    if WitnessOf(g, base, k).Some? {
      var c, s := g.curve, Produced(g, STEPS, base, k).value;
      FinalAccumulator(g, base, k);
      DegenerateIff(g, Mul(c, k, base), s.r);
      if s.r.x == g.h.x { MinusTwoH(g); } else { ClaimedIsDifference(g, s.r, Mul(c, k, base)); }
      CorrectedAccepted(g, base, k);
    } else if Provable(g, base, k) {
      var w :| Accepts(g, base, k, Mul(g.curve, k, base), w);
      RefusedMeansNone(g, base, k, Mul(g.curve, k, base), w);
    }
  }

  /** With nothing left of the scalar the loop always runs through. */
  lemma {:induction false} RunsThrough(g: Setting, base: Point, i: nat)
    requires base.Affine? && g.h.Affine? && base.x != g.h.x && 1 <= i
    ensures Produced(g, i, base, 1).Some? && Produced(g, i, base, 1).value.rest == 0
  {
    hide Curve.Quotient, Curve.ThroughSlope, ToLittleEndian;
    if i == 1 {
      assert Produced(g, 0, base, 1) == Some(Progress(base, g.h, 1, []));
    } else {
      RunsThrough(g, base, i - 1);
    }
  }

  /** The producer is incomplete: for the product 1 · (-2H) it returns a witness that is not accepted,
      although another one is. */
  lemma ReturnedButRefused(g: Setting)
    requires Sound(g)
    ensures var base := Neg(g.curve, Add(g.curve, g.h, g.h));
            && base.Affine? && Mul(g.curve, 1, base) == base && WitnessOf(g, base, 1).Some?
            && !Accepts(g, base, 1, base, WitnessOf(g, base, 1).value)
            && exists w :: Accepts(g, base, 1, base, w)
  {
    hide Curve.Add, Curve.GroupLaw, Curve.Neg, Curve.OnCurve, Curve.Quotient, Accepts, Claimed, Produced, ToLittleEndian;
    SoundParts(g);
    var c := g.curve;
    var base := Neg(c, Add(c, g.h, g.h));
    MinusTwoH(g);
    MulTwo(c, base);
    RunsThrough(g, base, STEPS);
    FinalAccumulator(g, base, 1);
    var s := Produced(g, STEPS, base, 1).value;
    DegenerateIff(g, base, s.r);
    DegenerateNotRefused(g, s.r);
    ReturnedWitness(g, base, 1);
    ProvableExactly(g, base, 1);
  }
}
