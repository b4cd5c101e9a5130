/**
 The on-chain multiplication checker: 256 steps of right-to-left double-and-add whose slopes the
 spender supplies, started from a fixed offset point so that no step meets infinity.

 The curve and the offset point are parameters here; `Secp256k1` supplies the contract's constants.
 */
module EcMulCheck {
  import opened Modular
  import opened Curve
  import opened ScriptBytes
  import opened Options

  const STEPS: nat := 256
  const STEP_BYTES: nat := 66
  const SLOPE_BYTES: nat := 33
  const WITNESS_BYTES: nat := 16929

  /** The curve and the offset point the accumulator starts from. */
  datatype Setting = Setting(curve: Params, h: Point)

  ghost predicate Sound(g: Setting) {
    && GroupLaw(g.curve) && g.curve.order <= Pow2(STEPS) && g.curve.field <= Pow2(STEPS)
    && g.h.Affine? && OnCurve(g.curve, g.h) && g.h.x != 0
  }

  /** Script's remainder truncates toward zero. */
  function Rem(c: Params, a: int): int {
    if a >= 0 then a % c.field else -((-a) % c.field)
  }

  function Reduce(c: Params, a: int): int {
    Rem(c, Rem(c, a) + c.field)
  }

  /** The checker's mutable locals between iterations. */
  datatype Locals = Locals(qx: int, qy: int, rx: int, ry: int, rest: int)

  function Slope(w: seq<byte>, at: nat): int
    requires at + SLOPE_BYTES <= |w|
  {
    Bin2Num(w[at..at + SLOPE_BYTES])
  }

  predicate StepAllowed(c: Params, s: Locals, la: int, ld: int) {
    var bit := s.rest % 2;
    && (s.qx - s.rx) * bit + (1 - bit) != 0
    && Rem(c, (la * (s.qx - s.rx) - (s.qy - s.ry)) * bit) == 0
    && Rem(c, ld * 2 * s.qy - 3 * s.qx * s.qx) == 0
  }

  function StepNext(c: Params, s: Locals, la: int, ld: int): Locals {
    var bit := s.rest % 2;
    var ax := Reduce(c, la * la - s.rx - s.qx);
    var ay := Reduce(c, la * (s.rx - ax) - s.ry);
    var dx := Reduce(c, ld * ld - 2 * s.qx);
    var dy := Reduce(c, ld * (s.qx - dx) - s.qy);
    Locals(dx, dy, s.rx + bit * (ax - s.rx), s.ry + bit * (ay - s.ry), s.rest / 2)
  }

  /** The locals after i iterations, or None once an assertion has failed. */
  function After(g: Setting, i: nat, base: Point, k: int, w: seq<byte>): Option<Locals>
    requires base.Affine? && g.h.Affine? && |w| == WITNESS_BYTES && i <= STEPS
  {
    if i == 0 then Some(Locals(base.x, base.y, g.h.x, g.h.y, k))
    else
      match After(g, i - 1, base, k, w)
      case None => None
      case Some(s) => Checked(g.curve, s, Slope(w, (i - 1) * STEP_BYTES), Slope(w, (i - 1) * STEP_BYTES + SLOPE_BYTES))
  }

  function Checked(c: Params, s: Locals, la: int, ld: int): Option<Locals> {
    if StepAllowed(c, s, la, ld) then Some(StepNext(c, s, la, ld)) else None
  }

  /** The closing check that out + H is the accumulator. */
  predicate FinalAllowed(g: Setting, s: Locals, out: Point, lf: int)
    requires out.Affine? && g.h.Affine?
  {
    var fx := Reduce(g.curve, lf * lf - out.x - g.h.x);
    var fy := Reduce(g.curve, lf * (out.x - fx) - out.y);
    && OnCurve(g.curve, out) && out.x != g.h.x
    && Rem(g.curve, lf * (g.h.x - out.x) - (g.h.y - out.y)) == 0
    && fx == s.rx && fy == s.ry
  }

  predicate Accepts(g: Setting, base: Point, k: int, out: Point, w: seq<byte>)
    requires base.Affine? && out.Affine? && g.h.Affine?
  {
    && OnCurve(g.curve, base) && 0 < k < g.curve.order && |w| == WITNESS_BYTES
    && var end := After(g, STEPS, base, k, w);
       end.Some? && FinalAllowed(g, end.value, out, Slope(w, STEPS * STEP_BYTES))
  }

  /** Some witness makes the checker accept the true product. */
  ghost predicate Provable(g: Setting, base: Point, k: int)
    requires base.Affine? && g.h.Affine? && k >= 0
  {
    Mul(g.curve, k, base).Affine? && exists w :: Accepts(g, base, k, Mul(g.curve, k, base), w)
  }

  lemma {:induction false} FailureSticks(g: Setting, i: nat, j: nat, base: Point, k: int, w: seq<byte>)
    requires base.Affine? && g.h.Affine? && |w| == WITNESS_BYTES && i <= j <= STEPS
    requires After(g, i, base, k, w).None?
    ensures After(g, j, base, k, w).None?
  {
    if i < j { FailureSticks(g, i, j - 1, base, k, w); }
  }

  /** The body of the loop: one counted addition and one doubling. */
  method Step(c: Params, s: Locals, la: int, ld: int) returns (r: Option<Locals>)
    ensures r == Checked(c, s, la, ld)
  {
    var Locals(qx, qy, rx, ry, rest) := s;
    var bit := rest % 2;
    rest := rest / 2;
    if (qx - rx) * bit + (1 - bit) == 0 || Rem(c, (la * (qx - rx) - (qy - ry)) * bit) != 0 {
      return None;
    }
    var ax := Reduce(c, la * la - rx - qx);
    var ay := Reduce(c, la * (rx - ax) - ry);
    rx := rx + bit * (ax - rx);
    ry := ry + bit * (ay - ry);
    if Rem(c, ld * 2 * qy - 3 * qx * qx) != 0 {
      return None;
    }
    var dx := Reduce(c, ld * ld - 2 * qx);
    qy := Reduce(c, ld * (qx - dx) - qy);
    qx := dx;
    return Some(Locals(qx, qy, rx, ry, rest));
  }

  method CloseOut(g: Setting, s: Locals, out: Point, lf: int) returns (allowed: bool)
    requires out.Affine? && g.h.Affine?
    ensures allowed == FinalAllowed(g, s, out, lf)
  {
    if !OnCurve(g.curve, out) || out.x == g.h.x {
      return false;
    }
    if Rem(g.curve, lf * (g.h.x - out.x) - (g.h.y - out.y)) != 0 {
      return false;
    }
    var fx := Reduce(g.curve, lf * lf - out.x - g.h.x);
    var fy := Reduce(g.curve, lf * (out.x - fx) - out.y);
    return fx == s.rx && fy == s.ry;
  }

  /** The contract method. A failed assertion refuses the spend. */
  method Verify(g: Setting, base: Point, k: int, out: Point, w: seq<byte>) returns (accepted: bool)
    requires base.Affine? && out.Affine? && g.h.Affine?
    ensures accepted == Accepts(g, base, k, out, w)
    ensures accepted && Sound(g) ==> out == Mul(g.curve, k, base)
  {
    hide Checked, FinalAllowed, Curve.OnCurve, ScriptBytes.Bin2Num;
    if !OnCurve(g.curve, base) || k <= 0 || k >= g.curve.order || |w| != WITNESS_BYTES {
      return false;
    }
    var s := Locals(base.x, base.y, g.h.x, g.h.y, k);
    var i := 0;
    while i < STEPS
      invariant 0 <= i <= STEPS
      invariant After(g, i, base, k, w) == Some(s)
    {
      var r := Step(g.curve, s, Slope(w, i * STEP_BYTES), Slope(w, i * STEP_BYTES + SLOPE_BYTES));
      i := i + 1;
      assert After(g, i, base, k, w) == r;
      if r.None? {
        FailureSticks(g, i, STEPS, base, k, w);
        return false;
      }
      s := r.value;
    }
    accepted := CloseOut(g, s, out, Slope(w, STEPS * STEP_BYTES));
    if accepted && Sound(g) {
      CheckerSound(g, base, k, out, w);
    }
  }

  // ----- the arithmetic of one step -----

  lemma RemIsZero(c: Params, a: int)
    ensures Rem(c, a) == 0 <==> a % c.field == 0
  {
    var p := c.field;
    if a < 0 {
      CongZero(a, p);
      CongZero(-a, p);
      CongRefl(0, p);
      if a % p == 0 { CongAdd(0, 0, a, 0, p); }
      if (-a) % p == 0 { CongAdd(0, 0, -a, 0, p); }
    }
  }

  lemma ReduceIsMod(c: Params, a: int)
    ensures Reduce(c, a) == a % c.field
  {
    var p := c.field;
    if a >= 0 {
      CongMod(a, p);
      ModWitness(a % p + p, 1, a % p, p);
    } else {
      var q, r := (-a) / p, (-a) % p;
      assert -a == p * q + r && 0 <= r < p;
      assert a == (-q) * p - r by { assert p * q == q * p; }
      if r == 0 {
        ModWitness(a, -q, 0, p);
        ModWitness(p, 1, 0, p);
      } else {
        assert (-q - 1) * p == (-q) * p - p;
        ModWitness(a, -q - 1, p - r, p);
        ModSmall(p - r, p);
      }
    }
  }

  /** A slope congruence over a nonzero run is the field quotient. */
  lemma CheckedSlope(c: Params, l: int, rise: int, run: int)
    requires IsPrime(c.field) && run % c.field != 0 && Rem(c, l * run - rise) == 0
    ensures l % c.field == Quotient(c, rise, run)
  {
    RemIsZero(c, l * run - rise);
    CongZero(l * run - rise, c.field);
    CongRefl(rise, c.field);
    CongAdd(l * run - rise, 0, rise, rise, c.field);
    QuotientUnique(c, l, rise, run);
  }

  function QOf(s: Locals): Point { Affine(s.qx, s.qy) }

  function ROf(s: Locals): Point { Affine(s.rx, s.ry) }

  /** The two reductions that follow a slope give the point on its line. */
  lemma ReducedPoint(c: Params, p: Point, l: int, otherX: int)
    requires p.Affine?
    ensures var x := Reduce(c, l * l - p.x - otherX);
            Affine(x, Reduce(c, l * (p.x - x) - p.y)) == ThroughSlope(c, p, l % c.field, otherX)
  {
    SlopeResidue(c, p, l, otherX);
    ReduceIsMod(c, l * l - p.x - otherX);
    var x := Reduce(c, l * l - p.x - otherX);
    ReduceIsMod(c, l * (p.x - x) - p.y);
  }

  lemma CountedStep(c: Params, s: Locals, la: int, ld: int)
    requires s.rest % 2 == 1
    ensures StepAllowed(c, s, la, ld) ==> s.qx != s.rx && Rem(c, la * (s.qx - s.rx) - (s.qy - s.ry)) == 0
    ensures ROf(StepNext(c, s, la, ld)) == ThroughSlope(c, ROf(s), la % c.field, s.qx)
  {
    ReducedPoint(c, ROf(s), la, s.qx);
  }

  lemma PrimeField(c: Params)
    requires GroupLaw(c)
    ensures IsPrime(c.field)
  {
  }

  lemma DoublingStep(c: Params, s: Locals, la: int, ld: int)
    ensures StepAllowed(c, s, la, ld) ==> Rem(c, ld * (2 * s.qy) - 3 * s.qx * s.qx) == 0
    ensures QOf(StepNext(c, s, la, ld)) == ThroughSlope(c, QOf(s), ld % c.field, s.qx)
  {
    hide Rem, Reduce, Curve.ThroughSlope;
    assert ld * 2 * s.qy == ld * (2 * s.qy);
    ReducedPoint(c, QOf(s), ld, s.qx);
  }

  lemma UncountedStep(c: Params, s: Locals, la: int, ld: int)
    requires s.rest % 2 == 0
    ensures ROf(StepNext(c, s, la, ld)) == ROf(s)
  {
  }

  lemma CheckedAddition(c: Params, s: Locals, la: int, ld: int)
    requires GroupLaw(c) && OnCurve(c, QOf(s)) && OnCurve(c, ROf(s)) && s.rest % 2 == 1
    requires StepAllowed(c, s, la, ld)
    ensures ROf(StepNext(c, s, la, ld)) == Add(c, ROf(s), QOf(s))
  {
    hide StepAllowed, StepNext, Rem, Curve.GroupLaw, Curve.Quotient, Curve.ThroughSlope;
    CountedStep(c, s, la, ld);
    assert IsPrime(c.field) by { PrimeField(c); }
    DifferenceNonzero(c, s.qx, s.rx);
    CheckedSlope(c, la, s.qy - s.ry, s.qx - s.rx);
  }

  lemma CheckedDoubling(c: Params, s: Locals, la: int, ld: int)
    requires GroupLaw(c) && OnCurve(c, QOf(s)) && StepAllowed(c, s, la, ld)
    ensures QOf(StepNext(c, s, la, ld)) == Add(c, QOf(s), QOf(s))
  {
    hide StepAllowed, StepNext, Rem, Curve.GroupLaw, Curve.Quotient, Curve.ThroughSlope;
    DoublingStep(c, s, la, ld);
    NoVerticalTangent(c, QOf(s));
    assert IsPrime(c.field) by { PrimeField(c); }
    DoubleNonzero(c, s.qy);
    CheckedSlope(c, ld, 3 * s.qx * s.qx, 2 * s.qy);
  }

  // ----- soundness -----

  /** After i accepted steps Q is 2^i times the base, R is H plus the low i bits of k times the
      base, and the rest of k is still to be read. */
  ghost predicate StepInvariant(g: Setting, i: nat, q: Point, r: Point, rest: int, base: Point, k: nat) {
    && OnCurve(g.curve, q) && OnCurve(g.curve, r)
    && q == Mul(g.curve, Pow2(i), base)
    && r == Add(g.curve, g.h, Mul(g.curve, k % Pow2(i), base))
    && rest == k / Pow2(i)
  }

  lemma BitSplit(k: nat, m: nat)
    requires m > 0
    ensures k / (2 * m) == (k / m) / 2
    ensures k % (2 * m) == if (k / m) % 2 == 1 then k % m + m else k % m
  {
    var q, r := k / m, k % m;
    assert k == q * m + r;
    var h, b := q / 2, q % 2;
    assert q * m == (2 * h + b) * m == h * (2 * m) + b * m;
    if b == 1 {
      ModWitness(k, h, r + m, 2 * m);
    } else {
      ModWitness(k, h, r, 2 * m);
    }
  }

  lemma NextBit(k: nat, i: nat)
    ensures Pow2(i + 1) == Pow2(i) + Pow2(i)
    ensures k / Pow2(i + 1) == (k / Pow2(i)) / 2
    ensures k % Pow2(i + 1) == if (k / Pow2(i)) % 2 == 1 then k % Pow2(i) + Pow2(i) else k % Pow2(i)
  {
    BitSplit(k, Pow2(i));
  }

  lemma AccumulatorKeeps(g: Setting, low: nat, m: nat, base: Point, r: Point, q: Point)
    requires Sound(g) && OnCurve(g.curve, base) && OnCurve(g.curve, r) && OnCurve(g.curve, q)
    requires q == Mul(g.curve, m, base) && r == Add(g.curve, g.h, Mul(g.curve, low, base))
    ensures OnCurve(g.curve, Add(g.curve, r, q))
    ensures Add(g.curve, r, q) == Add(g.curve, g.h, Mul(g.curve, low + m, base))
  {
    var c := g.curve;
    AddClosed(c, r, q);
    MulOnCurve(c, low, base);
    AddAssociative(c, g.h, Mul(c, low, base), Mul(c, m, base));
    MulSum(c, low, m, base);
  }

  lemma StepKeeps(g: Setting, i: nat, q: Point, r: Point, rest: int, q': Point, r': Point, base: Point, k: nat)
    requires Sound(g) && OnCurve(g.curve, base) && StepInvariant(g, i, q, r, rest, base, k)
    requires q' == Add(g.curve, q, q)
    requires r' == if rest % 2 == 1 then Add(g.curve, r, q) else r
    ensures StepInvariant(g, i + 1, q', r', rest / 2, base, k)
  {
    hide Curve.Add, Curve.OnCurve, Curve.GroupLaw, Curve.Mul, ScriptBytes.Pow2;
    var m := Pow2(i);
    NextBit(k, i);
    AddClosed(g.curve, q, q);
    MulSum(g.curve, m, m, base);
    if rest % 2 == 1 {
      AccumulatorKeeps(g, k % m, m, base, r, q);
    }
  }

  lemma Start(g: Setting, base: Point, k: nat)
    requires Sound(g) && base.Affine? && OnCurve(g.curve, base)
    ensures StepInvariant(g, 0, base, g.h, k, base, k)
  {
    MulTwo(g.curve, base);
    assert k % 1 == 0 && Mul(g.curve, 0, base) == Infinity;
  }

  lemma {:induction false} StepsKeep(g: Setting, i: nat, base: Point, k: nat, w: seq<byte>)
    requires Sound(g) && base.Affine? && OnCurve(g.curve, base) && |w| == WITNESS_BYTES && i <= STEPS
    requires After(g, i, base, k, w).Some?
    ensures var s := After(g, i, base, k, w).value; StepInvariant(g, i, QOf(s), ROf(s), s.rest, base, k)
  {
    hide Checked, Curve.Add, Curve.OnCurve, Curve.GroupLaw, ScriptBytes.Bin2Num;
    if i == 0 {
      Start(g, base, k);
    } else {
      StepsKeep(g, i - 1, base, k, w);
      var s := After(g, i - 1, base, k, w).value;
      var t := After(g, i, base, k, w).value;
      CheckedStep(g, s, Slope(w, (i - 1) * STEP_BYTES), Slope(w, (i - 1) * STEP_BYTES + SLOPE_BYTES));
      StepKeeps(g, i - 1, QOf(s), ROf(s), s.rest, QOf(t), ROf(t), base, k);
    }
  }

  lemma CheckedStep(g: Setting, s: Locals, la: int, ld: int)
    requires GroupLaw(g.curve) && OnCurve(g.curve, QOf(s)) && OnCurve(g.curve, ROf(s))
    requires Checked(g.curve, s, la, ld).Some?
    ensures var t := Checked(g.curve, s, la, ld).value;
            && t.rest == s.rest / 2 && QOf(t) == Add(g.curve, QOf(s), QOf(s))
            && ROf(t) == if s.rest % 2 == 1 then Add(g.curve, ROf(s), QOf(s)) else ROf(s)
  {
    CheckedDoubling(g.curve, s, la, ld);
    if s.rest % 2 == 1 {
      CheckedAddition(g.curve, s, la, ld);
    } else {
      UncountedStep(g.curve, s, la, ld);
    }
  }

  lemma FinalAddition(g: Setting, s: Locals, out: Point, lf: int)
    requires Sound(g) && out.Affine? && FinalAllowed(g, s, out, lf)
    ensures ROf(s) == Add(g.curve, out, g.h)
  {
    hide Rem, Reduce, Curve.ThroughSlope, Curve.Quotient, Curve.GroupLaw;
    PrimeField(g.curve);
    DifferenceNonzero(g.curve, g.h.x, out.x);
    CheckedSlope(g.curve, lf, g.h.y - out.y, g.h.x - out.x);
    ReducedPoint(g.curve, out, lf, g.h.x);
  }

  /** Soundness: no witness makes the checker accept anything but the true product. */
  lemma CheckerSound(g: Setting, base: Point, k: int, out: Point, w: seq<byte>)
    requires Sound(g) && base.Affine? && out.Affine? && Accepts(g, base, k, out, w)
    ensures out == Mul(g.curve, k, base)
  {
    var c := g.curve;
    var s := After(g, STEPS, base, k, w).value;
    StepsKeep(g, STEPS, base, k, w);
    ModSmall(k, Pow2(STEPS));
    FinalAddition(g, s, out, Slope(w, STEPS * STEP_BYTES));
    MulOnCurve(c, k, base);
    AddClosed(c, g.h, Mul(c, k, base));
    Cancel(c, out, Mul(c, k, base), g.h);
  }
}
