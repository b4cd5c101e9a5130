/** Masked cards: scalars, points and decks, and the passes that shuffle and remask a deck. */
module MentalPoker {
  import opened Modular
  import opened Curve
  import opened Options

  /** A curve with the generator every card encoding is a multiple of. */
  datatype Table = Table(curve: Params, generator: Point)

  ghost predicate Fair(t: Table) {
    GroupLaw(t.curve) && OnCurve(t.curve, t.generator) && t.generator.Affine?
  }

  // ----- scalars and points -----

  predicate ScalarOk(t: Table, s: nat) { 0 < s < t.curve.order }

  predicate PointOk(t: Table, p: Point) { p.Affine? && OnCurve(t.curve, p) }

  function Inverse(t: Table, s: nat): (inv: Option<nat>)
    ensures inv.Some? <==> ScalarOk(t, s)
  {
    if ScalarOk(t, s) then Some(Quotient(Params(t.curve.order, t.curve.order), 1, s)) else None
  }

  /** The inverse is a scalar again, and undoes multiplication by s. */
  lemma InverseUndoes(t: Table, s: nat)
    requires IsPrime(t.curve.order) && ScalarOk(t, s)
    ensures var inv := Inverse(t, s).value; ScalarOk(t, inv) && (inv * s) % t.curve.order == 1
  {
    hide IsPrime;
    var n := t.curve.order;
    var inv := Inverse(t, s).value;
    ModSmall(s, n);
    QuotientTimes(Params(n, n), 1, s);
    CongIffMod(inv * s, 1, n);
    ModSmall(1, n);
    assert inv == 0 ==> inv * s == 0;
    ModSmall(0, n);
  }

  /** s * t mod n, which is never zero. */
  function Times(t: Table, a: nat, b: nat): Option<nat> {
    if !ScalarOk(t, a) || !ScalarOk(t, b) then None
    else
      var p := (a * b) % t.curve.order;
      if p == 0 then None else Some(p)
  }

  /** Composing two masks always succeeds, and masks once as the two did in turn. */
  lemma TimesComposes(t: Table, a: nat, b: nat, p: Point)
    requires Fair(t) && ScalarOk(t, a) && ScalarOk(t, b) && OnCurve(t.curve, p)
    ensures Times(t, a, b).Some? && ScalarOk(t, Times(t, a, b).value)
    ensures Mul(t.curve, Times(t, a, b).value, p) == Mul(t.curve, a, Mul(t.curve, b, p))
  {
    hide IsPrime, Mul;
    var n := t.curve.order;
    if (a * b) % n == 0 {
      CongZero(a * b, n);
      PrimeProduct(a, b, n);
      CongZero(a, n);
      CongZero(b, n);
      ModSmall(a, n);
      ModSmall(b, n);
    }
    MulMul(t.curve, a, b, p);
    MulMod(t.curve, a * b, p);
  }

  function Mask(t: Table, p: Point, s: nat): Option<Point> {
    if !PointOk(t, p) || !ScalarOk(t, s) then None
    else
      var q := Mul(t.curve, s, p);
      if PointOk(t, q) then Some(q) else None
  }

  /** Masking a proper point with a proper scalar always succeeds. */
  lemma MaskSucceeds(t: Table, p: Point, s: nat)
    requires Fair(t) && PointOk(t, p) && ScalarOk(t, s)
    ensures Mask(t, p, s) == Some(Mul(t.curve, s, p)) && PointOk(t, Mul(t.curve, s, p))
  {
    hide GroupLaw, Mul;
    MulOnCurve(t.curve, s, p);
    MulNonzero(t.curve, s, p);
  }

  function Unmask(t: Table, p: Point, s: nat): Option<Point> {
    match Inverse(t, s)
    case None => None
    case Some(inv) => Mask(t, p, inv)
  }

  /** Unmasking strips exactly what masking applied. */
  lemma UnmaskMasked(t: Table, p: Point, s: nat)
    requires Fair(t) && PointOk(t, p) && ScalarOk(t, s)
    ensures Unmask(t, Mul(t.curve, s, p), s) == Some(p)
  {
    hide GroupLaw, Mul, IsPrime;
    OrderIsPrime(t);
    InverseUndoes(t, s);
    var inv := Inverse(t, s).value;
    MaskSucceeds(t, p, s);
    MaskSucceeds(t, Mul(t.curve, s, p), inv);
    MulUndo(t.curve, s, inv, p);
  }

  lemma OrderIsPrime(t: Table)
    requires Fair(t)
    ensures IsPrime(t.curve.order)
  {
    hide IsPrime;
  }

  // ----- cards -----

  function CardPoint(t: Table, i: int): Option<Point> {
    if i < 0 || i + 1 >= t.curve.order then None else Some(Mul(t.curve, i + 1, t.generator))
  }

  lemma CardPointOk(t: Table, i: int)
    requires Fair(t) && 0 <= i < t.curve.order - 1
    ensures CardPoint(t, i).Some? && PointOk(t, CardPoint(t, i).value)
  {
    hide GroupLaw, Mul;
    MaskSucceeds(t, t.generator, i + 1);
  }

  /** Different cards have different encodings. */
  lemma CardPointsDiffer(t: Table, i: int, j: int)
    requires Fair(t) && CardPoint(t, i).Some? && CardPoint(t, j) == CardPoint(t, i)
    ensures i == j
  {
    hide GroupLaw, Mul;
    MulInjective(t.curve, i + 1, j + 1, t.generator);
  }

  /** Which card an unmasked point is, found by trying them all. */
  method CardIndexOf(t: Table, p: Point, deckSize: int) returns (r: Option<int>)
    requires Fair(t)
    ensures r.Some? ==> 0 <= r.value < deckSize && CardPoint(t, r.value) == Some(p)
    ensures r.None? ==> !PointOk(t, p) || forall i :: 0 <= i < deckSize ==> CardPoint(t, i) != Some(p)
  {
    hide GroupLaw, Mul, CardPoint;
    if !PointOk(t, p) {
      return None;
    }
    var i := 0;
    while i < deckSize
      invariant 0 <= i && forall j :: 0 <= j < i ==> CardPoint(t, j) != Some(p)
      decreases deckSize - i
    {
      var base := CardPoint(t, i);
      if base.None? {
        NoCardBeyond(t, i);
        return None;
      }
      if base.value == p {
        return Some(i);
      }
      i := i + 1;
    }
    r := None;
  }

  lemma NoCardBeyond(t: Table, i: int)
    requires 0 <= i && CardPoint(t, i).None?
    ensures forall j :: j >= i ==> CardPoint(t, j).None?
  {
  }

  // ----- permutations -----

  ghost predicate IsPermutation(p: seq<int>, n: int) {
    && |p| == n
    && (forall i :: 0 <= i < n ==> 0 <= p[i] < n)
    && (forall i, j :: 0 <= i < j < n ==> p[i] != p[j])
  }

  /** Accepts exactly the permutations of [0, n). */
  method ValidatePermutation(p: seq<int>, n: nat) returns (ok: bool)
    ensures ok <==> IsPermutation(p, n)
  {
    if |p| != n {
      return false;
    }
    var seen := new bool[n](_ => false);
    for i := 0 to n
      invariant forall j :: 0 <= j < i ==> 0 <= p[j] < n && seen[p[j]]
      invariant forall v :: 0 <= v < n && seen[v] ==> exists j :: 0 <= j < i && p[j] == v
      invariant forall j, k :: 0 <= j < k < i ==> p[j] != p[k]
    {
      if p[i] < 0 || p[i] >= n {
        return false;
      }
      if seen[p[i]] {
        return false;
      }
      seen[p[i]] := true;
    }
    ok := true;
  }

  /** Whatever the random draws, the swaps leave a permutation. */
  method NewPermutation(n: int) returns (p: array?<int>)
    ensures p == null <==> n < 0
    ensures p != null ==> fresh(p) && IsPermutation(p[..], n)
  {
    if n < 0 {
      return null;
    }
    var a := new int[n](i => i);
    var i := n - 1;
    while i > 0
      invariant -1 <= i < n && IsPermutation(a[..], n)
      decreases i
    {
      var j :| 0 <= j <= i;
      Swapped(a[..], i, j);
      a[i], a[j] := a[j], a[i];
      i := i - 1;
    }
    p := a;
  }

  lemma Swapped(p: seq<int>, i: int, j: int)
    requires 0 <= i < |p| && 0 <= j < |p| && IsPermutation(p, |p|)
    ensures IsPermutation(p[i := p[j]][j := p[i]], |p|)
  {
  }

  // ----- decks -----

  type Deck = seq<Point>

  ghost predicate DeckOk(t: Table, d: Deck) {
    forall i :: 0 <= i < |d| ==> PointOk(t, d[i])
  }

  /** out is d with every point masked and moved to its place. */
  ghost predicate Shuffled(t: Table, d: Deck, global: nat, perm: seq<int>, out: Deck)
    requires IsPermutation(perm, |d|)
  {
    |out| == |d| && forall i :: 0 <= i < |d| ==> out[perm[i]] == Mul(t.curve, global, d[i])
  }

  /** One seat's shuffle: refused exactly when the scalar, the permutation or a point is not proper. */
  method ShuffleStep(t: Table, d: Deck, global: nat, perm: seq<int>) returns (r: Option<Deck>)
    requires Fair(t)
    ensures r.Some? <==> ScalarOk(t, global) && IsPermutation(perm, |d|) && DeckOk(t, d)
    ensures r.Some? ==> Shuffled(t, d, global, perm, r.value) && DeckOk(t, r.value)
  {
    hide GroupLaw, Mul;
    if !ScalarOk(t, global) {
      return None;
    }
    var ok := ValidatePermutation(perm, |d|);
    if !ok {
      return None;
    }
    var out := new Point[|d|](_ => Infinity);
    for i := 0 to |d|
      invariant forall j :: 0 <= j < i ==> out[perm[j]] == Mul(t.curve, global, d[j])
      invariant forall j :: 0 <= j < i ==> PointOk(t, d[j]) && PointOk(t, out[perm[j]])
    {
      var masked := Mask(t, d[i], global);
      if masked.None? {
        if PointOk(t, d[i]) { MaskSucceeds(t, d[i], global); }
        return None;
      }
      out[perm[i]] := masked.value;
    }
    Covered(t, perm, out[..]);
    r := Some(out[..]);
  }

  /** A permutation reaches every place. */
  lemma Covered(t: Table, perm: seq<int>, out: Deck)
    requires IsPermutation(perm, |out|) && forall j :: 0 <= j < |out| ==> PointOk(t, out[perm[j]])
    ensures DeckOk(t, out)
  {
    forall v | 0 <= v < |out|
      ensures PointOk(t, out[v])
    {
      var j := Preimage(perm, v);
    }
  }

  lemma Preimage(perm: seq<int>, v: int) returns (j: int)
    requires IsPermutation(perm, |perm|) && 0 <= v < |perm|
    ensures 0 <= j < |perm| && perm[j] == v
  {
    var up := seq(|perm|, i requires 0 <= i < |perm| => perm[i] + 1);
    SegmentMultiset(up, |up|);
    assert multiset(up)[v + 1] == 1;
    assert v + 1 in up;
    j :| 0 <= j < |up| && up[j] == v + 1;
  }

  /** out is d with the global mask taken off and a scalar of its own put on every position. */
  ghost predicate Remasked(t: Table, d: Deck, global: nat, own: seq<nat>, out: Deck)
    requires |own| == |d| && ScalarOk(t, global)
  {
    && |out| == |d|
    && forall i :: 0 <= i < |d| ==> out[i] == Mul(t.curve, own[i], Mul(t.curve, Inverse(t, global).value, d[i]))
  }

  ghost predicate ScalarsOk(t: Table, ss: seq<nat>) {
    forall i :: 0 <= i < |ss| ==> ScalarOk(t, ss[i])
  }

  method RemaskStep(t: Table, d: Deck, global: nat, own: seq<nat>) returns (r: Option<Deck>)
    requires Fair(t)
    ensures r.Some? <==> ScalarOk(t, global) && |own| == |d| && ScalarsOk(t, own) && DeckOk(t, d)
    ensures r.Some? ==> Remasked(t, d, global, own, r.value) && DeckOk(t, r.value)
  {
    hide GroupLaw, Mul, IsPrime;
    if !ScalarOk(t, global) || |own| != |d| {
      return None;
    }
    var inv := Inverse(t, global);
    if inv.None? {
      return None;
    }
    OrderIsPrime(t);
    InverseUndoes(t, global);
    var out := new Point[|d|](_ => Infinity);
    for i := 0 to |d|
      invariant forall j :: 0 <= j < i ==> ScalarOk(t, own[j]) && PointOk(t, d[j]) && PointOk(t, out[j])
      invariant forall j :: 0 <= j < i ==> out[j] == Mul(t.curve, own[j], Mul(t.curve, inv.value, d[j]))
    {
      if !ScalarOk(t, own[i]) {
        return None;
      }
      var stripped := Mask(t, d[i], inv.value);
      if stripped.None? {
        if PointOk(t, d[i]) { MaskSucceeds(t, d[i], inv.value); }
        return None;
      }
      var masked := Mask(t, stripped.value, own[i]);
      MaskSucceeds(t, stripped.value, own[i]);
      out[i] := masked.value;
    }
    r := Some(out[..]);
  }

  /** Strips the scalars one after another. */
  function Strip(t: Table, p: Point, ss: seq<nat>): Option<Point>
    decreases |ss|
  {
    if ss == [] then Some(p)
    else
      match Unmask(t, p, ss[0])
      case None => None
      case Some(q) => Strip(t, q, ss[1..])
  }

  method UnmaskPosition(t: Table, d: Deck, position: int, ss: seq<nat>) returns (r: Option<Point>)
    ensures r == if 0 <= position < |d| then Strip(t, d[position], ss) else None
  {
    if position < 0 || position >= |d| {
      return None;
    }
    var p := d[position];
    assert ss[0..] == ss;
    for i := 0 to |ss|
      invariant Strip(t, p, ss[i..]) == Strip(t, d[position], ss)
    {
      assert ss[i..][1..] == ss[i + 1..];
      var q := Unmask(t, p, ss[i]);
      if q.None? {
        return None;
      }
      p := q.value;
    }
    r := Some(p);
  }

  /** Every mask of a card comes off, in whatever order the scalars are taken. */
  lemma {:induction false} StripAll(t: Table, p: Point, ss: seq<nat>)
    requires Fair(t) && PointOk(t, p) && ScalarsOk(t, ss)
    ensures Product(ss) >= 0 && Strip(t, Mul(t.curve, Product(ss), p), ss) == Some(p)
  {
    hide GroupLaw, Mul;
    if ss == [] {
      MulTwo(t.curve, p);
    } else {
      StripAll(t, p, ss[1..]);
      var inner := Mul(t.curve, Product(ss[1..]), p);
      MulMul(t.curve, ss[0], Product(ss[1..]), p);
      MaskedOk(t, p, ss[1..]);
      UnmaskMasked(t, inner, ss[0]);
    }
  }

  /** A card under any number of proper masks is still a proper point. */
  lemma {:induction false} MaskedOk(t: Table, p: Point, ss: seq<nat>)
    requires Fair(t) && PointOk(t, p) && ScalarsOk(t, ss)
    ensures Product(ss) >= 0 && PointOk(t, Mul(t.curve, Product(ss), p))
  {
    hide GroupLaw, Mul;
    if ss == [] {
      MulTwo(t.curve, p);
    } else {
      MaskedOk(t, p, ss[1..]);
      MulMul(t.curve, ss[0], Product(ss[1..]), p);
      MaskSucceeds(t, Mul(t.curve, Product(ss[1..]), p), ss[0]);
    }
  }

  /** Stripping proper scalars always succeeds, and leaves exactly the point that they mask. */
  lemma {:induction false} StripExact(t: Table, p: Point, ss: seq<nat>)
    requires Fair(t) && PointOk(t, p) && ScalarsOk(t, ss)
    ensures Strip(t, p, ss).Some? && PointOk(t, Strip(t, p, ss).value)
    ensures Product(ss) >= 0 && Mul(t.curve, Product(ss), Strip(t, p, ss).value) == p
    decreases |ss|
  {
    hide GroupLaw, Mul, OnCurve, Unmask;
    if ss == [] {
      MulTwo(t.curve, p);
    } else {
      UnmaskExact(t, p, ss[0]);
      var q := Unmask(t, p, ss[0]).value;
      StripExact(t, q, ss[1..]);
      MulMul(t.curve, ss[0], Product(ss[1..]), Strip(t, q, ss[1..]).value);
    }
  }

  /** What unmasking leaves, masked again, is the point it was taken from. */
  lemma UnmaskExact(t: Table, p: Point, s: nat)
    requires Fair(t) && PointOk(t, p) && ScalarOk(t, s)
    ensures Unmask(t, p, s).Some? && PointOk(t, Unmask(t, p, s).value) && Mul(t.curve, s, Unmask(t, p, s).value) == p
  {
    hide GroupLaw, Mul, IsPrime;
    OrderIsPrime(t);
    InverseUndoes(t, s);
    var inv := Inverse(t, s).value;
    MaskSucceeds(t, p, inv);
    Commute(inv, s);
    MulUndo(t.curve, inv, s, p);
  }

  lemma Commute(a: nat, b: nat)
    ensures a * b == b * a
  {
  }
}
