/**
 What verified openings establish about a deal. Every accepted pass is the committed transformation,
 but a seat opens its global scalar twice, once per pass, and nothing compares the two: the final
 deck is whole exactly when the scalars put on in the shuffle and taken off in the remask have the
 same product.
 */
module VerifiedDeal {
  import opened ScriptBytes
  import opened Modular
  import opened Curve
  import opened Options
  import opened MentalPoker
  import opened Commitments
  import opened Deal
  import D = Dleq

  // ----- verifying one pass -----

  ghost predicate ShuffleVerifies(t: Table, hash: D.Hash, input: Deck, claimed: Deck, global: nat, perm: seq<int>, commitment: Bytes) {
    && CommitShuffle(t, hash, global, perm) == Some(commitment)
    && IsPermutation(perm, |input|) && DeckOk(t, input) && Shuffled(t, input, global, perm, claimed)
  }

  /** Accepts exactly the output of the committed shuffle. */
  method VerifyShuffle(t: Table, hash: D.Hash, input: Deck, claimed: Deck, global: nat, perm: seq<int>, commitment: Bytes)
    returns (ok: bool)
    requires Fair(t)
    ensures ok <==> ShuffleVerifies(t, hash, input, claimed, global, perm, commitment)
  {
    hide Fair, Encoded, ShuffleFields;
    var want := MakeShuffleCommitment(t, hash, global, perm);
    if want != Some(commitment) {
      return false;
    }
    var proper := ValidatePermutation(perm, |input|);
    if !proper {
      return false;
    }
    var recomputed := ShuffleStep(t, input, global, perm);
    if recomputed.None? {
      return false;
    }
    if Shuffled(t, input, global, perm, claimed) { ShuffledUnique(t, input, global, perm, recomputed.value, claimed); }
    ok := recomputed.value == claimed;
  }

  lemma ShuffledUnique(t: Table, d: Deck, global: nat, perm: seq<int>, a: Deck, b: Deck)
    requires IsPermutation(perm, |d|) && Shuffled(t, d, global, perm, a) && Shuffled(t, d, global, perm, b)
    ensures a == b
  {
    hide Mul;
    forall v | 0 <= v < |a|
      ensures a[v] == b[v]
    {
      var j := Preimage(perm, v);
    }
  }

  ghost predicate RemaskVerifies(t: Table, hash: D.Hash, input: Deck, claimed: Deck, global: nat, own: seq<nat>, commitment: Bytes) {
    && CommitRemask(t, hash, global, own) == Some(commitment)
    && |own| == |input| && DeckOk(t, input) && Remasked(t, input, global, own, claimed)
  }

  method VerifyRemask(t: Table, hash: D.Hash, input: Deck, claimed: Deck, global: nat, own: seq<nat>, commitment: Bytes)
    returns (ok: bool)
    requires Fair(t)
    ensures ok <==> RemaskVerifies(t, hash, input, claimed, global, own, commitment)
  {
    hide Fair, Encoded, RemaskFields, Mul;
    var want := MakeRemaskCommitment(t, hash, global, own);
    if want != Some(commitment) || |own| != |input| {
      return false;
    }
    var recomputed := RemaskStep(t, input, global, own);
    if recomputed.None? {
      return false;
    }
    ok := recomputed.value == claimed;
  }

  // ----- the whole chain -----

  /** What a seat reveals: the opening of its shuffle and the opening of its remask. */
  datatype Opening = Opening(global: nat, perm: seq<int>, removed: nat, own: seq<nat>)

  /** Every pass, from the base deck to the final one, is accepted against its commitment. */
  ghost predicate Verified(t: Table, hash: D.Hash, n: nat, os: seq<Opening>, a: seq<Deck>, b: seq<Deck>, sc: seq<Bytes>, rc: seq<Bytes>)
    requires n < t.curve.order
  {
    && |a| == |b| == |os| + 1 && |sc| == |rc| == |os|
    && a[0] == BaseDeck(t, n) && b[0] == a[|os|]
    && (forall k :: 0 <= k < |os| ==> ShuffleVerifies(t, hash, a[k], a[k + 1], os[k].global, os[k].perm, sc[k]))
    && (forall k :: 0 <= k < |os| ==> RemaskVerifies(t, hash, b[k], b[k + 1], os[k].removed, os[k].own, rc[k]))
  }

  function ShuffleSide(n: nat, o: Opening): Secrets { Secrets(n, o.global, o.perm, Flat(1, n)) }

  function ShuffleSides(n: nat, os: seq<Opening>): (ss: seq<Secrets>) {
    seq(|os|, k requires 0 <= k < |os| => ShuffleSide(n, os[k]))
  }

  function Put(os: seq<Opening>): seq<nat> { seq(|os|, k requires 0 <= k < |os| => os[k].global) }

  function Removed(os: seq<Opening>): seq<nat> { seq(|os|, k requires 0 <= k < |os| => os[k].removed) }

  function Inverses(t: Table, os: seq<Opening>): seq<nat>
    requires forall k :: 0 <= k < |os| ==> ScalarOk(t, os[k].removed)
  {
    seq(|os|, k requires 0 <= k < |os| => Inverse(t, os[k].removed).value)
  }

  function Owns(os: seq<Opening>, p: nat): seq<nat>
    requires forall k :: 0 <= k < |os| ==> p < |os[k].own|
  {
    seq(|os|, k requires 0 <= k < |os| => os[k].own[p])
  }

  ghost predicate OpeningOk(t: Table, n: nat, o: Opening) {
    ScalarOk(t, o.global) && ScalarOk(t, o.removed) && IsPermutation(o.perm, n) && |o.own| == n && ScalarsOk(t, o.own)
  }

  ghost predicate OpeningsOk(t: Table, n: nat, os: seq<Opening>) {
    forall k :: 0 <= k < |os| ==> OpeningOk(t, n, os[k])
  }

  lemma {:induction false} VerifiedSizes(t: Table, hash: D.Hash, n: nat, os: seq<Opening>, a: seq<Deck>, b: seq<Deck>, sc: seq<Bytes>, rc: seq<Bytes>, k: nat)
    requires n < t.curve.order && Verified(t, hash, n, os, a, b, sc, rc) && k <= |os|
    ensures |a[k]| == n
  {
    hide Mul, Encoded, DeckOk, CardPoint;
    if k > 0 {
      VerifiedSizes(t, hash, n, os, a, b, sc, rc, k - 1);
      assert ShuffleVerifies(t, hash, a[k - 1], a[k - 1 + 1], os[k - 1].global, os[k - 1].perm, sc[k - 1]);
    }
  }

  lemma {:induction false} RemaskSizes(t: Table, hash: D.Hash, n: nat, os: seq<Opening>, a: seq<Deck>, b: seq<Deck>, sc: seq<Bytes>, rc: seq<Bytes>, k: nat)
    requires n < t.curve.order && Verified(t, hash, n, os, a, b, sc, rc) && k <= |os|
    ensures |b[k]| == n
  {
    hide Mul, Encoded, DeckOk, CardPoint;
    if k == 0 {
      VerifiedSizes(t, hash, n, os, a, b, sc, rc, |os|);
    } else {
      RemaskSizes(t, hash, n, os, a, b, sc, rc, k - 1);
      assert RemaskVerifies(t, hash, b[k - 1], b[k - 1 + 1], os[k - 1].removed, os[k - 1].own, rc[k - 1]);
    }
  }

  lemma VerifiedOpenings(t: Table, hash: D.Hash, n: nat, os: seq<Opening>, a: seq<Deck>, b: seq<Deck>, sc: seq<Bytes>, rc: seq<Bytes>)
    requires n < t.curve.order && Verified(t, hash, n, os, a, b, sc, rc)
    ensures OpeningsOk(t, n, os)
  {
    hide Mul, Encoded, DeckOk, Shuffled, Remasked;
    forall k | 0 <= k < |os|
      ensures OpeningOk(t, n, os[k])
    {
      VerifiedSizes(t, hash, n, os, a, b, sc, rc, k);
      RemaskSizes(t, hash, n, os, a, b, sc, rc, k);
      assert ShuffleVerifies(t, hash, a[k], a[k + 1], os[k].global, os[k].perm, sc[k]);
      assert RemaskVerifies(t, hash, b[k], b[k + 1], os[k].removed, os[k].own, rc[k]);
    }
  }

  /** After the shuffles: every card once, under the product of the scalars put on. */
  lemma VerifiedShuffles(t: Table, hash: D.Hash, n: nat, os: seq<Opening>, a: seq<Deck>, b: seq<Deck>, sc: seq<Bytes>, rc: seq<Bytes>)
    requires Fair(t) && n < t.curve.order && Verified(t, hash, n, os, a, b, sc, rc) && OpeningsOk(t, n, os)
    ensures var ss := ShuffleSides(n, os);
            && AllOk(t, ss, n) && Product(Put(os)) >= 0 && |b[0]| == n
            && Holds(t, b[0], Arrangement(ss, n), Flat(Product(Put(os)), n))
  {
    hide Mul, Encoded, DeckOk, Fair, Holds, Shuffled;
    var ss := ShuffleSides(n, os);
    forall k | 0 <= k < |ss|
      ensures SecretsOk(t, ss[k])
    {
      assert OpeningOk(t, n, os[k]);
    }
    forall k | 0 <= k < |ss|
      ensures ShufflePass(t, ss[k], a[k], a[k + 1])
    {
      assert ShuffleVerifies(t, hash, a[k], a[k + 1], os[k].global, os[k].perm, sc[k]);
    }
    assert Globals(ss) == Put(os);
    ShuffleAll(t, ss, a, n);
  }

  /** After m remasks: the first m inverses and own scalars on top of what was there. */
  ghost predicate Over(t: Table, d: Deck, start: Deck, os: seq<Opening>, m: nat, p: nat)
    requires m <= |os| && (forall k :: 0 <= k < |os| ==> ScalarOk(t, os[k].removed) && p < |os[k].own|) && p < |d| && p < |start|
  {
    && Product(Inverses(t, os[..m])) >= 0 && Product(Owns(os[..m], p)) >= 0
    && d[p] == Mul(t.curve, Product(Owns(os[..m], p)), Mul(t.curve, Product(Inverses(t, os[..m])), start[p]))
  }

  lemma OverStep(t: Table, x: Point, d: Point, o: nat, i: nat, own: nat, inv: nat)
    requires Fair(t) && OnCurve(t.curve, x) && d == Mul(t.curve, o, Mul(t.curve, i, x))
    ensures own * o >= 0 && inv * i >= 0
    ensures Mul(t.curve, own, Mul(t.curve, inv, d)) == Mul(t.curve, own * o, Mul(t.curve, inv * i, x))
  {
    hide GroupLaw, Mul;
    var c := t.curve;
    var y := Mul(c, i, x);
    MulOnCurve(c, i, x);
    MulMul(c, inv, o, y);
    MulMul(c, o, inv, y);
    assert inv * o == o * inv;
    MulOnCurve(c, inv, y);
    MulMul(c, own, o, Mul(c, inv, y));
    MulMul(c, inv, i, x);
  }

  lemma {:induction false} VerifiedRemasks(t: Table, hash: D.Hash, n: nat, os: seq<Opening>, a: seq<Deck>, b: seq<Deck>, sc: seq<Bytes>, rc: seq<Bytes>, m: nat, p: nat)
    requires Fair(t) && n < t.curve.order && Verified(t, hash, n, os, a, b, sc, rc) && OpeningsOk(t, n, os) && m <= |os| && p < n
    requires |b[0]| == n && OnCurve(t.curve, b[0][p])
    ensures forall k :: 0 <= k < |os| ==> ScalarOk(t, os[k].removed) && p < |os[k].own|
    ensures |b[m]| == n && Over(t, b[m], b[0], os, m, p)
  {
    hide Mul, Encoded, DeckOk, Fair, Shuffled, CardPoint;
    OpeningFacts(t, n, os, p);
    if m == 0 {
      NothingOver(t, b[0], os, p);
    } else {
      VerifiedRemasks(t, hash, n, os, a, b, sc, rc, m - 1, p);
      assert RemaskVerifies(t, hash, b[m - 1], b[m - 1 + 1], os[m - 1].removed, os[m - 1].own, rc[m - 1]);
      OneOver(t, b[m - 1], b[m], b[0], os, m - 1, p);
    }
  }

  lemma OpeningFacts(t: Table, n: nat, os: seq<Opening>, p: nat)
    requires OpeningsOk(t, n, os) && p < n
    ensures forall k :: 0 <= k < |os| ==> ScalarOk(t, os[k].removed) && p < |os[k].own|
  {
    forall k | 0 <= k < |os|
      ensures ScalarOk(t, os[k].removed) && p < |os[k].own|
    {
      assert OpeningOk(t, n, os[k]);
    }
  }

  lemma NothingOver(t: Table, start: Deck, os: seq<Opening>, p: nat)
    requires (forall k :: 0 <= k < |os| ==> ScalarOk(t, os[k].removed) && p < |os[k].own|) && p < |start|
    ensures Over(t, start, start, os, 0, p)
  {
    hide Mul;
    assert Owns(os[..0], p) == [] && Inverses(t, os[..0]) == [];
    MulTwo(t.curve, start[p]);
  }

  lemma OneOver(t: Table, d: Deck, d': Deck, start: Deck, os: seq<Opening>, m: nat, p: nat)
    requires Fair(t) && m < |os| && (forall k :: 0 <= k < |os| ==> ScalarOk(t, os[k].removed) && p < |os[k].own|)
    requires p < |d| && p < |start| && |os[m].own| == |d| && OnCurve(t.curve, start[p]) && Over(t, d, start, os, m, p)
    requires Remasked(t, d, os[m].removed, os[m].own, d')
    ensures Over(t, d', start, os, m + 1, p)
  {
    hide Mul, Fair;
    var own, inv := os[m].own[p], Inverse(t, os[m].removed).value;
    assert Owns(os[..m + 1], p) == Owns(os[..m], p) + [own];
    assert Inverses(t, os[..m + 1]) == Inverses(t, os[..m]) + [inv];
    ProductSnoc(Owns(os[..m], p), own);
    ProductSnoc(Inverses(t, os[..m]), inv);
    OverStep(t, start[p], d[p], Product(Owns(os[..m], p)), Product(Inverses(t, os[..m])), own, inv);
  }

  // ----- what the commitments fix -----

  lemma SameShuffle(t: Table, hash: D.Hash, input: Deck, out: Deck, out': Deck, o: Opening, o': Opening, commitment: Bytes)
    requires D.Injective(hash) && t.curve.order <= Pow2(256) && 4 * |input| < WORD
    requires ShuffleVerifies(t, hash, input, out, o.global, o.perm, commitment)
    requires ShuffleVerifies(t, hash, input, out', o'.global, o'.perm, commitment)
    ensures o.global == o'.global && o.perm == o'.perm && out == out'
  {
    hide Pow2, D.Injective, DeckOk, Shuffled, ShuffleFields;
    ShuffleBinding(t, hash, o.global, o.perm, o'.global, o'.perm);
    forall i | 0 <= i < |o.perm|
      ensures o.perm[i] == o'.perm[i]
    {
      assert o.perm[i] % WORD == o'.perm[i] % WORD;
      ModSmall(o.perm[i], WORD);
      ModSmall(o'.perm[i], WORD);
    }
    assert o.perm == o'.perm;
    ShuffledUnique(t, input, o.global, o.perm, out, out');
  }

  lemma SameRemask(t: Table, hash: D.Hash, input: Deck, out: Deck, out': Deck, o: Opening, o': Opening, commitment: Bytes)
    requires D.Injective(hash) && t.curve.order <= Pow2(256)
    requires RemaskVerifies(t, hash, input, out, o.removed, o.own, commitment)
    requires RemaskVerifies(t, hash, input, out', o'.removed, o'.own, commitment)
    ensures o.removed == o'.removed && o.own == o'.own && out == out'
  {
    hide Pow2, D.Injective, DeckOk, Mul, RemaskFields;
    RemaskBinding(t, hash, o.removed, o.own, o'.removed, o'.own);
    assert forall i :: 0 <= i < |input| ==> out[i] == out'[i];
  }

  lemma {:induction false} SameShuffles(t: Table, hash: D.Hash, n: nat, os: seq<Opening>, a: seq<Deck>, b: seq<Deck>, os': seq<Opening>, a': seq<Deck>, b': seq<Deck>, sc: seq<Bytes>, rc: seq<Bytes>, k: nat)
    requires D.Injective(hash) && t.curve.order <= Pow2(256) && 4 * n < WORD && n < t.curve.order
    requires Verified(t, hash, n, os, a, b, sc, rc) && Verified(t, hash, n, os', a', b', sc, rc) && k <= |os|
    ensures a[k] == a'[k] && forall i :: 0 <= i < k ==> os[i].global == os'[i].global && os[i].perm == os'[i].perm
  {
    hide Pow2, D.Injective, CardPoint;
    if k > 0 {
      SameShuffles(t, hash, n, os, a, b, os', a', b', sc, rc, k - 1);
      VerifiedSizes(t, hash, n, os, a, b, sc, rc, k - 1);
      hide ShuffleVerifies, RemaskVerifies;
      assert ShuffleVerifies(t, hash, a[k - 1], a[k - 1 + 1], os[k - 1].global, os[k - 1].perm, sc[k - 1]);
      assert ShuffleVerifies(t, hash, a'[k - 1], a'[k - 1 + 1], os'[k - 1].global, os'[k - 1].perm, sc[k - 1]);
      SameShuffle(t, hash, a[k - 1], a[k], a'[k], os[k - 1], os'[k - 1], sc[k - 1]);
    }
  }

  lemma {:induction false} SameRemasks(t: Table, hash: D.Hash, n: nat, os: seq<Opening>, a: seq<Deck>, b: seq<Deck>, os': seq<Opening>, a': seq<Deck>, b': seq<Deck>, sc: seq<Bytes>, rc: seq<Bytes>, k: nat)
    requires D.Injective(hash) && t.curve.order <= Pow2(256) && 4 * n < WORD && n < t.curve.order
    requires Verified(t, hash, n, os, a, b, sc, rc) && Verified(t, hash, n, os', a', b', sc, rc) && k <= |os|
    ensures b[k] == b'[k] && forall i :: 0 <= i < k ==> os[i].removed == os'[i].removed && os[i].own == os'[i].own
  {
    hide Pow2, D.Injective, CardPoint;
    if k == 0 {
      SameShuffles(t, hash, n, os, a, b, os', a', b', sc, rc, |os|);
    } else {
      SameRemasks(t, hash, n, os, a, b, os', a', b', sc, rc, k - 1);
      hide ShuffleVerifies, RemaskVerifies;
      assert RemaskVerifies(t, hash, b[k - 1], b[k - 1 + 1], os[k - 1].removed, os[k - 1].own, rc[k - 1]);
      assert RemaskVerifies(t, hash, b'[k - 1], b'[k - 1 + 1], os'[k - 1].removed, os'[k - 1].own, rc[k - 1]);
      SameRemask(t, hash, b[k - 1], b[k], b'[k], os[k - 1], os'[k - 1], rc[k - 1]);
    }
  }

  /** The commitments fix the deal before it starts: two chains that verify against the same ones have
      the same openings and the same decks, to the last position. */
  lemma CommitmentsFixDeal(t: Table, hash: D.Hash, n: nat, os: seq<Opening>, a: seq<Deck>, b: seq<Deck>, os': seq<Opening>, a': seq<Deck>, b': seq<Deck>, sc: seq<Bytes>, rc: seq<Bytes>)
    requires D.Injective(hash) && t.curve.order <= Pow2(256) && 4 * n < WORD && n < t.curve.order
    requires Verified(t, hash, n, os, a, b, sc, rc) && Verified(t, hash, n, os', a', b', sc, rc)
    ensures os == os' && a == a' && b == b'
  {
    hide Pow2, D.Injective, CardPoint, ShuffleVerifies, RemaskVerifies;
    forall k | 0 <= k <= |os|
      ensures a[k] == a'[k] && b[k] == b'[k]
    {
      SameShuffles(t, hash, n, os, a, b, os', a', b', sc, rc, k);
      SameRemasks(t, hash, n, os, a, b, os', a', b', sc, rc, k);
    }
    SameShuffles(t, hash, n, os, a, b, os', a', b', sc, rc, |os|);
    SameRemasks(t, hash, n, os, a, b, os', a', b', sc, rc, |os|);
    forall k | 0 <= k < |os|
      ensures os[k] == os'[k]
    {
      assert os[k].global == os'[k].global && os[k].removed == os'[k].removed;
    }
  }

  // ----- what the final deck opens to -----

  /** The factor left on every card once all own scalars are stripped. */
  ghost function Residue(t: Table, os: seq<Opening>): (r: nat)
    requires forall k :: 0 <= k < |os| ==> ScalarOk(t, os[k].removed)
    ensures r < t.curve.order
  {
    ProductNatural(Inverses(t, os));
    ProductNatural(Put(os));
    (Product(Inverses(t, os)) * Product(Put(os))) % t.curve.order
  }

  /** Position Arrangement[i] opens, under everyone's own scalars, to the residue times card i. */
  lemma OpensTo(t: Table, hash: D.Hash, n: nat, os: seq<Opening>, a: seq<Deck>, b: seq<Deck>, sc: seq<Bytes>, rc: seq<Bytes>, i: int)
    requires Fair(t) && n < t.curve.order && Verified(t, hash, n, os, a, b, sc, rc) && OpeningsOk(t, n, os) && 0 <= i < n
    ensures AllOk(t, ShuffleSides(n, os), n) && |b[|os|]| == n
    ensures forall k :: 0 <= k < |os| ==> ScalarOk(t, os[k].removed)
    ensures var p := Arrangement(ShuffleSides(n, os), n)[i];
            && (forall k :: 0 <= k < |os| ==> p < |os[k].own|)
            && Strip(t, b[|os|][p], Owns(os, p)) == Some(Mul(t.curve, Residue(t, os), BaseDeck(t, n)[i]))
  {
    hide Mul, Fair, CardPoint, Verified, Strip, Residue, Arrangement, OpeningOk;
    Lengths(t, hash, n, os, a, b, sc, rc);
    var p := ShuffledPoint(t, hash, n, os, a, b, sc, rc, i);
    var card := BaseDeck(t, n)[i];
    OpeningFacts(t, n, os, p);
    CardPointOk(t, i);
    VerifiedRemasks(t, hash, n, os, a, b, sc, rc, |os|, p);
    assert os[..|os|] == os;
    Residual(t, os, card);
    MaskedRaw(t, n, os, p, card);
  }

  lemma ShuffledPoint(t: Table, hash: D.Hash, n: nat, os: seq<Opening>, a: seq<Deck>, b: seq<Deck>, sc: seq<Bytes>, rc: seq<Bytes>, i: int)
    returns (p: nat)
    requires Fair(t) && n < t.curve.order && Verified(t, hash, n, os, a, b, sc, rc) && OpeningsOk(t, n, os) && 0 <= i < n
    ensures |b| == |os| + 1 && AllOk(t, ShuffleSides(n, os), n) && |b[0]| == n && p < n && p == Arrangement(ShuffleSides(n, os), n)[i]
    ensures Product(Put(os)) >= 0 && b[0][p] == Mul(t.curve, Product(Put(os)), BaseDeck(t, n)[i]) && OnCurve(t.curve, b[0][p])
  {
    hide Mul, Fair, CardPoint, Verified, OpeningOk, OnCurve;
    Lengths(t, hash, n, os, a, b, sc, rc);
    VerifiedShuffles(t, hash, n, os, a, b, sc, rc);
    p := Arrangement(ShuffleSides(n, os), n)[i];
    CardPointOk(t, i);
    StaysOnCurve(t, Product(Put(os)), BaseDeck(t, n)[i]);
  }

  lemma StaysOnCurve(t: Table, k: nat, p: Point)
    requires Fair(t) && OnCurve(t.curve, p)
    ensures OnCurve(t.curve, Mul(t.curve, k, p))
  {
    hide GroupLaw;
    MulOnCurve(t.curve, k, p);
  }

  lemma Residual(t: Table, os: seq<Opening>, card: Point)
    requires Fair(t) && OnCurve(t.curve, card) && forall k :: 0 <= k < |os| ==> ScalarOk(t, os[k].removed)
    ensures Product(Inverses(t, os)) >= 0 && Product(Put(os)) >= 0
    ensures Mul(t.curve, Product(Inverses(t, os)), Mul(t.curve, Product(Put(os)), card)) == Mul(t.curve, Residue(t, os), card)
  {
    hide GroupLaw, Mul;
    ProductNatural(Inverses(t, os));
    ProductNatural(Put(os));
    MulMul(t.curve, Product(Inverses(t, os)), Product(Put(os)), card);
    MulMod(t.curve, Product(Inverses(t, os)) * Product(Put(os)), card);
  }

  /** Stripping everyone's own scalars from a masked residue leaves the residue. */
  lemma MaskedRaw(t: Table, n: nat, os: seq<Opening>, p: nat, card: Point)
    requires Fair(t) && PointOk(t, card) && OpeningsOk(t, n, os) && p < n
    requires forall k :: 0 <= k < |os| ==> ScalarOk(t, os[k].removed) && p < |os[k].own|
    ensures Product(Owns(os, p)) >= 0
    ensures Strip(t, Mul(t.curve, Product(Owns(os, p)), Mul(t.curve, Residue(t, os), card)), Owns(os, p))
            == Some(Mul(t.curve, Residue(t, os), card))
  {
    hide Mul, GroupLaw, Residue;
    forall k | 0 <= k < |os|
      ensures ScalarOk(t, Owns(os, p)[k])
    {
      assert OpeningOk(t, n, os[k]);
    }
    ResidueOk(t, n, os);
    MaskSucceeds(t, card, Residue(t, os));
    StripAll(t, Mul(t.curve, Residue(t, os), card), Owns(os, p));
  }

  // ----- when the residue is one -----

  lemma {:induction false} ProductUnit(xs: seq<nat>, n: int)
    requires IsPrime(n) && n > 1 && forall k :: 0 <= k < |xs| ==> 0 < xs[k] < n
    ensures Product(xs) % n != 0
  {
    hide IsPrime;
    if xs == [] {
      ModSmall(1, n);
    } else {
      ProductUnit(xs[1..], n);
      ModSmall(xs[0], n);
      if Product(xs) % n == 0 { PrimeProduct(xs[0], Product(xs[1..]), n); }
    }
  }

  lemma InversesOk(t: Table, os: seq<Opening>)
    requires Fair(t) && forall k :: 0 <= k < |os| ==> ScalarOk(t, os[k].removed)
    ensures forall k :: 0 <= k < |os| ==> ScalarOk(t, Inverses(t, os)[k])
  {
    hide IsPrime, Quotient;
    forall k | 0 <= k < |os|
      ensures ScalarOk(t, Inverses(t, os)[k])
    {
      OrderIsPrime(t);
      InverseUndoes(t, os[k].removed);
    }
  }

  lemma ResidueOk(t: Table, n: nat, os: seq<Opening>)
    requires Fair(t) && OpeningsOk(t, n, os) && forall k :: 0 <= k < |os| ==> ScalarOk(t, os[k].removed)
    ensures ScalarOk(t, Residue(t, os))
  {
    hide IsPrime, Mul, Inverse;
    var q := t.curve.order;
    OrderIsPrime(t);
    InversesOk(t, os);
    ProductUnit(Inverses(t, os), q);
    forall k | 0 <= k < |os|
      ensures 0 < Put(os)[k] < q
    {
      assert OpeningOk(t, n, os[k]);
    }
    ProductUnit(Put(os), q);
    if Residue(t, os) == 0 { PrimeProduct(Product(Inverses(t, os)), Product(Put(os)), q); }
  }

  /** The inverses undo what was removed. */
  lemma {:induction false} InversesUndo(t: Table, os: seq<Opening>)
    requires IsPrime(t.curve.order) && forall k :: 0 <= k < |os| ==> ScalarOk(t, os[k].removed)
    ensures Cong(Product(Inverses(t, os)) * Product(Removed(os)), 1, t.curve.order)
  {
    hide IsPrime, Cong, Inverse;
    var q := t.curve.order;
    if os == [] {
      CongRefl(1, q);
    } else {
      InversesUndo(t, os[1..]);
      assert Inverses(t, os)[1..] == Inverses(t, os[1..]) && Removed(os)[1..] == Removed(os[1..]);
      var inv, r := Inverse(t, os[0].removed).value, os[0].removed;
      InverseUndoes(t, r);
      ModSmall(1, q);
      CongIffMod(inv * r, 1, q);
      var i', r' := Product(Inverses(t, os[1..])), Product(Removed(os[1..]));
      CongMul(inv * r, 1, i' * r', 1, q);
      Interchange(inv, r, i', r');
    }
  }

  lemma Interchange(a: int, b: int, c: int, d: int)
    ensures (a * b) * (c * d) == (a * c) * (b * d)
  {
  }

  /** The residue is one exactly when what was put on and what was taken off agree modulo the order. */
  lemma ResidueOne(t: Table, os: seq<Opening>)
    requires Fair(t) && forall k :: 0 <= k < |os| ==> ScalarOk(t, os[k].removed)
    ensures Residue(t, os) == 1 <==> Product(Put(os)) % t.curve.order == Product(Removed(os)) % t.curve.order
  {
    hide IsPrime, Cong, Inverse, Product;
    OrderIsPrime(t);
    var q := t.curve.order;
    var i, p, r := Product(Inverses(t, os)), Product(Put(os)), Product(Removed(os));
    InversesUndo(t, os);
    ModSmall(1, q);
    CongIffMod(i * p, 1, q);
    CongIffMod(p, r, q);
    if Cong(i * p, 1, q) {
      Reassociate(i, p, r);
      CongScale(i * p, 1, r, q);
      CongScale(i * r, 1, p, q);
      CongSym(p * (i * r), p, q);
      CongTrans(p, p * (i * r), r, q);
    }
    if Cong(p, r, q) {
      CongScale(p, r, i, q);
      CongTrans(i * p, i * r, 1, q);
    }
  }

  lemma Reassociate(i: int, p: int, r: int)
    ensures p * (i * r) == r * (i * p) && p * 1 == p && r * 1 == r
  {
  }

  // ----- whole decks -----

  /** Position p of the final deck, under everyone's own scalars. */
  ghost function Opened(t: Table, final: Deck, os: seq<Opening>, p: int): Option<Point>
    requires 0 <= p < |final| && forall k :: 0 <= k < |os| ==> |os[k].own| == |final|
  {
    Strip(t, final[p], Owns(os, p))
  }

  ghost predicate LaidOut(t: Table, final: Deck, os: seq<Opening>, at: seq<int>)
    requires forall k :: 0 <= k < |os| ==> |os[k].own| == |final|
  {
    IsPermutation(at, |final|) && forall i :: 0 <= i < |final| ==> Opened(t, final, os, at[i]) == CardPoint(t, i)
  }

  /** Every card is at exactly one position. */
  ghost predicate Whole(t: Table, final: Deck, os: seq<Opening>)
    requires forall k :: 0 <= k < |os| ==> |os[k].own| == |final|
  {
    exists at :: LaidOut(t, final, os, at)
  }

  lemma ResidueCard(t: Table, r: nat, i: nat)
    requires Fair(t) && i + 1 < t.curve.order
    ensures r * (i + 1) >= 0 && CardPoint(t, i).Some?
    ensures Mul(t.curve, r, CardPoint(t, i).value) == Mul(t.curve, r * (i + 1), t.generator)
  {
    hide GroupLaw, Mul;
    MulMul(t.curve, r, i + 1, t.generator);
  }

  /** If position i of a laid-out deck is card j, the residue times i + 1 is j + 1. */
  lemma ResidueAt(t: Table, r: nat, i: nat, j: nat)
    requires Fair(t) && i + 1 < t.curve.order && j + 1 < t.curve.order && 0 <= r * (i + 1) < t.curve.order
    requires CardPoint(t, i).Some? && Some(Mul(t.curve, r, CardPoint(t, i).value)) == CardPoint(t, j)
    ensures r * (i + 1) == j + 1
  {
    hide GroupLaw, Mul;
    ResidueCard(t, r, i);
    MulInjective(t.curve, r * (i + 1), j + 1, t.generator);
  }

  lemma AtMostSquare(r: int, n: int)
    requires 0 < r <= n
    ensures 0 < r * n <= n * n && (r * n <= n ==> r == 1)
  {
    assert (n - r) * n >= 0;
    assert r * n == n + (r - 1) * n;
  }

  /** A deck whose positions all open to cards leaves no room for a residue but one. */
  lemma NoOtherResidue(t: Table, n: nat, final: Deck, os: seq<Opening>, arr: seq<int>, at: seq<int>, r: nat)
    requires Fair(t) && 1 <= n && n * n < t.curve.order && n < t.curve.order && |final| == n && 0 < r < t.curve.order
    requires (forall k :: 0 <= k < |os| ==> |os[k].own| == |final|) && LaidOut(t, final, os, at) && IsPermutation(arr, n)
    requires forall i :: 0 <= i < n ==> Opened(t, final, os, arr[i]) == Some(Mul(t.curve, r, BaseDeck(t, n)[i]))
    ensures r == 1
  {
    hide Mul, Fair, CardPoint, Opened;
    var j := Preimage(at, arr[0]);
    assert Opened(t, final, os, at[j]) == CardPoint(t, j);
    assert CardPoint(t, 0) == Some(BaseDeck(t, n)[0]);
    assert r * (0 + 1) == r;
    ResidueAt(t, r, 0, j);
    AtMostSquare(r, n);
    var k := Preimage(at, arr[n - 1]);
    assert Opened(t, final, os, at[k]) == CardPoint(t, k);
    assert CardPoint(t, n - 1) == Some(BaseDeck(t, n)[n - 1]);
    assert r * (n - 1 + 1) == r * n;
    ResidueAt(t, r, n - 1, k);
  }

  lemma OneLaysOut(t: Table, n: nat, final: Deck, os: seq<Opening>, arr: seq<int>)
    requires n < t.curve.order && |final| == n && IsPermutation(arr, n)
    requires forall k :: 0 <= k < |os| ==> |os[k].own| == |final|
    requires forall i :: 0 <= i < n ==> Opened(t, final, os, arr[i]) == Some(Mul(t.curve, 1, BaseDeck(t, n)[i]))
    ensures Whole(t, final, os)
  {
    hide Mul, CardPoint, Opened;
    forall i | 0 <= i < n
      ensures Opened(t, final, os, arr[i]) == CardPoint(t, i)
    {
      MulTwo(t.curve, BaseDeck(t, n)[i]);
      assert CardPoint(t, i) == Some(BaseDeck(t, n)[i]);
    }
    assert LaidOut(t, final, os, arr);
  }

  lemma OwnSizes(t: Table, n: nat, os: seq<Opening>)
    requires OpeningsOk(t, n, os)
    ensures forall k :: 0 <= k < |os| ==> |os[k].own| == n && ScalarOk(t, os[k].removed)
  {
    forall k | 0 <= k < |os|
      ensures |os[k].own| == n && ScalarOk(t, os[k].removed)
    {
      assert OpeningOk(t, n, os[k]);
    }
  }

  /** A deal whose every pass verifies holds every card exactly once if and only if the scalars the
      seats opened for their shuffles and for their remasks have the same product modulo the order. */
  lemma VerifiedIsWhole(t: Table, hash: D.Hash, n: nat, os: seq<Opening>, a: seq<Deck>, b: seq<Deck>, sc: seq<Bytes>, rc: seq<Bytes>)
    requires Fair(t) && 1 <= n && n * n < t.curve.order && n < t.curve.order && Verified(t, hash, n, os, a, b, sc, rc)
    ensures OpeningsOk(t, n, os) && |b[|os|]| == n && forall k :: 0 <= k < |os| ==> |os[k].own| == n
    ensures Whole(t, b[|os|], os) <==> Product(Put(os)) % t.curve.order == Product(Removed(os)) % t.curve.order
  {
    hide Mul, Fair, CardPoint, Verified, Strip, Product, Residue, Arrangement;
    VerifiedOpenings(t, hash, n, os, a, b, sc, rc);
    OwnSizes(t, n, os);
    Lengths(t, hash, n, os, a, b, sc, rc);
    OpensTo(t, hash, n, os, a, b, sc, rc, 0);
    ResidueOk(t, n, os);
    ResidueOne(t, os);
    var final, r := b[|os|], Residue(t, os);
    var arr := Arrangement(ShuffleSides(n, os), n);
    forall i | 0 <= i < n
      ensures Opened(t, final, os, arr[i]) == Some(Mul(t.curve, r, BaseDeck(t, n)[i]))
    {
      OpensTo(t, hash, n, os, a, b, sc, rc, i);
    }
    if r == 1 { OneLaysOut(t, n, final, os, arr); }
    if Whole(t, final, os) {
      var at :| LaidOut(t, final, os, at);
      NoOtherResidue(t, n, final, os, arr, at, r);
    }
  }

  lemma Lengths(t: Table, hash: D.Hash, n: nat, os: seq<Opening>, a: seq<Deck>, b: seq<Deck>, sc: seq<Bytes>, rc: seq<Bytes>)
    requires n < t.curve.order && Verified(t, hash, n, os, a, b, sc, rc)
    ensures |a| == |b| == |os| + 1
  {
  }

  /** In particular seats that take off the scalar they put on always leave a whole deck. */
  lemma HonestGlobalsWhole(t: Table, hash: D.Hash, n: nat, os: seq<Opening>, a: seq<Deck>, b: seq<Deck>, sc: seq<Bytes>, rc: seq<Bytes>)
    requires Fair(t) && 1 <= n && n * n < t.curve.order && n < t.curve.order && Verified(t, hash, n, os, a, b, sc, rc)
    requires forall k :: 0 <= k < |os| ==> os[k].removed == os[k].global
    ensures |b| == |os| + 1 && (forall k :: 0 <= k < |os| ==> |os[k].own| == |b[|os|]|) && Whole(t, b[|os|], os)
  {
    hide Fair, Verified, Whole;
    Lengths(t, hash, n, os, a, b, sc, rc);
    VerifiedIsWhole(t, hash, n, os, a, b, sc, rc);
    assert Put(os) == Removed(os);
  }

  // ----- a deal that verifies and is not whole -----

  function Identity(n: nat): seq<int> { seq(n, i => i) }

  /** Puts one scalar on every card and takes another off, moving nothing. */
  function Passing(put: nat, taken: nat, n: nat): Opening { Opening(put, Identity(n), taken, Flat(1, n)) }

  /** The first seat puts 2 on and takes 1 off; the second does neither. */
  function Doubling(n: nat): seq<Opening> { [Passing(2, 1, n), Passing(1, 1, n)] }

  function Multiplied(t: Table, d: Deck, k: nat): (r: Deck)
    ensures |r| == |d|
  {
    seq(|d|, i requires 0 <= i < |d| => Mul(t.curve, k, d[i]))
  }

  /** What a passing seat makes of a deck verifies against its own commitments. */
  lemma PassingVerifies(t: Table, hash: D.Hash, d: Deck, put: nat)
    requires Fair(t) && DeckOk(t, d) && |d| > 0 && ScalarOk(t, put)
    ensures var o := Passing(put, 1, |d|);
            && ShuffleVerifies(t, hash, d, Multiplied(t, d, put), put, o.perm, hash(Encoded(ShuffleFields(put, o.perm))))
            && DeckOk(t, Multiplied(t, d, put))
  {
    hide Mul, GroupLaw, Encoded;
    forall i | 0 <= i < |d|
      ensures PointOk(t, Multiplied(t, d, put)[i])
    {
      assert PointOk(t, d[i]);
      MaskSucceeds(t, d[i], put);
    }
  }

  function Unpassed(t: Table, d: Deck): (r: Deck)
    requires ScalarOk(t, 1)
    ensures |r| == |d|
  {
    Multiplied(t, Multiplied(t, d, Inverse(t, 1).value), 1)
  }

  lemma UnpassingVerifies(t: Table, hash: D.Hash, d: Deck)
    requires Fair(t) && DeckOk(t, d) && |d| > 0
    ensures ScalarOk(t, 1) && RemaskVerifies(t, hash, d, Unpassed(t, d), 1, Flat(1, |d|), hash(Encoded(RemaskFields(1, Flat(1, |d|)))))
    ensures DeckOk(t, Unpassed(t, d))
  {
    hide Mul, GroupLaw, Encoded, IsPrime;
    OrderIsPrime(t);
    InverseUndoes(t, 1);
    forall i | 0 <= i < |d|
      ensures PointOk(t, Unpassed(t, d)[i])
    {
      assert PointOk(t, d[i]);
      MaskSucceeds(t, d[i], Inverse(t, 1).value);
      MaskSucceeds(t, Mul(t.curve, Inverse(t, 1).value, d[i]), 1);
    }
  }

  /** Every pass of a two-seat deal verifies, one seat having put 2 on and taken 1 off, and the deck
      is not whole. */
  lemma VerifiedButNotWhole(t: Table, hash: D.Hash, n: nat) returns (a: seq<Deck>, b: seq<Deck>, sc: seq<Bytes>, rc: seq<Bytes>)
    requires Fair(t) && 1 <= n && n * n < t.curve.order && n < t.curve.order
    ensures Verified(t, hash, n, Doubling(n), a, b, sc, rc) && |b[2]| == n && !Whole(t, b[2], Doubling(n))
  {
    hide Mul, CardPoint, Whole, Encoded, Strip, GroupLaw, Inverse, ShuffleVerifies, RemaskVerifies, ShuffleFields, RemaskFields;
    var os, base := Doubling(n), BaseDeck(t, n);
    BaseDeckOk(t, n);
    PassingVerifies(t, hash, base, 2);
    var mid := Multiplied(t, base, 2);
    PassingVerifies(t, hash, mid, 1);
    var top := Multiplied(t, mid, 1);
    UnpassingVerifies(t, hash, top);
    var low := Unpassed(t, top);
    UnpassingVerifies(t, hash, low);
    a, b := [base, mid, top], [top, low, Unpassed(t, low)];
    sc := [hash(Encoded(ShuffleFields(2, Identity(n)))), hash(Encoded(ShuffleFields(1, Identity(n))))];
    rc := [hash(Encoded(RemaskFields(1, Flat(1, n)))), hash(Encoded(RemaskFields(1, Flat(1, n))))];
    assert Verified(t, hash, n, os, a, b, sc, rc);
    VerifiedIsWhole(t, hash, n, os, a, b, sc, rc);
    DoublingProducts(n);
    ModSmall(2, t.curve.order);
    ModSmall(1, t.curve.order);
  }

  lemma DoublingProducts(n: nat)
    ensures Product(Put(Doubling(n))) == 2 && Product(Removed(Doubling(n))) == 1
  {
    var p, r := [2 as int, 1 as int], [1 as int, 1 as int];
    assert Put(Doubling(n)) == p && Removed(Doubling(n)) == r;
    assert p[1..] == [1] && r[1..] == [1] && [1 as int][1..] == [];
    assert Product([1 as int]) == 1;
  }
}
