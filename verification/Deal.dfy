/**
 The dealerless deal: after every seat has shuffled and then remasked, each position holds one card
 under one scalar of every seat, and the scalars take it off in any order.
 */
module Deal {
  import opened Modular
  import opened Curve
  import opened Options
  import opened MentalPoker

  /** What a seat generates, and commits to, before the deal. */
  datatype Secrets = Secrets(deckSize: int, global: nat, perm: seq<int>, own: seq<nat>)

  ghost predicate SecretsOk(t: Table, s: Secrets) {
    ScalarOk(t, s.global) && IsPermutation(s.perm, s.deckSize) && |s.own| == s.deckSize && ScalarsOk(t, s.own)
  }

  ghost predicate AllOk(t: Table, ss: seq<Secrets>, n: int) {
    forall k :: 0 <= k < |ss| ==> SecretsOk(t, ss[k]) && ss[k].deckSize == n
  }

  /** The public starting deck. */
  function BaseDeck(t: Table, n: nat): (d: Deck)
    requires n < t.curve.order
    ensures |d| == n && forall i :: 0 <= i < n ==> CardPoint(t, i) == Some(d[i])
  {
    seq(n, i requires 0 <= i < n => CardPoint(t, i).value)
  }

  lemma BaseDeckOk(t: Table, n: nat)
    requires Fair(t) && n < t.curve.order
    ensures DeckOk(t, BaseDeck(t, n))
  {
    hide Fair, PointOk, CardPoint;
    forall i | 0 <= i < n
      ensures PointOk(t, BaseDeck(t, n)[i])
    {
      CardPointOk(t, i);
    }
  }

  /** Where the cards end up: entry i is the position of card i after all the permutations. */
  ghost function Arrangement(ss: seq<Secrets>, n: nat): (a: seq<int>)
    requires forall k :: 0 <= k < |ss| ==> IsPermutation(ss[k].perm, n)
    ensures IsPermutation(a, n)
  {
    if ss == [] then seq(n, i => i)
    else
      var a := Arrangement(ss[..|ss| - 1], n);
      Moved(a, ss[|ss| - 1].perm);
      Then(a, ss[|ss| - 1].perm)
  }

  function Then(a: seq<int>, p: seq<int>): (r: seq<int>)
    requires forall i :: 0 <= i < |a| ==> 0 <= a[i] < |p|
  {
    seq(|a|, i requires 0 <= i < |a| => p[a[i]])
  }

  lemma Moved(a: seq<int>, p: seq<int>)
    requires IsPermutation(a, |a|) && IsPermutation(p, |a|)
    ensures IsPermutation(Then(a, p), |a|)
  {
    forall i, j | 0 <= i < j < |a|
      ensures Then(a, p)[i] != Then(a, p)[j]
    {
      assert a[i] != a[j];
    }
  }

  function Globals(ss: seq<Secrets>): (g: seq<nat>) {
    seq(|ss|, k requires 0 <= k < |ss| => ss[k].global)
  }

  /** Every seat's scalar for one position. */
  function OwnAt(ss: seq<Secrets>, p: nat): (o: seq<nat>)
    requires forall k :: 0 <= k < |ss| ==> p < |ss[k].own|
  {
    seq(|ss|, k requires 0 <= k < |ss| => ss[k].own[p])
  }

  lemma ProductNatural(xs: seq<nat>)
    ensures Product(xs) >= 0
  {
    if xs != [] { ProductNatural(xs[1..]); }
  }

  lemma ProductSnoc(xs: seq<nat>, x: nat)
    ensures Product(xs + [x]) == x * Product(xs)
  {
    var all := xs + [x];
    ProductRemove(all, |xs|);
    assert all[..|xs|] + all[|xs| + 1..] == xs;
  }

  // ----- the two passes -----

  ghost predicate ShufflePass(t: Table, s: Secrets, d: Deck, d': Deck) {
    IsPermutation(s.perm, |d|) && Shuffled(t, d, s.global, s.perm, d')
  }

  ghost predicate RemaskPass(t: Table, s: Secrets, d: Deck, d': Deck) {
    |s.own| == |d| && ScalarOk(t, s.global) && Remasked(t, d, s.global, s.own, d')
  }

  /** decks[k] is the deck before seat k shuffles. */
  ghost predicate ShuffleChain(t: Table, ss: seq<Secrets>, decks: seq<Deck>) {
    |decks| == |ss| + 1 && forall k :: 0 <= k < |ss| ==> ShufflePass(t, ss[k], decks[k], decks[k + 1])
  }

  ghost predicate RemaskChain(t: Table, ss: seq<Secrets>, decks: seq<Deck>) {
    |decks| == |ss| + 1 && forall k :: 0 <= k < |ss| ==> RemaskPass(t, ss[k], decks[k], decks[k + 1])
  }

  /** Position arr[i] of d holds card i multiplied by what mask says for that position. */
  ghost predicate Holds(t: Table, d: Deck, arr: seq<int>, mask: seq<nat>)
    requires |arr| < t.curve.order
  {
    && IsPermutation(arr, |d|) && |mask| == |d|
    && forall i :: 0 <= i < |d| ==> d[arr[i]] == Mul(t.curve, mask[arr[i]], BaseDeck(t, |d|)[i])
  }

  function Flat(x: nat, n: nat): seq<nat> { seq(n, i => x) }

  lemma ShuffleOnce(t: Table, s: Secrets, d: Deck, d': Deck, arr: seq<int>, x: nat)
    requires Fair(t) && |arr| < t.curve.order && ShufflePass(t, s, d, d') && Holds(t, d, arr, Flat(x, |d|))
    ensures IsPermutation(Then(arr, s.perm), |d'|) && s.global * x >= 0
    ensures Holds(t, d', Then(arr, s.perm), Flat(s.global * x, |d'|))
  {
    hide GroupLaw, Mul, CardPoint;
    Moved(arr, s.perm);
    BaseDeckOk(t, |d|);
    var arr' := Then(arr, s.perm);
    forall i | 0 <= i < |d|
      ensures d'[arr'[i]] == Mul(t.curve, s.global * x, BaseDeck(t, |d|)[i])
    {
      assert d'[s.perm[arr[i]]] == Mul(t.curve, s.global, d[arr[i]]);
      assert PointOk(t, BaseDeck(t, |d|)[i]);
      MulMul(t.curve, s.global, x, BaseDeck(t, |d|)[i]);
    }
  }

  lemma {:induction false} ShuffleAll(t: Table, ss: seq<Secrets>, decks: seq<Deck>, n: nat)
    requires Fair(t) && n < t.curve.order && AllOk(t, ss, n) && ShuffleChain(t, ss, decks) && decks[0] == BaseDeck(t, n)
    ensures Product(Globals(ss)) >= 0 && |decks[|ss|]| == n
    ensures Holds(t, decks[|ss|], Arrangement(ss, n), Flat(Product(Globals(ss)), n))
  {
    hide GroupLaw, Mul, CardPoint, Shuffled;
    ProductNatural(Globals(ss));
    if ss == [] {
      forall i | 0 <= i < n
        ensures BaseDeck(t, n)[i] == Mul(t.curve, 1, BaseDeck(t, n)[i])
      {
        MulTwo(t.curve, BaseDeck(t, n)[i]);
      }
    } else {
      var m := |ss| - 1;
      var before := ss[..m];
      assert decks[..m + 1][0] == decks[0];
      ChainPrefix(t, ss, decks);
      ShuffleAll(t, before, decks[..m + 1], n);
      assert ShufflePass(t, ss[m], decks[m], decks[m + 1]);
      assert decks[..m + 1][m] == decks[m];
      ProductNatural(Globals(before));
      ShuffledSize(t, ss[m], decks[m], decks[m + 1]);
      ShuffleOnce(t, ss[m], decks[m], decks[m + 1], Arrangement(before, n), Product(Globals(before)));
      assert Globals(ss) == Globals(before) + [ss[m].global];
      ProductSnoc(Globals(before), ss[m].global);
    }
  }

  lemma ShuffledSize(t: Table, s: Secrets, d: Deck, d': Deck)
    requires ShufflePass(t, s, d, d')
    ensures |d'| == |d|
  {
  }

  lemma ChainPrefix(t: Table, ss: seq<Secrets>, decks: seq<Deck>)
    requires ss != [] && ShuffleChain(t, ss, decks)
    ensures ShuffleChain(t, ss[..|ss| - 1], decks[..|ss|])
  {
    hide ShufflePass;
    var m := |ss| - 1;
    forall k | 0 <= k < m
      ensures ShufflePass(t, ss[..m][k], decks[..m + 1][k], decks[..m + 1][k + 1])
    {
      assert ShufflePass(t, ss[k], decks[k], decks[k + 1]);
    }
  }

  /** Taking one global off and putting one scalar on, position by position. */
  lemma RemaskPoint(t: Table, card: Point, global: nat, rest: nat, own: nat)
    requires Fair(t) && PointOk(t, card) && ScalarOk(t, global) && ScalarOk(t, own)
    ensures global * rest >= 0 && own * rest >= 0
    ensures Mul(t.curve, own, Mul(t.curve, Inverse(t, global).value, Mul(t.curve, global * rest, card)))
            == Mul(t.curve, own * rest, card)
  {
    hide GroupLaw, Mul, IsPrime;
    OrderIsPrime(t);
    InverseUndoes(t, global);
    MulMul(t.curve, global, rest, card);
    MulOnCurve(t.curve, rest, card);
    MulUndo(t.curve, global, Inverse(t, global).value, Mul(t.curve, rest, card));
    MulMul(t.curve, own, rest, card);
  }

  /** The mask on every position when the first m seats have remasked: the others' globals and the
      first m seats' own scalars. */
  ghost function MaskAfter(ss: seq<Secrets>, m: nat, n: nat): (r: seq<nat>)
    requires m <= |ss| && forall k :: 0 <= k < |ss| ==> |ss[k].own| == n
    ensures |r| == n
  {
    seq(n, p requires 0 <= p < n => MaskAt(ss, m, p))
  }

  ghost function MaskAt(ss: seq<Secrets>, m: nat, p: nat): (r: nat)
    requires m <= |ss| && forall k :: 0 <= k < |ss| ==> p < |ss[k].own|
  {
    ProductNatural(Globals(ss[m..]));
    ProductNatural(OwnAt(ss[..m], p));
    Product(Globals(ss[m..])) * Product(OwnAt(ss[..m], p))
  }

  /** Before seat m remasks its global is a factor; afterwards its own scalar is. */
  lemma MaskStep(ss: seq<Secrets>, m: nat, p: nat) returns (rest: nat)
    requires m < |ss| && forall k :: 0 <= k < |ss| ==> p < |ss[k].own|
    ensures MaskAt(ss, m, p) == ss[m].global * rest && MaskAt(ss, m + 1, p) == ss[m].own[p] * rest
  {
    var g, o := Product(Globals(ss[m + 1..])), Product(OwnAt(ss[..m], p));
    ProductNatural(Globals(ss[m + 1..]));
    ProductNatural(OwnAt(ss[..m], p));
    rest := g * o;
    assert Globals(ss[m..])[1..] == Globals(ss[m + 1..]);
    assert OwnAt(ss[..m + 1], p) == OwnAt(ss[..m], p) + [ss[m].own[p]];
    ProductSnoc(OwnAt(ss[..m], p), ss[m].own[p]);
    Rearrange(ss[m].global, ss[m].own[p], g, o);
  }

  lemma Rearrange(a: int, b: int, g: int, o: int)
    ensures (a * g) * o == a * (g * o) && g * (b * o) == b * (g * o)
  {
  }

  lemma RemaskOnce(t: Table, ss: seq<Secrets>, m: nat, d: Deck, d': Deck, arr: seq<int>, n: nat)
    requires Fair(t) && n < t.curve.order && AllOk(t, ss, n) && m < |ss| && |arr| == |d| == n
    requires RemaskPass(t, ss[m], d, d') && Holds(t, d, arr, MaskAfter(ss, m, n))
    ensures |d'| == n && Holds(t, d', arr, MaskAfter(ss, m + 1, n))
  {
    hide GroupLaw, Mul, CardPoint, MaskAt;
    BaseDeckOk(t, n);
    forall i | 0 <= i < n
      ensures d'[arr[i]] == Mul(t.curve, MaskAt(ss, m + 1, arr[i]), BaseDeck(t, n)[i])
    {
      var p := arr[i];
      var rest := MaskStep(ss, m, p);
      assert PointOk(t, BaseDeck(t, n)[i]);
      assert d[arr[i]] == Mul(t.curve, MaskAfter(ss, m, n)[p], BaseDeck(t, n)[i]);
      RemaskPoint(t, BaseDeck(t, n)[i], ss[m].global, rest, ss[m].own[p]);
    }
  }

  lemma {:induction false} RemaskAll(t: Table, ss: seq<Secrets>, decks: seq<Deck>, arr: seq<int>, n: nat, m: nat)
    requires Fair(t) && n < t.curve.order && AllOk(t, ss, n) && m <= |ss|
    requires RemaskChain(t, ss, decks) && |arr| == |decks[0]| == n && Holds(t, decks[0], arr, MaskAfter(ss, 0, n))
    ensures |decks[m]| == n && Holds(t, decks[m], arr, MaskAfter(ss, m, n))
  {
    hide GroupLaw, Holds, MaskAfter;
    if m > 0 {
      RemaskAll(t, ss, decks, arr, n, m - 1);
      assert RemaskPass(t, ss[m - 1], decks[m - 1], decks[m - 1 + 1]);
      RemaskOnce(t, ss, m - 1, decks[m - 1], decks[m], arr, n);
    }
  }

  /** The two passes together, from the base deck to the final one. */
  ghost predicate Dealt(t: Table, ss: seq<Secrets>, n: nat, final: Deck)
    requires n < t.curve.order
  {
    exists a, b :: Chained(t, ss, n, final, a, b)
  }

  ghost predicate Chained(t: Table, ss: seq<Secrets>, n: nat, final: Deck, a: seq<Deck>, b: seq<Deck>)
    requires n < t.curve.order
  {
    && ShuffleChain(t, ss, a) && a[0] == BaseDeck(t, n)
    && RemaskChain(t, ss, b) && b[0] == a[|ss|] && b[|ss|] == final
  }

  /** Position by position, the final deck is the product of every seat's own scalar times one card,
      arranged by the composed permutation. */
  lemma FinalDeck(t: Table, ss: seq<Secrets>, n: nat, final: Deck, i: int)
    requires Fair(t) && n < t.curve.order && AllOk(t, ss, n) && Dealt(t, ss, n, final) && 0 <= i < n
    ensures |final| == n
    ensures var p := Arrangement(ss, n)[i];
            && Product(OwnAt(ss, p)) >= 0
            && final[p] == Mul(t.curve, Product(OwnAt(ss, p)), BaseDeck(t, n)[i])
  {
    hide GroupLaw, Mul, CardPoint, ShuffleChain, RemaskChain;
    var a, b :| Chained(t, ss, n, final, a, b);
    ChainLengths(t, ss, a, b);
    ShuffleAll(t, ss, a, n);
    MaskEnds(ss, n);
    var arr := Arrangement(ss, n);
    RemaskAll(t, ss, b, arr, n, |ss|);
    ProductNatural(OwnAt(ss, arr[i]));
  }

  lemma ChainLengths(t: Table, ss: seq<Secrets>, a: seq<Deck>, b: seq<Deck>)
    requires ShuffleChain(t, ss, a) && RemaskChain(t, ss, b)
    ensures |a| == |b| == |ss| + 1
  {
  }

  lemma MaskEnds(ss: seq<Secrets>, n: nat)
    requires forall k :: 0 <= k < |ss| ==> |ss[k].own| == n
    ensures Product(Globals(ss)) >= 0 && MaskAfter(ss, 0, n) == Flat(Product(Globals(ss)), n)
    ensures forall p :: 0 <= p < n ==> MaskAfter(ss, |ss|, n)[p] == Product(OwnAt(ss, p))
  {
    ProductNatural(Globals(ss));
    assert ss[0..] == ss && ss[..|ss|] == ss && ss[..0] == [] && ss[|ss|..] == [];
    forall p | 0 <= p < n
      ensures MaskAt(ss, 0, p) == Product(Globals(ss)) && MaskAt(ss, |ss|, p) == Product(OwnAt(ss, p))
    {
      assert OwnAt(ss[..0], p) == [] && Globals(ss[|ss|..]) == [];
    }
  }

  // ----- reading -----

  /** The card at a position. */
  ghost function CardAt(ss: seq<Secrets>, n: nat, p: int): (i: int)
    requires (forall k :: 0 <= k < |ss| ==> IsPermutation(ss[k].perm, n)) && 0 <= p < n
    ensures 0 <= i < n && Arrangement(ss, n)[i] == p
  {
    assert exists i :: 0 <= i < n && Arrangement(ss, n)[i] == p by {
      var i := Preimage(Arrangement(ss, n), p);
    }
    var i :| 0 <= i < n && Arrangement(ss, n)[i] == p;
    i
  }

  /** Different positions hold different cards. */
  lemma CardsDiffer(ss: seq<Secrets>, n: nat, p: int, q: int)
    requires (forall k :: 0 <= k < |ss| ==> IsPermutation(ss[k].perm, n)) && 0 <= p < n && 0 <= q < n && p != q
    ensures CardAt(ss, n, p) != CardAt(ss, n, q)
  {
  }

  /** With every seat's scalar for a position, in any order, the position opens to its card. */
  lemma ReadsCard(t: Table, ss: seq<Secrets>, n: nat, final: Deck, p: int, scalars: seq<nat>)
    requires Fair(t) && n < t.curve.order && AllOk(t, ss, n) && Dealt(t, ss, n, final) && 0 <= p < n
    requires multiset(scalars) == multiset(OwnAt(ss, p))
    ensures |final| == n && Strip(t, final[p], scalars) == CardPoint(t, CardAt(ss, n, p))
  {
    hide GroupLaw, Mul, CardPoint, Dealt;
    var i := CardAt(ss, n, p);
    FinalDeck(t, ss, n, final, i);
    ProductPermuted(scalars, OwnAt(ss, p));
    BaseDeckOk(t, n);
    SameScalars(t, ss, n, p, scalars);
    StripAll(t, BaseDeck(t, n)[i], scalars);
  }

  lemma SameScalars(t: Table, ss: seq<Secrets>, n: nat, p: int, scalars: seq<nat>)
    requires AllOk(t, ss, n) && 0 <= p < n && multiset(scalars) == multiset(OwnAt(ss, p))
    ensures ScalarsOk(t, scalars)
  {
    forall k | 0 <= k < |scalars|
      ensures ScalarOk(t, scalars[k])
    {
      assert scalars[k] in multiset(scalars);
      assert scalars[k] in multiset(OwnAt(ss, p));
      assert scalars[k] in OwnAt(ss, p);
      var m :| 0 <= m < |ss| && OwnAt(ss, p)[m] == scalars[k];
      assert SecretsOk(t, ss[m]);
    }
  }

  lemma {:induction false} ProductConcat(a: seq<nat>, b: seq<nat>)
    ensures Product(a + b) == Product(a) * Product(b)
  {
    if a == [] {
      assert a + b == b;
    } else {
      ProductConcat(a[1..], b);
      assert (a + b)[1..] == a[1..] + b;
      Rearrange(a[0], 0, Product(a[1..]), Product(b));
    }
  }

  /** When scalars are missing, a position opens to its card times their product. */
  lemma PartialStrips(t: Table, ss: seq<Secrets>, n: nat, final: Deck, p: int, scalars: seq<nat>, missing: seq<nat>)
    requires Fair(t) && n < t.curve.order && AllOk(t, ss, n) && Dealt(t, ss, n, final) && 0 <= p < n
    requires multiset(scalars + missing) == multiset(OwnAt(ss, p))
    ensures |final| == n && Product(missing) >= 0
    ensures Strip(t, final[p], scalars) == Some(Mul(t.curve, Product(missing), BaseDeck(t, n)[CardAt(ss, n, p)]))
  {
    hide GroupLaw, Mul, CardPoint, Dealt, IsPrime, Strip, OnCurve;
    var i := CardAt(ss, n, p);
    FinalDeck(t, ss, n, final, i);
    ProductPermuted(scalars + missing, OwnAt(ss, p));
    SameScalars(t, ss, n, p, scalars + missing);
    SplitScalars(t, scalars, missing);
    BaseDeckOk(t, n);
    hide AllOk, CardAt;
    MaskedStrips(t, BaseDeck(t, n)[i], scalars, missing);
  }

  lemma MaskedStrips(t: Table, card: Point, scalars: seq<nat>, missing: seq<nat>)
    requires Fair(t) && PointOk(t, card) && ScalarsOk(t, scalars) && ScalarsOk(t, missing)
    ensures Product(missing) >= 0 && Product(scalars + missing) >= 0
    ensures Strip(t, Mul(t.curve, Product(scalars + missing), card), scalars) == Some(Mul(t.curve, Product(missing), card))
  {
    hide GroupLaw, Mul, OnCurve, Strip;
    ProductConcat(scalars, missing);
    ProductNatural(scalars);
    MaskedOk(t, card, missing);
    MulMul(t.curve, Product(scalars), Product(missing), card);
    StripAll(t, Mul(t.curve, Product(missing), card), scalars);
  }

  /** So it is read as card j if and only if that product takes the true card to j: without every
      scalar a card is read truly only where the missing ones cancel. */
  lemma PartialOpens(t: Table, ss: seq<Secrets>, n: nat, final: Deck, p: int, scalars: seq<nat>, missing: seq<nat>, j: int)
    requires Fair(t) && n < t.curve.order && AllOk(t, ss, n) && Dealt(t, ss, n, final) && 0 <= p < n
    requires multiset(scalars + missing) == multiset(OwnAt(ss, p)) && 0 <= j < t.curve.order - 1
    ensures |final| == n && (Strip(t, final[p], scalars) == CardPoint(t, j) <==> (Product(missing) * (CardAt(ss, n, p) + 1)) % t.curve.order == j + 1)
  {
    hide GroupLaw, Mul, CardPoint, Dealt, IsPrime, Strip;
    var i := CardAt(ss, n, p);
    PartialStrips(t, ss, n, final, p, scalars, missing);
    hide AllOk, CardAt;
    MultipleIsCard(t, Product(missing), i, j);
  }

  lemma SplitScalars(t: Table, a: seq<nat>, b: seq<nat>)
    requires ScalarsOk(t, a + b)
    ensures ScalarsOk(t, a) && ScalarsOk(t, b)
  {
    assert forall k :: 0 <= k < |a| ==> (a + b)[k] == a[k];
    assert forall k :: 0 <= k < |b| ==> (a + b)[|a| + k] == b[k];
  }

  /** A multiple of one card is another exactly when the numbers say so. */
  lemma MultipleIsCard(t: Table, m: nat, i: int, j: int)
    requires Fair(t) && 0 <= i < t.curve.order - 1 && 0 <= j < t.curve.order - 1
    ensures CardPoint(t, i).Some? && m * (i + 1) >= 0
    ensures Some(Mul(t.curve, m, CardPoint(t, i).value)) == CardPoint(t, j) <==> (m * (i + 1)) % t.curve.order == j + 1
  {
    hide GroupLaw, Mul, IsPrime;
    MulMul(t.curve, m, i + 1, t.generator);
    MulMod(t.curve, m * (i + 1), t.generator);
    var r := (m * (i + 1)) % t.curve.order;
    if Mul(t.curve, r, t.generator) == Mul(t.curve, j + 1, t.generator) { MulInjective(t.curve, r, j + 1, t.generator); }
  }
}
