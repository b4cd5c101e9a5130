/** Commitments to the two passes of a deal: length-prefixed fields under one hash. */
module Commitments {
  import opened ScriptBytes
  import opened Modular
  import opened Curve
  import opened Options
  import opened MentalPoker
  import D = Dleq

  type Bytes = seq<byte>

  // ----- length-prefixed fields -----

  function Field(b: Bytes): Bytes { D.ToBigEndian(|b|, 8) + b }

  function Encoded(fields: seq<Bytes>): Bytes {
    if fields == [] then [] else Field(fields[0]) + Encoded(fields[1..])
  }

  ghost predicate Short(fields: seq<Bytes>) {
    forall i :: 0 <= i < |fields| ==> |fields[i]| < Pow2(64)
  }

  lemma FieldDetermined(a: Bytes, b: Bytes, x: Bytes, y: Bytes)
    requires |a| < Pow2(64) && |b| < Pow2(64) && Field(a) + x == Field(b) + y
    ensures a == b && x == y
  {
    hide Pow2;
    var s, t := Field(a) + x, Field(b) + y;
    assert D.ToBigEndian(|a|, 8) == s[..8] == t[..8] == D.ToBigEndian(|b|, 8);
    D.BigEndianRoundTrip(|a|, 8);
    D.BigEndianRoundTrip(|b|, 8);
    assert a == s[8..8 + |a|] && b == t[8..8 + |b|];
    assert x == s[8 + |a|..] && y == t[8 + |b|..];
  }

  /** Different lists of fields never encode alike. */
  lemma {:induction false} EncodedInjective(fs: seq<Bytes>, gs: seq<Bytes>)
    requires Short(fs) && Short(gs) && Encoded(fs) == Encoded(gs)
    ensures fs == gs
  {
    assert |fs| > 0 ==> |Encoded(fs)| >= 8;
    assert |gs| > 0 ==> |Encoded(gs)| >= 8;
    if |fs| > 0 && |gs| > 0 {
      FieldDetermined(fs[0], gs[0], Encoded(fs[1..]), Encoded(gs[1..]));
      EncodedInjective(fs[1..], gs[1..]);
      assert fs == [fs[0]] + fs[1..] && gs == [gs[0]] + gs[1..];
    }
  }

  lemma {:induction false} EncodedSnoc(fs: seq<Bytes>, f: Bytes)
    ensures Encoded(fs + [f]) == Encoded(fs) + Field(f)
  {
    if fs == [] {
      assert fs + [f] == [f] && [f][1..] == [];
    } else {
      EncodedSnoc(fs[1..], f);
      assert (fs + [f])[1..] == fs[1..] + [f];
    }
  }

  /** Accumulates fields and hashes them, each behind its length. */
  class Hasher {
    const hash: D.Hash
    var parts: seq<Bytes>
    ghost var fields: seq<Bytes>

    ghost predicate Valid()
      reads this
    {
      Joined(parts) == Encoded(fields)
    }

    constructor (h: D.Hash)
      ensures Valid() && hash == h && fields == []
    {
      hash, parts, fields := h, [], [];
    }

    method Add(b: Bytes)
      requires Valid()
      modifies this`parts, this`fields
      ensures Valid() && fields == old(fields) + [b]
    {
      hide D.ToBigEndian, Encoded, Joined;
      var n := D.ToBigEndian(|b|, 8);
      EncodedSnoc(fields, b);
      JoinedSnoc(parts, n);
      JoinedSnoc(parts + [n], b);
      assert parts + [n, b] == parts + [n] + [b];
      assert Joined(parts) + n + b == Joined(parts) + (n + b);
      parts := parts + [D.ToBigEndian(|b|, 8), b];
      fields := fields + [b];
    }

    method Sum() returns (digest: Bytes)
      requires Valid()
      ensures digest == hash(Encoded(fields))
    {
      var all := Join(parts);
      digest := hash(all);
    }
  }

  function Joined(parts: seq<Bytes>): Bytes {
    if parts == [] then [] else parts[0] + Joined(parts[1..])
  }

  lemma {:induction false} JoinedSnoc(parts: seq<Bytes>, b: Bytes)
    ensures Joined(parts + [b]) == Joined(parts) + b
  {
    if parts == [] {
      assert parts + [b] == [b] && [b][1..] == [];
    } else {
      JoinedSnoc(parts[1..], b);
      assert (parts + [b])[1..] == parts[1..] + [b];
    }
  }

  method Join(parts: seq<Bytes>) returns (all: Bytes)
    ensures all == Joined(parts)
  {
    all := [];
    assert parts[0..] == parts;
    for i := 0 to |parts|
      invariant all + Joined(parts[i..]) == Joined(parts)
    {
      assert parts[i..][1..] == parts[i + 1..];
      all := all + parts[i];
    }
  }

  // ----- what is committed to -----

  function Ascii(s: string): Bytes {
    seq(|s|, i requires 0 <= i < |s| => (s[i] as int) % 256)
  }

  const SHUFFLE_DOMAIN: string := "brc100-poker/proof/shuffle/v1"
  const REMASK_DOMAIN: string := "brc100-poker/proof/remask/v1"

  const WORD: int := 0x1_0000_0000

  /** Four bytes an entry, big-endian, keeping the low 32 bits. */
  function EncodePerm(p: seq<int>): (b: Bytes)
    ensures |b| == 4 * |p|
  {
    if p == [] then [] else EncodePerm(p[..|p| - 1]) + D.ToBigEndian(p[|p| - 1] % WORD, 4)
  }

  function ScalarBytes(s: nat): (b: Bytes)
    ensures |b| == 32
  {
    D.ToBigEndian(s, 32)
  }

  function ShuffleFields(global: nat, perm: seq<int>): seq<Bytes> {
    [Ascii(SHUFFLE_DOMAIN), ScalarBytes(global), EncodePerm(perm)]
  }

  function CommitShuffle(t: Table, hash: D.Hash, global: nat, perm: seq<int>): Option<Bytes> {
    if !ScalarOk(t, global) || perm == [] then None else Some(hash(Encoded(ShuffleFields(global, perm))))
  }

  function OwnFields(own: seq<nat>): (f: seq<Bytes>) {
    seq(|own|, i requires 0 <= i < |own| => ScalarBytes(own[i]))
  }

  function RemaskFields(global: nat, own: seq<nat>): seq<Bytes> {
    [Ascii(REMASK_DOMAIN), ScalarBytes(global)] + OwnFields(own)
  }

  ghost function CommitRemask(t: Table, hash: D.Hash, global: nat, own: seq<nat>): Option<Bytes> {
    if !ScalarOk(t, global) || own == [] || !ScalarsOk(t, own) then None else Some(hash(Encoded(RemaskFields(global, own))))
  }

  method MakeShuffleCommitment(t: Table, hash: D.Hash, global: nat, perm: seq<int>) returns (c: Option<Bytes>)
    ensures c == CommitShuffle(t, hash, global, perm)
  {
    if !ScalarOk(t, global) || perm == [] {
      return None;
    }
    var w := new Hasher(hash);
    w.Add(Ascii(SHUFFLE_DOMAIN));
    w.Add(ScalarBytes(global));
    w.Add(EncodePerm(perm));
    assert w.fields == ShuffleFields(global, perm);
    var digest := w.Sum();
    c := Some(digest);
  }

  method MakeRemaskCommitment(t: Table, hash: D.Hash, global: nat, own: seq<nat>) returns (c: Option<Bytes>)
    ensures c == CommitRemask(t, hash, global, own)
  {
    hide Ascii, ScalarBytes, Encoded, Field;
    if !ScalarOk(t, global) || |own| == 0 {
      return None;
    }
    var w := new Hasher(hash);
    w.Add(Ascii(REMASK_DOMAIN));
    w.Add(ScalarBytes(global));
    ghost var head := [Ascii(REMASK_DOMAIN), ScalarBytes(global)];
    assert w.fields == head;
    for i := 0 to |own|
      invariant w.Valid() && fresh(w) && w.hash == hash && ScalarsOk(t, own[..i])
      invariant w.fields == head + OwnFields(own)[..i]
    {
      if !ScalarOk(t, own[i]) {
        return None;
      }
      assert OwnFields(own)[..i + 1] == OwnFields(own)[..i] + [OwnFields(own)[i]];
      w.Add(ScalarBytes(own[i]));
    }
    assert own[..|own|] == own && OwnFields(own)[..|own|] == OwnFields(own);
    assert w.fields == RemaskFields(global, own);
    var digest := w.Sum();
    c := Some(digest);
  }

  // ----- binding -----

  lemma ScalarBytesInjective(t: Table, a: nat, b: nat)
    requires t.curve.order <= Pow2(256) && ScalarOk(t, a) && ScalarOk(t, b) && ScalarBytes(a) == ScalarBytes(b)
    ensures a == b
  {
    hide Pow2;
    D.BigEndianRoundTrip(a, 32);
    D.BigEndianRoundTrip(b, 32);
  }

  lemma {:induction false} EncodePermDetermined(p: seq<int>, q: seq<int>)
    ensures EncodePerm(p) == EncodePerm(q) <==> |p| == |q| && forall i :: 0 <= i < |p| ==> p[i] % WORD == q[i] % WORD
  {
    if |p| == |q| && |p| > 0 {
      var n := |p| - 1;
      EncodePermDetermined(p[..n], q[..n]);
      LastEntry(EncodePerm(p[..n]), p[n] % WORD, EncodePerm(q[..n]), q[n] % WORD);
      assert EncodePerm(p) == EncodePerm(p[..n]) + D.ToBigEndian(p[n] % WORD, 4);
      assert EncodePerm(q) == EncodePerm(q[..n]) + D.ToBigEndian(q[n] % WORD, 4);
      hide EncodePerm;
      assert forall i :: 0 <= i < n ==> p[..n][i] == p[i] && q[..n][i] == q[i];
    }
  }

  lemma LastEntry(x: Bytes, u: nat, y: Bytes, v: nat)
    requires |x| == |y| && u < WORD && v < WORD
    ensures x + D.ToBigEndian(u, 4) == y + D.ToBigEndian(v, 4) <==> x == y && u == v
  {
    hide D.ToBigEndian, Pow2;
    WordFits();
    D.BigEndianRoundTrip(u, 4);
    D.BigEndianRoundTrip(v, 4);
    var a, b := D.ToBigEndian(u, 4), D.ToBigEndian(v, 4);
    if x + a == y + b {
      assert x == (x + a)[..|x|] && y == (y + b)[..|x|];
      assert a == (x + a)[|x|..] && b == (y + b)[|x|..];
    }
  }

  lemma WordFits()
    ensures Pow2(8 * 4) == WORD
  {
    Pow2Byte(0);
    Pow2Byte(8);
    Pow2Byte(16);
    Pow2Byte(24);
  }

  lemma FieldsShort(fields: seq<Bytes>)
    requires forall i :: 0 <= i < |fields| ==> |fields[i]| < WORD
    ensures Short(fields)
  {
    WordFits();
    Pow2Monotone(32, 64);
  }

  /** A shuffle commitment opens one way: the same scalar, and entries equal in their low 32 bits. */
  lemma ShuffleBinding(t: Table, hash: D.Hash, g: nat, p: seq<int>, g': nat, p': seq<int>)
    requires D.Injective(hash) && t.curve.order <= Pow2(256) && 4 * |p| < WORD && 4 * |p'| < WORD
    requires CommitShuffle(t, hash, g, p).Some? && CommitShuffle(t, hash, g', p').Some?
    ensures CommitShuffle(t, hash, g, p) == CommitShuffle(t, hash, g', p')
            <==> g == g' && |p| == |p'| && forall i :: 0 <= i < |p| ==> p[i] % WORD == p'[i] % WORD
  {
    hide EncodePerm, Ascii, Pow2, Encoded, ScalarBytes, Field;
    EncodePermDetermined(p, p');
    if CommitShuffle(t, hash, g, p) == CommitShuffle(t, hash, g', p') {
      var f, f' := ShuffleFields(g, p), ShuffleFields(g', p');
      assert Encoded(f) == Encoded(f');
      DomainLength();
      FieldsShort(f);
      FieldsShort(f');
      EncodedInjective(f, f');
      assert f[1] == f'[1] && f[2] == f'[2];
      ScalarBytesInjective(t, g, g');
    }
  }

  lemma DomainLength()
    ensures |Ascii(SHUFFLE_DOMAIN)| == 29 && |Ascii(REMASK_DOMAIN)| == 28
  {
  }

  /** A remask commitment opens exactly one way. */
  lemma RemaskBinding(t: Table, hash: D.Hash, g: nat, own: seq<nat>, g': nat, own': seq<nat>)
    requires D.Injective(hash) && t.curve.order <= Pow2(256)
    requires CommitRemask(t, hash, g, own).Some? && CommitRemask(t, hash, g', own') == CommitRemask(t, hash, g, own)
    ensures g == g' && own == own'
  {
    hide Ascii, Pow2, Encoded, ScalarBytes, Field;
    var f, f' := RemaskFields(g, own), RemaskFields(g', own');
    assert Encoded(f) == Encoded(f');
    DomainLength();
    FieldsShort(f);
    FieldsShort(f');
    EncodedInjective(f, f');
    assert f[1] == ScalarBytes(g) && f'[1] == ScalarBytes(g');
    ScalarBytesInjective(t, g, g');
    assert |own| == |own'|;
    forall i | 0 <= i < |own|
      ensures own[i] == own'[i]
    {
      assert f[i + 2] == ScalarBytes(own[i]) && f'[i + 2] == ScalarBytes(own'[i]);
      ScalarBytesInjective(t, own[i], own'[i]);
    }
  }

  /** No commitment to a shuffle is also one to a remask. */
  lemma DomainsSeparate(t: Table, hash: D.Hash, g: nat, p: seq<int>, g': nat, own: seq<nat>)
    requires D.Injective(hash) && 4 * |p| < WORD && CommitShuffle(t, hash, g, p).Some?
    ensures CommitShuffle(t, hash, g, p) != CommitRemask(t, hash, g', own)
  {
    hide Ascii, Pow2, Encoded, ScalarBytes, Field;
    var f, f' := ShuffleFields(g, p), RemaskFields(g', own);
    DomainLength();
    assert |f[0]| != |f'[0]|;
    if CommitShuffle(t, hash, g, p) == CommitRemask(t, hash, g', own) {
      FieldsShort(f);
      FieldsShort(f');
      EncodedInjective(f, f');
    }
  }

  // ----- what is hashed -----

  /** Reads length-prefixed fields off bytes, if they are such fields and nothing else. */
  function ReadFields(b: Bytes): Option<seq<Bytes>>
    decreases |b|
  {
    if b == [] then Some([])
    else if |b| < 8 || 8 + D.BigEndian(b[..8]) > |b| then None
    else
      var end := 8 + D.BigEndian(b[..8]);
      match ReadFields(b[end..])
      case None => None
      case Some(rest) => Some([b[8..end]] + rest)
  }

  /** The fields are read back. */
  lemma {:induction false} FieldsReadBack(fields: seq<Bytes>)
    requires Short(fields)
    ensures ReadFields(Encoded(fields)) == Some(fields)
  {
    hide Pow2, D.BigEndian, D.ToBigEndian;
    if fields != [] {
      var f, b := fields[0], Encoded(fields);
      FieldsReadBack(fields[1..]);
      D.BigEndianRoundTrip(|f|, 8);
      assert b[..8] == D.ToBigEndian(|f|, 8) && b[8..8 + |f|] == f && b[8 + |f|..] == Encoded(fields[1..]);
      assert fields == [f] + fields[1..];
    }
  }

  lemma {:induction false} EntryAt(p: seq<int>, i: nat)
    requires i < |p|
    ensures D.BigEndian(EncodePerm(p)[4 * i..4 * i + 4]) == p[i] % WORD
  {
    var n := |p| - 1;
    if i < n {
      EntryAt(p[..n], i);
      assert EncodePerm(p)[4 * i..4 * i + 4] == EncodePerm(p[..n])[4 * i..4 * i + 4];
    } else {
      hide D.BigEndian, D.ToBigEndian, Pow2;
      assert EncodePerm(p)[4 * i..4 * i + 4] == D.ToBigEndian(p[n] % WORD, 4);
      WordFits();
      D.BigEndianRoundTrip(p[n] % WORD, 4);
    }
  }

  /** A 32-byte big-endian number. */
  ghost predicate Spells32(b: Bytes, v: nat) { |b| == 32 && D.BigEndian(b) == v }

  lemma ScalarSpelled(t: Table, v: nat)
    requires t.curve.order <= Pow2(256) && ScalarOk(t, v)
    ensures Spells32(ScalarBytes(v), v)
  {
    hide Pow2;
    D.BigEndianRoundTrip(v, 32);
  }

  lemma ThreeRead(x: Bytes, y: Bytes, z: Bytes)
    requires |x| < WORD && |y| < WORD && |z| < WORD
    ensures ReadFields(Encoded([x, y, z])) == Some([x, y, z])
  {
    hide Pow2, Encoded, ReadFields;
    FieldsShort([x, y, z]);
    FieldsReadBack([x, y, z]);
  }

  /** A shuffle commitment is the hash of three fields: its domain, the scalar in 32 bytes and the
      permutation, four bytes an entry. */
  lemma ShuffleHashes(t: Table, hash: D.Hash, global: nat, perm: seq<int>)
    requires t.curve.order <= Pow2(256) && 4 * |perm| < WORD && CommitShuffle(t, hash, global, perm).Some?
    ensures exists bytes, scalar, entries ::
              && CommitShuffle(t, hash, global, perm) == Some(hash(bytes))
              && ReadFields(bytes) == Some([Ascii(SHUFFLE_DOMAIN), scalar, entries])
              && Spells32(scalar, global) && |entries| == 4 * |perm|
              && forall i :: 0 <= i < |perm| ==> D.BigEndian(entries[4 * i..4 * i + 4]) == perm[i] % WORD
  {
    var fields := ShuffleFields(global, perm);
    forall i | 0 <= i < |perm|
      ensures D.BigEndian(EncodePerm(perm)[4 * i..4 * i + 4]) == perm[i] % WORD
    {
      EntryAt(perm, i);
    }
    hide EncodePerm, Ascii, Pow2, Encoded, ScalarBytes, ReadFields, D.BigEndian, Spells32;
    DomainLength();
    ThreeRead(Ascii(SHUFFLE_DOMAIN), ScalarBytes(global), EncodePerm(perm));
    ScalarSpelled(t, global);
    assert ReadFields(Encoded(fields)) == Some([Ascii(SHUFFLE_DOMAIN), ScalarBytes(global), EncodePerm(perm)]);
  }

  /** A remask commitment is the hash of its domain, the global scalar and then every position's. */
  lemma RemaskHashes(t: Table, hash: D.Hash, global: nat, own: seq<nat>)
    requires t.curve.order <= Pow2(256) && CommitRemask(t, hash, global, own).Some?
    ensures exists bytes, fields ::
              && CommitRemask(t, hash, global, own) == Some(hash(bytes)) && ReadFields(bytes) == Some(fields)
              && |fields| == |own| + 2 && fields[0] == Ascii(REMASK_DOMAIN) && Spells32(fields[1], global)
              && forall i :: 0 <= i < |own| ==> Spells32(fields[i + 2], own[i])
  {
    hide Ascii, Pow2, Encoded, ScalarBytes, ReadFields, Spells32;
    var fields := RemaskFields(global, own);
    DomainLength();
    FieldsShort(fields);
    FieldsReadBack(fields);
    ScalarSpelled(t, global);
    forall i | 0 <= i < |own|
      ensures Spells32(fields[i + 2], own[i])
    {
      ScalarSpelled(t, own[i]);
    }
    assert ReadFields(Encoded(fields)) == Some(fields);
  }
}
