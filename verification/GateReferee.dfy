/**
 The fraud referee: a covenant that records a Chaum-Pedersen proof, lets anyone claim its products
 in two checker outputs, and convicts it once both checkers have been spent and the equation fails.

 The ledger below keeps every output ever created, so a run is any sequence of transactions in
 which one deployed referee is followed from output to output.
 */
module GateReferee {
  import opened Curve
  import opened ScriptBytes
  import opened ScriptSplice
  import opened EcMulCheck
  import D = Dleq

  type Bytes = seq<byte>

  /** What is fixed outside the contract: the curve, the generator, SHA-256 and the checker's body. */
  datatype World = World(g: Setting, generator: Point, sha256: D.Hash, body: Bytes)

  /** The readonly record. Points are 64-byte affine encodings. */
  datatype Recorded = Recorded(
    domain: Bytes, b2: Bytes, p1: Bytes, p2: Bytes, a1: Bytes, a2: Bytes, z: int,
    bond: int, chkLen: int, chkHash: Bytes)

  /** The mutable state and the value the output carries. */
  datatype RefState = RefState(phase: int, eq: int, l: Bytes, m: Bytes, bondPKH: Bytes, value: int)

  ghost predicate Usable(w: World) {
    Sound(w.g) && D.Finite(w.g.curve, w.generator) && D.Injective(w.sha256)
  }

  predicate Widths(rec: Recorded) {
    |rec.b2| == 64 && |rec.p1| == 64 && |rec.p2| == 64 && |rec.a1| == 64 && |rec.a2| == 64
  }

  /** The record a deployer bakes in: the real checker body and a scalar in [0, n). */
  ghost predicate Deployable(w: World, rec: Recorded) {
    && 0 <= rec.z < w.g.curve.order && 0 <= rec.bond
    && rec.chkLen == |w.body| && rec.chkHash == w.sha256(w.body)
  }

  function GeneratorBytes(w: World): Bytes
    requires D.Finite(w.g.curve, w.generator)
  {
    D.Affine64(w.generator)
  }

  function ChallengeScalar(w: World, rec: Recorded): (c: int)
    requires D.Finite(w.g.curve, w.generator)
    ensures 0 <= c < w.g.curve.order
  {
    D.ChallengeOnChain(w.g.curve, w.sha256(
      D.StatementBytes(rec.domain, GeneratorBytes(w), rec.p1, rec.b2, rec.p2, rec.a1, rec.a2)))
  }

  function LBase(w: World, rec: Recorded, eq: int): Bytes
    requires D.Finite(w.g.curve, w.generator)
  {
    if eq == 2 then rec.b2 else GeneratorBytes(w)
  }

  function MBase(rec: Recorded, eq: int): Bytes {
    if eq == 2 then rec.p2 else rec.p1
  }

  function ABase(rec: Recorded, eq: int): Bytes {
    if eq == 2 then rec.a2 else rec.a1
  }

  /** The two checker scripts a prepare transaction must create, with a body. */
  function LScriptWith(w: World, rec: Recorded, s: RefState, body: Bytes): Bytes
    requires Usable(w) && 0 <= rec.z < Pow2(256)
  {
    PushFits(rec.z);
    CheckerScript(LBase(w, rec, s.eq), Push(rec.z), s.l, body)
  }

  function MScriptWith(w: World, rec: Recorded, s: RefState, body: Bytes): Bytes
    requires Usable(w)
  {
    FitsPush(w, ChallengeScalar(w, rec));
    CheckerScript(MBase(rec, s.eq), Push(ChallengeScalar(w, rec)), s.m, body)
  }

  /** ... and with the real body. */
  function LScript(w: World, rec: Recorded, s: RefState): Bytes
    requires Usable(w) && Deployable(w, rec)
  {
    FitsPush(w, rec.z);
    LScriptWith(w, rec, s, w.body)
  }

  function MScript(w: World, rec: Recorded, s: RefState): Bytes
    requires Usable(w) && Deployable(w, rec)
  {
    MScriptWith(w, rec, s, w.body)
  }

  lemma PushFits(k: nat)
    requires k < Pow2(256)
    ensures Width(k) <= 33
  {
    Pow2Monotone(256, 8 * 33 - 1);
    WidthExact(k, 33);
  }

  lemma FitsPush(w: World, k: nat)
    requires Sound(w.g) && k < w.g.curve.order
    ensures k < Pow2(256) && Width(k) <= 33
  {
    PushFits(k);
  }

  /** ecAdd on 64-byte encodings; the identity, which no affine product equals, is all zeros. */
  function EcAdd(c: Params, a: Bytes, m: Bytes): Bytes
    requires |a| == 64 && |m| == 64 && GroupLaw(c)
  {
    var s := Add(c, D.PointAt(a), D.PointAt(m));
    if s.Infinity? then seq(64, _ => 0) else D.Affine64(s)
  }

  // ----- the contract -----

  datatype PrepareArgs = PrepareArgs(eqSel: int, l: Bytes, m: Bytes, body: Bytes, refundPKH: Bytes)

  predicate PrepareAllowed(w: World, rec: Recorded, s: RefState, a: PrepareArgs) {
    && s.phase == 0 && (a.eqSel == 1 || a.eqSel == 2)
    && |a.l| == 64 && |a.m| == 64 && |a.refundPKH| == 20 && Widths(rec)
    && |a.body| == rec.chkLen && w.sha256(a.body) == rec.chkHash
  }

  function Prepared(rec: Recorded, s: RefState, a: PrepareArgs): RefState {
    RefState(1, a.eqSel, a.l, a.m, a.refundPKH, s.value + rec.bond)
  }

  function Hash256(w: World, b: Bytes): Bytes {
    w.sha256(w.sha256(b))
  }

  predicate FraudAllowed(w: World, rec: Recorded, s: RefState, own: Bytes, prevouts: Bytes, fee: Bytes)
    requires Usable(w) && |own| == 36
  {
    && s.phase == 1 && |fee| == 36
    && own[32..] == [0, 0, 0, 0]
    && Hash256(w, own + (own[..32] + [1, 0, 0, 0]) + (own[..32] + [2, 0, 0, 0]) + fee) == prevouts
    && |ABase(rec, s.eq)| == 64 && |s.m| == 64
    && s.l != EcAdd(w.g.curve, ABase(rec, s.eq), s.m)
  }

  function Convicted(rec: Recorded, s: RefState): RefState {
    s.(phase := 2, value := s.value - rec.bond)
  }

  /** The referee as the contract writes it: prepare and fraud move the stored fields or refuse. */
  class Contract {
    const rec: Recorded
    var phase: int
    var eq: int
    var l: Bytes
    var m: Bytes
    var bondPKH: Bytes
    var value: int

    constructor (record: Recorded, amount: int)
      ensures rec == record && State() == RefState(0, 0, seq(64, _ => 0), seq(64, _ => 0), seq(20, _ => 0), amount)
    {
      rec := record;
      phase, eq, value := 0, 0, amount;
      l, m, bondPKH := seq(64, _ => 0), seq(64, _ => 0), seq(20, _ => 0);
    }

    function State(): RefState
      reads this
    {
      RefState(phase, eq, l, m, bondPKH, value)
    }

    method Prepare(ghost w: World, sha256: D.Hash, scalar: int, generator: Bytes, a: PrepareArgs)
      returns (ok: bool, lScript: Bytes, mScript: Bytes)
      requires Usable(w) && 0 <= rec.z < Pow2(256) && sha256 == w.sha256
      requires scalar == ChallengeScalar(w, rec) && generator == GeneratorBytes(w)
      modifies this
      ensures ok <==> PrepareAllowed(w, rec, old(State()), a)
      ensures ok <==> old(phase) == 0 && (a.eqSel == 1 || a.eqSel == 2) && |a.l| == 64 && |a.m| == 64 && |a.refundPKH| == 20
                      && |rec.b2| == 64 && |rec.p1| == 64 && |rec.p2| == 64 && |rec.a1| == 64 && |rec.a2| == 64
                      && |a.body| == rec.chkLen && sha256(a.body) == rec.chkHash
      ensures !ok ==> State() == old(State())
      ensures ok ==> State() == Prepared(rec, old(State()), a)
      ensures ok ==> lScript == LScriptWith(w, rec, State(), a.body) && mScript == MScriptWith(w, rec, State(), a.body)
      ensures ok && Deployable(w, rec) ==> lScript == LScript(w, rec, State()) && mScript == MScript(w, rec, State())
    {
      hide Sound, D.Injective, ChallengeScalar, Width, Push, Pow2, D.Affine64, Curve.OnCurve;
      lScript, mScript := [], [];
      ok := phase == 0 && (a.eqSel == 1 || a.eqSel == 2) && |a.l| == 64 && |a.m| == 64 && |a.refundPKH| == 20
        && Widths(rec) && |a.body| == rec.chkLen && sha256(a.body) == rec.chkHash;
      if !ok {
        return;
      }
      PushFits(rec.z);
      FitsPush(w, scalar);
      if Deployable(w, rec) { SameBody(w, rec, a.body); }
      var pushZ := PushOnChain(rec.z);
      var pushC := PushOnChain(scalar);
      var lBase, mBase := generator, rec.p1;
      if a.eqSel == 2 {
        lBase, mBase := rec.b2, rec.p2;
      }
      lScript := CheckerScript(lBase, pushZ, a.l, a.body);
      mScript := CheckerScript(mBase, pushC, a.m, a.body);
      phase, eq, l, m, bondPKH := 1, a.eqSel, a.l, a.m, a.refundPKH;
      value := value + rec.bond;
    }

    method Fraud(w: World, own: Bytes, prevouts: Bytes, fee: Bytes) returns (ok: bool, bondScript: Bytes)
      requires Usable(w) && Widths(rec) && |m| == 64 && |own| == 36
      modifies this
      ensures ok <==> FraudAllowed(w, rec, old(State()), own, prevouts, fee)
      ensures ok ==> old(phase) == 1 && |fee| == 36 && own[32..] == [0, 0, 0, 0]
      ensures ok ==> bondScript == [0x76, 0xa9, 0x14] + old(bondPKH) + [0x88, 0xac]
      ensures State() == if ok then Convicted(rec, old(State())) else old(State())
    {
      bondScript := [];
      hide Sound, D.Injective, EcAdd, Curve.GroupLaw, Curve.OnCurve;
      UsableGroup(w);
      if phase != 1 || |fee| != 36 || own[32..] != [0, 0, 0, 0] {
        return false, [];
      }
      var prepTxid := own[..32];
      var checkers := (prepTxid + [1, 0, 0, 0]) + (prepTxid + [2, 0, 0, 0]);
      assert (own + checkers) + fee == own + (prepTxid + [1, 0, 0, 0]) + (prepTxid + [2, 0, 0, 0]) + fee;
      if Hash256(w, (own + checkers) + fee) != prevouts {
        return false, [];
      }
      var a := rec.a1;
      if eq == 2 {
        a := rec.a2;
      }
      if l == EcAdd(w.g.curve, a, m) {
        return false, [];
      }
      phase := 2;
      value := value - rec.bond;
      bondScript := [0x76, 0xa9, 0x14] + bondPKH + [0x88, 0xac];
      ok := true;
    }
  }

  lemma UsableGroup(w: World)
    requires Usable(w)
    ensures GroupLaw(w.g.curve)
  {
  }

  lemma SameBody(w: World, rec: Recorded, body: Bytes)
    requires Usable(w) && Deployable(w, rec) && w.sha256(body) == rec.chkHash
    ensures body == w.body
  {
  }

  // ----- the ledger -----

  datatype Outpoint = Outpoint(txid: Bytes, vout: nat)

  datatype Output = Referee(rec: Recorded, st: RefState) | Script(bytes: Bytes, sats: int)

  datatype Tx = Tx(id: Bytes, inputs: seq<Outpoint>, witnesses: seq<Bytes>, outputs: seq<Output>)

  /** Every output ever created. */
  type Ledger = map<Outpoint, Output>

  function OutpointBytes(o: Outpoint): (b: Bytes)
    ensures |b| == |o.txid| + 4
  {
    o.txid + ToLittleEndian(o.vout, 4)
  }

  function PrevoutBytes(ins: seq<Outpoint>): Bytes {
    if ins == [] then [] else OutpointBytes(ins[0]) + PrevoutBytes(ins[1..])
  }

  predicate WellFormed(o: Outpoint) {
    |o.txid| == 32 && o.vout < 0x1_0000_0000
  }

  /** Spending a checker output needs an accepted slope witness. Nothing is assumed of other scripts. */
  predicate Satisfied(w: World, script: Bytes, unlock: Bytes)
    requires w.g.h.Affine?
  {
    var r := ReadChecker(script);
    r.Claims? && r.claim.body == w.body ==>
      Accepts(w.g, D.PointAt(r.claim.base), r.claim.k, D.PointAt(r.claim.out), unlock)
  }

  predicate ValidTx(w: World, ledger: Ledger, tx: Tx)
    requires w.g.h.Affine?
  {
    && |tx.id| == 32 && (forall o :: o in ledger ==> o.txid != tx.id)
    && |tx.witnesses| == |tx.inputs| && |tx.outputs| < 0x1_0000_0000
    && (forall i :: 0 <= i < |tx.inputs| ==> WellFormed(tx.inputs[i]) && tx.inputs[i] in ledger)
    && (forall i :: 0 <= i < |tx.inputs| ==>
          ledger[tx.inputs[i]].Script? ==> Satisfied(w, ledger[tx.inputs[i]].bytes, tx.witnesses[i]))
  }

  function Extend(ledger: Ledger, tx: Tx): Ledger {
    ledger + map i | 0 <= i < |tx.outputs| :: Outpoint(tx.id, i) := tx.outputs[i]
  }

  /** One referee followed through the ledger. */
  datatype Run = Run(ledger: Ledger, tip: Outpoint, st: RefState)

  datatype Move = Other | Prepares(args: PrepareArgs) | Convicts(fee: Bytes)

  ghost predicate StepTo(w: World, rec: Recorded, r: Run, tx: Tx, move: Move, r': Run)
    requires Usable(w) && Deployable(w, rec)
  {
    && WellFormed(r.tip) && ValidTx(w, r.ledger, tx) && r'.ledger == Extend(r.ledger, tx)
    && match move
       case Other => r.tip !in tx.inputs && r'.tip == r.tip && r'.st == r.st
       case Prepares(a) =>
         && r.tip in tx.inputs && PrepareAllowed(w, rec, r.st, a)
         && r'.st == Prepared(rec, r.st, a) && r'.tip == Outpoint(tx.id, 0)
         && |tx.outputs| >= 3 && tx.outputs[0] == Referee(rec, r'.st)
         && tx.outputs[1] == Script(LScript(w, rec, r'.st), 1) && tx.outputs[2] == Script(MScript(w, rec, r'.st), 1)
       case Convicts(fee) =>
         && r.tip in tx.inputs
         && FraudAllowed(w, rec, r.st, OutpointBytes(r.tip), Hash256(w, PrevoutBytes(tx.inputs)), fee)
         && r'.st == Convicted(rec, r.st) && r'.tip == Outpoint(tx.id, 0)
         && |tx.outputs| >= 2 && tx.outputs[0] == Referee(rec, r'.st)
         && tx.outputs[1] == Script([0x76, 0xa9, 0x14] + r.st.bondPKH + [0x88, 0xac], rec.bond)
  }

  /** A whole run: the states between any number of transactions. */
  ghost predicate IsRun(w: World, rec: Recorded, v: int, rs: seq<Run>, txs: seq<Tx>, moves: seq<Move>)
    requires Usable(w) && Deployable(w, rec)
  {
    && |rs| == |txs| + 1 && |moves| == |txs|
    && rs[0].st.phase == 0 && rs[0].st.value == v
    && rs[0].tip in rs[0].ledger && rs[0].ledger[rs[0].tip] == Referee(rec, rs[0].st)
    && (forall i :: 0 <= i < |txs| ==> StepTo(w, rec, rs[i], txs[i], moves[i], rs[i + 1]))
  }

  // ----- what every run keeps -----

  ghost predicate EquationHolds(w: World, rec: Recorded, eq: int)
    requires Usable(w) && Widths(rec) && rec.z >= 0
  {
    D.Equation(w.g.curve, rec.z, D.PointAt(LBase(w, rec, eq)), D.PointAt(ABase(rec, eq)),
               ChallengeScalar(w, rec), D.PointAt(MBase(rec, eq)))
  }

  ghost predicate Kept(w: World, rec: Recorded, v: int, r: Run)
    requires Usable(w) && Deployable(w, rec)
  {
    && 0 <= r.st.phase <= 2
    && r.st.value == (if r.st.phase == 1 then v + rec.bond else v)
    && (r.st.phase > 0 ==> Widths(rec) && 1 <= r.st.eq <= 2 && |r.st.l| == 64 && |r.st.m| == 64)
    && (r.st.phase == 1 ==> CheckersOut(w, rec, r))
    && (r.st.phase == 2 ==> !EquationHolds(w, rec, r.st.eq) && Demonstrable(w, rec, r.st.eq))
  }

  /** Both products of an equation can be proved to the checker. */
  ghost predicate Demonstrable(w: World, rec: Recorded, eq: int)
    requires Usable(w) && Deployable(w, rec) && Widths(rec)
  {
    GeneratorWidth(w);
    OffsetIsAffine(w.g);
    Provable(w.g, D.PointAt(LBase(w, rec, eq)), rec.z) && Provable(w.g, D.PointAt(MBase(rec, eq)), ChallengeScalar(w, rec))
  }

  /** The prepare transaction's outputs 1 and 2 are the two checkers. */
  ghost predicate CheckersOut(w: World, rec: Recorded, r: Run)
    requires Usable(w) && Deployable(w, rec)
  {
    var one, two := Outpoint(r.tip.txid, 1), Outpoint(r.tip.txid, 2);
    && one in r.ledger && r.ledger[one] == Script(LScript(w, rec, r.st), 1)
    && two in r.ledger && r.ledger[two] == Script(MScript(w, rec, r.st), 1)
  }

  lemma ExtendKeeps(ledger: Ledger, tx: Tx, o: Outpoint)
    requires o in ledger && forall x :: x in ledger ==> x.txid != tx.id
    ensures o in Extend(ledger, tx) && Extend(ledger, tx)[o] == ledger[o]
  {
  }

  /** Outpoints are 36 bytes, so the i-th can be cut out of the serialised inputs. */
  lemma {:induction false} PrevoutAt(ins: seq<Outpoint>, i: nat)
    requires (forall o :: o in ins ==> WellFormed(o)) && i < |ins|
    ensures |PrevoutBytes(ins)| == 36 * |ins|
    ensures PrevoutBytes(ins)[36 * i..36 * i + 36] == OutpointBytes(ins[i])
  {
    hide OutpointBytes;
    var head, rest := OutpointBytes(ins[0]), PrevoutBytes(ins[1..]);
    assert WellFormed(ins[0]) && |head| == 36;
    if |ins| == 1 {
      assert PrevoutBytes(ins[1..]) == [];
      assert PrevoutBytes(ins)[0..36] == head;
    } else if i == 0 {
      PrevoutAt(ins[1..], 0);
      assert (head + rest)[0..36] == head;
    } else {
      PrevoutAt(ins[1..], i - 1);
      assert (head + rest)[36 * i..36 * i + 36] == rest[36 * (i - 1)..36 * (i - 1) + 36];
    }
  }

  lemma OutpointInjective(a: Outpoint, b: Outpoint)
    requires WellFormed(a) && WellFormed(b) && OutpointBytes(a) == OutpointBytes(b)
    ensures a == b
  {
    hide ToLittleEndian;
    assert a.txid == OutpointBytes(a)[..32] && b.txid == OutpointBytes(b)[..32];
    assert ToLittleEndian(a.vout, 4) == OutpointBytes(a)[32..] && ToLittleEndian(b.vout, 4) == OutpointBytes(b)[32..];
    Pow2At32();
    LittleEndianRoundTrip(a.vout, 4);
    LittleEndianRoundTrip(b.vout, 4);
  }

  lemma Pow2At32()
    ensures Pow2(32) == 0x1_0000_0000
  {
    Pow2Byte(0);
    Pow2Square(8, 16, 0x100);
    Pow2Square(16, 32, 0x1_0000);
  }

  lemma SmallOutpoint(t: Bytes, n: nat)
    requires |t| == 32 && n < 256
    ensures OutpointBytes(Outpoint(t, n)) == t + [n, 0, 0, 0]
  {
    assert ToLittleEndian(n, 4) == [n] + ToLittleEndian(0, 3);
    assert ToLittleEndian(0, 3) == [0] + ToLittleEndian(0, 2);
    assert ToLittleEndian(0, 2) == [0] + ToLittleEndian(0, 1);
    assert ToLittleEndian(0, 1) == [0] + ToLittleEndian(0, 0);
  }

  /** The committed inputs are this referee and the two checkers its prepare transaction created. */
  lemma InputsBound(w: World, rec: Recorded, r: Run, tx: Tx, fee: Bytes)
    requires Usable(w) && WellFormed(r.tip) && ValidTx(w, r.ledger, tx)
    requires FraudAllowed(w, rec, r.st, OutpointBytes(r.tip), Hash256(w, PrevoutBytes(tx.inputs)), fee)
    ensures |tx.inputs| == 4
    ensures tx.inputs[1] == Outpoint(r.tip.txid, 1) && tx.inputs[2] == Outpoint(r.tip.txid, 2)
  {
    hide Sound, EcAdd, Satisfied;
    var t := r.tip.txid;
    var own := OutpointBytes(r.tip);
    assert own[..32] == t;
    var mine := own + (t + [1, 0, 0, 0]) + (t + [2, 0, 0, 0]) + fee;
    var all := PrevoutBytes(tx.inputs);
    assert w.sha256(w.sha256(mine)) == w.sha256(w.sha256(all));
    assert mine == all;
    FourInputs(tx.inputs, t, own, fee);
  }

  lemma CutFour(a: Bytes, b: Bytes, c: Bytes, d: Bytes)
    requires |a| == 36 && |b| == 36 && |c| == 36 && |d| == 36
    ensures |a + b + c + d| == 144
    ensures (a + b + c + d)[36..72] == b && (a + b + c + d)[72..108] == c
  {
  }

  lemma FourInputs(ins: seq<Outpoint>, t: Bytes, own: Bytes, fee: Bytes)
    requires |t| == 32 && |own| == 36 && |fee| == 36 && forall o :: o in ins ==> WellFormed(o)
    requires PrevoutBytes(ins) == own + (t + [1, 0, 0, 0]) + (t + [2, 0, 0, 0]) + fee
    ensures |ins| == 4 && ins[1] == Outpoint(t, 1) && ins[2] == Outpoint(t, 2)
  {
    hide OutpointBytes, ToLittleEndian, PrevoutBytes;
    var one, two := t + [1, 0, 0, 0], t + [2, 0, 0, 0];
    CutFour(own, one, two, fee);
    FourLong(ins);
    PrevoutAt(ins, 1);
    PrevoutAt(ins, 2);
    SmallOutpoint(t, 1);
    SmallOutpoint(t, 2);
    OutpointInjective(ins[1], Outpoint(t, 1));
    OutpointInjective(ins[2], Outpoint(t, 2));
  }

  lemma FourLong(ins: seq<Outpoint>)
    requires (forall o :: o in ins ==> WellFormed(o)) && |PrevoutBytes(ins)| == 144
    ensures |ins| == 4
  {
    if ins != [] {
      PrevoutAt(ins, 0);
    }
  }

  /** A spent checker proves its claim. */
  lemma CheckerSpent(w: World, base: Bytes, k: nat, out: Bytes, unlock: Bytes)
    requires Usable(w) && |base| == 64 && |out| == 64 && Width(k) < 76
    requires Satisfied(w, CheckerScript(base, Push(k), out, w.body), unlock)
    ensures D.PointAt(out) == Mul(w.g.curve, k, D.PointAt(base))
    ensures OnCurve(w.g.curve, D.PointAt(out)) && Provable(w.g, D.PointAt(base), k)
  {
    hide Accepts, Push, Sound, CheckerScript, ReadChecker, D.PointAt, Curve.OnCurve, Curve.Mul, D.Injective, Width;
    CheckerReadBack(base, k, out, w.body);
    CheckerSound(w.g, D.PointAt(base), k, D.PointAt(out), unlock);
    OffsetIsAffine(w.g);
    assert OnCurve(w.g.curve, D.PointAt(out)) by { AcceptedOut(w.g, D.PointAt(base), k, D.PointAt(out), unlock); }
  }

  lemma OffsetIsAffine(g: Setting)
    requires Sound(g)
    ensures g.h.Affine?
  {
  }

  lemma AcceptedOut(g: Setting, base: Point, k: int, out: Point, unlock: Bytes)
    requires g.h.Affine? && base.Affine? && out.Affine? && Accepts(g, base, k, out, unlock)
    ensures OnCurve(g.curve, out)
  {
  }

  /** If the products are true and the equation holds, the contract's inequality cannot. */
  lemma TrueEquationMatches(w: World, rec: Recorded, s: RefState)
    requires Usable(w) && Widths(rec) && 0 <= rec.z && |s.l| == 64 && |s.m| == 64
    requires D.PointAt(s.l) == Mul(w.g.curve, rec.z, D.PointAt(LBase(w, rec, s.eq)))
    requires D.PointAt(s.m) == Mul(w.g.curve, ChallengeScalar(w, rec), D.PointAt(MBase(rec, s.eq)))
    requires EquationHolds(w, rec, s.eq)
    ensures s.l == EcAdd(w.g.curve, ABase(rec, s.eq), s.m)
  {
    hide Curve.Add, Curve.Mul, ChallengeScalar, GeneratorBytes, D.Injective, Sound;
    var sum := Add(w.g.curve, D.PointAt(ABase(rec, s.eq)), D.PointAt(s.m));
    assert sum == D.PointAt(s.l);
    D.AffineRoundTrip(s.l);
  }

  lemma Conviction(w: World, rec: Recorded, v: int, r: Run, tx: Tx, fee: Bytes)
    requires Usable(w) && Deployable(w, rec) && Kept(w, rec, v, r) && WellFormed(r.tip) && ValidTx(w, r.ledger, tx)
    requires FraudAllowed(w, rec, r.st, OutpointBytes(r.tip), Hash256(w, PrevoutBytes(tx.inputs)), fee)
    ensures !EquationHolds(w, rec, r.st.eq) && Demonstrable(w, rec, r.st.eq)
  {
    hide Provable, EcAdd, EquationHolds, Push, CheckerScript, ReadChecker, D.Injective, Sound, ChallengeScalar, GeneratorBytes, PrevoutBytes, Hash256, OutpointBytes, Width, Satisfied;
    InputsBound(w, rec, r, tx, fee);
    var one, two := Outpoint(r.tip.txid, 1), Outpoint(r.tip.txid, 2);
    assert r.ledger[tx.inputs[1]].Script? && r.ledger[tx.inputs[2]].Script?;
    FitsPush(w, rec.z);
    FitsPush(w, ChallengeScalar(w, rec));
    assert |LBase(w, rec, r.st.eq)| == 64 by { GeneratorWidth(w); }
    CheckerSpent(w, LBase(w, rec, r.st.eq), rec.z, r.st.l, tx.witnesses[1]);
    CheckerSpent(w, MBase(rec, r.st.eq), ChallengeScalar(w, rec), r.st.m, tx.witnesses[2]);
    if EquationHolds(w, rec, r.st.eq) {
      TrueEquationMatches(w, rec, r.st);
    }
  }

  lemma GeneratorWidth(w: World)
    requires D.Finite(w.g.curve, w.generator)
    ensures |GeneratorBytes(w)| == 64
  {
  }

  lemma StepKeepsRun(w: World, rec: Recorded, v: int, r: Run, tx: Tx, move: Move, r': Run)
    requires Usable(w) && Deployable(w, rec) && Kept(w, rec, v, r) && StepTo(w, rec, r, tx, move, r')
    ensures Kept(w, rec, v, r')
  {
    hide EquationHolds, Demonstrable, LScript, MScript, Satisfied, Sound, D.Injective, EcAdd;
    match move
    case Other =>
      if r.st.phase == 1 {
        ExtendKeeps(r.ledger, tx, Outpoint(r.tip.txid, 1));
        ExtendKeeps(r.ledger, tx, Outpoint(r.tip.txid, 2));
      }
    case Prepares(a) =>
      assert Extend(r.ledger, tx)[Outpoint(tx.id, 1)] == tx.outputs[1];
      assert Extend(r.ledger, tx)[Outpoint(tx.id, 2)] == tx.outputs[2];
    case Convicts(fee) =>
      Conviction(w, rec, v, r, tx, fee);
  }

  /** In every run from a phase-0 deployment the value goes v, v + bond, v and a conviction means
      the disputed equation is false. */
  lemma {:induction false} EveryRunKeeps(w: World, rec: Recorded, v: int, rs: seq<Run>, txs: seq<Tx>, moves: seq<Move>, i: nat)
    requires Usable(w) && Deployable(w, rec) && IsRun(w, rec, v, rs, txs, moves) && i < |rs|
    ensures Kept(w, rec, v, rs[i])
  {
    hide StepTo, Usable, Deployable;
    if i > 0 {
      EveryRunKeeps(w, rec, v, rs, txs, moves, i - 1);
      StepKeepsRun(w, rec, v, rs[i - 1], txs[i - 1], moves[i - 1], rs[i]);
    }
  }

  /** A prepared referee was prepared by the last move that touched it, and holds what that move gave. */
  lemma {:induction false} PreparedBy(w: World, rec: Recorded, v: int, rs: seq<Run>, txs: seq<Tx>, moves: seq<Move>, k: nat) returns (i: nat)
    requires Usable(w) && Deployable(w, rec) && IsRun(w, rec, v, rs, txs, moves) && k < |rs| && rs[k].st.phase == 1
    ensures i < k && moves[i].Prepares? && forall j :: i < j < k ==> moves[j].Other?
    ensures var st, a := rs[k].st, moves[i].args;
            st.eq == a.eqSel && st.l == a.l && st.m == a.m && st.bondPKH == a.refundPKH && |a.refundPKH| == 20
  {
    hide Usable, Deployable, FraudAllowed, LScript, MScript, ValidTx;
    assert k > 0;
    assert StepTo(w, rec, rs[k - 1], txs[k - 1], moves[k - 1], rs[k - 1 + 1]);
    if moves[k - 1].Prepares? { return k - 1; }
    i := PreparedBy(w, rec, v, rs, txs, moves, k - 1);
  }

  /** Whoever prepared a conviction put up the bond, and the conviction pays it back to that party. */
  lemma BondReturned(w: World, rec: Recorded, v: int, rs: seq<Run>, txs: seq<Tx>, moves: seq<Move>, j: nat) returns (i: nat)
    requires Usable(w) && Deployable(w, rec) && IsRun(w, rec, v, rs, txs, moves) && j < |txs| && moves[j].Convicts?
    ensures i < j && moves[i].Prepares? && rs[i].st.value == v && rs[i + 1].st.value == v + rec.bond && rs[j + 1].st.value == v
    ensures |txs[j].outputs| >= 2
    ensures txs[j].outputs[1] == Script([0x76, 0xa9, 0x14] + moves[i].args.refundPKH + [0x88, 0xac], rec.bond)
  {
    hide Usable, Deployable, LScript, MScript, ValidTx, EcAdd, Kept;
    assert StepTo(w, rec, rs[j], txs[j], moves[j], rs[j + 1]);
    i := PreparedBy(w, rec, v, rs, txs, moves, j);
    assert StepTo(w, rec, rs[i], txs[i], moves[i], rs[i + 1]);
    ValueIs(w, rec, v, rs, txs, moves, i);
    ValueIs(w, rec, v, rs, txs, moves, j + 1);
  }

  lemma ValueIs(w: World, rec: Recorded, v: int, rs: seq<Run>, txs: seq<Tx>, moves: seq<Move>, i: nat)
    requires Usable(w) && Deployable(w, rec) && IsRun(w, rec, v, rs, txs, moves) && i < |rs|
    ensures rs[i].st.value == if rs[i].st.phase == 1 then v + rec.bond else v
  {
    hide Usable, Deployable, IsRun;
    EveryRunKeeps(w, rec, v, rs, txs, moves, i);
  }

  // ----- honest proofs -----

  /** The recorded bytes are those of a statement over the generator and a proof of it. */
  ghost predicate Records(w: World, rec: Recorded, st: D.Statement, pr: D.Proof)
    requires Usable(w)
  {
    && st.b1 == w.generator && rec.domain == st.domain && rec.z == pr.z
    && D.Finite(w.g.curve, st.p1) && D.Finite(w.g.curve, st.b2) && D.Finite(w.g.curve, st.p2)
    && D.Finite(w.g.curve, pr.a1) && D.Finite(w.g.curve, pr.a2)
    && rec.p1 == D.Affine64(st.p1) && rec.b2 == D.Affine64(st.b2) && rec.p2 == D.Affine64(st.p2)
    && rec.a1 == D.Affine64(pr.a1) && rec.a2 == D.Affine64(pr.a2)
  }

  /** The referee hashes the same statement as the prover, so both use one challenge. */
  lemma SameChallenge(w: World, rec: Recorded, st: D.Statement, pr: D.Proof)
    requires Usable(w) && Records(w, rec, st, pr)
    ensures ChallengeScalar(w, rec) == D.ChallengeOf(w.g.curve, w.sha256, st, pr.a1, pr.a2)
  {
    hide D.Affine64, D.Challenge, D.ChallengeOnChain, Sound, D.Injective, Curve.OnCurve;
    D.ChallengesAgree(w.g.curve, w.sha256(
      D.StatementBytes(rec.domain, GeneratorBytes(w), rec.p1, rec.b2, rec.p2, rec.a1, rec.a2)));
  }

  /** The referee's challenge is the big-endian digest, modulo the order, of bytes that are the
      recorded domain, a zero byte, the generator, the recorded points and both commitments. */
  lemma ChallengeCoversRecord(w: World, rec: Recorded)
    requires Usable(w) && Widths(rec)
    ensures exists bytes :: D.LaidOut(bytes, rec.domain, [GeneratorBytes(w), rec.p1, rec.b2, rec.p2, rec.a1, rec.a2])
                            && ChallengeScalar(w, rec) == D.BigEndian(w.sha256(bytes)) % w.g.curve.order
  {
    hide D.Affine64, Sound, D.Injective, Curve.OnCurve, D.LaidOut;
    var bytes := D.StatementBytes(rec.domain, GeneratorBytes(w), rec.p1, rec.b2, rec.p2, rec.a1, rec.a2);
    D.StatementLaidOut(rec.domain, GeneratorBytes(w), rec.p1, rec.b2, rec.p2, rec.a1, rec.a2);
    D.ChallengesAgree(w.g.curve, w.sha256(bytes));
    assert D.LaidOut(bytes, rec.domain, [GeneratorBytes(w), rec.p1, rec.b2, rec.p2, rec.a1, rec.a2]);
  }

  lemma RecordedPoints(w: World, rec: Recorded, st: D.Statement, pr: D.Proof)
    requires Usable(w) && Records(w, rec, st, pr)
    ensures Widths(rec)
    ensures D.PointAt(GeneratorBytes(w)) == st.b1 && D.PointAt(rec.p1) == st.p1 && D.PointAt(rec.b2) == st.b2
    ensures D.PointAt(rec.p2) == st.p2 && D.PointAt(rec.a1) == pr.a1 && D.PointAt(rec.a2) == pr.a2
  {
    hide D.Affine64, D.PointAt, D.Injective, Curve.OnCurve, Curve.GroupLaw;
    var c := w.g.curve;
    D.PointRoundTrip(c, st.b1);
    D.PointRoundTrip(c, st.p1);
    D.PointRoundTrip(c, st.b2);
    D.PointRoundTrip(c, st.p2);
    D.PointRoundTrip(c, pr.a1);
    D.PointRoundTrip(c, pr.a2);
  }

  lemma VerifiedEquations(w: World, rec: Recorded, st: D.Statement, pr: D.Proof, eq: int)
    requires Usable(w) && Records(w, rec, st, pr) && D.Verifies(w.g.curve, w.sha256, st, pr) && 1 <= eq <= 2
    ensures Widths(rec) && rec.z >= 0 && EquationHolds(w, rec, eq)
  {
    hide D.Affine64, D.PointAt, D.Injective, Sound, Curve.OnCurve, Curve.GroupLaw, Curve.Add, Curve.Mul, ChallengeScalar, D.ChallengeOf, GeneratorBytes;
    RecordedPoints(w, rec, st, pr);
    SameChallenge(w, rec, st, pr);
  }

  /** No proof that `verify` accepts is ever convicted, in any run. */
  lemma HonestNeverConvicted(w: World, rec: Recorded, v: int, rs: seq<Run>, txs: seq<Tx>, moves: seq<Move>, i: nat,
                             st: D.Statement, pr: D.Proof)
    requires Usable(w) && Deployable(w, rec) && IsRun(w, rec, v, rs, txs, moves) && i < |rs|
    requires Records(w, rec, st, pr) && D.Verifies(w.g.curve, w.sha256, st, pr)
    ensures rs[i].st.phase != 2
  {
    hide StepTo, Usable, Deployable, Records, D.Verifies, EquationHolds;
    EveryRunKeeps(w, rec, v, rs, txs, moves, i);
    if rs[i].st.phase == 2 {
      VerifiedEquations(w, rec, st, pr, rs[i].st.eq);
    }
  }
}
