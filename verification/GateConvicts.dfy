/** The other half of the referee: a false equation whose products can be proved is convicted by some run. */
module GateConvicts {
  import opened Modular
  import opened Curve
  import opened ScriptBytes
  import opened ScriptSplice
  import opened EcMulCheck
  import opened GateReferee
  import D = Dleq

  /** What a challenger writes into the prepare transaction: the true products, encoded. */
  function LTrue(w: World, rec: Recorded, eq: int): Bytes
    requires Usable(w) && Deployable(w, rec) && Widths(rec) && Demonstrable(w, rec, eq)
  {
    GeneratorWidth(w);
    D.Affine64(Mul(w.g.curve, rec.z, D.PointAt(LBase(w, rec, eq))))
  }

  function MTrue(w: World, rec: Recorded, eq: int): Bytes
    requires Usable(w) && Deployable(w, rec) && Widths(rec) && Demonstrable(w, rec, eq)
  {
    D.Affine64(Mul(w.g.curve, ChallengeScalar(w, rec), D.PointAt(MBase(rec, eq))))
  }

  /** An encoded true product is read back, and its checker can be spent. */
  lemma ProductSpendable(w: World, base: Bytes, k: nat) returns (unlock: Bytes)
    requires Usable(w) && |base| == 64 && Width(k) < 76 && w.g.h.Affine? && Provable(w.g, D.PointAt(base), k)
    ensures var p := Mul(w.g.curve, k, D.PointAt(base));
            && p.Affine? && OnCurve(w.g.curve, p) && |D.Affine64(p)| == 64 && D.PointAt(D.Affine64(p)) == p
            && Satisfied(w, CheckerScript(base, Push(k), D.Affine64(p), w.body), unlock)
  {
    hide Accepts, Push, Sound, CheckerScript, ReadChecker, D.PointAt, Curve.OnCurve, Curve.Mul, D.Injective, Width, D.Affine64;
    var p := Mul(w.g.curve, k, D.PointAt(base));
    unlock :| Accepts(w.g, D.PointAt(base), k, p, unlock);
    AcceptedOut(w.g, D.PointAt(base), k, p, unlock);
    FieldFits(w);
    D.PointRoundTrip(w.g.curve, p);
    CheckerReadBack(base, k, D.Affine64(p), w.body);
  }

  lemma FieldFits(w: World)
    requires Usable(w)
    ensures w.g.curve.field <= Pow2(256)
  {
  }

  /** A false equation fails the contract's comparison too. */
  lemma FalseEquationDiffers(w: World, rec: Recorded, eq: int, l: Bytes, m: Bytes)
    requires Usable(w) && Widths(rec) && 0 <= rec.z && |l| == 64 && |m| == 64 && !EquationHolds(w, rec, eq)
    requires D.PointAt(l) == Mul(w.g.curve, rec.z, D.PointAt(LBase(w, rec, eq))) && OnCurve(w.g.curve, D.PointAt(l))
    requires D.PointAt(m) == Mul(w.g.curve, ChallengeScalar(w, rec), D.PointAt(MBase(rec, eq))) && OnCurve(w.g.curve, D.PointAt(m))
    requires OnCurve(w.g.curve, D.PointAt(ABase(rec, eq)))
    ensures GroupLaw(w.g.curve) && l != EcAdd(w.g.curve, ABase(rec, eq), m)
  {
    hide Curve.Mul, Curve.Add, ChallengeScalar, GeneratorBytes, D.Injective, Curve.GroupLaw, Curve.OnCurve, D.PointAt, D.Affine64;
    UsableGroup(w);
    var c := w.g.curve;
    var sum := Add(c, D.PointAt(ABase(rec, eq)), D.PointAt(m));
    AddClosed(c, D.PointAt(ABase(rec, eq)), D.PointAt(m));
    NoVerticalTangent(c, D.PointAt(l));
    if sum.Affine? {
      FieldFits(w);
      SumReadBack(c, sum);
    } else {
      ZeroBytes();
    }
  }

  lemma SumReadBack(c: Params, p: Point)
    requires p.Affine? && OnCurve(c, p) && c.field <= Pow2(256)
    ensures p.x >= 0 && p.y >= 0 && D.PointAt(D.Affine64(p)) == p
  {
    D.PointRoundTrip(c, p);
  }

  lemma ZeroBytes()
    ensures D.PointAt(seq(64, _ => 0)).y == 0
  {
    ZeroEndian(32);
    assert seq(64, _ => 0)[32..] == seq(32, _ => 0);
  }

  lemma {:induction false} ZeroEndian(n: nat)
    ensures D.BigEndian(seq(n, _ => 0)) == 0
  {
    if n > 0 {
      ZeroEndian(n - 1);
      assert seq(n, _ => 0)[..n - 1] == seq(n - 1, _ => 0);
    }
  }

  // ----- the two transactions -----

  /** An output anyone can spend, to pay the fee with. */
  const FREE: Output := Script([], 1)

  function Args(w: World, rec: Recorded, eq: int, pkh: Bytes): PrepareArgs
    requires Usable(w) && Deployable(w, rec) && Widths(rec) && Demonstrable(w, rec, eq)
  {
    PrepareArgs(eq, LTrue(w, rec, eq), MTrue(w, rec, eq), w.body, pkh)
  }

  function PrepareTx(w: World, rec: Recorded, r: Run, id: Bytes, st: RefState): Tx
    requires Usable(w) && Deployable(w, rec)
  {
    Tx(id, [r.tip], [[]], [Referee(rec, st), Script(LScript(w, rec, st), 1), Script(MScript(w, rec, st), 1), FREE])
  }

  function FraudTx(rec: Recorded, prep: Bytes, id: Bytes, st: RefState, st': RefState, u1: Bytes, u2: Bytes): Tx {
    Tx(id, [Outpoint(prep, 0), Outpoint(prep, 1), Outpoint(prep, 2), Outpoint(prep, 3)], [[], u1, u2, []],
       [Referee(rec, st'), Script([0x76, 0xa9, 0x14] + st.bondPKH + [0x88, 0xac], rec.bond)])
  }

  /** A fresh referee, ready to be disputed. */
  ghost predicate Deployed(w: World, rec: Recorded, r: Run) {
    && r.st.phase == 0 && WellFormed(r.tip) && r.tip in r.ledger && r.ledger[r.tip] == Referee(rec, r.st)
  }

  predicate FreshId(ledger: Ledger, id: Bytes) {
    |id| == 32 && forall o :: o in ledger ==> o.txid != id
  }

  lemma PrepareStep(w: World, rec: Recorded, r: Run, eq: int, pkh: Bytes, id: Bytes) returns (tx: Tx, r': Run)
    requires Usable(w) && Deployable(w, rec) && Widths(rec) && Demonstrable(w, rec, eq) && 1 <= eq <= 2
    requires Deployed(w, rec, r) && FreshId(r.ledger, id) && |pkh| == 20
    ensures r'.st == Prepared(rec, r.st, Args(w, rec, eq, pkh)) && tx == PrepareTx(w, rec, r, id, r'.st)
    ensures StepTo(w, rec, r, tx, Prepares(Args(w, rec, eq, pkh)), r') && r'.tip == Outpoint(id, 0) && r'.ledger == Extend(r.ledger, tx)
  {
    hide Sound, D.Injective, Curve.OnCurve, Curve.Mul, D.Affine64, D.PointAt, Demonstrable, LScript, MScript, ChallengeScalar, GeneratorBytes;
    OffsetAffine(w);
    var st := Prepared(rec, r.st, Args(w, rec, eq, pkh));
    tx := PrepareTx(w, rec, r, id, st);
    r' := Run(Extend(r.ledger, tx), Outpoint(id, 0), st);
  }

  lemma OffsetAffine(w: World)
    requires Usable(w)
    ensures w.g.h.Affine?
  {
  }

  lemma PreparedOutputs(ledger: Ledger, tx: Tx)
    requires |tx.outputs| == 4
    ensures forall i :: 0 <= i < 4 ==> Outpoint(tx.id, i) in Extend(ledger, tx) && Extend(ledger, tx)[Outpoint(tx.id, i)] == tx.outputs[i]
  {
  }

  /** The inputs of the fraud transaction hash to what the referee expects. */
  lemma FourPrevouts(prep: Bytes)
    requires |prep| == 32
    ensures var own := OutpointBytes(Outpoint(prep, 0));
            && |own| == 36 && own[..32] == prep && own[32..] == [0, 0, 0, 0]
            && PrevoutBytes([Outpoint(prep, 0), Outpoint(prep, 1), Outpoint(prep, 2), Outpoint(prep, 3)])
               == own + (own[..32] + [1, 0, 0, 0]) + (own[..32] + [2, 0, 0, 0]) + OutpointBytes(Outpoint(prep, 3))
  {
    hide OutpointBytes, ToLittleEndian;
    SmallOutpoint(prep, 0);
    SmallOutpoint(prep, 1);
    SmallOutpoint(prep, 2);
    SmallOutpoint(prep, 3);
    var a, b, c, d := Outpoint(prep, 0), Outpoint(prep, 1), Outpoint(prep, 2), Outpoint(prep, 3);
    assert [a, b, c, d][1..] == [b, c, d] && [b, c, d][1..] == [c, d] && [c, d][1..] == [d] && [d][1..] == [];
    assert PrevoutBytes([d]) == OutpointBytes(d);
    assert PrevoutBytes([c, d]) == OutpointBytes(c) + PrevoutBytes([d]);
    assert PrevoutBytes([b, c, d]) == OutpointBytes(b) + PrevoutBytes([c, d]);
  }

  lemma FreeIsFree(w: World, unlock: Bytes)
    requires w.g.h.Affine?
    ensures Satisfied(w, [], unlock)
  {
  }

  /** Spending the two checkers with these witnesses is valid. */
  lemma FraudIsValid(w: World, rec: Recorded, ledger: Ledger, prep: Tx, st: RefState, st': RefState, id: Bytes, u1: Bytes, u2: Bytes)
    requires Usable(w) && Deployable(w, rec) && w.g.h.Affine? && |prep.id| == 32 && FreshId(ledger, id)
    requires forall i :: 0 <= i < 4 ==> Outpoint(prep.id, i) in ledger
    requires ledger[Outpoint(prep.id, 0)] == Referee(rec, st) && ledger[Outpoint(prep.id, 3)] == FREE
    requires ledger[Outpoint(prep.id, 1)] == Script(LScript(w, rec, st), 1) && Satisfied(w, LScript(w, rec, st), u1)
    requires ledger[Outpoint(prep.id, 2)] == Script(MScript(w, rec, st), 1) && Satisfied(w, MScript(w, rec, st), u2)
    ensures ValidTx(w, ledger, FraudTx(rec, prep.id, id, st, st', u1, u2))
  {
    hide Satisfied, LScript, MScript, Sound, D.Injective;
    FreeIsFree(w, []);
    var tx := FraudTx(rec, prep.id, id, st, st', u1, u2);
    forall i | 0 <= i < |tx.inputs|
      ensures WellFormed(tx.inputs[i]) && tx.inputs[i] in ledger
      ensures ledger[tx.inputs[i]].Script? ==> Satisfied(w, ledger[tx.inputs[i]].bytes, tx.witnesses[i])
    {
      assert tx.inputs[i] == Outpoint(prep.id, i);
    }
  }

  lemma FraudPasses(w: World, rec: Recorded, eq: int, st: RefState, prep: Bytes)
    requires Usable(w) && Deployable(w, rec) && Widths(rec) && 1 <= eq <= 2 && |prep| == 32
    requires !EquationHolds(w, rec, eq) && Demonstrable(w, rec, eq) && OnCurve(w.g.curve, D.PointAt(ABase(rec, eq)))
    requires st.phase == 1 && st.eq == eq && st.l == LTrue(w, rec, eq) && st.m == MTrue(w, rec, eq)
    ensures |OutpointBytes(Outpoint(prep, 0))| == 36
    ensures FraudAllowed(w, rec, st, OutpointBytes(Outpoint(prep, 0)),
                         Hash256(w, PrevoutBytes([Outpoint(prep, 0), Outpoint(prep, 1), Outpoint(prep, 2), Outpoint(prep, 3)])),
                         OutpointBytes(Outpoint(prep, 3)))
  {
    hide Sound, D.Injective, Curve.OnCurve, Curve.Mul, Curve.Add, D.Affine64, D.PointAt, Provable, ChallengeScalar, GeneratorBytes, EcAdd, EquationHolds, OutpointBytes, PrevoutBytes, Push, CheckerScript, Satisfied, Width;
    FourPrevouts(prep);
    FourthWidth(prep);
    GeneratorWidth(w);
    OffsetAffine(w);
    FitsPush(w, rec.z);
    FitsPush(w, ChallengeScalar(w, rec));
    var u := ProductSpendable(w, LBase(w, rec, eq), rec.z);
    var v := ProductSpendable(w, MBase(rec, eq), ChallengeScalar(w, rec));
    FalseEquationDiffers(w, rec, eq, st.l, st.m);
  }

  lemma FourthWidth(prep: Bytes)
    requires |prep| == 32
    ensures |OutpointBytes(Outpoint(prep, 3))| == 36
  {
  }

  /** Both checkers a true prepare creates can be spent. */
  lemma CheckersSpendable(w: World, rec: Recorded, eq: int, st: RefState) returns (u1: Bytes, u2: Bytes)
    requires Usable(w) && Deployable(w, rec) && Widths(rec) && 1 <= eq <= 2 && w.g.h.Affine? && Demonstrable(w, rec, eq)
    requires st.eq == eq && st.l == LTrue(w, rec, eq) && st.m == MTrue(w, rec, eq)
    ensures Satisfied(w, LScript(w, rec, st), u1) && Satisfied(w, MScript(w, rec, st), u2)
  {
    hide Sound, D.Injective, Curve.OnCurve, Curve.Mul, D.Affine64, D.PointAt, Provable, ChallengeScalar, GeneratorBytes, Push, CheckerScript, Satisfied, Width;
    GeneratorWidth(w);
    FitsPush(w, rec.z);
    FitsPush(w, ChallengeScalar(w, rec));
    u1 := ProductSpendable(w, LBase(w, rec, eq), rec.z);
    u2 := ProductSpendable(w, MBase(rec, eq), ChallengeScalar(w, rec));
  }

  /** Some run from the deployed referee convicts equation eq. */
  ghost predicate Convictable(w: World, rec: Recorded, r: Run, eq: int)
    requires Usable(w) && Deployable(w, rec)
  {
    exists rs, txs, moves :: ConvictsIn(w, rec, r, eq, rs, txs, moves)
  }

  ghost predicate ConvictsIn(w: World, rec: Recorded, r: Run, eq: int, rs: seq<Run>, txs: seq<Tx>, moves: seq<Move>)
    requires Usable(w) && Deployable(w, rec)
  {
    && IsRun(w, rec, r.st.value, rs, txs, moves) && rs[0] == r
    && rs[|txs|].st.phase == 2 && rs[|txs|].st.eq == eq
  }

  lemma ConvictionRun(w: World, rec: Recorded, r: Run, eq: int, pkh: Bytes, id1: Bytes, id2: Bytes)
    requires Usable(w) && Deployable(w, rec) && Widths(rec) && 1 <= eq <= 2 && OnCurve(w.g.curve, D.PointAt(ABase(rec, eq)))
    requires Deployed(w, rec, r) && FreshId(r.ledger, id1) && FreshId(r.ledger, id2) && id1 != id2 && |pkh| == 20
    requires !EquationHolds(w, rec, eq) && Demonstrable(w, rec, eq)
    ensures Convictable(w, rec, r, eq)
  {
    hide Sound, D.Injective, Curve.OnCurve, D.PointAt, Demonstrable, LScript, MScript, LTrue, MTrue, EquationHolds, FraudAllowed, PrepareAllowed, Satisfied, EcAdd, OutpointBytes, PrevoutBytes, Hash256, Usable, Deployable;
    OffsetAffine(w);
    var tx1, r1 := PrepareStep(w, rec, r, eq, pkh, id1);
    PreparedOutputs(r.ledger, tx1);
    var u1, u2 := CheckersSpendable(w, rec, eq, r1.st);
    StillFresh(r.ledger, tx1, id2);
    var st2 := Convicted(rec, r1.st);
    var tx2 := FraudTx(rec, id1, id2, r1.st, st2, u1, u2);
    FraudIsValid(w, rec, r1.ledger, tx1, r1.st, st2, id2, u1, u2);
    FraudPasses(w, rec, eq, r1.st, id1);
    var r2 := Run(Extend(r1.ledger, tx2), Outpoint(id2, 0), st2);
    assert r1.tip == tx2.inputs[0];
    assert StepTo(w, rec, r1, tx2, Convicts(OutpointBytes(Outpoint(id1, 3))), r2);
    assert ConvictsIn(w, rec, r, eq, [r, r1, r2], [tx1, tx2], [Prepares(Args(w, rec, eq, pkh)), Convicts(OutpointBytes(Outpoint(id1, 3)))]);
  }

  lemma StillFresh(ledger: Ledger, tx: Tx, id: Bytes)
    requires FreshId(ledger, id) && tx.id != id
    ensures FreshId(Extend(ledger, tx), id)
  {
  }

  /** An equation of a deployed record can be convicted if and only if it is false and both its
      products can be proved to the checker. */
  lemma ConvictableExactly(w: World, rec: Recorded, r: Run, eq: int, pkh: Bytes, id1: Bytes, id2: Bytes)
    requires Usable(w) && Deployable(w, rec) && Widths(rec) && 1 <= eq <= 2 && OnCurve(w.g.curve, D.PointAt(ABase(rec, eq)))
    requires Deployed(w, rec, r) && FreshId(r.ledger, id1) && FreshId(r.ledger, id2) && id1 != id2 && |pkh| == 20
    ensures Convictable(w, rec, r, eq) <==> !EquationHolds(w, rec, eq) && Demonstrable(w, rec, eq)
  {
    hide EquationHolds, Demonstrable, Usable, StepTo;
    if Convictable(w, rec, r, eq) {
      var rs, txs, moves :| ConvictsIn(w, rec, r, eq, rs, txs, moves);
      EveryRunKeeps(w, rec, r.st.value, rs, txs, moves, |txs|);
    } else if !EquationHolds(w, rec, eq) && Demonstrable(w, rec, eq) {
      ConvictionRun(w, rec, r, eq, pkh, id1, id2);
    }
  }
}
