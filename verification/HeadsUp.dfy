/** The heads-up escrow: a state both seats signed is posted, then each seat must act before its deadline. */
module HeadsUp {
  import opened ScriptBytes
  import opened Options
  import opened Sums
  import D = Dleq

  type Bytes = seq<byte>

  const HEIGHT_LIMIT: int := 500_000_000
  const FINAL_SEQUENCE: int := 0xFFFF_FFFF
  const P2PKH_PREFIX: Bytes := [0x19, 0x76, 0xa9, 0x14]
  const P2PKH_SUFFIX: Bytes := [0x88, 0xac]

  /** Abstract hashes; hash160 of a key is 20 bytes. */
  datatype World = World(hash160: Bytes -> Bytes, hash256: Bytes -> Bytes)

  /** What the script is deployed with. */
  datatype Terms = Terms(pk0: Bytes, pk1: Bytes, anchor: int, maxSeq: int, window: int, bigBlind: int)

  datatype Escrow = Escrow(bal0: int, bal1: int, com0: int, com1: int, phase: int, seq_: int, toAct: int, deadline: int, value: int)

  /** The spending transaction as the script sees it, and the seats that signed it. */
  datatype Spend = Spend(lockTime: int, sequence: int, outputHash: Bytes, signers: set<int>)

  datatype Call =
    | Post(newSeq: int, newToAct: int, newCom0: int, newCom1: int)
    | Act(kind: int, to: int)
    | Fold(changePKH: Bytes, changeAmount: int)
    | Forfeit(changePKH: Bytes, changeAmount: int)
    | Close

  datatype Result = Open(next: Escrow) | Paid(out0: int, out1: int) | Closed

  // ----- post -----

  /** The height at which state n may be posted. */
  function Rung(t: Terms, n: int): int {
    t.anchor + (t.maxSeq - n) * t.window
  }

  predicate PostAllowed(t: Terms, e: Escrow, c: Call, s: Spend)
    requires c.Post?
  {
    && e.phase == 0 && 0 in s.signers && 1 in s.signers
    && 1 <= c.newSeq <= t.maxSeq && (c.newToAct == 0 || c.newToAct == 1)
    && 0 <= c.newCom0 <= e.bal0 && 0 <= c.newCom1 <= e.bal1
    && s.lockTime == Rung(t, c.newSeq) && s.lockTime < HEIGHT_LIMIT && s.sequence != FINAL_SEQUENCE
  }

  function Posted(t: Terms, e: Escrow, c: Call, s: Spend): Escrow
    requires c.Post?
  {
    Escrow(e.bal0, e.bal1, c.newCom0, c.newCom1, 1, c.newSeq, c.newToAct, s.lockTime + t.window, e.value)
  }

  // ----- act -----

  function Mine(e: Escrow): int { if e.toAct == 1 then e.com1 else e.com0 }

  function Theirs(e: Escrow): int { if e.toAct == 1 then e.com0 else e.com1 }

  function Stack(e: Escrow): int { if e.toAct == 1 then e.bal1 else e.bal0 }

  function Mover(e: Escrow): int { if e.toAct == 1 then 1 else 0 }

  predicate ActAllowed(t: Terms, e: Escrow, c: Call, s: Spend)
    requires c.Act?
  {
    && e.phase == 1 && Mover(e) in s.signers && c.to >= Mine(e)
    && if c.kind == 1 then c.to == if Theirs(e) <= Stack(e) then Theirs(e) else Stack(e)
       else c.kind == 2 && Theirs(e) < c.to <= Stack(e) && (c.to - Theirs(e) >= t.bigBlind || c.to == Stack(e))
  }

  function Moved(t: Terms, e: Escrow, c: Call): Escrow
    requires c.Act?
  {
    if e.toAct == 0 then e.(com0 := c.to, seq_ := e.seq_ + 1, toAct := 1, deadline := e.deadline + t.window)
    else e.(com1 := c.to, seq_ := e.seq_ + 1, toAct := 0, deadline := e.deadline + t.window)
  }

  // ----- folding, and being folded -----

  /** What the seats receive when the seat on the clock folds. */
  function FoldOut0(e: Escrow): int { if e.toAct == 1 then e.bal0 + e.com1 else e.bal0 - e.com0 }

  function FoldOut1(e: Escrow): int { if e.toAct == 1 then e.bal1 - e.com1 else e.bal1 + e.com0 }

  predicate Fits(v: int) { 0 <= v < Pow2(63) }

  function PayTo(amount: nat, pkh: Bytes): Bytes {
    Num2Bin(amount, 8) + P2PKH_PREFIX + (pkh + P2PKH_SUFFIX)
  }

  /** The serialized outputs a fold must create. */
  function FoldOutputs(w: World, t: Terms, e: Escrow, changePKH: Bytes, change: int): Bytes
    requires Fits(FoldOut0(e)) && Fits(FoldOut1(e)) && (change > 0 ==> Fits(change))
  {
    PayTo(FoldOut0(e), w.hash160(t.pk0)) + PayTo(FoldOut1(e), w.hash160(t.pk1))
    + if change > 0 then PayTo(change, changePKH) else []
  }

  predicate PayoutAllowed(w: World, t: Terms, e: Escrow, changePKH: Bytes, change: int, s: Spend) {
    && e.phase == 1 && Fits(FoldOut0(e)) && Fits(FoldOut1(e)) && (change > 0 ==> Fits(change))
    && w.hash256(FoldOutputs(w, t, e, changePKH, change)) == s.outputHash
  }

  predicate ForfeitAllowed(w: World, t: Terms, e: Escrow, c: Call, s: Spend)
    requires c.Forfeit?
  {
    && PayoutAllowed(w, t, e, c.changePKH, c.changeAmount, s)
    && e.deadline <= s.lockTime < HEIGHT_LIMIT && s.sequence != FINAL_SEQUENCE
  }

  // ----- the contract -----

  /** What a call does to the escrow, when the script accepts it. */
  function Step(w: World, t: Terms, e: Escrow, c: Call, s: Spend): Option<Result> {
    match c
    case Post(_, _, _, _) => if PostAllowed(t, e, c, s) then Some(Open(Posted(t, e, c, s))) else None
    case Act(_, _) => if ActAllowed(t, e, c, s) then Some(Open(Moved(t, e, c))) else None
    case Fold(pkh, change) =>
      if Mover(e) in s.signers && PayoutAllowed(w, t, e, pkh, change, s) then Some(Paid(FoldOut0(e), FoldOut1(e))) else None
    case Forfeit(_, _) => if ForfeitAllowed(w, t, e, c, s) then Some(Paid(FoldOut0(e), FoldOut1(e))) else None
    case Close => if 0 in s.signers && 1 in s.signers then Some(Closed) else None
  }

  /** The script with its stored state. */
  class Contract {
    const terms: Terms
    var bal0: int
    var bal1: int
    var com0: int
    var com1: int
    var phase: int
    var seq_: int
    var toAct: int
    var deadline: int
    var value: int

    constructor (t: Terms, b0: int, b1: int, amount: int)
      ensures terms == t && View() == Deployed(b0, b1, amount)
    {
      terms := t;
      bal0, bal1, value := b0, b1, amount;
      com0, com1, phase, seq_, toAct, deadline := 0, 0, 0, 0, 0, 0;
    }

    ghost function View(): Escrow
      reads this
    {
      Escrow(bal0, bal1, com0, com1, phase, seq_, toAct, deadline, value)
    }

    method PostState(newSeq: int, newToAct: int, newCom0: int, newCom1: int, s: Spend) returns (ok: bool)
      modifies this
      ensures ok <==> PostAllowed(terms, old(View()), Post(newSeq, newToAct, newCom0, newCom1), s)
      ensures ok <==> old(phase) == 0 && 0 in s.signers && 1 in s.signers && 1 <= newSeq <= terms.maxSeq && (newToAct == 0 || newToAct == 1)
                      && 0 <= newCom0 <= old(bal0) && 0 <= newCom1 <= old(bal1)
                      && s.lockTime == terms.anchor + (terms.maxSeq - newSeq) * terms.window
                      && s.lockTime < 500_000_000 && s.sequence != 0xFFFF_FFFF
      ensures View() == if ok then Posted(terms, old(View()), Post(newSeq, newToAct, newCom0, newCom1), s) else old(View())
    {
      if phase != 0 || 0 !in s.signers || 1 !in s.signers || newSeq < 1 || newSeq > terms.maxSeq
         || !(newToAct == 0 || newToAct == 1) || !(newCom0 >= 0 && newCom0 <= bal0) || !(newCom1 >= 0 && newCom1 <= bal1) {
        return false;
      }
      var lt := s.lockTime;
      if lt != terms.anchor + (terms.maxSeq - newSeq) * terms.window || lt >= HEIGHT_LIMIT || s.sequence == FINAL_SEQUENCE {
        return false;
      }
      com0, com1, phase, seq_, toAct, deadline := newCom0, newCom1, 1, newSeq, newToAct, lt + terms.window;
      ok := true;
    }

    method Move(kind: int, to: int, s: Spend) returns (ok: bool)
      modifies this
      ensures ok <==> ActAllowed(terms, old(View()), Act(kind, to), s)
      ensures View() == if ok then Moved(terms, old(View()), Act(kind, to)) else old(View())
    {
      if phase != 1 {
        return false;
      }
      var mine, theirs, stack, mover := com0, com1, bal0, 0;
      if toAct == 1 {
        mine, theirs, stack, mover := com1, com0, bal1, 1;
      }
      if mover !in s.signers {
        return false;
      }
      if kind == 1 {
        if theirs <= stack {
          if to != theirs {
            return false;
          }
        } else if to != stack {
          return false;
        }
      } else if kind != 2 || to > stack || to <= theirs || !(to - theirs >= terms.bigBlind || to == stack) {
        return false;
      }
      if to < mine {
        return false;
      }
      if toAct == 0 {
        com0, seq_, toAct, deadline := to, seq_ + 1, 1, deadline + terms.window;
      } else {
        com1, seq_, toAct, deadline := to, seq_ + 1, 0, deadline + terms.window;
      }
      ok := true;
    }

    /** The outputs of a fold, or nothing when an amount does not fit its eight bytes. */
    method PayoutBytes(w: World, changePKH: Bytes, change: int) returns (outs: Option<Bytes>)
      ensures outs.Some? <==> Fits(FoldOut0(View())) && Fits(FoldOut1(View())) && (change > 0 ==> Fits(change))
      ensures outs.Some? ==> outs.value == FoldOutputs(w, terms, View(), changePKH, change)
    {
      var out0, out1 := bal0 - com0, bal1 + com0;
      if toAct == 1 {
        out0, out1 := bal0 + com1, bal1 - com1;
      }
      if !Fits(out0) || !Fits(out1) || (change > 0 && !Fits(change)) {
        return None;
      }
      var all := PayTo(out0, w.hash160(terms.pk0)) + PayTo(out1, w.hash160(terms.pk1));
      if change > 0 {
        all := all + PayTo(change, changePKH);
      } else {
        assert all + [] == all;
      }
      outs := Some(all);
    }

    method FoldNow(w: World, changePKH: Bytes, change: int, s: Spend) returns (ok: bool)
      ensures ok <==> Step(w, terms, View(), Fold(changePKH, change), s).Some?
      ensures ok <==> phase == 1 && (if toAct == 1 then 1 else 0) in s.signers && PayoutAllowed(w, terms, View(), changePKH, change, s)
    {
      if phase != 1 {
        return false;
      }
      var mover := 0;
      if toAct == 1 {
        mover := 1;
      }
      if mover !in s.signers {
        return false;
      }
      var outs := PayoutBytes(w, changePKH, change);
      ok := outs.Some? && w.hash256(outs.value) == s.outputHash;
    }

    method ForfeitNow(w: World, changePKH: Bytes, change: int, s: Spend) returns (ok: bool)
      ensures ok <==> ForfeitAllowed(w, terms, View(), Forfeit(changePKH, change), s)
      ensures ok <==> phase == 1 && deadline <= s.lockTime < 500_000_000 && s.sequence != 0xFFFF_FFFF
                      && PayoutAllowed(w, terms, View(), changePKH, change, s)
    {
      if phase != 1 || s.lockTime < deadline || s.lockTime >= HEIGHT_LIMIT || s.sequence == FINAL_SEQUENCE {
        return false;
      }
      var outs := PayoutBytes(w, changePKH, change);
      ok := outs.Some? && w.hash256(outs.value) == s.outputHash;
    }
  }

  // ----- runs -----

  function Deployed(bal0: int, bal1: int, value: int): Escrow {
    Escrow(bal0, bal1, 0, 0, 0, 0, 0, 0, value)
  }

  /** The states of an escrow from its deployment, spent by accepted calls that keep it open. */
  ghost predicate IsRun(w: World, t: Terms, es: seq<Escrow>, cs: seq<Call>, ss: seq<Spend>, bal0: int, bal1: int, value: int) {
    && |es| == |cs| + 1 == |ss| + 1 && es[0] == Deployed(bal0, bal1, value)
    && forall k :: 0 <= k < |cs| ==> Step(w, t, es[k], cs[k], ss[k]) == Some(Open(es[k + 1]))
  }

  /** Nobody has committed more than it brought, and the escrow holds what it started with. */
  predicate Sound(e: Escrow, bal0: int, bal1: int, value: int) {
    && e.bal0 == bal0 && e.bal1 == bal1 && e.value == value
    && 0 <= e.com0 <= e.bal0 && 0 <= e.com1 <= e.bal1
    && (e.phase == 0 || e.phase == 1) && (e.toAct == 0 || e.toAct == 1)
  }

  lemma {:induction false} EveryRunSound(w: World, t: Terms, es: seq<Escrow>, cs: seq<Call>, ss: seq<Spend>, bal0: nat, bal1: nat, value: int, k: nat)
    requires IsRun(w, t, es, cs, ss, bal0, bal1, value) && k < |es|
    ensures Sound(es[k], bal0, bal1, value)
    ensures k == 0 ==> es[k].phase == 0
    ensures k > 0 ==> es[k].phase == 1 && (cs[k - 1].Post? <==> k == 1)
  {
    hide Pow2, Rung;
    if k > 0 {
      EveryRunSound(w, t, es, cs, ss, bal0, bal1, value, k - 1);
      assert Step(w, t, es[k - 1], cs[k - 1], ss[k - 1]) == Some(Open(es[k - 1 + 1]));
    }
  }

  /** However an escrow is paid out, no payout is negative and the two total what the seats brought;
      the seat on the clock loses what it committed and no more. */
  lemma PayoutsTotal(w: World, t: Terms, es: seq<Escrow>, cs: seq<Call>, ss: seq<Spend>, bal0: nat, bal1: nat, value: int, c: Call, s: Spend)
    requires IsRun(w, t, es, cs, ss, bal0, bal1, value)
    requires var last := es[|cs|]; Step(w, t, last, c, s).Some? && Step(w, t, last, c, s).value.Paid?
    ensures var last := es[|cs|];
            var p := Step(w, t, last, c, s).value;
            && p.out0 >= 0 && p.out1 >= 0 && p.out0 + p.out1 == bal0 + bal1
            && (Mover(last) == 0 ==> p.out0 == bal0 - last.com0) && (Mover(last) == 1 ==> p.out1 == bal1 - last.com1)
  {
    hide Pow2;
    EveryRunSound(w, t, es, cs, ss, bal0, bal1, value, |cs|);
  }

  function Committed(e: Escrow, seat: int): int { if seat == 0 then e.com0 else e.com1 }

  function Brought(e: Escrow, seat: int): int { if seat == 0 then e.bal0 else e.bal1 }

  /** What both seats signed is what is posted. */
  lemma PostRule(w: World, t: Terms, es: seq<Escrow>, cs: seq<Call>, ss: seq<Spend>, bal0: nat, bal1: nat, value: int)
    requires IsRun(w, t, es, cs, ss, bal0, bal1, value) && |cs| >= 1
    ensures cs[0].Post? && {0, 1} <= ss[0].signers && 1 <= cs[0].newSeq <= t.maxSeq
    ensures es[1].com0 == cs[0].newCom0 && es[1].com1 == cs[0].newCom1 && es[1].toAct == cs[0].newToAct
    ensures ss[0].lockTime == t.anchor + (t.maxSeq - cs[0].newSeq) * t.window
  {
    hide Pow2;
    EveryRunSound(w, t, es, cs, ss, bal0, bal1, value, 1);
    assert Step(w, t, es[0], cs[0], ss[0]) == Some(Open(es[0 + 1]));
  }

  /** An on-chain move is accepted exactly when the seat on the clock signed it and it does not lower its
      own commitment, and is a call that matches the opponent as far as its balance goes, or a raise
      above the opponent, within its balance, by a big blind or with everything. The mover's commitment
      becomes the target, the opponent's stays, and it is the opponent's turn. */
  lemma MoveRule(w: World, t: Terms, e: Escrow, kind: int, to: int, s: Spend)
    requires e.phase == 1 && (e.toAct == 0 || e.toAct == 1)
    ensures var me, you := e.toAct, 1 - e.toAct;
            var theirs, all := Committed(e, you), Brought(e, me);
            && (Step(w, t, e, Act(kind, to), s).Some? <==>
                  && me in s.signers && to >= Committed(e, me)
                  && ((kind == 1 && to <= theirs && to <= all && (to == theirs || to == all))
                      || (kind == 2 && theirs < to <= all && (to - theirs >= t.bigBlind || to == all))))
            && (Step(w, t, e, Act(kind, to), s).Some? ==>
                  && Step(w, t, e, Act(kind, to), s).value.Open?
                  && var e' := Step(w, t, e, Act(kind, to), s).value.next;
                     Committed(e', me) == to && Committed(e', you) == theirs && e'.toAct == you)
  {
    hide Pow2;
  }

  /** A seat's chips are committed only under its own signature. */
  lemma {:induction false} OnlyOwnSignature(w: World, t: Terms, es: seq<Escrow>, cs: seq<Call>, ss: seq<Spend>, bal0: nat, bal1: nat, value: int, seat: int, i: nat, k: nat)
    requires IsRun(w, t, es, cs, ss, bal0, bal1, value) && (seat == 0 || seat == 1) && i <= k < |es|
    requires forall j :: i <= j < k ==> seat !in ss[j].signers
    ensures Committed(es[k], seat) == Committed(es[i], seat)
    decreases k
  {
    hide Pow2, Rung;
    if i < k {
      OnlyOwnSignature(w, t, es, cs, ss, bal0, bal1, value, seat, i, k - 1);
      EveryRunSound(w, t, es, cs, ss, bal0, bal1, value, k - 1);
      assert Step(w, t, es[k - 1], cs[k - 1], ss[k - 1]) == Some(Open(es[k - 1 + 1]));
      assert seat !in ss[k - 1].signers;
    }
  }

  /** What a seat would be paid if it were made to fold. */
  function IfFolded(e: Escrow, seat: int): int { if seat == 0 then e.bal0 - e.com0 else e.bal1 - e.com1 }

  /** An opponent's moves never lower what a seat keeps by folding or forfeiting. */
  lemma OpponentCannotRaise(w: World, t: Terms, es: seq<Escrow>, cs: seq<Call>, ss: seq<Spend>, bal0: nat, bal1: nat, value: int, seat: int, i: nat, k: nat)
    requires IsRun(w, t, es, cs, ss, bal0, bal1, value) && (seat == 0 || seat == 1) && i <= k < |es|
    requires forall j :: i <= j < k ==> seat !in ss[j].signers
    ensures IfFolded(es[k], seat) == IfFolded(es[i], seat) >= 0
  {
    OnlyOwnSignature(w, t, es, cs, ss, bal0, bal1, value, seat, i, k);
    EveryRunSound(w, t, es, cs, ss, bal0, bal1, value, i);
    EveryRunSound(w, t, es, cs, ss, bal0, bal1, value, k);
  }

  /** After the post and j moves the deadline is the posted rung plus j + 1 windows, the sequence
      number has risen by j, and the turn has passed j times. */
  lemma {:induction false} Schedule(w: World, t: Terms, es: seq<Escrow>, cs: seq<Call>, ss: seq<Spend>, bal0: nat, bal1: nat, value: int, j: nat)
    requires IsRun(w, t, es, cs, ss, bal0, bal1, value) && 1 + j < |es| && cs[0].Post?
    ensures es[1 + j].deadline == Rung(t, cs[0].newSeq) + (j + 1) * t.window
    ensures es[1 + j].seq_ == cs[0].newSeq + j
    ensures es[1 + j].toAct == if j % 2 == 0 then cs[0].newToAct else 1 - cs[0].newToAct
  {
    hide Pow2;
    assert Step(w, t, es[0], cs[0], ss[0]) == Some(Open(es[0 + 1]));
    if j > 0 {
      Schedule(w, t, es, cs, ss, bal0, bal1, value, j - 1);
      EveryRunSound(w, t, es, cs, ss, bal0, bal1, value, j);
      EveryRunSound(w, t, es, cs, ss, bal0, bal1, value, j + 1);
      assert Step(w, t, es[j], cs[j], ss[j]) == Some(Open(es[j + 1]));
      OneMore(t.window, j);
    }
  }

  /** A forfeit waits for the whole schedule: at least one window after the post, and one more for
      every move since. */
  lemma ForfeitWaits(w: World, t: Terms, es: seq<Escrow>, cs: seq<Call>, ss: seq<Spend>, bal0: nat, bal1: nat, value: int, c: Call, s: Spend)
    requires IsRun(w, t, es, cs, ss, bal0, bal1, value) && |cs| >= 1 && c.Forfeit?
    requires Step(w, t, es[|cs|], c, s).Some?
    ensures cs[0].Post? && s.lockTime >= ss[0].lockTime + |cs| * t.window
  {
    hide Pow2;
    EveryRunSound(w, t, es, cs, ss, bal0, bal1, value, 1);
    assert Step(w, t, es[0], cs[0], ss[0]) == Some(Open(es[0 + 1]));
    Schedule(w, t, es, cs, ss, bal0, bal1, value, |cs| - 1);
  }

  /** A newer state can be posted at least one window before any older one, given a window that is
      not negative; with a negative one only the very next state can. */
  lemma NewerMatureFirst(t: Terms, e: Escrow, older: Call, newer: Call, s: Spend, s': Spend)
    requires older.Post? && newer.Post? && older.newSeq < newer.newSeq
    requires PostAllowed(t, e, older, s) && PostAllowed(t, e, newer, s')
    ensures s'.lockTime + t.window <= s.lockTime <==> t.window >= 0 || newer.newSeq == older.newSeq + 1
  {
    hide Rung;
    var d := newer.newSeq - older.newSeq;
    RungsApart(t, older.newSeq, d);
    Multiples(d - 1, t.window);
  }

  lemma Multiples(n: int, window: int)
    requires n >= 0
    ensures n * window >= 0 <==> window >= 0 || n == 0
    ensures (n + 1) * window == n * window + window
  {
  }

  lemma RungsApart(t: Terms, n: int, d: int)
    ensures Rung(t, n) == Rung(t, n + d) + d * t.window
  {
    assert (t.maxSeq - n) * t.window == (t.maxSeq - n - d) * t.window + d * t.window;
  }

  // ----- what the hash pins down -----

  /** A standard payment at the head of serialized outputs, and what follows it. */
  datatype Payment = Payment(amount: int, pkh: Bytes, rest: Bytes)

  /** Reads one output: eight bytes of amount, a 25-byte script that pays a key hash, and no more. */
  function ReadPayment(b: Bytes): Option<Payment> {
    if |b| >= 34 && b[8..12] == [0x19, 0x76, 0xa9, 0x14] && b[32..34] == [0x88, 0xac]
    then Some(Payment(Bin2Num(b[..8]), b[12..32], b[34..]))
    else None
  }

  lemma PaymentRead(amount: nat, pkh: Bytes, rest: Bytes)
    requires Fits(amount) && |pkh| == 20
    ensures ReadPayment(PayTo(amount, pkh) + rest) == Some(Payment(amount, pkh, rest))
  {
    hide Pow2, Bin2Num;
    var b := PayTo(amount, pkh) + rest;
    assert b[..8] == Num2Bin(amount, 8) && b[8..12] == P2PKH_PREFIX && b[12..32] == pkh && b[32..34] == P2PKH_SUFFIX;
    assert b[34..] == rest;
    Bin2NumOfNum2Bin(amount, 8);
  }

  lemma PayToDetermines(a: nat, p: Bytes, b: nat, q: Bytes, x: Bytes, y: Bytes)
    requires Fits(a) && Fits(b) && |p| == 20 && |q| == 20 && PayTo(a, p) + x == PayTo(b, q) + y
    ensures a == b && p == q && x == y
  {
    hide Pow2, PayTo, ReadPayment;
    PaymentRead(a, p, x);
    PaymentRead(b, q, y);
  }

  /** These serialized outputs pay this much to the one key hash, this much to the other, and then a
      change, or nothing. */
  predicate Pays(outs: Bytes, amount0: int, pkh0: Bytes, amount1: int, pkh1: Bytes, changePKH: Bytes, change: int) {
    var first := ReadPayment(outs);
    && first.Some? && first.value.amount == amount0 && first.value.pkh == pkh0
    && var second := ReadPayment(first.value.rest);
       && second.Some? && second.value.amount == amount1 && second.value.pkh == pkh1
       && if change <= 0 then second.value.rest == []
          else |changePKH| == 20 ==> ReadPayment(second.value.rest) == Some(Payment(change, changePKH, []))
  }

  /** Whoever folds or forfeits in any run, the transaction's outputs pay it back what it brought less
      what it had put in, to its own key, and the opponent what it brought and that as well, to its key,
      and then nothing but the caller's change. */
  lemma FoldPays(w: World, t: Terms, es: seq<Escrow>, cs: seq<Call>, ss: seq<Spend>, bal0: nat, bal1: nat, value: int, c: Call, s: Spend, outs: Bytes)
    requires IsRun(w, t, es, cs, ss, bal0, bal1, value) && (c.Fold? || c.Forfeit?)
    requires Step(w, t, es[|cs|], c, s).Some? && w.hash256(outs) == s.outputHash
    requires D.Injective(w.hash256) && |w.hash160(t.pk0)| == 20 && |w.hash160(t.pk1)| == 20
    ensures var last := es[|cs|];
            && (last.toAct == 0 ==> Pays(outs, bal0 - last.com0, w.hash160(t.pk0), bal1 + last.com0, w.hash160(t.pk1), c.changePKH, c.changeAmount))
            && (last.toAct == 1 ==> Pays(outs, bal0 + last.com1, w.hash160(t.pk0), bal1 - last.com1, w.hash160(t.pk1), c.changePKH, c.changeAmount))
  {
    hide Pow2, PayTo, ReadPayment;
    EveryRunSound(w, t, es, cs, ss, bal0, bal1, value, |cs|);
    var last, k0, k1 := es[|cs|], w.hash160(t.pk0), w.hash160(t.pk1);
    var rest := if c.changeAmount > 0 then PayTo(c.changeAmount, c.changePKH) else [];
    assert outs == FoldOutputs(w, t, last, c.changePKH, c.changeAmount) == PayTo(FoldOut0(last), k0) + (PayTo(FoldOut1(last), k1) + rest);
    PaymentRead(FoldOut0(last), k0, PayTo(FoldOut1(last), k1) + rest);
    PaymentRead(FoldOut1(last), k1, rest);
    if c.changeAmount > 0 && |c.changePKH| == 20 {
      PaymentRead(c.changeAmount, c.changePKH, []);
      assert rest + [] == rest;
    }
  }

  /** Once posted an escrow can always be paid out: with the right outputs the seat on the clock can fold,
      and from the deadline on anyone can have it forfeit. */
  lemma PayoutPossible(w: World, t: Terms, es: seq<Escrow>, cs: seq<Call>, ss: seq<Spend>, bal0: nat, bal1: nat, value: int, pkh: Bytes, change: int) returns (outs: Bytes)
    requires IsRun(w, t, es, cs, ss, bal0, bal1, value) && |cs| >= 1 && bal0 + bal1 < Pow2(63) && change < Pow2(63)
    ensures forall s: Spend :: s.outputHash == w.hash256(outs) && es[|cs|].toAct in s.signers ==> Step(w, t, es[|cs|], Fold(pkh, change), s).Some?
    ensures forall s: Spend :: s.outputHash == w.hash256(outs) && es[|cs|].deadline <= s.lockTime < 500_000_000 && s.sequence != 0xFFFF_FFFF ==>
                          Step(w, t, es[|cs|], Forfeit(pkh, change), s).Some?
  {
    hide Pow2, PayTo;
    EveryRunSound(w, t, es, cs, ss, bal0, bal1, value, |cs|);
    outs := FoldOutputs(w, t, es[|cs|], pkh, change);
    hide FoldOutputs;
  }

  /** Under an injective hash the outputs an accepted fold or forfeit creates are the two payouts, to
      the two seats, and the change, and nothing else. */
  lemma PayoutPinned(w: World, t: Terms, e: Escrow, pkh: Bytes, change: int, e': Escrow, pkh': Bytes, change': int, s: Spend)
    requires D.Injective(w.hash256) && |w.hash160(t.pk0)| == 20 && |w.hash160(t.pk1)| == 20
    requires PayoutAllowed(w, t, e, pkh, change, s) && PayoutAllowed(w, t, e', pkh', change', s)
    ensures FoldOut0(e) == FoldOut0(e') && FoldOut1(e) == FoldOut1(e')
  {
    hide Pow2, PayTo;
    var rest := if change > 0 then PayTo(change, pkh) else [];
    var rest' := if change' > 0 then PayTo(change', pkh') else [];
    var k0, k1 := w.hash160(t.pk0), w.hash160(t.pk1);
    assert FoldOutputs(w, t, e, pkh, change) == PayTo(FoldOut0(e), k0) + (PayTo(FoldOut1(e), k1) + rest);
    assert FoldOutputs(w, t, e', pkh', change') == PayTo(FoldOut0(e'), k0) + (PayTo(FoldOut1(e'), k1) + rest');
    PayToDetermines(FoldOut0(e), k0, FoldOut0(e'), k0, PayTo(FoldOut1(e), k1) + rest, PayTo(FoldOut1(e'), k1) + rest');
    PayToDetermines(FoldOut1(e), k1, FoldOut1(e'), k1, rest, rest');
  }
}
