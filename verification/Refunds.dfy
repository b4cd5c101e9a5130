/** Refunds of a shared pot: how they are built and what a seat checks before signing one. */
module Refunds {
  import opened Options
  import opened Sums
  import opened Unordered

  // ----- transactions -----

  const FINAL_SEQUENCE: int := 0xFFFF_FFFF
  const WORD64: int := 0x1_0000_0000_0000_0000

  type u64 = x: nat | x < WORD64

  datatype Input = Input(txid: Option<string>, vout: int, sequence: int)

  /** A locking script is written in hexadecimal. */
  datatype Output = Output(satoshis: u64, script: Option<string>)

  datatype Tx = Tx(inputs: seq<Input>, outputs: seq<Output>, lockTime: nat)

  function LowerChar(c: char): char {
    if 'A' <= c <= 'Z' then (c as int + 32) as char else c
  }

  function Lower(s: string): string {
    seq(|s|, i requires 0 <= i < |s| => LowerChar(s[i]))
  }

  predicate Spends(i: Input, txid: string, vout: int) {
    i.txid == Some(txid) && i.vout == vout
  }

  predicate SpendsPot(tx: Tx, txid: string, vout: int) {
    exists i :: 0 <= i < |tx.inputs| && Spends(tx.inputs[i], txid, vout)
  }

  /** The position of the input that spends an outpoint, wherever it is. */
  method FindPotInput(tx: Tx, txid: string, vout: int) returns (r: Option<int>)
    ensures r.Some? <==> SpendsPot(tx, txid, vout)
    ensures r.Some? ==> 0 <= r.value < |tx.inputs| && Spends(tx.inputs[r.value], txid, vout)
    ensures r.Some? ==> forall j :: 0 <= j < r.value ==> !Spends(tx.inputs[j], txid, vout)
  {
    for i := 0 to |tx.inputs|
      invariant forall j :: 0 <= j < i ==> !Spends(tx.inputs[j], txid, vout)
    {
      if Spends(tx.inputs[i], txid, vout) {
        return Some(i);
      }
    }
    r := None;
  }

  // ----- what outputs pay -----

  /** How amounts are added: as numbers, or in the 64 bits the verifier has. */
  datatype Adding = Exact | Wrapping

  function Plus(a: nat, b: nat, add: Adding): nat {
    if add.Exact? then a + b else (a + b) % WORD64
  }

  function PaidBy(o: Output, s: string): nat {
    if o.script.Some? && Lower(o.script.value) == s then o.satoshis else 0
  }

  /** What the outputs pay to a script altogether. */
  function Paid(outs: seq<Output>, s: string, add: Adding): nat {
    if outs == [] then 0 else Plus(Paid(outs[..|outs| - 1], s, add), PaidBy(outs[|outs| - 1], s), add)
  }

  function TotalOut(outs: seq<Output>, add: Adding): nat {
    if outs == [] then 0 else Plus(TotalOut(outs[..|outs| - 1], add), outs[|outs| - 1].satoshis, add)
  }

  predicate PaysTo(o: Output, s: string) {
    o.script.Some? && Lower(o.script.value) == s
  }

  ghost predicate HasScript(outs: seq<Output>, s: string) {
    exists i :: 0 <= i < |outs| && PaysTo(outs[i], s)
  }

  // ----- what a seat requires -----

  datatype Expectation = Expectation(potTxid: string, potVout: int, potSatoshis: u64, balances: map<string, u64>,
                                     maxFee: u64, maxLockHeight: nat)

  /** The locktime is enforced: it is set and some input is not final. */
  predicate Binding(tx: Tx) {
    tx.lockTime > 0 && exists i :: 0 <= i < |tx.inputs| && tx.inputs[i].sequence != FINAL_SEQUENCE
  }

  /** k is paid less than its balance. */
  predicate ShortIn(want: Expectation, outs: seq<Output>, k: string, add: Adding) {
    k in want.balances && Paid(outs, Lower(k), add) < want.balances[k]
  }

  /** The output to k exists, and is its balance or no more than maxFee below it. */
  ghost predicate Honours(outs: seq<Output>, k: string, due: nat, maxFee: nat, add: Adding) {
    HasScript(outs, Lower(k)) && due - maxFee <= Paid(outs, Lower(k), add) <= due
  }

  ghost predicate Named(want: Expectation, o: Output) {
    exists k :: k in want.balances && PaysTo(o, Lower(k))
  }

  ghost predicate SameScript(a: string, b: string) {
    Lower(a) == Lower(b)
  }

  /** What makes a shared refund acceptable to a seat, with its amounts added exactly or in 64 bits. */
  ghost predicate Acceptable(tx: Tx, want: Expectation, add: Adding) {
    && want.potTxid != "" && want.balances != map[] && want.maxFee > 0
    && Binding(tx) && (want.maxLockHeight > 0 ==> tx.lockTime <= want.maxLockHeight)
    && SpendsPot(tx, want.potTxid, want.potVout)
    && (forall i :: 0 <= i < |tx.outputs| ==> tx.outputs[i].script.Some?)
    && (forall k :: k in want.balances ==> Honours(tx.outputs, k, want.balances[k], want.maxFee, add))
    && (forall j, k :: j in want.balances && k in want.balances && SameScript(j, k) ==> j == k)
    && (forall j, k :: ShortIn(want, tx.outputs, j, add) && ShortIn(want, tx.outputs, k, add) ==> j == k)
    && (forall i :: 0 <= i < |tx.outputs| ==> Named(want, tx.outputs[i]))
    && TotalOut(tx.outputs, add) <= want.potSatoshis <= TotalOut(tx.outputs, add) + want.maxFee
  }

  /** got holds the scripts paid and the amounts paid to them. */
  ghost predicate Tallied(got: map<string, nat>, outs: seq<Output>, add: Adding) {
    && (forall s :: s in got ==> HasScript(outs, s) && got[s] == Paid(outs, s, add))
    && (forall i :: 0 <= i < |outs| && outs[i].script.Some? ==> Lower(outs[i].script.value) in got)
  }

  lemma TallyOne(got: map<string, nat>, outs: seq<Output>, o: Output, add: Adding)
    requires Tallied(got, outs, add) && o.script.Some?
    ensures var s := Lower(o.script.value);
            Tallied(got[s := Plus(if s in got then got[s] else 0, o.satoshis, add)], outs + [o], add)
  {
    var s := Lower(o.script.value);
    var all := outs + [o];
    assert all[..|outs|] == outs && all[|outs|] == o;
    if s !in got { NonePaid(outs, s, add); }
    forall x
      ensures Plus(Paid(outs, x, add), 0, add) == Paid(outs, x, add)
    {
      PaidFits(outs, x, add);
    }
    forall x | x in got || x == s
      ensures HasScript(all, x)
      ensures Paid(all, x, add) == Plus(if x in got then got[x] else 0, if x == s then o.satoshis else 0, add)
    {
      if x in got {
        var i :| 0 <= i < |outs| && PaysTo(outs[i], x);
        assert PaysTo(all[i], x);
      } else {
        assert PaysTo(all[|outs|], x);
      }
    }
  }

  lemma PaidFits(outs: seq<Output>, s: string, add: Adding)
    ensures Plus(Paid(outs, s, add), 0, add) == Paid(outs, s, add)
  {
  }

  lemma {:induction false} NonePaid(outs: seq<Output>, s: string, add: Adding)
    requires forall i :: 0 <= i < |outs| ==> !PaysTo(outs[i], s)
    ensures Paid(outs, s, add) == 0
  {
    if outs != [] { NonePaid(outs[..|outs| - 1], s, add); }
  }

  lemma NothingTallied(add: Adding)
    ensures Tallied(map[], [], add) && TotalOut([], add) == 0
  {
  }

  lemma TotalOne(outs: seq<Output>, o: Output, add: Adding)
    ensures TotalOut(outs + [o], add) == Plus(TotalOut(outs, add), o.satoshis, add)
  {
    assert (outs + [o])[..|outs|] == outs;
  }

  /** Adds up the outputs by script, in 64 bits; fails when one has none. */
  method Tally(outs: seq<Output>) returns (got: map<string, nat>, total: nat, ok: bool)
    ensures ok <==> forall i :: 0 <= i < |outs| ==> outs[i].script.Some?
    ensures ok ==> Tallied(got, outs, Wrapping) && total == TotalOut(outs, Wrapping)
  {
    hide Lower, Tallied, Paid, TotalOut;
    got, total := map[], 0;
    NothingTallied(Wrapping);
    assert outs[..0] == [];
    for i := 0 to |outs|
      invariant forall j :: 0 <= j < i ==> outs[j].script.Some?
      invariant Tallied(got, outs[..i], Wrapping) && total == TotalOut(outs[..i], Wrapping)
    {
      if outs[i].script.None? {
        return got, total, false;
      }
      assert outs[..i + 1] == outs[..i] + [outs[i]];
      TallyOne(got, outs[..i], outs[i], Wrapping);
      TotalOne(outs[..i], outs[i], Wrapping);
      var s := Lower(outs[i].script.value);
      got := got[s := Plus(if s in got then got[s] else 0, outs[i].satoshis, Wrapping)];
      total := Plus(total, outs[i].satoshis, Wrapping);
    }
    assert outs[..|outs|] == outs;
    ok := true;
  }

  /** The balances outside rest have been matched, each against an output of its own. */
  ghost predicate MatchedSoFar(want: Expectation, outs: seq<Output>, rest: set<string>, got: map<string, nat>, add: Adding) {
    && (forall k :: k in want.balances && k !in rest ==> Honours(outs, k, want.balances[k], want.maxFee, add))
    && (forall j, k :: j in want.balances && k in want.balances && j !in rest && k !in rest && SameScript(j, k) ==> j == k)
    && (forall s :: s in got ==> HasScript(outs, s) && got[s] == Paid(outs, s, add))
    && (forall k :: k in want.balances && k !in rest ==> Lower(k) !in got)
    && (forall i :: 0 <= i < |outs| ==> outs[i].script.Some? && (Lower(outs[i].script.value) in got || TakenFrom(want, rest, outs[i])))
  }

  ghost predicate TakenFrom(want: Expectation, rest: set<string>, o: Output) {
    exists k :: k in want.balances && k !in rest && PaysTo(o, Lower(k))
  }

  ghost predicate ShortCount(want: Expectation, outs: seq<Output>, rest: set<string>, n: nat, add: Adding) {
    && (n == 0 ==> forall k :: ShortIn(want, outs, k, add) ==> k in rest)
    && (n > 0 ==> exists k :: ShortIn(want, outs, k, add) && k !in rest)
    && (n <= 1 <==> forall j, k :: ShortIn(want, outs, j, add) && ShortIn(want, outs, k, add) && j !in rest && k !in rest ==> j == k)
  }

  /** Accepts a refund exactly when it is acceptable in 64-bit sums; the balances are taken in whatever order the
      map yields them. */
  method VerifySharedRefund(tx: Tx, want: Expectation) returns (ok: bool)
    ensures ok <==> Acceptable(tx, want, Wrapping)
    ensures ok ==> want.potTxid != "" && want.balances != map[] && want.maxFee > 0
  {
    if want.potTxid == "" || want.balances == map[] || want.maxFee == 0 || tx.lockTime == 0 {
      return false;
    }
    var final := true;
    for i := 0 to |tx.inputs|
      invariant final <==> forall j :: 0 <= j < i ==> tx.inputs[j].sequence == FINAL_SEQUENCE
    {
      if tx.inputs[i].sequence != FINAL_SEQUENCE { final := false; }
    }
    if final || (want.maxLockHeight > 0 && tx.lockTime > want.maxLockHeight) {
      return false;
    }
    var at := FindPotInput(tx, want.potTxid, want.potVout);
    if at.None? {
      return false;
    }
    var got, totalOut, scripted := Tally(tx.outputs);
    if !scripted {
      return false;
    }
    var matched := MatchBalances(tx.outputs, want, got);
    if !matched {
      return false;
    }
    ok := totalOut <= want.potSatoshis && want.potSatoshis - totalOut <= want.maxFee;
  }

  ghost predicate BalancesMatch(outs: seq<Output>, want: Expectation, add: Adding) {
    && (forall k :: k in want.balances ==> Honours(outs, k, want.balances[k], want.maxFee, add))
    && (forall j, k :: j in want.balances && k in want.balances && SameScript(j, k) ==> j == k)
    && (forall j, k :: ShortIn(want, outs, j, add) && ShortIn(want, outs, k, add) ==> j == k)
    && (forall i :: 0 <= i < |outs| ==> Named(want, outs[i]))
  }

  method MatchBalances(outs: seq<Output>, want: Expectation, tally: map<string, nat>) returns (ok: bool)
    requires Tallied(tally, outs, Wrapping) && forall i :: 0 <= i < |outs| ==> outs[i].script.Some?
    ensures ok <==> BalancesMatch(outs, want, Wrapping)
  {
    hide Lower, Paid;
    var got: map<string, nat> := tally;
    var rest := want.balances.Keys;
    var shortfalls := 0;
    while |rest| > 0
      invariant rest <= want.balances.Keys
      invariant MatchedSoFar(want, outs, rest, got, Wrapping)
      invariant ShortCount(want, outs, rest, shortfalls, Wrapping)
      decreases |rest|
    {
      InhabitedStrings(rest);
      var k :| k in rest;
      var key := Lower(k);
      Mismatch(want, outs, rest, got, k, Wrapping);
      if key !in got {
        return false;
      }
      var due := want.balances[k];
      if got[key] > due || due - got[key] > want.maxFee {
        return false;
      }
      MatchOne(want, outs, rest, got, k, Wrapping);
      ShortOne(want, outs, rest, shortfalls, k, Wrapping);
      if got[key] < due { shortfalls := shortfalls + 1; }
      got := got - {key};
      rest := rest - {k};
    }
    assert forall k :: k in want.balances ==> k !in rest;
    AllMatched(want, outs, rest, got, shortfalls, Wrapping);
    if shortfalls > 1 {
      return false;
    }
    ok := |got| == 0;
  }

  /** A balance with no output left for it, or one of the wrong size, cannot be matched. */
  lemma Mismatch(want: Expectation, outs: seq<Output>, rest: set<string>, got: map<string, nat>, k: string, add: Adding)
    requires MatchedSoFar(want, outs, rest, got, add) && k in rest && k in want.balances
    ensures BalancesMatch(outs, want, add) ==> Lower(k) in got && got[Lower(k)] <= want.balances[k] <= got[Lower(k)] + want.maxFee
  {
    hide Lower, Paid;
    if BalancesMatch(outs, want, add) {
      assert Honours(outs, k, want.balances[k], want.maxFee, add);
      var i :| 0 <= i < |outs| && PaysTo(outs[i], Lower(k));
      assert forall j :: j in want.balances && j !in rest ==> !SameScript(j, k);
      assert !TakenFrom(want, rest, outs[i]);
    }
  }

  lemma MatchOne(want: Expectation, outs: seq<Output>, rest: set<string>, got: map<string, nat>, k: string, add: Adding)
    requires MatchedSoFar(want, outs, rest, got, add) && k in rest && k in want.balances
    requires Lower(k) in got && got[Lower(k)] <= want.balances[k] <= got[Lower(k)] + want.maxFee
    ensures MatchedSoFar(want, outs, rest - {k}, got - {Lower(k)}, add)
  {
    hide Lower, Paid;
    var rest', got' := rest - {k}, got - {Lower(k)};
    forall i | 0 <= i < |outs|
      ensures Lower(outs[i].script.value) in got' || TakenFrom(want, rest', outs[i])
    {
      if TakenFrom(want, rest, outs[i]) {
        var j :| j in want.balances && j !in rest && PaysTo(outs[i], Lower(j));
        assert j !in rest';
      } else if Lower(outs[i].script.value) == Lower(k) {
        assert k !in rest' && PaysTo(outs[i], Lower(k));
      }
    }
  }

  lemma ShortOne(want: Expectation, outs: seq<Output>, rest: set<string>, n: nat, k: string, add: Adding)
    requires ShortCount(want, outs, rest, n, add) && k in rest && k in want.balances
    ensures ShortCount(want, outs, rest - {k}, if ShortIn(want, outs, k, add) then n + 1 else n, add)
  {
    hide ShortIn;
  }

  lemma AllMatched(want: Expectation, outs: seq<Output>, rest: set<string>, got: map<string, nat>, n: nat, add: Adding)
    requires MatchedSoFar(want, outs, rest, got, add) && ShortCount(want, outs, rest, n, add) && forall k :: k in want.balances ==> k !in rest
    ensures BalancesMatch(outs, want, add) <==> n <= 1 && |got| == 0
  {
    hide Lower, Paid;
    if |got| == 0 {
      assert got == map[];
      forall i | 0 <= i < |outs|
        ensures Named(want, outs[i])
      {
        assert TakenFrom(want, rest, outs[i]);
      }
    } else {
      InhabitedStrings(got.Keys);
      var s :| s in got.Keys;
      var i :| 0 <= i < |outs| && PaysTo(outs[i], s);
      assert !Named(want, outs[i]);
    }
  }

  // ----- what acceptance means -----

  lemma {:induction false} WrapsTo(outs: seq<Output>, s: string)
    ensures Paid(outs, s, Wrapping) == Paid(outs, s, Exact) % WORD64
    ensures TotalOut(outs, Wrapping) == TotalOut(outs, Exact) % WORD64
    ensures Paid(outs, s, Exact) <= TotalOut(outs, Exact)
  {
    if outs != [] {
      var n := |outs| - 1;
      WrapsTo(outs[..n], s);
      AddWraps(Paid(outs[..n], s, Exact), PaidBy(outs[n], s));
      AddWraps(TotalOut(outs[..n], Exact), outs[n].satoshis);
    }
  }

  lemma AddWraps(a: nat, b: nat)
    ensures (a % WORD64 + b) % WORD64 == (a + b) % WORD64
  {
  }

  /** Below 2^64 in all, the two ways of adding agree. */
  lemma NoWrap(outs: seq<Output>, s: string)
    requires TotalOut(outs, Exact) < WORD64
    ensures Paid(outs, s, Wrapping) == Paid(outs, s, Exact) && TotalOut(outs, Wrapping) == TotalOut(outs, Exact)
  {
    WrapsTo(outs, s);
  }

  /** A refund is truly acceptable if and only if the verifier accepts it and its outputs total less
      than 2^64. */
  lemma AcceptableExactly(tx: Tx, want: Expectation)
    ensures Acceptable(tx, want, Exact) <==> Acceptable(tx, want, Wrapping) && TotalOut(tx.outputs, Exact) < WORD64
  {
    hide Paid, TotalOut, Lower, HasScript, Named, Binding, SpendsPot;
    if TotalOut(tx.outputs, Exact) < WORD64 {
      forall s
        ensures Paid(tx.outputs, s, Wrapping) == Paid(tx.outputs, s, Exact)
      {
        NoWrap(tx.outputs, s);
      }
      NoWrap(tx.outputs, "");
      forall k
        ensures ShortIn(want, tx.outputs, k, Wrapping) == ShortIn(want, tx.outputs, k, Exact)
      {
      }
      forall k | k in want.balances
        ensures Honours(tx.outputs, k, want.balances[k], want.maxFee, Wrapping) == Honours(tx.outputs, k, want.balances[k], want.maxFee, Exact)
      {
      }
      hide ShortIn, Honours;
    }
  }

  /** Scripts are compared without regard to the case of their letters. */
  lemma LowerFolds(s: string, t: string)
    ensures Lower(s) == Lower(t) <==> |s| == |t| && forall i :: 0 <= i < |s| ==> s[i] == t[i] || SameLetter(s[i], t[i]) || SameLetter(t[i], s[i])
  {
    if Lower(s) == Lower(t) {
      forall i | 0 <= i < |s|
        ensures s[i] == t[i] || SameLetter(s[i], t[i]) || SameLetter(t[i], s[i])
      {
        assert Lower(s)[i] == Lower(t)[i];
      }
    }
  }

  /** a is a capital letter and b the same letter. */
  predicate SameLetter(a: char, b: char) { 'A' <= a <= 'Z' && b as int - 'a' as int == a as int - 'A' as int }

  /** An accepted refund whose outputs total less than 2^64 pays each balance exactly, except at most
      one short by no more than the fee bound, pays each to a script of its own and nothing else, leaves
      no more than the bound as fee, spends the pot, and has a binding locktime within the bound set. */
  lemma AcceptedPays(tx: Tx, want: Expectation, k: string)
    requires Acceptable(tx, want, Wrapping) && TotalOut(tx.outputs, Exact) < WORD64 && k in want.balances
    ensures want.balances[k] - want.maxFee <= Paid(tx.outputs, Lower(k), Exact) <= want.balances[k]
    ensures forall j :: j in want.balances && j != k && ShortIn(want, tx.outputs, j, Exact) ==> Paid(tx.outputs, Lower(k), Exact) == want.balances[k]
    ensures forall i :: 0 <= i < |tx.outputs| ==> Named(want, tx.outputs[i])
    ensures forall j :: j in want.balances && j != k ==> Lower(j) != Lower(k)
    ensures TotalOut(tx.outputs, Exact) <= want.potSatoshis <= TotalOut(tx.outputs, Exact) + want.maxFee
    ensures exists i :: 0 <= i < |tx.inputs| && tx.inputs[i].txid == Some(want.potTxid) && tx.inputs[i].vout == want.potVout
    ensures tx.lockTime > 0 && exists i :: 0 <= i < |tx.inputs| && tx.inputs[i].sequence != FINAL_SEQUENCE
    ensures want.maxLockHeight > 0 ==> tx.lockTime <= want.maxLockHeight
  {
    hide Lower, Paid, TotalOut;
    AcceptableExactly(tx, want);
    var i :| 0 <= i < |tx.inputs| && Spends(tx.inputs[i], want.potTxid, want.potVout);
    assert forall j :: j in want.balances && SameScript(j, k) ==> j == k;
    assert Honours(tx.outputs, k, want.balances[k], want.maxFee, Exact);
    forall j | j in want.balances && j != k && ShortIn(want, tx.outputs, j, Exact)
      ensures Paid(tx.outputs, Lower(k), Exact) == want.balances[k]
    {
      assert !ShortIn(want, tx.outputs, k, Exact);
    }
  }

  /** Two seats of the scripts aa and bb holding a and b, and a refund whose two outputs to aa wrap round. */
  function WrappingTx(txid: string, a: nat, b: nat, fee: nat): Tx
    requires a < WORD64 / 2 && fee <= b < WORD64
  {
    Tx([Input(Some(txid), 0, FINAL_SEQUENCE - 1)],
       [Output(WORD64 / 2, Some("aa")), Output(WORD64 / 2 + a, Some("aa")), Output(b - fee, Some("bb"))], 1)
  }

  /** The verifier accepts it although it pays one seat 2^64 too much, more than there is in any pot. */
  lemma WrappingAccepted(txid: string, a: nat, b: nat, fee: nat)
    requires txid != "" && a < WORD64 / 2 && 0 < fee <= b && a + b < WORD64
    ensures var tx, want := WrappingTx(txid, a, b, fee), Expectation(txid, 0, a + b, map["aa" := a, "bb" := b], fee, 0);
            && Acceptable(tx, want, Wrapping) && !Acceptable(tx, want, Exact)
            && Paid(tx.outputs, "aa", Exact) == WORD64 + a
  {
    var tx, want := WrappingTx(txid, a, b, fee), Expectation(txid, 0, a + b, map["aa" := a, "bb" := b], fee, 0);
    LowerIs();
    WrappingSums(txid, a, b, fee);
    WrappingNamed(txid, a, b, fee, want);
    assert tx.inputs[0].sequence != FINAL_SEQUENCE && Spends(tx.inputs[0], txid, 0);
    hide Lower, Paid, TotalOut, Named, HasScript;
    assert "aa" in want.balances && "bb" in want.balances;
    AcceptableExactly(tx, want);
  }

  /** Each output pays a named seat and each seat has an output. */
  lemma WrappingNamed(txid: string, a: nat, b: nat, fee: nat, want: Expectation)
    requires a < WORD64 / 2 && fee <= b < WORD64 && "aa" in want.balances && "bb" in want.balances
    ensures var outs := WrappingTx(txid, a, b, fee).outputs;
            && HasScript(outs, "aa") && HasScript(outs, "bb")
            && forall i :: 0 <= i < |outs| ==> Named(want, outs[i])
  {
    var outs := WrappingTx(txid, a, b, fee).outputs;
    LowerIs();
    assert PaysTo(outs[0], "aa") && PaysTo(outs[1], "aa") && PaysTo(outs[2], "bb");
    hide Lower;
    assert HasScript(outs, "aa") && HasScript(outs, "bb");
    forall i | 0 <= i < |outs|
      ensures Named(want, outs[i])
    {
      assert PaysTo(outs[i], Lower(if i < 2 then "aa" else "bb"));
    }
  }

  lemma LowerIs()
    ensures Lower("aa") == "aa" && Lower("bb") == "bb"
  {
  }

  lemma ThreeOutputs(outs: seq<Output>, s: string)
    requires |outs| == 3
    ensures Paid(outs, s, Exact) == PaidBy(outs[0], s) + PaidBy(outs[1], s) + PaidBy(outs[2], s)
    ensures TotalOut(outs, Exact) == outs[0].satoshis + outs[1].satoshis + outs[2].satoshis
  {
    hide PaidBy;
    var two, one := outs[..2], outs[..1];
    assert two[..1] == one && one[..0] == [];
    assert Paid(one, s, Exact) == Plus(Paid(one[..0], s, Exact), PaidBy(one[0], s), Exact);
    assert Paid(two, s, Exact) == Plus(Paid(two[..1], s, Exact), PaidBy(two[1], s), Exact);
    assert TotalOut(one, Exact) == Plus(TotalOut(one[..0], Exact), one[0].satoshis, Exact);
    assert TotalOut(two, Exact) == Plus(TotalOut(two[..1], Exact), two[1].satoshis, Exact);
  }

  lemma WrappingSums(txid: string, a: nat, b: nat, fee: nat)
    requires a < WORD64 / 2 && fee <= b && a + b < WORD64
    ensures var outs := WrappingTx(txid, a, b, fee).outputs;
            && Paid(outs, "aa", Exact) == WORD64 + a && Paid(outs, "bb", Exact) == b - fee && TotalOut(outs, Exact) == WORD64 + a + b - fee
            && Paid(outs, "aa", Wrapping) == a && Paid(outs, "bb", Wrapping) == b - fee && TotalOut(outs, Wrapping) == a + b - fee
  {
    var outs := WrappingTx(txid, a, b, fee).outputs;
    WrappingParts(txid, a, b, fee);
    hide Paid, TotalOut, WrappingTx;
    WrapsTo(outs, "aa");
    WrapsTo(outs, "bb");
    WrapOnce(a);
    WrapOnce(a + b - fee);
    WrapNone(b - fee);
  }

  /** The three outputs, summed without wrapping. */
  lemma WrappingParts(txid: string, a: nat, b: nat, fee: nat)
    requires a < WORD64 / 2 && fee <= b && a + b < WORD64
    ensures var outs := WrappingTx(txid, a, b, fee).outputs;
            && Paid(outs, "aa", Exact) == WORD64 + a && Paid(outs, "bb", Exact) == b - fee && TotalOut(outs, Exact) == WORD64 + a + b - fee
  {
    var outs := WrappingTx(txid, a, b, fee).outputs;
    hide Paid, TotalOut;
    LowerIs();
    ThreeOutputs(outs, "aa");
    ThreeOutputs(outs, "bb");
  }

  lemma WrapOnce(n: nat)
    requires n < WORD64
    ensures (WORD64 + n) % WORD64 == n
  {
  }

  lemma WrapNone(n: nat)
    requires n < WORD64
    ensures n % WORD64 == n
  {
  }

  // ----- building -----

  datatype Pot = Pot(txid: string, vout: int, satoshis: u64)

  /** A seat's share: its key, when it has one, and what it holds. */
  datatype Share<Key> = Share(recipient: Option<Key>, satoshis: u64)

  datatype BuildError = NoLock | NoKey | OwedNothing | Mismatched | NoFee | CannotCarryFee

  datatype Built = Ok(tx: Tx) | Err(error: BuildError)

  function Held<Key>(shares: seq<Share<Key>>): seq<int> {
    seq(|shares|, i requires 0 <= i < |shares| => shares[i].satoshis)
  }

  /** The first share no other exceeds. */
  ghost predicate IsLargest<Key(!new)>(shares: seq<Share<Key>>, m: int) {
    && 0 <= m < |shares|
    && (forall i :: 0 <= i < |shares| ==> shares[i].satoshis <= shares[m].satoshis)
    && (forall i :: 0 <= i < m ==> shares[i].satoshis < shares[m].satoshis)
  }

  /** The largest share, and it exceeds the fee it is to carry. */
  ghost predicate CarriesFee<Key(!new)>(shares: seq<Share<Key>>, m: int, fee: nat) {
    IsLargest(shares, m) && shares[m].satoshis > fee
  }

  /** One output per share, in order, the m-th less the fee. */
  ghost predicate PaysShares<Key(!new)>(lock: Key -> string, shares: seq<Share<Key>>, m: int, fee: nat, outs: seq<Output>)
    requires forall i :: 0 <= i < |shares| ==> shares[i].recipient.Some?
  {
    && |outs| == |shares|
    && forall i :: 0 <= i < |shares| ==>
                     && outs[i].script == Some(lock(shares[i].recipient.value))
                     && outs[i].satoshis == shares[i].satoshis - if i == m then fee else 0
  }

  ghost predicate Payable<Key(!new)>(shares: seq<Share<Key>>) {
    forall i :: 0 <= i < |shares| ==> shares[i].recipient.Some? && shares[i].satoshis > 0
  }

  /** Builds the refund, or names the first thing wrong. The total is taken in 64 bits. */
  method BuildSharedRefund<Key(!new)>(lock: Key -> string, pot: Pot, shares: seq<Share<Key>>, lockHeight: nat, fee: u64) returns (r: Built)
    ensures r.Ok? <==> lockHeight > 0 && Payable(shares) && Sum(Held(shares)) % WORD64 == pot.satoshis && fee > 0
                       && exists m :: CarriesFee(shares, m, fee)
    ensures r.Ok? ==>
              && r.tx.inputs == [Input(Some(pot.txid), pot.vout, FINAL_SEQUENCE - 1)]
              && r.tx.lockTime == lockHeight
              && exists m :: CarriesFee(shares, m, fee) && PaysShares(lock, shares, m, fee, r.tx.outputs)
    ensures r == Err(Mismatched) ==> Sum(Held(shares)) % WORD64 != pot.satoshis
  {
    if lockHeight == 0 {
      return Err(NoLock);
    }
    var total, largest, largestIdx := 0, 0, -1;
    assert Held(shares)[..0] == [];
    for i := 0 to |shares|
      invariant Payable(shares[..i]) && total == Sum(Held(shares)[..i]) % WORD64 && Sum(Held(shares)[..i]) >= 0
      invariant if i == 0 then largestIdx == -1 && largest == 0 else IsLargest(shares[..i], largestIdx) && largest == shares[largestIdx].satoshis
    {
      if shares[i].recipient.None? {
        return Err(NoKey);
      }
      if shares[i].satoshis == 0 {
        return Err(OwedNothing);
      }
      HeldStep(shares, i);
      assert i > 0 ==> shares[..i][largestIdx] == shares[largestIdx];
      assert shares[..i + 1] == shares[..i] + [shares[i]];
      total := Plus(total, shares[i].satoshis, Wrapping);
      if shares[i].satoshis > largest { largest, largestIdx := shares[i].satoshis, i; }
    }
    assert shares[..|shares|] == shares && Held(shares)[..|shares|] == Held(shares);
    if total != pot.satoshis {
      return Err(Mismatched);
    }
    if fee == 0 {
      return Err(NoFee);
    }
    if |shares| > 0 { LargestUnique(shares, largestIdx); }
    if largestIdx < 0 || largest <= fee {
      return Err(CannotCarryFee);
    }
    var outputs: seq<Output> := [];
    for i := 0 to |shares|
      invariant |outputs| == i
      invariant forall j :: 0 <= j < i ==> outputs[j].script == Some(lock(shares[j].recipient.value))
      invariant forall j :: 0 <= j < i ==> outputs[j].satoshis == shares[j].satoshis - if j == largestIdx then fee else 0
    {
      var amount: u64 := shares[i].satoshis;
      if i == largestIdx { amount := amount - fee; }
      outputs := outputs + [Output(amount, Some(lock(shares[i].recipient.value)))];
    }
    assert CarriesFee(shares, largestIdx, fee) && PaysShares(lock, shares, largestIdx, fee, outputs);
    r := Ok(Tx([Input(Some(pot.txid), pot.vout, FINAL_SEQUENCE - 1)], outputs, lockHeight));
  }

  /** Adding the next share to a wrapped total. */
  lemma HeldStep<Key(!new)>(shares: seq<Share<Key>>, i: nat)
    requires i < |shares| && Sum(Held(shares)[..i]) >= 0
    ensures Sum(Held(shares)[..i + 1]) >= 0
    ensures Plus(Sum(Held(shares)[..i]) % WORD64, shares[i].satoshis, Wrapping) == Sum(Held(shares)[..i + 1]) % WORD64
  {
    assert Held(shares)[..i + 1] == Held(shares)[..i] + [shares[i].satoshis];
    SumSnoc(Held(shares)[..i], shares[i].satoshis);
    AddWraps(Sum(Held(shares)[..i]), shares[i].satoshis);
  }

  lemma LargestUnique<Key(!new)>(shares: seq<Share<Key>>, m: int)
    requires IsLargest(shares, m)
    ensures forall j :: IsLargest(shares, j) ==> j == m
  {
    forall j | IsLargest(shares, j)
      ensures j == m
    {
      assert shares[j].satoshis == shares[m].satoshis;
    }
  }

  // ----- agreement -----

  /** Different recipients are paid to different scripts, however they are written. */
  ghost predicate DistinctScripts<Key(!new)>(lock: Key -> string, shares: seq<Share<Key>>)
    requires forall i :: 0 <= i < |shares| ==> shares[i].recipient.Some?
  {
    forall i, j :: 0 <= i < j < |shares| ==> Lower(lock(shares[i].recipient.value)) != Lower(lock(shares[j].recipient.value))
  }

  /** want names the pot and every share, and allows the fee and the locktime. */
  ghost predicate Matching<Key(!new)>(lock: Key -> string, pot: Pot, shares: seq<Share<Key>>, lockHeight: nat, fee: nat, want: Expectation)
    requires forall i :: 0 <= i < |shares| ==> shares[i].recipient.Some?
  {
    && want.potTxid == pot.txid != "" && want.potVout == pot.vout && want.potSatoshis == pot.satoshis
    && fee <= want.maxFee && (want.maxLockHeight > 0 ==> lockHeight <= want.maxLockHeight)
    && (forall k :: k in want.balances <==> exists i :: 0 <= i < |shares| && lock(shares[i].recipient.value) == k)
    && (forall i :: 0 <= i < |shares| ==> Expects(want, lock(shares[i].recipient.value), shares[i].satoshis))
  }

  ghost predicate Expects(want: Expectation, k: string, due: nat) {
    k in want.balances && want.balances[k] == due
  }

  lemma {:induction false} OnePays(outs: seq<Output>, s: string, i: int)
    requires 0 <= i < |outs| && PaysTo(outs[i], s) && forall j :: 0 <= j < |outs| && j != i ==> !PaysTo(outs[j], s)
    ensures Paid(outs, s, Exact) == outs[i].satoshis
  {
    var n := |outs| - 1;
    if i == n {
      NonePaid(outs[..n], s, Exact);
    } else {
      OnePays(outs[..n], s, i);
      assert !PaysTo(outs[n], s);
    }
  }

  lemma {:induction false} TotalIsSum(outs: seq<Output>)
    ensures TotalOut(outs, Exact) == Sum(Amounts(outs))
  {
    if outs != [] {
      var n := |outs| - 1;
      TotalIsSum(outs[..n]);
      assert Amounts(outs) == Amounts(outs[..n]) + [outs[n].satoshis];
      SumSnoc(Amounts(outs[..n]), outs[n].satoshis);
    }
  }

  function Amounts(outs: seq<Output>): seq<int> {
    seq(|outs|, i requires 0 <= i < |outs| => outs[i].satoshis)
  }

  /** What each share is paid by the built outputs. */
  lemma SharePaid<Key(!new)>(lock: Key -> string, shares: seq<Share<Key>>, m: int, fee: nat, outs: seq<Output>, i: int)
    requires Payable(shares) && DistinctScripts(lock, shares) && PaysShares(lock, shares, m, fee, outs) && 0 <= i < |shares|
    ensures HasScript(outs, Lower(lock(shares[i].recipient.value)))
    ensures Paid(outs, Lower(lock(shares[i].recipient.value)), Exact) == shares[i].satoshis - if i == m then fee else 0
  {
    hide Lower;
    var s := Lower(lock(shares[i].recipient.value));
    assert PaysTo(outs[i], s);
    forall j | 0 <= j < |outs| && j != i
      ensures !PaysTo(outs[j], s)
    {
      assert outs[j].script == Some(lock(shares[j].recipient.value));
    }
    OnePays(outs, s, i);
  }

  /** Every refund the builder makes for distinct recipients whose balances total the pot passes the
      verifier under the matching expectation, and is truly acceptable. */
  lemma BuiltIsAccepted<Key(!new)>(lock: Key -> string, pot: Pot, shares: seq<Share<Key>>, lockHeight: nat, fee: u64, tx: Tx, want: Expectation, m: int)
    requires lockHeight > 0 && Payable(shares) && Sum(Held(shares)) == pot.satoshis && fee > 0
    requires CarriesFee(shares, m, fee) && PaysShares(lock, shares, m, fee, tx.outputs)
    requires tx.inputs == [Input(Some(pot.txid), pot.vout, FINAL_SEQUENCE - 1)] && tx.lockTime == lockHeight
    requires DistinctScripts(lock, shares) && Matching(lock, pot, shares, lockHeight, fee, want)
    ensures Acceptable(tx, want, Exact) && Acceptable(tx, want, Wrapping)
  {
    hide Lower, Paid, TotalOut, Sum, Payable, DistinctScripts, Named, Held;
    BuiltTotal(lock, shares, m, fee, tx.outputs);
    BuiltEnvelope(lock, pot, shares, lockHeight, fee, tx, want, m);
    BuiltBalances(lock, pot, shares, lockHeight, fee, tx, want, m);
    hide Matching, PaysShares, CarriesFee;
    FromParts(tx, want);
    AcceptableExactly(tx, want);
  }

  /** Everything about a refund but its balances and total. */
  ghost predicate Enveloped(tx: Tx, want: Expectation) {
    && want.potTxid != "" && want.balances != map[] && want.maxFee > 0
    && Binding(tx) && (want.maxLockHeight > 0 ==> tx.lockTime <= want.maxLockHeight)
    && SpendsPot(tx, want.potTxid, want.potVout)
    && (forall i :: 0 <= i < |tx.outputs| ==> tx.outputs[i].script.Some?)
  }

  lemma FromParts(tx: Tx, want: Expectation)
    requires Enveloped(tx, want) && BalancesMatch(tx.outputs, want, Exact)
    requires TotalOut(tx.outputs, Exact) <= want.potSatoshis <= TotalOut(tx.outputs, Exact) + want.maxFee
    ensures Acceptable(tx, want, Exact) && TotalOut(tx.outputs, Exact) < WORD64
  {
  }

  lemma BuiltEnvelope<Key(!new)>(lock: Key -> string, pot: Pot, shares: seq<Share<Key>>, lockHeight: nat, fee: u64, tx: Tx, want: Expectation, m: int)
    requires lockHeight > 0 && Payable(shares) && fee > 0 && 0 <= m < |shares| && PaysShares(lock, shares, m, fee, tx.outputs)
    requires tx.inputs == [Input(Some(pot.txid), pot.vout, FINAL_SEQUENCE - 1)] && tx.lockTime == lockHeight
    requires Matching(lock, pot, shares, lockHeight, fee, want)
    ensures Enveloped(tx, want)
  {
    hide Lower;
    assert tx.inputs[0].sequence != FINAL_SEQUENCE && Spends(tx.inputs[0], pot.txid, pot.vout);
    assert Expects(want, lock(shares[m].recipient.value), shares[m].satoshis);
    assert lock(shares[m].recipient.value) in want.balances;
  }

  lemma BuiltTotal<Key(!new)>(lock: Key -> string, shares: seq<Share<Key>>, m: int, fee: nat, outs: seq<Output>)
    requires Payable(shares) && PaysShares(lock, shares, m, fee, outs) && CarriesFee(shares, m, fee)
    ensures TotalOut(outs, Exact) == Sum(Held(shares)) - fee
  {
    TotalIsSum(outs);
    SumReplace(Held(shares), m, shares[m].satoshis - fee);
    assert Amounts(outs) == Held(shares)[m := shares[m].satoshis - fee];
  }

  lemma BuiltBalances<Key(!new)>(lock: Key -> string, pot: Pot, shares: seq<Share<Key>>, lockHeight: nat, fee: u64, tx: Tx, want: Expectation, m: int)
    requires Payable(shares) && CarriesFee(shares, m, fee) && PaysShares(lock, shares, m, fee, tx.outputs)
    requires DistinctScripts(lock, shares) && Matching(lock, pot, shares, lockHeight, fee, want)
    ensures BalancesMatch(tx.outputs, want, Exact)
  {
    hide Lower, Paid;
    forall k | k in want.balances
      ensures Honours(tx.outputs, k, want.balances[k], want.maxFee, Exact)
      ensures ShortIn(want, tx.outputs, k, Exact) ==> k == lock(shares[m].recipient.value)
    {
      var i :| 0 <= i < |shares| && lock(shares[i].recipient.value) == k;
      assert Expects(want, k, shares[i].satoshis);
      SharePaid(lock, shares, m, fee, tx.outputs, i);
    }
    forall j, k | j in want.balances && k in want.balances && SameScript(j, k)
      ensures j == k
    {
      var a :| 0 <= a < |shares| && lock(shares[a].recipient.value) == j;
      var b :| 0 <= b < |shares| && lock(shares[b].recipient.value) == k;
    }
    forall i | 0 <= i < |tx.outputs|
      ensures Named(want, tx.outputs[i])
    {
      assert Expects(want, lock(shares[i].recipient.value), shares[i].satoshis);
      assert PaysTo(tx.outputs[i], Lower(lock(shares[i].recipient.value)));
    }
  }
}
