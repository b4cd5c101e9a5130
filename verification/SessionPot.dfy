/**
 A session's pot: balances that move with every hand, and a refund re-signed for each new state that
 matures earlier than the one it replaces. Totals are taken in 64 bits; heights are small enough not
 to wrap.
 */
module SessionPot {
  import opened Options
  import opened Sums
  import opened SidePots
  import opened Refunds

  const LOCK_BLOCKS: int := 144
  const FLOOR_BLOCKS: int := 12
  const LADDER_STEP: int := 4
  const REFUND_FEE: u64 := 500
  const MAX_RESIGNS: int := 32

  type Key = string

  /** balances has an entry for every seat that holds something. */
  datatype LivePot = LivePot(pot: Pot, keys: seq<Key>, balances: map<int, u64>, refund: Option<Tx>,
                             lockHeight: int, floorHeight: int)

  ghost predicate InSeats(balances: map<int, u64>, n: nat) {
    forall s :: s in balances ==> 0 <= s < n
  }

  /** The balances as the seats hold them. */
  function Holdings(balances: map<int, u64>, n: nat): seq<int> {
    AllReceived(balances, n)
  }

  /** The balances account for the pot, as the 64-bit totals see it. */
  ghost predicate Accounts(lp: LivePot) {
    Sum(Holdings(lp.balances, |lp.keys|)) % WORD64 == lp.pot.satoshis
  }

  // ----- the recipients of a refund -----

  /** The seats below k that hold something. */
  function SharesBelow(lp: LivePot, k: nat): (r: seq<Share<Key>>)
    requires k <= |lp.keys|
    ensures Payable(r)
  {
    if k == 0 then []
    else
      var amount: u64 := if k - 1 in lp.balances then lp.balances[k - 1] else 0;
      if amount == 0 then SharesBelow(lp, k - 1)
      else SharesBelow(lp, k - 1) + [Share(Some(lp.keys[k - 1]), amount)]
  }

  /** Leaving out the seats with nothing does not change the total. */
  lemma {:induction false} SharesTotal(lp: LivePot, k: nat)
    requires k <= |lp.keys|
    ensures Sum(Held(SharesBelow(lp, k))) == Sum(Holdings(lp.balances, k))
  {
    if k > 0 {
      SharesTotal(lp, k - 1);
      var amount := Received(lp.balances, k - 1);
      assert Holdings(lp.balances, k) == Holdings(lp.balances, k - 1) + [amount];
      SumSnoc(Holdings(lp.balances, k - 1), amount);
      if amount != 0 {
        var before := SharesBelow(lp, k - 1);
        assert Held(SharesBelow(lp, k)) == Held(before) + [amount];
        SumSnoc(Held(before), amount);
      }
    }
  }

  /** The shares are those of these seats, each seat's own balance to its own key. */
  ghost predicate SharesOf(shares: seq<Share<Key>>, keys: seq<Key>, balances: map<int, u64>, seats: seq<int>) {
    && |shares| == |seats|
    && forall j :: 0 <= j < |seats| ==> 0 <= seats[j] < |keys| && shares[j] == Share(Some(keys[seats[j]]), Received(balances, seats[j]))
  }

  /** seats are those below k with a balance, in order. */
  ghost predicate Holders(balances: map<int, u64>, k: nat, seats: seq<int>) {
    Ascending(seats) && forall s :: s in seats <==> 0 <= s < k && Received(balances, s) != 0
  }

  /** Every seat with a balance has one share, of that balance and to its own key, in the order of seats. */
  lemma {:induction false} SharesPaired(lp: LivePot, k: nat) returns (seats: seq<int>)
    requires k <= |lp.keys|
    ensures Holders(lp.balances, k, seats) && SharesOf(SharesBelow(lp, k), lp.keys, lp.balances, seats)
  {
    hide Holders, SharesOf;
    if k == 0 {
      NoHolders(lp);
      return [];
    }
    seats := SharesPaired(lp, k - 1);
    HoldersSnoc(lp.balances, k, seats);
    if Received(lp.balances, k - 1) != 0 {
      SharesOfSnoc(SharesBelow(lp, k - 1), lp.keys, lp.balances, seats, k - 1);
      seats := seats + [k - 1];
    }
  }

  lemma NoHolders(lp: LivePot)
    ensures Holders(lp.balances, 0, []) && SharesOf([], lp.keys, lp.balances, [])
  {
  }

  lemma SharesOfSnoc(shares: seq<Share<Key>>, keys: seq<Key>, balances: map<int, u64>, seats: seq<int>, s: nat)
    requires SharesOf(shares, keys, balances, seats) && s < |keys|
    ensures SharesOf(shares + [Share(Some(keys[s]), Received(balances, s))], keys, balances, seats + [s])
  {
  }

  lemma HoldersSnoc(balances: map<int, u64>, k: nat, seats: seq<int>)
    requires k > 0 && Holders(balances, k - 1, seats)
    ensures Holders(balances, k, if Received(balances, k - 1) != 0 then seats + [k - 1] else seats)
  {
    forall j | 0 <= j < |seats|
      ensures seats[j] < k - 1
    {
      assert seats[j] in seats;
    }
  }

  method Recipients(lp: LivePot) returns (r: seq<Share<Key>>)
    ensures r == SharesBelow(lp, |lp.keys|)
    ensures exists seats :: Holders(lp.balances, |lp.keys|, seats) && SharesOf(r, lp.keys, lp.balances, seats)
  {
    r := [];
    for i := 0 to |lp.keys|
      invariant r == SharesBelow(lp, i)
    {
      var amount: u64 := if i in lp.balances then lp.balances[i] else 0;
      if amount == 0 {
        continue;
      }
      r := r + [Share(Some(lp.keys[i]), amount)];
    }
    ghost var seats := SharesPaired(lp, |lp.keys|);
  }

  // ----- re-signing -----

  datatype Outcome = Done | NoPot | Mismatch | Exhausted | NobodyHolds | BuildFailed(error: BuildError) | NotSigned

  /** A refund of the pot at this height, paying these shares. */
  ghost predicate RefundsPot(lock: Key -> string, lp: LivePot, tx: Tx, height: int) {
    && tx.inputs == [Input(Some(lp.pot.txid), lp.pot.vout, FINAL_SEQUENCE - 1)] && tx.lockTime == height
    && var shares := SharesBelow(lp, |lp.keys|);
       exists m :: CarriesFee(shares, m, REFUND_FEE) && PaysShares(lock, shares, m, REFUND_FEE, tx.outputs)
  }

  /** The refund can be built: the balances account for the pot and one of them can carry the fee. */
  ghost predicate Buildable(lp: LivePot, height: nat) {
    && height > 0 && Accounts(lp)
    && exists m :: CarriesFee(SharesBelow(lp, |lp.keys|), m, REFUND_FEE)
  }

  /** Builds the refund of the current balances and, once every seat has signed it, holds it. Until
      then the refund held before stays. */
  method ResignRefund(lock: Key -> string, lp: LivePot, height: nat, signed: bool) returns (lp': LivePot, r: Outcome)
    ensures r == Done <==> signed && Buildable(lp, height)
    ensures r == Done ==> lp'.refund.Some? && RefundsPot(lock, lp, lp'.refund.value, height)
    ensures lp' == if r == Done then lp.(refund := lp'.refund, lockHeight := height) else lp
    ensures Accounts(lp) ==> r != BuildFailed(Mismatched)
    ensures r == Done || r == NobodyHolds || r == NotSigned || r.BuildFailed?
  {
    hide Sum, SharesBelow, Holdings, PaysShares;
    var recipients := Recipients(lp);
    SharesTotal(lp, |lp.keys|);
    if |recipients| == 0 {
      return lp, NobodyHolds;
    }
    var built := BuildSharedRefund(lock, lp.pot, recipients, height, REFUND_FEE);
    if built.Err? {
      return lp, BuildFailed(built.error);
    }
    if !signed {
      return lp, NotSigned;
    }
    lp', r := lp.(refund := Some(built.tx), lockHeight := height), Done;
  }

  // ----- the pots of a table -----

  /** What has been funded at this height and what every seat starts with. */
  ghost predicate Opened(lp: LivePot, height: int) {
    lp.floorHeight == height + FLOOR_BLOCKS && lp.lockHeight == height + LOCK_BLOCKS
  }

  /** The refund held pays these balances, from the pot, at the height recorded for it. */
  ghost predicate HeldFor(lock: Key -> string, lp: LivePot, balances: map<int, u64>) {
    lp.refund.Some? && RefundsPot(lock, lp.(balances := balances), lp.refund.value, lp.lockHeight)
  }

  /** The invariant of a session pot: the balances total the pot, and the refund held pays the balances
      of some state at its recorded height, which stays above the floor. */
  ghost predicate PotOk(lock: Key -> string, lp: LivePot) {
    && InSeats(lp.balances, |lp.keys|) && Accounts(lp) && lp.lockHeight > lp.floorHeight >= 0
    && exists b :: HeldFor(lock, lp, b)
  }

  class PotManager {
    const lock: Key -> string
    var pots: map<string, LivePot>
    var armed: map<string, set<int>>

    ghost predicate Valid()
      reads this
    {
      forall id :: id in pots ==> PotOk(lock, pots[id])
    }

    constructor (l: Key -> string)
      ensures Valid() && pots == map[] && armed == map[] && lock == l
    {
      lock, pots, armed := l, map[], map[];
    }

    /** Funds a pot and signs its first refund; the pot exists only once that refund does. */
    method OpenPot(id: string, keys: seq<Key>, funded: Pot, height: nat, signed: bool) returns (r: Outcome)
      requires Valid() && |keys| >= 2
      modifies this`pots
      ensures Valid() && (r != Done ==> pots == old(pots))
      ensures r == Done ==> id in pots && pots == old(pots)[id := pots[id]] && Opened(pots[id], height)
      ensures r == Done ==> pots[id].pot == funded && pots[id].keys == keys
      ensures r == Done ==> forall s :: 0 <= s < |keys| ==> Received(pots[id].balances, s) == Stake(funded.satoshis, |keys|)
      ensures r == Done ==> HeldFor(lock, pots[id], pots[id].balances)
      ensures r == BuildFailed(Mismatched) ==> funded.satoshis % |keys| != 0
    {
      hide Holdings, Sum, SharesBelow;
      var stake := Stake(funded.satoshis, |keys|);
      var balances: map<int, u64> := map[];
      for s := 0 to |keys|
        invariant forall x :: x in balances <==> 0 <= x < s
        invariant forall x :: x in balances ==> balances[x] == stake
      {
        balances := balances[s := stake];
      }
      EqualStakes(balances, |keys|, stake);
      var lp := LivePot(funded, keys, balances, None, height + LOCK_BLOCKS, height + FLOOR_BLOCKS);
      var lp', outcome := ResignRefund(lock, lp, height + LOCK_BLOCKS, signed);
      r := outcome;
      Divides(funded.satoshis, |keys|);
      if r == Done {
        assert lp'.(balances := lp'.balances) == lp';
        SameShares(lock, lp, lp', height + LOCK_BLOCKS);
        assert HeldFor(lock, lp', lp'.balances);
        pots := pots[id := lp'];
      }
    }

    /** Moves the balances to those a hand produced and re-signs the refund one step earlier. */
    method ApplyHand(id: string, balances: map<int, u64>, signed: bool) returns (r: Outcome)
      requires Valid() && (id in pots ==> InSeats(balances, |pots[id].keys|))
      modifies this`pots, this`armed
      ensures Valid()
      ensures r == NoPot <==> id !in old(pots)
      ensures r == Mismatch <==> id in old(pots) && !Accounts(old(pots)[id].(balances := balances))
      ensures r == NoPot || r == Mismatch || r == Exhausted ==> pots == old(pots) && armed == old(armed)
      ensures r == Exhausted ==> old(pots)[id].lockHeight - LADDER_STEP <= old(pots)[id].floorHeight
      ensures r != NoPot && r != Mismatch && r != Exhausted ==>
                && id in pots && pots == old(pots)[id := pots[id]] && armed == old(armed) - {id}
                && AppliedTo(lock, old(pots)[id], balances, pots[id], r)
      ensures id in old(pots) ==> id in pots && LadderStep(lock, old(pots)[id], pots[id], r)
    {
      hide Holdings, Sum, SharesBelow;
      if id !in pots {
        return NoPot;
      }
      var lp := pots[id];
      var total := SumBalances(balances, |lp.keys|);
      if total != lp.pot.satoshis {
        return Mismatch;
      }
      var next := lp.lockHeight - LADDER_STEP;
      if next <= lp.floorHeight {
        return Exhausted;
      }
      var moved := lp.(balances := balances);
      armed := armed - {id};
      var lp', outcome := ResignRefund(lock, moved, next, signed);
      r := outcome;
      if r == Done { SameShares(lock, moved, lp', next); }
      StillHeld(lock, lp, balances, lp', r);
      pots := pots[id := lp'];
    }

    method MarkArmed(id: string, seat: int)
      modifies this`armed
      ensures armed == old(armed)[id := (if id in old(armed) then old(armed)[id] else {}) + {seat}]
    {
      if id !in armed { armed := armed[id := {}]; }
      armed := armed[id := armed[id] + {seat}];
    }
  }

  /** A hand's result has reached the pot: its balances are the new ones, and when the re-signing
      succeeded the refund pays them, a step earlier. Otherwise the refund and its height are those
      held before. */
  ghost predicate AppliedTo(lock: Key -> string, lp: LivePot, balances: map<int, u64>, lp': LivePot, r: Outcome) {
    && lp'.pot == lp.pot && lp'.keys == lp.keys && lp'.floorHeight == lp.floorHeight && lp'.balances == balances
    && lp.lockHeight - LADDER_STEP > lp.floorHeight
    && r != BuildFailed(Mismatched)
    && if r == Done then lp'.lockHeight == lp.lockHeight - LADDER_STEP && HeldFor(lock, lp', balances)
       else lp'.lockHeight == lp.lockHeight && lp'.refund == lp.refund
  }

  /** What a refund pays depends only on the pot, the keys and the balances. */
  lemma SameShares(lock: Key -> string, lp: LivePot, lp': LivePot, height: int)
    requires lp'.pot == lp.pot && lp'.keys == lp.keys && lp'.balances == lp.balances
    requires lp'.refund.Some? && lp'.lockHeight == height && RefundsPot(lock, lp, lp'.refund.value, height)
    ensures HeldFor(lock, lp', lp'.balances)
  {
    SharesDepend(lp, lp'.(balances := lp'.balances), |lp.keys|);
  }

  lemma {:induction false} SharesDepend(lp: LivePot, lp': LivePot, k: nat)
    requires lp'.keys == lp.keys && lp'.balances == lp.balances && k <= |lp.keys|
    ensures SharesBelow(lp', k) == SharesBelow(lp, k)
  {
    if k > 0 { SharesDepend(lp, lp', k - 1); }
  }

  /** After a hand has been applied the refund still pays some state's balances. */
  lemma StillHeld(lock: Key -> string, lp: LivePot, balances: map<int, u64>, lp': LivePot, r: Outcome)
    requires PotOk(lock, lp) && AppliedTo(lock, lp, balances, lp', r)
    ensures exists b :: HeldFor(lock, lp', b)
  {
    hide Accounts;
    if r != Done {
      var b :| HeldFor(lock, lp, b);
      SharesDepend(lp.(balances := b), lp'.(balances := b), |lp.keys|);
      assert HeldFor(lock, lp', b);
    }
  }

  /** What each seat is taken to have put in. */
  function Stake(pot: u64, seats: nat): u64
    requires seats > 0
  {
    QuotientSmall(pot, seats);
    pot / seats
  }

  lemma QuotientSmall(x: u64, n: nat)
    requires n > 0
    ensures 0 <= x / n <= x
  {
    QuotientBound(x / n, n, x % n);
  }

  /** The balances added up in 64 bits. */
  method SumBalances(balances: map<int, u64>, n: nat) returns (total: u64)
    ensures total == Sum(Holdings(balances, n)) % WORD64
  {
    total := 0;
    ghost var hs := Holdings(balances, n);
    assert hs[..0] == [];
    for s := 0 to n
      invariant total == Sum(hs[..s]) % WORD64 && Sum(hs[..s]) >= 0
    {
      assert hs[..s + 1] == hs[..s] + [hs[s]];
      SumSnoc(hs[..s], hs[s]);
      AddWraps(Sum(hs[..s]), hs[s]);
      if s in balances { total := Plus(total, balances[s], Wrapping); }
    }
    assert hs[..n] == hs;
  }

  lemma {:induction false} EqualSum(n: nat, x: int)
    ensures Sum(seq(n, i => x)) == n * x
  {
    if n > 0 {
      EqualSum(n - 1, x);
      assert seq(n, i => x)[1..] == seq(n - 1, i => x);
      assert n * x == (n - 1) * x + x;
    }
  }

  lemma EqualStakes(balances: map<int, u64>, n: nat, stake: u64)
    requires (forall x :: x in balances <==> 0 <= x < n) && forall x :: x in balances ==> balances[x] == stake
    ensures InSeats(balances, n) && Sum(Holdings(balances, n)) == n * stake
    ensures forall s :: 0 <= s < n ==> Received(balances, s) == stake
  {
    EqualSum(n, stake);
    assert Holdings(balances, n) == seq(n, i => stake);
  }

  lemma Divides(x: nat, n: nat)
    requires n > 0
    ensures x == n * (x / n) + x % n
  {
  }

  // ----- the ladder -----

  /** One call of ApplyHand on a pot: refused with nothing changed, or applied. */
  ghost predicate LadderStep(lock: Key -> string, lp: LivePot, lp': LivePot, r: Outcome) {
    && PotOk(lock, lp) && PotOk(lock, lp')
    && (r == Exhausted ==> lp.lockHeight - LADDER_STEP <= lp.floorHeight)
    && if r == Mismatch || r == Exhausted then lp' == lp else AppliedTo(lock, lp, lp'.balances, lp', r)
  }

  /** A pot from its opening on, through any calls of ApplyHand, successful or not. */
  ghost predicate LadderRun(lock: Key -> string, lps: seq<LivePot>, rs: seq<Outcome>, height: int) {
    && |lps| == |rs| + 1 && PotOk(lock, lps[0]) && Opened(lps[0], height) && HeldFor(lock, lps[0], lps[0].balances)
    && forall k :: 0 <= k < |rs| ==> LadderStep(lock, lps[k], lps[k + 1], rs[k])
  }

  /** How many of the calls before k succeeded. */
  function Resigns(rs: seq<Outcome>, k: nat): nat
    requires k <= |rs|
  {
    if k == 0 then 0 else Resigns(rs, k - 1) + if rs[k - 1] == Done then 1 else 0
  }

  /** The state the refund held at k was signed for. */
  function LastSigned(rs: seq<Outcome>, k: nat): (j: nat)
    requires k <= |rs|
    ensures j <= k && (j > 0 ==> rs[j - 1] == Done) && forall i :: j <= i < k ==> rs[i] != Done
  {
    if k == 0 || rs[k - 1] == Done then k else LastSigned(rs, k - 1)
  }

  /** Every re-sign of a run moves the locktime down by exactly one step, on the same outpoint, and
      stays above the floor; there are never more than 32. */
  lemma {:induction false} Ladder(lock: Key -> string, lps: seq<LivePot>, rs: seq<Outcome>, height: int, k: nat)
    requires LadderRun(lock, lps, rs, height) && k <= |rs|
    ensures PotOk(lock, lps[k]) && lps[k].pot == lps[0].pot && lps[k].keys == lps[0].keys && lps[k].floorHeight == height + FLOOR_BLOCKS
    ensures lps[k].lockHeight == height + LOCK_BLOCKS - LADDER_STEP * Resigns(rs, k) > height + FLOOR_BLOCKS
    ensures lps[k].refund.Some? && lps[k].refund.value.lockTime == lps[k].lockHeight
    ensures lps[k].refund.value.inputs == [Input(Some(lps[0].pot.txid), lps[0].pot.vout, FINAL_SEQUENCE - 1)]
    ensures Resigns(rs, k) <= MAX_RESIGNS
  {
    hide Accounts, SharesBelow;
    if k > 0 {
      Ladder(lock, lps, rs, height, k - 1);
      assert LadderStep(lock, lps[k - 1], lps[k - 1 + 1], rs[k - 1]);
    }
  }

  /** Over every run the refund held is the one of the last successful re-sign, and pays the balances
      of that state. */
  lemma {:induction false} RefundHeld(lock: Key -> string, lps: seq<LivePot>, rs: seq<Outcome>, height: int, k: nat)
    requires LadderRun(lock, lps, rs, height) && k <= |rs|
    ensures var j := LastSigned(rs, k);
            lps[k].refund == lps[j].refund && lps[k].lockHeight == lps[j].lockHeight && HeldFor(lock, lps[j], lps[j].balances)
    ensures k > 0 && rs[k - 1] == Done ==> HeldFor(lock, lps[k], lps[k].balances)
  {
    hide PotOk, HeldFor;
    if k > 0 {
      RefundHeld(lock, lps, rs, height, k - 1);
      assert LadderStep(lock, lps[k - 1], lps[k - 1 + 1], rs[k - 1]);
    }
  }

  /** Two lists of shares that differ only in who carries the fee: one gives it up, the other takes it on. */
  ghost predicate FeeMoved(a: seq<Share<Key>>, b: seq<Share<Key>>) {
    exists m, n :: FeeMovedAt(a, b, m, n)
  }

  ghost predicate FeeMovedAt(a: seq<Share<Key>>, b: seq<Share<Key>>, m: int, n: int) {
    && |a| == |b| && m != n && CarriesFee(a, m, REFUND_FEE) && CarriesFee(b, n, REFUND_FEE)
    && (forall i :: 0 <= i < |a| ==> SharePaidAlike(a[i], b[i], i == m, i == n))
  }

  /** The same recipient is paid the same once the fee is taken. */
  ghost predicate SharePaidAlike(x: Share<Key>, y: Share<Key>, feeX: bool, feeY: bool) {
    x.recipient == y.recipient && x.satoshis - (if feeX then REFUND_FEE else 0) == y.satoshis - if feeY then REFUND_FEE else 0
  }

  /** No two seats are paid to one script. */
  ghost predicate DistinctLocks(lock: Key -> string, keys: seq<Key>) {
    forall i, j :: 0 <= i < j < |keys| ==> lock(keys[i]) != lock(keys[j])
  }

  lemma {:induction false} ShareKeys(lp: LivePot, k: nat, i: int)
    requires k <= |lp.keys| && 0 <= i < |SharesBelow(lp, k)|
    ensures exists s :: 0 <= s < k && SharesBelow(lp, k)[i].recipient == Some(lp.keys[s])
  {
    if i < |SharesBelow(lp, k - 1)| { ShareKeys(lp, k - 1, i); }
  }

  /** Exactly one output pays this script, and it pays this much; nothing is no output at all. */
  ghost predicate PaysScript(outs: seq<Output>, script: string, amount: int) {
    if amount == 0 then forall i :: 0 <= i < |outs| ==> outs[i].script != Some(script)
    else exists j :: 0 <= j < |outs| && outs[j].satoshis == amount && outs[j].script == Some(script)
                     && forall i :: 0 <= i < |outs| && outs[i].script == Some(script) ==> i == j
  }

  /** The first seat no other exceeds, with more than the fee. */
  ghost predicate CarrierSeat(balances: map<int, u64>, n: nat, c: int) {
    && 0 <= c < n && Received(balances, c) > REFUND_FEE
    && forall s :: 0 <= s < n ==> if s < c then Received(balances, s) < Received(balances, c) else Received(balances, s) <= Received(balances, c)
  }

  /** The outputs pay each seat its balance to its own key, the carrier less the fee, and nobody else. */
  ghost predicate PaysSeats(lock: Key -> string, keys: seq<Key>, balances: map<int, u64>, outs: seq<Output>, c: int) {
    && CarrierSeat(balances, |keys|, c)
    && (forall s :: 0 <= s < |keys| ==> PaysScript(outs, lock(keys[s]), Received(balances, s) - if s == c then REFUND_FEE else 0))
    && forall i :: 0 <= i < |outs| ==> exists s :: 0 <= s < |keys| && outs[i].script == Some(lock(keys[s]))
  }

  /** What a refund held pays, seat by seat: each its balance, but for the fee, which the first of the
      largest carries. */
  lemma RefundPaysSeats(lock: Key -> string, lp: LivePot, balances: map<int, u64>)
    requires HeldFor(lock, lp, balances) && DistinctLocks(lock, lp.keys)
    ensures exists c :: PaysSeats(lock, lp.keys, balances, lp.refund.value.outputs, c)
  {
    var lp' := lp.(balances := balances);
    var shares, outs := SharesBelow(lp', |lp.keys|), lp.refund.value.outputs;
    var seats := SharesPaired(lp', |lp.keys|);
    hide SharesBelow;
    var m :| CarriesFee(shares, m, REFUND_FEE) && PaysShares(lock, shares, m, REFUND_FEE, outs);
    SharesPaySeats(lock, lp.keys, balances, shares, seats, m, outs);
  }

  lemma SharesPaySeats(lock: Key -> string, keys: seq<Key>, balances: map<int, u64>, shares: seq<Share<Key>>, seats: seq<int>, m: int, outs: seq<Output>)
    requires Holders(balances, |keys|, seats) && SharesOf(shares, keys, balances, seats) && DistinctLocks(lock, keys)
    requires CarriesFee(shares, m, REFUND_FEE) && Payable(shares) && PaysShares(lock, shares, m, REFUND_FEE, outs)
    ensures PaysSeats(lock, keys, balances, outs, seats[m])
  {
    CarrierOf(shares, keys, balances, seats, m);
    forall i | 0 <= i < |outs|
      ensures exists s :: 0 <= s < |keys| && outs[i].script == Some(lock(keys[s]))
    {
      assert shares[i].recipient == Some(keys[seats[i]]);
    }
    hide CarriesFee, Holders, DistinctLocks, PaysScript, CarrierSeat;
    forall s | 0 <= s < |keys|
      ensures PaysScript(outs, lock(keys[s]), Received(balances, s) - if s == seats[m] then REFUND_FEE else 0)
    {
      SeatPaid(lock, keys, balances, shares, seats, m, outs, s);
    }
  }

  lemma CarrierOf(shares: seq<Share<Key>>, keys: seq<Key>, balances: map<int, u64>, seats: seq<int>, m: int)
    requires Holders(balances, |keys|, seats) && SharesOf(shares, keys, balances, seats) && CarriesFee(shares, m, REFUND_FEE)
    ensures CarrierSeat(balances, |keys|, seats[m])
  {
    var c := seats[m];
    forall s | 0 <= s < |keys|
      ensures if s < c then Received(balances, s) < Received(balances, c) else Received(balances, s) <= Received(balances, c)
    {
      if Received(balances, s) != 0 {
        assert s in seats;
        var j :| 0 <= j < |seats| && seats[j] == s;
        assert shares[j].satoshis == Received(balances, s) && shares[m].satoshis == Received(balances, c);
      }
    }
  }

  lemma SeatPaid(lock: Key -> string, keys: seq<Key>, balances: map<int, u64>, shares: seq<Share<Key>>, seats: seq<int>, m: int, outs: seq<Output>, s: int)
    requires Holders(balances, |keys|, seats) && SharesOf(shares, keys, balances, seats) && DistinctLocks(lock, keys) && 0 <= s < |keys|
    requires CarriesFee(shares, m, REFUND_FEE) && Payable(shares) && PaysShares(lock, shares, m, REFUND_FEE, outs)
    ensures PaysScript(outs, lock(keys[s]), Received(balances, s) - if s == seats[m] then REFUND_FEE else 0)
  {
    forall i | 0 <= i < |outs|
      ensures outs[i].script == Some(lock(keys[seats[i]])) && (outs[i].script == Some(lock(keys[s])) <==> seats[i] == s)
    {
      assert shares[i].recipient == Some(keys[seats[i]]);
    }
    assert seats[m] in seats;
    if Received(balances, s) != 0 {
      assert s in seats;
      var j :| 0 <= j < |seats| && seats[j] == s;
      assert outs[j].satoshis == shares[j].satoshis - if j == m then REFUND_FEE else 0;
    } else {
      assert forall i :: 0 <= i < |outs| ==> seats[i] in seats;
    }
  }

  /** At any state of a run the refund held pays each seat what it had at the last successful re-sign. */
  lemma EveryRefundPays(lock: Key -> string, lps: seq<LivePot>, rs: seq<Outcome>, height: int, k: nat)
    requires LadderRun(lock, lps, rs, height) && k <= |rs| && DistinctLocks(lock, lps[0].keys)
    ensures lps[k].refund.Some?
    ensures exists c :: PaysSeats(lock, lps[0].keys, lps[LastSigned(rs, k)].balances, lps[k].refund.value.outputs, c)
  {
    hide HeldFor;
    var j := LastSigned(rs, k);
    Ladder(lock, lps, rs, height, j);
    Ladder(lock, lps, rs, height, k);
    RefundHeld(lock, lps, rs, height, k);
    RefundPaysSeats(lock, lps[j], lps[j].balances);
  }

  /** The outputs of a refund determine the shares, but for who carries the fee. */
  lemma OutputsDetermine(lock: Key -> string, lp: LivePot, lp': LivePot, m: int, n: int, outs: seq<Output>)
    requires lp'.keys == lp.keys && DistinctLocks(lock, lp.keys)
    requires var a, b := SharesBelow(lp, |lp.keys|), SharesBelow(lp', |lp.keys|);
             && CarriesFee(a, m, REFUND_FEE) && PaysShares(lock, a, m, REFUND_FEE, outs)
             && CarriesFee(b, n, REFUND_FEE) && PaysShares(lock, b, n, REFUND_FEE, outs)
    ensures var a, b := SharesBelow(lp, |lp.keys|), SharesBelow(lp', |lp.keys|); a == b || FeeMoved(a, b)
  {
    var a, b := SharesBelow(lp, |lp.keys|), SharesBelow(lp', |lp.keys|);
    hide SharesBelow;
    forall i | 0 <= i < |a|
      ensures SharePaidAlike(a[i], b[i], i == m, i == n)
    {
      ShareKeys(lp, |lp.keys|, i);
      ShareKeys(lp', |lp.keys|, i);
      assert outs[i].script == Some(lock(a[i].recipient.value));
    }
    if m == n {
      forall i | 0 <= i < |a|
        ensures a[i] == b[i]
      {
        assert SharePaidAlike(a[i], b[i], i == m, i == n);
      }
      assert a == b;
    } else {
      assert FeeMovedAt(a, b, m, n);
    }
  }

  /** At any state of a run the refund held pays the current balances if and only if the shares are
      those it was signed for, or differ from them only in who carries the fee. */
  lemma PaysCurrentExactly(lock: Key -> string, lps: seq<LivePot>, rs: seq<Outcome>, height: int, k: nat)
    requires LadderRun(lock, lps, rs, height) && k <= |rs| && DistinctLocks(lock, lps[0].keys)
    ensures var a, b := SharesBelow(lps[LastSigned(rs, k)], |lps[LastSigned(rs, k)].keys|), SharesBelow(lps[k], |lps[k].keys|);
            HeldFor(lock, lps[k], lps[k].balances) <==> a == b || FeeMoved(a, b)
  {
    var j := LastSigned(rs, k);
    Ladder(lock, lps, rs, height, j);
    Ladder(lock, lps, rs, height, k);
    RefundHeld(lock, lps, rs, height, k);
    PaysAlike(lock, lps[j], lps[k]);
  }

  lemma PaysAlike(lock: Key -> string, lp: LivePot, lp': LivePot)
    requires lp'.keys == lp.keys && lp'.pot == lp.pot && lp'.refund == lp.refund && lp'.lockHeight == lp.lockHeight
    requires DistinctLocks(lock, lp.keys) && HeldFor(lock, lp, lp.balances)
    ensures var a, b := SharesBelow(lp, |lp.keys|), SharesBelow(lp', |lp.keys|);
            HeldFor(lock, lp', lp'.balances) <==> a == b || FeeMoved(a, b)
  {
    hide DistinctLocks, SharesBelow;
    assert lp.(balances := lp.balances) == lp && lp'.(balances := lp'.balances) == lp';
    var a, b, outs := SharesBelow(lp, |lp.keys|), SharesBelow(lp', |lp.keys|), lp.refund.value.outputs;
    var m :| CarriesFee(a, m, REFUND_FEE) && PaysShares(lock, a, m, REFUND_FEE, outs);
    if HeldFor(lock, lp', lp'.balances) {
      var n :| CarriesFee(b, n, REFUND_FEE) && PaysShares(lock, b, n, REFUND_FEE, outs);
      OutputsDetermine(lock, lp, lp', m, n, outs);
    }
    if FeeMoved(a, b) {
      var m', n :| FeeMovedAt(a, b, m', n);
      LargestUnique(a, m);
      forall i | 0 <= i < |b|
        ensures outs[i].script == Some(lock(b[i].recipient.value)) && outs[i].satoshis == b[i].satoshis - if i == n then REFUND_FEE else 0
      {
        assert SharePaidAlike(a[i], b[i], i == m', i == n);
      }
      assert PaysShares(lock, b, n, REFUND_FEE, outs);
    }
  }

  lemma {:induction false} ResignsRise(rs: seq<Outcome>, i: nat, k: nat)
    requires i <= k <= |rs|
    ensures Resigns(rs, i) <= Resigns(rs, k)
    ensures (exists j :: i <= j < k && rs[j] == Done) ==> Resigns(rs, i) < Resigns(rs, k)
    decreases k - i
  {
    if i < k { ResignsRise(rs, i, k - 1); }
  }

  /** A transaction can be mined at a height from its locktime on. */
  predicate FinalAt(tx: Tx, height: int) { tx.lockTime <= height }

  /** Wherever a refund that has since been replaced is final, the newest one has been final for at
      least a step; both spend the same outpoint, so the newest can be mined first. */
  lemma StaleLoses(lock: Key -> string, lps: seq<LivePot>, rs: seq<Outcome>, height: int, i: nat, k: nat, at: int)
    requires LadderRun(lock, lps, rs, height) && i <= k <= |rs| && lps[i].refund.Some? && lps[k].refund.Some?
    requires (exists j :: i <= j < k && rs[j] == Done) && FinalAt(lps[i].refund.value, at)
    ensures FinalAt(lps[k].refund.value, at - LADDER_STEP)
    ensures lps[k].refund.value.inputs == lps[i].refund.value.inputs
  {
    hide PotOk, HeldFor;
    Ladder(lock, lps, rs, height, i);
    Ladder(lock, lps, rs, height, k);
    ResignsRise(rs, i, k);
  }

  // ----- runs that reach the bounds -----

  /** The pot after k re-signs for unchanged balances. */
  function Rung(lp: LivePot, k: nat): LivePot
    requires lp.refund.Some? && lp.lockHeight >= LADDER_STEP * k
  {
    var at := lp.lockHeight - LADDER_STEP * k;
    lp.(refund := Some(lp.refund.value.(lockTime := at)), lockHeight := at)
  }

  lemma RungOk(lock: Key -> string, lp: LivePot, height: int, k: nat)
    requires height >= 0 && PotOk(lock, lp) && Opened(lp, height) && HeldFor(lock, lp, lp.balances) && k <= MAX_RESIGNS
    ensures PotOk(lock, Rung(lp, k)) && HeldFor(lock, Rung(lp, k), lp.balances) && Rung(lp, k).balances == lp.balances
  {
    hide Accounts, PaysShares, CarriesFee;
    var r := Rung(lp, k);
    SharesDepend(lp.(balances := lp.balances), r.(balances := lp.balances), |lp.keys|);
    hide SharesBelow;
    assert HeldFor(lock, r, lp.balances);
    AccountsDepend(lp, r);
  }

  lemma AccountsDepend(lp: LivePot, lp': LivePot)
    requires lp'.pot == lp.pot && lp'.keys == lp.keys && lp'.balances == lp.balances
    ensures Accounts(lp') == Accounts(lp)
  {
  }

  /** Every opened pot can be re-signed 32 times, and the 33rd is refused. */
  lemma FullLadder(lock: Key -> string, lp: LivePot, height: int) returns (lps: seq<LivePot>, rs: seq<Outcome>)
    requires height >= 0 && PotOk(lock, lp) && Opened(lp, height) && HeldFor(lock, lp, lp.balances)
    ensures LadderRun(lock, lps, rs, height) && lps[0] == lp && |rs| == MAX_RESIGNS + 1
    ensures (forall k :: 0 <= k < MAX_RESIGNS ==> rs[k] == Done) && rs[MAX_RESIGNS] == Exhausted
  {
    hide PotOk, HeldFor;
    RefundThere(lock, lp);
    lps := seq(MAX_RESIGNS + 1, k requires 0 <= k <= MAX_RESIGNS => Rung(lp, k)) + [Rung(lp, MAX_RESIGNS)];
    rs := seq(MAX_RESIGNS, k => Done) + [Exhausted];
    assert lps[0] == lp;
    forall k | 0 <= k < |rs|
      ensures LadderStep(lock, lps[k], lps[k + 1], rs[k])
    {
      RungOk(lock, lp, height, k);
      RungOk(lock, lp, height, if k < MAX_RESIGNS then k + 1 else k);
    }
  }

  lemma RefundThere(lock: Key -> string, lp: LivePot)
    requires HeldFor(lock, lp, lp.balances)
    ensures lp.refund.Some? && lp.refund.value.lockTime == lp.lockHeight && Rung(lp, 0) == lp
  {
  }

  /** Two seats, two thousand each. */
  function TwoSeats(pot: Pot, a: Key, b: Key, first: u64, second: u64, tx: Tx, height: int): LivePot {
    LivePot(pot, [a, b], map[0 := first, 1 := second], Some(tx), height + LOCK_BLOCKS, height + FLOOR_BLOCKS)
  }

  /** A hand moves a thousand from one seat to the other and the re-sign fails: the refund held still
      pays both what they had before. */
  lemma UnsignedStaysStale(lock: Key -> string, a: Key, b: Key, txid: string, height: nat) returns (lps: seq<LivePot>)
    requires lock(a) != lock(b)
    ensures LadderRun(lock, lps, [NotSigned], height) && HeldFor(lock, lps[1], lps[0].balances) && !HeldFor(lock, lps[1], lps[1].balances)
    ensures lps[0].balances == map[0 := 2000, 1 := 2000] && lps[1].balances == map[0 := 3000, 1 := 1000]
  {
    var pot := Pot(txid, 0, 4000);
    var tx := Tx([Input(Some(txid), 0, FINAL_SEQUENCE - 1)], [Output(1500, Some(lock(a))), Output(2000, Some(lock(b)))], height + LOCK_BLOCKS);
    var p, q := TwoSeats(pot, a, b, 2000, 2000, tx, height), TwoSeats(pot, a, b, 3000, 1000, tx, height);
    TwoShares(pot, a, b, 2000, 2000, tx, height);
    TwoShares(pot, a, b, 3000, 1000, tx, height);
    assert p.(balances := p.balances) == p && q.(balances := q.balances) == q && q.(balances := p.balances) == p;
    PaysTwo(lock, p, tx);
    PaysNotTwo(lock, q, tx);
    hide SharesBelow, RefundsPot, Accounts;
    assert HeldFor(lock, p, p.balances) && HeldFor(lock, q, p.balances);
    lps := [p, q];
    assert LadderStep(lock, p, q, NotSigned);
  }

  /** What the refund of an even split pays. */
  lemma PaysTwo(lock: Key -> string, lp: LivePot, tx: Tx)
    requires |lp.keys| == 2 && SharesBelow(lp, 2) == [Share(Some(lp.keys[0]), 2000), Share(Some(lp.keys[1]), 2000)]
    requires tx.inputs == [Input(Some(lp.pot.txid), lp.pot.vout, FINAL_SEQUENCE - 1)] && tx.lockTime == lp.lockHeight
    requires tx.outputs == [Output(1500, Some(lock(lp.keys[0]))), Output(2000, Some(lock(lp.keys[1])))]
    ensures RefundsPot(lock, lp, tx, lp.lockHeight)
  {
    var x := SharesBelow(lp, 2);
    hide SharesBelow;
    assert CarriesFee(x, 0, REFUND_FEE) && PaysShares(lock, x, 0, REFUND_FEE, tx.outputs);
  }

  /** It does not pay three thousand and one. */
  lemma PaysNotTwo(lock: Key -> string, lp: LivePot, tx: Tx)
    requires |lp.keys| == 2 && SharesBelow(lp, 2) == [Share(Some(lp.keys[0]), 3000), Share(Some(lp.keys[1]), 1000)]
    requires tx.outputs == [Output(1500, Some(lock(lp.keys[0]))), Output(2000, Some(lock(lp.keys[1])))]
    ensures !RefundsPot(lock, lp, tx, lp.lockHeight)
  {
    var y := SharesBelow(lp, 2);
    hide SharesBelow;
    assert CarriesFee(y, 0, REFUND_FEE);
    LargestUnique(y, 0);
    assert tx.outputs[1].satoshis != y[1].satoshis;
  }

  lemma TwoShares(pot: Pot, a: Key, b: Key, first: u64, second: u64, tx: Tx, height: int)
    requires first > 0 && second > 0 && first + second == pot.satoshis
    ensures var lp := TwoSeats(pot, a, b, first, second, tx, height);
            && SharesBelow(lp, 2) == [Share(Some(a), first), Share(Some(b), second)]
            && Accounts(lp) && InSeats(lp.balances, 2)
  {
    var lp := TwoSeats(pot, a, b, first, second, tx, height);
    assert SharesBelow(lp, 1) == [Share(Some(a), first)];
    assert Holdings(lp.balances, 2) == [first as int, second as int];
    PairSum(first, second);
  }

  lemma PairSum(x: int, y: int)
    ensures Sum([x, y]) == x + y
  {
    var s, t := [x, y], [y];
    assert s[1..] == t && t[1..] == [];
    assert Sum(t) == y + Sum(t[1..]) && Sum(s) == x + Sum(s[1..]);
  }
}
