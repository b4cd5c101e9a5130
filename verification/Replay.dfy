/**
 Replay defence: a nonce is remembered for exactly as long as its request's timestamp can still be
 accepted, so a request is served once, unless its timestamp is so far ahead that the duration between
 it and the clock saturates. Times are nanoseconds since 1970.
 */
module Replay {
  import opened Options
  import opened Unordered

  const SECOND: int := 1_000_000_000
  const MAX_CLOCK_SKEW: int := 120 * SECOND
  const NONCE_LIMIT: nat := 100_000

  // ----- durations -----

  const MAX64: int := 0x7FFF_FFFF_FFFF_FFFF
  const MIN64: int := -0x8000_0000_0000_0000

  type int64 = x: int | MIN64 <= x <= MAX64

  /** Seconds from year 1, where a time value counts from, to 1970. */
  const UNIX_TO_INTERNAL: int := 62_135_596_800

  function Wrapped(x: int): int64 {
    (x - MIN64) % (MAX64 - MIN64 + 1) + MIN64
  }

  /** The time a timestamp stands for: its seconds are counted from year 1 in 64 bits. */
  function TimeOf(timestampUnix: int64): int {
    (Wrapped(timestampUnix + UNIX_TO_INTERNAL) - UNIX_TO_INTERNAL) * SECOND
  }

  /** A difference of times is clipped to 64 bits. */
  function Sub(t: int, u: int): int64 {
    if t - u < MIN64 then MIN64 else if t - u > MAX64 then MAX64 else t - u
  }

  /** The smallest value is its own negative. */
  function Negated(d: int64): int64 {
    var x: int := d;
    Wrapped(-x)
  }

  // ----- requests -----

  /** proved stands for the signature over all the other fields verifying under the claimed key. */
  datatype Request = Request(version: string, method_: string, originator: string, identityKey: string, nonce: string,
                             timestampUnix: int64, audience: string, signature: string, proved: bool)

  /** What a wallet serves. */
  datatype Policy = Policy(version: string, known: set<string>, originators: string -> bool, audience: string)

  function Abs(x: int): int { if x < 0 then -x else x }

  /** The window the timestamp check is meant to enforce. */
  predicate InWindow(timestampUnix: int64, now: int) {
    Abs(now - timestampUnix * SECOND) <= MAX_CLOCK_SKEW
  }

  /** The timestamp check as it is computed. */
  predicate PassesWindow(timestampUnix: int64, now: int) {
    var skew := Sub(now, TimeOf(timestampUnix));
    (if skew < 0 then Negated(skew) else skew) <= MAX_CLOCK_SKEW
  }

  /** At least 2^63 nanoseconds, some 292 years, ahead of the clock, and still a representable time. */
  predicate FarAhead(timestampUnix: int64, now: int) {
    timestampUnix + UNIX_TO_INTERNAL <= MAX64 && timestampUnix * SECOND - now >= -MIN64
  }

  /** A time a clock can show: not before year 1, and short of the last representable minutes. */
  predicate ClockTime(now: int) {
    -UNIX_TO_INTERNAL * SECOND <= now <= (MAX64 - UNIX_TO_INTERNAL) * SECOND - MAX_CLOCK_SKEW
  }

  /** The check passes exactly in the window and, wrongly, far ahead of it. */
  lemma WindowExactly(timestampUnix: int64, now: int)
    requires ClockTime(now)
    ensures PassesWindow(timestampUnix, now) <==> InWindow(timestampUnix, now) || FarAhead(timestampUnix, now)
  {
    WrapsOnce(timestampUnix);
    NegatedOnce(Sub(now, TimeOf(timestampUnix)));
  }

  lemma WrapsOnce(timestampUnix: int64)
    ensures var x := timestampUnix + UNIX_TO_INTERNAL;
            Wrapped(x) == if x <= MAX64 then x else x - (MAX64 - MIN64 + 1)
  {
  }

  lemma NegatedOnce(d: int64)
    ensures Negated(d) == if d == MIN64 then MIN64 else -d
  {
  }

  /** Well-formed, addressed to this wallet if it names itself, and signed. */
  predicate Proper(p: Policy, r: Request) {
    && r.version == p.version && r.method_ in p.known && p.originators(r.originator)
    && r.nonce != "" && r.identityKey != "" && r.signature != "" && r.audience != ""
    && (p.audience != "" ==> r.audience == p.audience) && r.proved
  }

  datatype Code = BadRequest | UnknownMethod | Unauthenticated | Expired

  /** What is wrong with a request, if anything: its form, whom it is for, when it is from, and at last
      whether it is signed. */
  method VerifyRequest(p: Policy, r: Request, now: int) returns (e: Option<Code>)
    ensures e.None? <==> r.version == p.version && r.method_ in p.known && p.originators(r.originator)
                         && r.nonce != "" && r.identityKey != "" && r.signature != "" && r.audience != ""
                         && (p.audience == "" || r.audience == p.audience) && PassesWindow(r.timestampUnix, now) && r.proved
    ensures e.None? <==> Proper(p, r) && PassesWindow(r.timestampUnix, now)
    ensures e == Some(Expired) ==> !PassesWindow(r.timestampUnix, now)
    ensures PassesWindow(r.timestampUnix, now) && Proper(p, r.(proved := true)) && !r.proved ==> e == Some(Unauthenticated)
  {
    hide PassesWindow;
    if r.version != p.version {
      return Some(BadRequest);
    }
    if r.method_ !in p.known {
      return Some(UnknownMethod);
    }
    if !p.originators(r.originator) || r.nonce == "" {
      return Some(BadRequest);
    }
    if r.identityKey == "" || r.signature == "" {
      return Some(Unauthenticated);
    }
    if r.audience == "" {
      return Some(BadRequest);
    }
    if p.audience != "" && r.audience != p.audience {
      return Some(Unauthenticated);
    }
    if !PassesWindow(r.timestampUnix, now) {
      return Some(Expired);
    }
    if !r.proved {
      return Some(Unauthenticated);
    }
    e := None;
  }

  // ----- the nonce cache -----

  /** What is left of the cache once everything older than its lifetime is dropped. */
  ghost function Swept(seen: map<string, int>, ttl: int, now: int): map<string, int> {
    map k | k in seen && now - seen[k] <= ttl :: seen[k]
  }

  ghost predicate Fresh(seen: map<string, int>, ttl: int, limit: nat, nonce: string, now: int) {
    nonce != "" && nonce !in Swept(seen, ttl, now) && |Swept(seen, ttl, now)| < limit
  }

  ghost function AfterUse(seen: map<string, int>, ttl: int, limit: nat, nonce: string, now: int): map<string, int> {
    if nonce == "" then seen
    else if Fresh(seen, ttl, limit, nonce, now) then Swept(seen, ttl, now)[nonce := now]
    else Swept(seen, ttl, now)
  }

  class NonceCache {
    var seen: map<string, int>
    const ttl: int
    const limit: nat

    constructor ()
      ensures seen == map[] && ttl == 2 * MAX_CLOCK_SKEW && limit == NONCE_LIMIT
    {
      seen, ttl, limit := map[], 2 * MAX_CLOCK_SKEW, NONCE_LIMIT;
    }

    /** Records a nonce unless it is remembered, sweeping the expired ones first, in any order. */
    method Use(nonce: string, now: int) returns (ok: bool)
      modifies this`seen
      ensures ok <==> Fresh(old(seen), ttl, limit, nonce, now)
      ensures seen == AfterUse(old(seen), ttl, limit, nonce, now)
    {
      if nonce == "" {
        return false;
      }
      Sweep(now);
      if nonce in seen {
        return false;
      }
      if |seen| >= limit {
        return false;
      }
      seen := seen[nonce := now];
      ok := true;
    }

    method Sweep(now: int)
      modifies this`seen
      ensures seen == Swept(old(seen), ttl, now)
    {
      ghost var before := seen;
      var rest := seen.Keys;
      while rest != {}
        invariant rest <= before.Keys
        invariant forall k :: k in seen <==> k in before && (k in rest || now - before[k] <= ttl)
        invariant forall k :: k in seen ==> seen[k] == before[k]
        decreases |rest|
      {
        InhabitedStrings(rest);
        var k :| k in rest;
        assert k in seen;
        if now - seen[k] > ttl { seen := seen - {k}; }
        rest := rest - {k};
      }
      SweptIs(before, seen, ttl, now);
    }
  }

  lemma SweptIs(before: map<string, int>, after: map<string, int>, ttl: int, now: int)
    requires forall k :: k in after <==> k in before && now - before[k] <= ttl
    requires forall k :: k in after ==> after[k] == before[k]
    ensures after == Swept(before, ttl, now)
  {
  }

  // ----- serving -----

  /** Bounds each caller to limit requests in any window. */
  class RateLimiter {
    const limit: int
    const window: int
    var hits: map<string, seq<int>>

    constructor (l: int, w: int)
      ensures limit == l && window == w && hits == map[]
    {
      limit, window, hits := l, w, map[];
    }

    method Allow(key: string, now: int) returns (ok: bool)
      modifies this`hits
      ensures key in hits && hits == old(hits)[key := hits[key]]
      ensures LimiterStep(limit, window, if key in old(hits) then old(hits)[key] else [], now, ok, hits[key])
    {
      var all := if key in hits then hits[key] else [];
      var kept: seq<int> := [];
      for i := 0 to |all|
        invariant kept == After(all[..i], now - window)
      {
        assert all[..i + 1][..i] == all[..i];
        if all[i] > now - window { kept := kept + [all[i]]; }
      }
      assert all[..|all|] == all;
      if |kept| >= limit {
        hits := hits[key := kept];
        return false;
      }
      hits := hits[key := kept + [now]];
      ok := true;
    }
  }

  /** The times later than cutoff. */
  function After(ts: seq<int>, cutoff: int): seq<int> {
    if ts == [] then []
    else
      var rest := After(ts[..|ts| - 1], cutoff);
      if ts[|ts| - 1] > cutoff then rest + [ts[|ts| - 1]] else rest
  }

  // ----- what the limiter bounds -----

  /** One caller's calls: the hits kept between them, when they came and whether they were allowed. */
  ghost predicate LimiterRun(limit: int, window: int, hits: seq<seq<int>>, at: seq<int>, oks: seq<bool>) {
    && |hits| == |at| + 1 == |oks| + 1 && hits[0] == []
    && (forall i, j :: 0 <= i < j < |at| ==> at[i] <= at[j])
    && forall k :: 0 <= k < |at| ==> LimiterStep(limit, window, hits[k], at[k], oks[k], hits[k + 1])
  }

  ghost predicate LimiterStep(limit: int, window: int, hits: seq<int>, now: int, ok: bool, hits': seq<int>) {
    var recent := After(hits, now - window);
    (ok <==> |recent| < limit) && hits' == if ok then recent + [now] else recent
  }

  /** The times of the calls allowed among the first k. */
  function AllowedTimes(at: seq<int>, oks: seq<bool>, k: nat): (r: seq<int>)
    requires k <= |at| == |oks|
    ensures |r| <= k
  {
    if k == 0 then [] else if oks[k - 1] then AllowedTimes(at, oks, k - 1) + [at[k - 1]] else AllowedTimes(at, oks, k - 1)
  }

  ghost predicate Rising(ts: seq<int>) {
    forall i, j :: 0 <= i < j < |ts| ==> ts[i] <= ts[j]
  }

  lemma {:induction false} AfterTwice(ts: seq<int>, c: int, d: int)
    requires c <= d
    ensures After(After(ts, c), d) == After(ts, d)
  {
    if ts != [] {
      var front, t := ts[..|ts| - 1], ts[|ts| - 1];
      AfterTwice(front, c, d);
      if t > c { assert (After(front, c) + [t])[..|After(front, c)|] == After(front, c); }
    }
  }

  lemma AfterSnoc(ts: seq<int>, t: int, c: int)
    ensures After(ts + [t], c) == if t > c then After(ts, c) + [t] else After(ts, c)
  {
    assert (ts + [t])[..|ts|] == ts;
  }

  /** Of rising times at least m are later than the cutoff if and only if the m-th from the end is. */
  lemma {:induction false} AfterCounts(ts: seq<int>, c: int, m: nat)
    requires Rising(ts) && m > 0
    ensures |After(ts, c)| >= m <==> |ts| >= m && ts[|ts| - m] > c
  {
    if ts != [] {
      var front, t := ts[..|ts| - 1], ts[|ts| - 1];
      if m > 1 { AfterCounts(front, c, m - 1); }
      if t <= c { NoneAfter(front, c); }
    }
  }

  lemma {:induction false} NoneAfter(ts: seq<int>, c: int)
    requires forall i :: 0 <= i < |ts| ==> ts[i] <= c
    ensures After(ts, c) == []
  {
    if ts != [] { NoneAfter(ts[..|ts| - 1], c); }
  }

  /** Allowed calls come in the order of the clock. */
  lemma {:induction false} AllowedRise(at: seq<int>, oks: seq<bool>, k: nat)
    requires k <= |at| == |oks| && Rising(at)
    ensures Rising(AllowedTimes(at, oks, k))
    ensures forall i :: 0 <= i < |AllowedTimes(at, oks, k)| ==> k > 0 && AllowedTimes(at, oks, k)[i] <= at[k - 1]
  {
    if k > 0 { AllowedRise(at, oks, k - 1); }
  }

  /** A list of times after a call: those left, and the call if it was allowed. */
  ghost predicate Joins(left: seq<int>, now: int, ok: bool, after: seq<int>) {
    after == if ok then left + [now] else left
  }

  /** What a call adds shows alike in the hits kept and in all the calls allowed. */
  lemma KeptStep(hits: seq<int>, hits': seq<int>, past: seq<int>, past': seq<int>, cutoff: int, now: int, ok: bool, c: int)
    requires Joins(After(hits, cutoff), now, ok, hits') && Joins(past, now, ok, past')
    requires c >= cutoff && After(hits, c) == After(past, c)
    ensures After(hits', c) == After(past', c)
  {
    hide After;
    AfterTwice(hits, cutoff, c);
    if ok {
      AfterSnoc(After(hits, cutoff), now, c);
      AfterSnoc(past, now, c);
    }
  }

  lemma HitsNext(limit: int, window: int, hits: seq<seq<int>>, at: seq<int>, oks: seq<bool>, k: nat)
    requires LimiterRun(limit, window, hits, at, oks) && 0 < k <= |at|
    ensures Joins(After(hits[k - 1], at[k - 1] - window), at[k - 1], oks[k - 1], hits[k])
    ensures Joins(AllowedTimes(at, oks, k - 1), at[k - 1], oks[k - 1], AllowedTimes(at, oks, k))
    ensures k > 1 ==> at[k - 2] <= at[k - 1]
  {
    hide After;
    assert LimiterStep(limit, window, hits[k - 1], at[k - 1], oks[k - 1], hits[k - 1 + 1]);
  }

  lemma NothingKept(limit: int, window: int, hits: seq<seq<int>>, at: seq<int>, oks: seq<bool>)
    requires LimiterRun(limit, window, hits, at, oks)
    ensures |hits| == |at| + 1 == |oks| + 1 && hits[0] == AllowedTimes(at, oks, 0)
  {
  }

  /** The hits kept are, as far as any later cutoff can tell, all the calls ever allowed. */
  lemma {:induction false} KeptIsAllowed(limit: int, window: int, hits: seq<seq<int>>, at: seq<int>, oks: seq<bool>, k: nat, c: int)
    requires LimiterRun(limit, window, hits, at, oks) && k <= |at| && (k > 0 ==> c >= at[k - 1] - window)
    ensures After(hits[k], c) == After(AllowedTimes(at, oks, k), c)
  {
    hide After, AllowedTimes, LimiterRun, Joins;
    NothingKept(limit, window, hits, at, oks);
    if k > 0 {
      HitsNext(limit, window, hits, at, oks, k);
      KeptIsAllowed(limit, window, hits, at, oks, k - 1, c);
      KeptStep(hits[k - 1], hits[k], AllowedTimes(at, oks, k - 1), AllowedTimes(at, oks, k), at[k - 1] - window, at[k - 1], oks[k - 1], c);
    }
  }

  /** A call is refused exactly when the last limit calls allowed were all within the window before it. */
  lemma RateBound(limit: nat, window: int, hits: seq<seq<int>>, at: seq<int>, oks: seq<bool>, k: nat)
    requires LimiterRun(limit, window, hits, at, oks) && k < |at| && limit > 0
    ensures var past := AllowedTimes(at, oks, k);
            oks[k] <==> |past| < limit || past[|past| - limit] <= at[k] - window
  {
    hide After;
    var past, cutoff := AllowedTimes(at, oks, k), at[k] - window;
    assert LimiterStep(limit, window, hits[k], at[k], oks[k], hits[k + 1]);
    AllowedRise(at, oks, k);
    KeptIsAllowed(limit, window, hits, at, oks, k, cutoff);
    AfterCounts(past, cutoff, limit);
  }

  /** So any limit + 1 calls allowed to one caller span at least the window. */
  lemma {:induction false} LimitSpansWindow(limit: nat, window: int, hits: seq<seq<int>>, at: seq<int>, oks: seq<bool>, k: nat, i: nat)
    requires LimiterRun(limit, window, hits, at, oks) && k <= |at| && limit > 0 && i + limit < |AllowedTimes(at, oks, k)|
    ensures AllowedTimes(at, oks, k)[i + limit] - AllowedTimes(at, oks, k)[i] >= window
  {
    var past := AllowedTimes(at, oks, k - 1);
    if i + limit < |past| {
      LimitSpansWindow(limit, window, hits, at, oks, k - 1, i);
    } else {
      RateBound(limit, window, hits, at, oks, k - 1);
    }
  }

  datatype Verdict = Unverified | RateLimited | Replayed | Served

  /** The checks in the order a request meets them. */
  class Server {
    const policy: Policy
    const nonces: NonceCache
    const limiter: RateLimiter

    constructor (p: Policy, perMinute: int)
      ensures policy == p && fresh(nonces) && fresh(limiter) && nonces.seen == map[]
      ensures nonces.ttl == 2 * MAX_CLOCK_SKEW && nonces.limit == NONCE_LIMIT
      ensures limiter.limit == (if perMinute <= 0 then 120 else perMinute) && limiter.window == 60 * SECOND && limiter.hits == map[]
    {
      policy := p;
      nonces := new NonceCache();
      limiter := new RateLimiter(if perMinute <= 0 then 120 else perMinute, 60 * SECOND);
    }

    /** callerKey is the proved identity in its canonical spelling. */
    method Serve(r: Request, now: int, callerKey: string) returns (v: Verdict)
      modifies nonces`seen, limiter`hits
      ensures v != Unverified <==> r.version == policy.version && r.method_ in policy.known && policy.originators(r.originator)
                                   && r.nonce != "" && r.identityKey != "" && r.signature != "" && r.audience != ""
                                   && (policy.audience == "" || r.audience == policy.audience)
                                   && PassesWindow(r.timestampUnix, now) && r.proved
      ensures v == Served || v == Replayed ==> nonces.seen == AfterUse(old(nonces.seen), nonces.ttl, nonces.limit, r.nonce, now)
      ensures v == Served ==> Fresh(old(nonces.seen), nonces.ttl, nonces.limit, r.nonce, now)
      ensures v == Replayed ==> !Fresh(old(nonces.seen), nonces.ttl, nonces.limit, r.nonce, now)
      ensures v == Unverified || v == RateLimited ==> nonces.seen == old(nonces.seen)
      ensures v == Unverified ==> limiter.hits == old(limiter.hits)
      ensures Step(policy, nonces.ttl, nonces.limit, old(nonces.seen), r, now, v, nonces.seen)
    {
      hide PassesWindow;
      var e := VerifyRequest(policy, r, now);
      if e.Some? {
        return Unverified;
      }
      var allowed := limiter.Allow(callerKey, now);
      if !allowed {
        return RateLimited;
      }
      var ok := nonces.Use(r.nonce, now);
      v := if ok then Served else Replayed;
    }
  }

  // ----- every run -----

  /** One request met by a server, and the cache before and after. */
  ghost predicate Step(p: Policy, ttl: int, limit: nat, seen: map<string, int>, r: Request, now: int, v: Verdict, seen': map<string, int>) {
    && (v != Unverified <==> Proper(p, r) && PassesWindow(r.timestampUnix, now))
    && match v
       case Served => Fresh(seen, ttl, limit, r.nonce, now) && seen' == AfterUse(seen, ttl, limit, r.nonce, now)
       case Replayed => !Fresh(seen, ttl, limit, r.nonce, now) && seen' == AfterUse(seen, ttl, limit, r.nonce, now)
       case _ => seen' == seen
  }

  /** Any requests at all, at times that never go back. */
  ghost predicate IsRun(p: Policy, ttl: int, limit: nat, caches: seq<map<string, int>>, rs: seq<Request>, at: seq<int>, vs: seq<Verdict>) {
    && |caches| == |rs| + 1 && |at| == |vs| == |rs| && caches[0] == map[]
    && (forall i, j :: 0 <= i < j < |at| ==> at[i] <= at[j])
    && (forall k :: 0 <= k < |rs| ==> Step(p, ttl, limit, caches[k], rs[k], at[k], vs[k], caches[k + 1]))
  }

  lemma Remembered(seen: map<string, int>, ttl: int, limit: nat, nonce: string, other: string, t: int, now: int)
    requires nonce in seen && seen[nonce] == t && now - t <= ttl
    ensures !Fresh(seen, ttl, limit, nonce, now)
    ensures nonce in AfterUse(seen, ttl, limit, other, now) && AfterUse(seen, ttl, limit, other, now)[nonce] == t
  {
    assert nonce in Swept(seen, ttl, now);
  }

  /** A nonce served at step i stays in the cache as long as its lifetime lasts, whatever else happens. */
  lemma {:induction false} StaysSeen(p: Policy, ttl: int, limit: nat, caches: seq<map<string, int>>, rs: seq<Request>, at: seq<int>, vs: seq<Verdict>, i: nat, k: nat)
    requires IsRun(p, ttl, limit, caches, rs, at, vs) && i < k <= |rs| && vs[i] == Served && rs[i].nonce != ""
    requires k < |rs| ==> at[k] - at[i] <= ttl
    requires k == |rs| ==> at[k - 1] - at[i] <= ttl
    ensures rs[i].nonce in caches[k] && caches[k][rs[i].nonce] == at[i]
    decreases k
  {
    assert Step(p, ttl, limit, caches[k - 1], rs[k - 1], at[k - 1], vs[k - 1], caches[k - 1 + 1]);
    if i < k - 1 {
      StaysSeen(p, ttl, limit, caches, rs, at, vs, i, k - 1);
      Remembered(caches[k - 1], ttl, limit, rs[i].nonce, rs[k - 1].nonce, at[i], at[k - 1]);
    }
  }

  /** While a served request's timestamp is in the window, its nonce is still known. */
  lemma StillKnown(p: Policy, ttl: int, limit: nat, caches: seq<map<string, int>>, rs: seq<Request>, at: seq<int>, vs: seq<Verdict>, i: nat, j: nat)
    requires IsRun(p, ttl, limit, caches, rs, at, vs) && ttl >= 2 * MAX_CLOCK_SKEW && i < j < |rs|
    requires rs[i].timestampUnix == rs[j].timestampUnix && vs[i] == Served
    requires InWindow(rs[i].timestampUnix, at[i]) && InWindow(rs[j].timestampUnix, at[j])
    ensures !Fresh(caches[j], ttl, limit, rs[i].nonce, at[j])
  {
    hide Fresh, AfterUse;
    assert Step(p, ttl, limit, caches[i], rs[i], at[i], vs[i], caches[i + 1]);
    NonceGiven(caches[i], ttl, limit, rs[i].nonce, at[i]);
    StaysSeen(p, ttl, limit, caches, rs, at, vs, i, j);
    Remembered(caches[j], ttl, limit, rs[i].nonce, rs[i].nonce, at[i], at[j]);
  }

  lemma NonceGiven(seen: map<string, int>, ttl: int, limit: nat, nonce: string, now: int)
    requires Fresh(seen, ttl, limit, nonce, now)
    ensures nonce != ""
  {
  }

  /** The clock is a real one. */
  ghost predicate ClockOk(at: seq<int>) {
    forall k :: 0 <= k < |at| ==> ClockTime(at[k])
  }

  /** With a lifetime of at least the two-sided window, one signed request is served at most once in
      any run, if its timestamp was not far ahead when it was first served. */
  lemma NoReplay(p: Policy, ttl: int, limit: nat, caches: seq<map<string, int>>, rs: seq<Request>, at: seq<int>, vs: seq<Verdict>, i: nat, j: nat)
    requires IsRun(p, ttl, limit, caches, rs, at, vs) && ClockOk(at) && ttl >= 2 * MAX_CLOCK_SKEW && i <= j < |rs|
    requires rs[i].nonce == rs[j].nonce && rs[i].timestampUnix == rs[j].timestampUnix && vs[i] == Served && vs[j] == Served
    requires !FarAhead(rs[i].timestampUnix, at[i])
    ensures i == j
  {
    hide Fresh, PassesWindow, InWindow;
    assert Step(p, ttl, limit, caches[i], rs[i], at[i], vs[i], caches[i + 1]);
    assert Step(p, ttl, limit, caches[j], rs[j], at[j], vs[j], caches[j + 1]);
    WindowExactly(rs[i].timestampUnix, at[i]);
    WindowExactly(rs[j].timestampUnix, at[j]);
    if i < j { StillKnown(p, ttl, limit, caches, rs, at, vs, i, j); }
  }

  /** Whatever a run serves was signed, well-formed and addressed to this wallet, with a timestamp in the
      window or far ahead. */
  lemma ServedWasSigned(p: Policy, ttl: int, limit: nat, caches: seq<map<string, int>>, rs: seq<Request>, at: seq<int>, vs: seq<Verdict>, k: nat)
    requires IsRun(p, ttl, limit, caches, rs, at, vs) && ClockOk(at) && k < |rs| && vs[k] == Served
    ensures var r := rs[k];
            && r.proved && r.version == p.version && r.method_ in p.known && p.originators(r.originator)
            && r.nonce != "" && r.identityKey != "" && r.signature != "" && r.audience != ""
            && (p.audience == "" || r.audience == p.audience)
            && (InWindow(r.timestampUnix, at[k]) || FarAhead(r.timestampUnix, at[k]))
  {
    hide Fresh, PassesWindow, InWindow;
    assert Step(p, ttl, limit, caches[k], rs[k], at[k], vs[k], caches[k + 1]);
    WindowExactly(rs[k].timestampUnix, at[k]);
  }

  /** The cache never holds more than its cap. */
  lemma {:induction false} CacheBounded(p: Policy, ttl: int, limit: nat, caches: seq<map<string, int>>, rs: seq<Request>, at: seq<int>, vs: seq<Verdict>, k: nat)
    requires IsRun(p, ttl, limit, caches, rs, at, vs) && k < |caches|
    ensures |caches[k]| <= limit
  {
    hide PassesWindow;
    if k > 0 {
      CacheBounded(p, ttl, limit, caches, rs, at, vs, k - 1);
      assert Step(p, ttl, limit, caches[k - 1], rs[k - 1], at[k - 1], vs[k - 1], caches[k - 1 + 1]);
      SweptSmaller(caches[k - 1], ttl, at[k - 1]);
    }
  }

  lemma SweptSmaller(seen: map<string, int>, ttl: int, now: int)
    ensures |Swept(seen, ttl, now)| <= |seen|
  {
    KeysWithin(Swept(seen, ttl, now).Keys, seen.Keys);
  }

  lemma {:induction false} KeysWithin(a: set<string>, b: set<string>)
    requires forall x :: x in a ==> x in b
    ensures |a| <= |b|
  {
    if |a| > 0 {
      InhabitedStrings(a);
      var x :| x in a;
      KeysWithin(a - {x}, b - {x});
    }
  }

  /** Whatever the cache remembers was served, at the time it says. */
  lemma {:induction false} SeenWasServed(p: Policy, ttl: int, limit: nat, caches: seq<map<string, int>>, rs: seq<Request>, at: seq<int>, vs: seq<Verdict>, k: nat, nonce: string) returns (i: nat)
    requires IsRun(p, ttl, limit, caches, rs, at, vs) && k < |caches| && nonce in caches[k]
    ensures i < k && vs[i] == Served && rs[i].nonce == nonce && at[i] == caches[k][nonce]
  {
    hide PassesWindow, Proper;
    assert k > 0;
    assert Step(p, ttl, limit, caches[k - 1], rs[k - 1], at[k - 1], vs[k - 1], caches[k - 1 + 1]);
    if vs[k - 1] == Served && rs[k - 1].nonce == nonce { return k - 1; }
    i := SeenWasServed(p, ttl, limit, caches, rs, at, vs, k - 1, nonce);
  }

  /** A request is refused as replayed only when its nonce was served within the lifetime before, or
      when the cache is full of nonces that were. */
  lemma ReplayedOnlyIf(p: Policy, ttl: int, limit: nat, caches: seq<map<string, int>>, rs: seq<Request>, at: seq<int>, vs: seq<Verdict>, k: nat)
    requires IsRun(p, ttl, limit, caches, rs, at, vs) && k < |rs| && vs[k] == Replayed
    ensures (exists i :: 0 <= i < k && vs[i] == Served && rs[i].nonce == rs[k].nonce && at[k] - at[i] <= ttl) || |caches[k + 1]| >= limit
  {
    hide PassesWindow;
    assert Step(p, ttl, limit, caches[k], rs[k], at[k], vs[k], caches[k + 1]);
    if |caches[k + 1]| < limit {
      var i := SeenWasServed(p, ttl, limit, caches, rs, at, vs, k, rs[k].nonce);
    }
  }

  /** Some run from time start on serves r twice. */
  ghost predicate ServedTwice(p: Policy, ttl: int, limit: nat, r: Request, start: int) {
    exists caches, rs, at, vs, i, j :: Twice(p, ttl, limit, r, start, caches, rs, at, vs, i, j)
  }

  ghost predicate Twice(p: Policy, ttl: int, limit: nat, r: Request, start: int, caches: seq<map<string, int>>, rs: seq<Request>, at: seq<int>, vs: seq<Verdict>, i: nat, j: nat) {
    && IsRun(p, ttl, limit, caches, rs, at, vs) && ClockOk(at) && i < j < |rs| && at[0] >= start
    && rs[i] == r && rs[j] == r && vs[i] == Served && vs[j] == Served
  }

  /** Served at two times the second of which is past the first's lifetime. */
  lemma TwoServings(p: Policy, ttl: int, limit: nat, r: Request, t: int, u: int)
    requires ClockTime(t) && ClockTime(u) && t <= u && u - t > ttl && limit >= 1 && Proper(p, r)
    requires PassesWindow(r.timestampUnix, t) && PassesWindow(r.timestampUnix, u)
    ensures ServedTwice(p, ttl, limit, r, t)
  {
    var at, caches := [t, u], [map[], map[r.nonce := t], map[r.nonce := u]];
    NothingSwept(ttl, t);
    AllSwept(r.nonce, t, ttl, u);
    assert Step(p, ttl, limit, caches[0], r, t, Served, caches[1]);
    assert Step(p, ttl, limit, caches[1], r, u, Served, caches[2]);
    assert Twice(p, ttl, limit, r, t, caches, [r, r], at, [Served, Served], 0, 1);
  }

  /** From any time on, a request can be served twice if and only if it is proper and its timestamp is
      far ahead of that time. */
  lemma ReplayExactly(p: Policy, r: Request, start: int)
    requires ClockTime(start)
    ensures ServedTwice(p, 2 * MAX_CLOCK_SKEW, NONCE_LIMIT, r, start) <==> Proper(p, r) && FarAhead(r.timestampUnix, start)
  {
    var ttl, limit, ts := 2 * MAX_CLOCK_SKEW, NONCE_LIMIT, r.timestampUnix;
    if Proper(p, r) && FarAhead(ts, start) {
      WindowExactly(ts, start);
      var last := ts * SECOND - MAX_CLOCK_SKEW;
      WindowExactly(ts, last);
      TwoServings(p, ttl, limit, r, start, last);
    } else if ServedTwice(p, ttl, limit, r, start) {
      hide Fresh;
      var caches, rs, at, vs, i, j :| Twice(p, ttl, limit, r, start, caches, rs, at, vs, i, j);
      assert Step(p, ttl, limit, caches[i], rs[i], at[i], vs[i], caches[i + 1]);
      Ahead(at, start);
      NoReplay(p, ttl, limit, caches, rs, at, vs, i, j);
    }
  }

  lemma Ahead(at: seq<int>, start: int)
    requires |at| > 0 && at[0] >= start && forall i, j :: 0 <= i < j < |at| ==> at[i] <= at[j]
    ensures forall k :: 0 <= k < |at| ==> at[k] >= start
  {
  }

  /** A timestamp in the year 33658 passes today and again as soon as its nonce has been swept. */
  lemma FarFutureServedTwice(p: Policy, r: Request, now: int)
    requires Proper(p, r) && r.timestampUnix == 1_000_000_000_000 && 0 <= now <= 4_000_000_000 * SECOND
    ensures PassesWindow(r.timestampUnix, now) && PassesWindow(r.timestampUnix, now + 2 * MAX_CLOCK_SKEW + 1)
    ensures ServedTwice(p, 2 * MAX_CLOCK_SKEW, NONCE_LIMIT, r, now)
  {
    WindowExactly(r.timestampUnix, now);
    WindowExactly(r.timestampUnix, now + 2 * MAX_CLOCK_SKEW + 1);
    TwoServings(p, 2 * MAX_CLOCK_SKEW, NONCE_LIMIT, r, now, now + 2 * MAX_CLOCK_SKEW + 1);
  }

  /** No lifetime shorter than the window is enough: served at the start of its window, the same
      request is served again at the end. */
  lemma ShorterLifetimeReplays(p: Policy, ttl: int, limit: nat, r: Request)
    requires 0 <= ttl < 2 * MAX_CLOCK_SKEW && limit >= 1 && Proper(p, r)
    requires ClockTime(r.timestampUnix * SECOND - MAX_CLOCK_SKEW) && ClockTime(r.timestampUnix * SECOND + MAX_CLOCK_SKEW)
    ensures ServedTwice(p, ttl, limit, r, r.timestampUnix * SECOND - MAX_CLOCK_SKEW)
  {
    var t := r.timestampUnix * SECOND;
    WindowExactly(r.timestampUnix, t - MAX_CLOCK_SKEW);
    WindowExactly(r.timestampUnix, t + MAX_CLOCK_SKEW);
    TwoServings(p, ttl, limit, r, t - MAX_CLOCK_SKEW, t + MAX_CLOCK_SKEW);
  }

  lemma NothingSwept(ttl: int, now: int)
    ensures Swept(map[], ttl, now) == map[]
  {
  }

  lemma AllSwept(nonce: string, t: int, ttl: int, now: int)
    requires now - t > ttl
    ensures Swept(map[nonce := t], ttl, now) == map[]
  {
  }
}
