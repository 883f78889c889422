/**
 The three limiters: the token bucket in front of the exchange, the sliding window per webhook
 caller, and the fixed window per dashboard client. Clock readings are arguments, in seconds.
 */
module TokenBucket {
  import opened FiniteSums

  datatype Grant = Grant(time: real, n: nat)

  /** `grants` is every grant ever made, newest last. */
  datatype Bucket = Bucket(tokens: real, lastRefill: real, grants: seq<Grant>)

  /** The tokens the rate adds in `seconds`. */
  function Accrued(rate: real, seconds: real): real {
    seconds * rate
  }

  lemma AccruedGrows(rate: real, s: real, t: real)
    requires rate > 0.0 && s <= t
    ensures Accrued(rate, s) <= Accrued(rate, t) == Accrued(rate, s) + Accrued(rate, t - s)
    ensures 0.0 <= Accrued(rate, t - s)
  {
    ProductMonotone(rate, 0.0, t - s);
    assert t * rate == s * rate + (t - s) * rate;
  }

  function Refill(rate: real, max: real, b: Bucket, now: real): Bucket {
    var more := b.tokens + Accrued(rate, now - b.lastRefill);
    b.(tokens := if max < more then max else more, lastRefill := now)
  }

  function Try(rate: real, max: real, b: Bucket, now: real, n: nat): (Bucket, bool) {
    var r := Refill(rate, max, b, now);
    if r.tokens >= n as real then (r.(tokens := r.tokens - n as real, grants := r.grants + [Grant(now, n)]), true)
    else (r, false)
  }

  function Amount(grants: seq<Grant>): nat {
    if grants == [] then 0 else Amount(grants[..|grants| - 1]) + grants[|grants| - 1].n
  }

  /** What may be granted from time `from` to time `to`. */
  function Allowance(rate: real, max: real, from: real, to: real): real {
    max + Accrued(rate, to - from)
  }

  ghost predicate Ordered(grants: seq<Grant>) {
    forall i, j :: 0 <= i <= j < |grants| ==> grants[i].time <= grants[j].time
  }

  /** Every run of consecutive grants is within its allowance. */
  ghost predicate SlicesBounded(rate: real, max: real, grants: seq<Grant>) {
    forall i, j :: 0 <= i < j <= |grants| ==>
                     Amount(grants[i..j]) as real <= Allowance(rate, max, grants[i].time, grants[j - 1].time)
  }

  /** So are the latest grants together with the tokens still in the bucket. */
  ghost predicate TailsBounded(rate: real, max: real, b: Bucket) {
    forall i :: 0 <= i < |b.grants| ==>
                  Amount(b.grants[i..]) as real + b.tokens <= Allowance(rate, max, b.grants[i].time, b.lastRefill)
  }

  ghost predicate Inv(rate: real, max: real, b: Bucket) {
    && 0.0 <= b.tokens <= max
    && (b.grants != [] ==> b.grants[|b.grants| - 1].time <= b.lastRefill)
    && Ordered(b.grants) && SlicesBounded(rate, max, b.grants) && TailsBounded(rate, max, b)
  }

  lemma RefillKeeps(rate: real, max: real, b: Bucket, now: real)
    requires rate > 0.0 && Inv(rate, max, b) && b.lastRefill <= now
    ensures Inv(rate, max, Refill(rate, max, b, now))
  {
    var c := Refill(rate, max, b, now);
    RefillGains(rate, max, b, now);
    hide Amount, Refill, SlicesBounded, Accrued;
    forall i | 0 <= i < |b.grants|
      ensures Amount(c.grants[i..]) as real + c.tokens <= Allowance(rate, max, c.grants[i].time, now)
    {
      AccruedGrows(rate, b.lastRefill - b.grants[i].time, now - b.grants[i].time);
    }
  }

  lemma RefillGains(rate: real, max: real, b: Bucket, now: real)
    requires rate > 0.0 && 0.0 <= b.tokens <= max && b.lastRefill <= now
    ensures var c := Refill(rate, max, b, now);
            && 0.0 <= c.tokens <= max && c.tokens <= b.tokens + Accrued(rate, now - b.lastRefill)
            && c.lastRefill == now && c.grants == b.grants
  {
    AccruedGrows(rate, 0.0, now - b.lastRefill);
    hide Accrued;
  }

  lemma AmountSnoc(grants: seq<Grant>, i: nat, g: Grant)
    requires i <= |grants|
    ensures Amount((grants + [g])[i..]) == Amount(grants[i..]) + g.n
  {
    assert (grants + [g])[i..] == grants[i..] + [g];
    assert (grants[i..] + [g])[..|grants[i..]|] == grants[i..];
  }

  lemma GrantKeeps(rate: real, max: real, b: Bucket, n: nat)
    requires rate > 0.0 && Inv(rate, max, b) && b.tokens >= n as real
    ensures Inv(rate, max, b.(tokens := b.tokens - n as real, grants := b.grants + [Grant(b.lastRefill, n)]))
  {
    hide Amount, Allowance, SlicesBounded, TailsBounded;
    var g := Grant(b.lastRefill, n);
    var c := b.(tokens := b.tokens - n as real, grants := b.grants + [g]);
    TailsAfter(rate, max, b, g);
    assert Ordered(c.grants);
    assert c.grants[..|c.grants| - 1] == b.grants;
    SlicesAfter(rate, max, c, b.grants);
  }

  lemma TailsAfter(rate: real, max: real, b: Bucket, g: Grant)
    requires 0.0 <= b.tokens <= max && TailsBounded(rate, max, b) && g.time == b.lastRefill
    ensures TailsBounded(rate, max, b.(tokens := b.tokens - g.n as real, grants := b.grants + [g]))
  {
    var c := b.(tokens := b.tokens - g.n as real, grants := b.grants + [g]);
    AmountSnoc(b.grants, |b.grants|, g);
    assert b.grants[|b.grants|..] == [] && Amount([]) == 0;
    assert Allowance(rate, max, g.time, g.time) == max;
    hide Amount, Allowance;
    forall i | 0 <= i < |c.grants|
      ensures Amount(c.grants[i..]) as real + c.tokens <= Allowance(rate, max, c.grants[i].time, c.lastRefill)
    {
      AmountSnoc(b.grants, i, g);
    }
  }

  lemma SlicesAfter(rate: real, max: real, c: Bucket, before: seq<Grant>)
    requires c.tokens >= 0.0 && TailsBounded(rate, max, c) && SlicesBounded(rate, max, before)
    requires c.grants != [] && c.grants[..|c.grants| - 1] == before && c.grants[|before|].time == c.lastRefill
    ensures SlicesBounded(rate, max, c.grants)
  {
    hide Amount, Allowance;
    forall i, j | 0 <= i < j <= |c.grants|
      ensures Amount(c.grants[i..j]) as real <= Allowance(rate, max, c.grants[i].time, c.grants[j - 1].time)
    {
      if j == |c.grants| {
        assert c.grants[i..j] == c.grants[i..];
      } else {
        SliceOfPrefix(c.grants, |before|, i, j);
      }
    }
  }

  lemma SliceOfPrefix<T>(s: seq<T>, n: nat, i: nat, j: nat)
    requires i <= j <= n <= |s|
    ensures s[..n][i..j] == s[i..j]
  {
  }

  lemma TryKeeps(rate: real, max: real, b: Bucket, now: real, n: nat)
    requires rate > 0.0 && Inv(rate, max, b) && b.lastRefill <= now
    ensures Inv(rate, max, Try(rate, max, b, now, n).0)
  {
    RefillKeeps(rate, max, b, now);
    hide Inv, Refill;
    var r := Refill(rate, max, b, now);
    RefillSets(rate, max, b, now);
    if r.tokens >= n as real {
      GrantKeeps(rate, max, r, n);
    }
  }

  /** What a full refill leaves there at a time: what was left and what the rate has added, up to a full bucket. */
  function There(rate: real, max: real, b: Bucket, now: real): real {
    var full := b.tokens + rate * (now - b.lastRefill);
    if full < max then full else max
  }

  /** An attempt is granted exactly when that suffices, and takes what it asks for. */
  lemma GrantedIff(rate: real, max: real, b: Bucket, now: real, n: nat)
    ensures var (c, granted) := Try(rate, max, b, now, n);
            && (granted <==> n as real <= There(rate, max, b, now))
            && c.tokens == There(rate, max, b, now) - (if granted then n as real else 0.0) && c.lastRefill == now
            && c.grants == if granted then b.grants + [Grant(now, n)] else b.grants
  {
    AccruedIs(rate, now - b.lastRefill);
    hide Accrued;
  }

  lemma AccruedIs(rate: real, seconds: real)
    ensures Accrued(rate, seconds) == rate * seconds
  {
  }

  lemma RefillSets(rate: real, max: real, b: Bucket, now: real)
    ensures Refill(rate, max, b, now).lastRefill == now && Refill(rate, max, b, now).grants == b.grants
  {
  }

  /** The tokens granted at times from `from` to `to`, both included. */
  function GrantedBetween(grants: seq<Grant>, from: real, to: real): nat {
    if grants == [] then 0
    else
      var g := grants[|grants| - 1];
      GrantedBetween(grants[..|grants| - 1], from, to) + if from <= g.time <= to then g.n else 0
  }

  /** The grants from `i` up to `j` are those of the interval. */
  ghost predicate IsInterval(grants: seq<Grant>, i: nat, j: nat, from: real, to: real) {
    && i <= j <= |grants| && GrantedBetween(grants, from, to) == Amount(grants[i..j])
    && (forall k :: i <= k < j ==> from <= grants[k].time <= to)
    && (forall k :: 0 <= k < i ==> grants[k].time < from)
    && (forall k :: j <= k < |grants| ==> to < grants[k].time)
  }

  /** In an ordered history the grants of an interval are consecutive. */
  lemma {:induction false} IntervalIsASlice(grants: seq<Grant>, from: real, to: real) returns (i: nat, j: nat)
    requires Ordered(grants) && from <= to
    ensures IsInterval(grants, i, j, from, to)
  {
    if grants == [] {
      i, j := 0, 0;
    } else {
      var n := |grants| - 1;
      i, j := IntervalIsASlice(grants[..n], from, to);
      i, j := SliceGrows(grants, i, j, from, to);
    }
  }

  lemma SliceGrows(grants: seq<Grant>, i: nat, j: nat, from: real, to: real) returns (a: nat, b: nat)
    requires grants != [] && Ordered(grants) && IsInterval(grants[..|grants| - 1], i, j, from, to)
    ensures IsInterval(grants, a, b, from, to)
  {
    hide Amount, GrantedBetween;
    var n := |grants| - 1;
    a, b := i, j;
    LastGrant(grants, from, to);
    assert i < j ==> from <= grants[..n][i].time == grants[i].time <= grants[n].time;
    assert j < n ==> to < grants[..n][j].time == grants[j].time <= grants[n].time;
    assert grants[..n][i..j] == grants[i..j];
    hide Ordered;
    if grants[n].time < from {
      EmptyAmount(grants[..n], i);
      a, b := n + 1, n + 1;
      EmptyAmount(grants, n + 1);
    } else if grants[n].time <= to {
      AmountUpTo(grants, i);
      b := n + 1;
    }
  }

  lemma LastGrant(grants: seq<Grant>, from: real, to: real)
    requires grants != []
    ensures var n := |grants| - 1;
            GrantedBetween(grants, from, to) ==
            GrantedBetween(grants[..n], from, to) + if from <= grants[n].time <= to then grants[n].n else 0
  {
  }

  lemma AmountUpTo(grants: seq<Grant>, i: nat)
    requires grants != [] && i < |grants|
    ensures Amount(grants[i..]) == Amount(grants[i..|grants| - 1]) + grants[|grants| - 1].n
    ensures grants[i..] == grants[i..|grants|]
  {
    var n := |grants| - 1;
    assert grants == grants[..n] + [grants[n]];
    AmountSnoc(grants[..n], i, grants[n]);
    assert grants[..n][i..] == grants[i..n];
  }

  lemma EmptyAmount(grants: seq<Grant>, i: nat)
    requires i <= |grants|
    ensures Amount(grants[i..i]) == 0
  {
  }

  /** No interval of any length, wherever it starts, sees more than a full bucket plus what the rate refills in it. */
  lemma IntervalBound(rate: real, max: real, b: Bucket, from: real, to: real)
    requires rate > 0.0 && Inv(rate, max, b) && from <= to
    ensures GrantedBetween(b.grants, from, to) as real <= Allowance(rate, max, from, to)
  {
    hide Amount, GrantedBetween, Accrued, Allowance, SlicesBounded, TailsBounded, Ordered;
    AllowanceWider(rate, max, from, to, from, from);
    var i, j := IntervalIsASlice(b.grants, from, to);
    if i < j {
      SliceBound(rate, max, b, i, j);
      OrderedAt(b.grants, i, j - 1);
      AllowanceWider(rate, max, from, to, b.grants[i].time, b.grants[j - 1].time);
    } else {
      EmptyAmount(b.grants, i);
    }
  }

  lemma OrderedAt(grants: seq<Grant>, i: nat, j: nat)
    requires Ordered(grants) && i <= j < |grants|
    ensures grants[i].time <= grants[j].time
  {
  }

  lemma AllowanceWider(rate: real, max: real, from: real, to: real, f: real, t: real)
    requires rate > 0.0 && from <= f <= t <= to
    ensures max <= Allowance(rate, max, f, t) <= Allowance(rate, max, from, to)
  {
    assert Accrued(rate, 0.0) == 0.0;
    hide Accrued;
    AccruedGrows(rate, 0.0, t - f);
    AccruedGrows(rate, t - f, to - from);
  }

  lemma SliceBound(rate: real, max: real, b: Bucket, i: nat, j: nat)
    requires Inv(rate, max, b) && i < j <= |b.grants|
    ensures Amount(b.grants[i..j]) as real <= Allowance(rate, max, b.grants[i].time, b.grants[j - 1].time)
  {
    hide Amount, Accrued, Allowance, TailsBounded, Ordered;
  }

  /** The pause between attempts, in milliseconds. */
  function WaitMs(rate: real): int
    requires rate > 0.0
  {
    (1000.0 / rate).Floor + 1
  }

  /** One pause refills at least one token, and a millisecond less would not refill more than that. */
  lemma PauseRefillsOne(rate: real)
    requires rate > 0.0
    ensures Accrued(rate, WaitMs(rate) as real / 1000.0) >= 1.0
    ensures Accrued(rate, (WaitMs(rate) - 1) as real / 1000.0) <= 1.0
  {
    var q, w := 1000.0 / rate, WaitMs(rate);
    assert rate * q == 1000.0 && (w - 1) as real <= q < w as real;
    hide WaitMs, Accrued;
    ProductMonotone(rate, q, w as real);
    ProductMonotone(rate, (w - 1) as real, q);
    Millis(rate, w as real);
    Millis(rate, (w - 1) as real);
    hide *;
  }

  lemma Millis(rate: real, ms: real)
    ensures Accrued(rate, ms / 1000.0) * 1000.0 == rate * ms
  {
  }

  /** An attempt that fails after a pause leaves one token more, and still fewer than asked for. */
  lemma FailedTry(rate: real, max: real, b: Bucket, now: real, n: nat, k: nat)
    requires n as real <= max && k as real <= b.tokens && 1.0 <= Accrued(rate, now - b.lastRefill)
    requires !Try(rate, max, b, now, n).1
    ensures k + 1 < n && (k + 1) as real <= Try(rate, max, b, now, n).0.tokens
  {
    hide Accrued;
    assert b.tokens + Accrued(rate, now - b.lastRefill) >= k as real + 1.0;
  }

  // ---- Which requests are ever granted ----

  /** The bucket after the first k attempts at `n` tokens, at the times of the clock. */
  function AfterAttempts(rate: real, max: real, b: Bucket, clock: nat -> real, n: nat, k: nat): Bucket {
    if k == 0 then b else Try(rate, max, AfterAttempts(rate, max, b, clock, n, k - 1), clock(k - 1), n).0
  }

  predicate GrantedAt(rate: real, max: real, b: Bucket, clock: nat -> real, n: nat, k: nat) {
    Try(rate, max, AfterAttempts(rate, max, b, clock, n, k), clock(k), n).1
  }

  /** Attempts are at least a pause apart. */
  ghost predicate Paused(rate: real, b: Bucket, clock: nat -> real)
    requires rate > 0.0
  {
    b.lastRefill <= clock(0) && forall k: nat :: clock(k) + WaitMs(rate) as real / 1000.0 <= clock(k + 1)
  }

  /** After k + 1 attempts in vain the bucket holds at least k tokens, and k is less than asked for. */
  lemma {:induction false} TokensAfter(rate: real, max: real, b: Bucket, clock: nat -> real, n: nat, k: nat)
    requires rate > 0.0 && Inv(rate, max, b) && Paused(rate, b, clock) && n as real <= max
    requires forall i: nat :: i <= k ==> !GrantedAt(rate, max, b, clock, n, i)
    ensures k < n && k as real <= AfterAttempts(rate, max, b, clock, n, k + 1).tokens
    ensures AfterAttempts(rate, max, b, clock, n, k + 1).lastRefill == clock(k)
  {
    hide Inv, Try, Accrued;
    assert !GrantedAt(rate, max, b, clock, n, k);
    if k == 0 {
      TryShape(rate, max, b, clock(0), n);
    } else {
      TokensAfter(rate, max, b, clock, n, k - 1);
      var before := AfterAttempts(rate, max, b, clock, n, k);
      PauseAccrues(rate, clock(k - 1), clock(k - 1 + 1));
      FailedTry(rate, max, before, clock(k), n, k - 1);
      TryRefills(rate, max, before, clock(k), n);
    }
  }

  lemma TryRefills(rate: real, max: real, b: Bucket, now: real, n: nat)
    ensures Try(rate, max, b, now, n).0.lastRefill == now
    ensures Try(rate, max, b, now, n).1 ==> n as real <= max
  {
    RefillSets(rate, max, b, now);
  }

  /** Waiting alone for n tokens ends exactly when n is at most the size of the bucket. */
  lemma AcquireReturnsIff(rate: real, max: real, b: Bucket, clock: nat -> real, n: nat)
    requires rate > 0.0 && Inv(rate, max, b) && Paused(rate, b, clock)
    ensures (exists k: nat :: GrantedAt(rate, max, b, clock, n, k)) <==> n as real <= max
  {
    if k: nat :| GrantedAt(rate, max, b, clock, n, k) {
      TryRefills(rate, max, AfterAttempts(rate, max, b, clock, n, k), clock(k), n);
    } else if n as real <= max {
      TokensAfter(rate, max, b, clock, n, n);
    }
  }

  class RateLimiter {
    const rate: real
    const maxTokens: real
    var tokens: real
    var lastRefill: real
    ghost var grants: seq<Grant>

    ghost function Abs(): Bucket
      reads this
    {
      Bucket(tokens, lastRefill, grants)
    }

    ghost predicate Valid()
      reads this
    {
      rate > 0.0 && Inv(rate, maxTokens, Abs())
    }

    constructor (rate: real, burst: real, now: real)
      requires rate > 0.0
      ensures Valid() && grants == [] && lastRefill == now
      ensures this.rate == rate && maxTokens == (if burst > 0.0 then burst else rate) && tokens == maxTokens
    {
      this.rate := rate;
      maxTokens := if burst > 0.0 then burst else rate;
      tokens := if burst > 0.0 then burst else rate;
      lastRefill, grants := now, [];
    }

    method RefillNow(now: real)
      modifies `tokens, `lastRefill
      ensures Abs() == Refill(rate, maxTokens, old(Abs()), now)
    {
      var elapsed := now - lastRefill;
      var more := tokens + elapsed * rate;
      tokens := if maxTokens < more then maxTokens else more;
      lastRefill := now;
    }

    method TryAcquire(n: nat, now: real) returns (granted: bool)
      requires Valid() && lastRefill <= now
      modifies this
      ensures Valid() && (Abs(), granted) == Try(rate, maxTokens, old(Abs()), now, n)
    {
      TryKeeps(rate, maxTokens, Abs(), now, n);
      RefillNow(now);
      hide Inv, Refill;
      granted := tokens >= n as real;
      if granted {
        tokens := tokens - n as real;
        grants := grants + [Grant(now, n)];
      }
    }

    /**
     Waits for n tokens, `clock(k)` being the time of the attempt after k pauses. With nobody else
     taking tokens it succeeds after at most n pauses.
     */
    method Acquire(n: nat, clock: nat -> real) returns (pauses: nat)
      requires Valid() && n as real <= maxTokens && Paused(rate, Abs(), clock)
      modifies this
      ensures Valid() && pauses <= n
      ensures grants == old(grants) + [Grant(clock(pauses), n)]
    {
      hide Accrued, Inv, Try;
      pauses := 0;
      var granted := TryAcquire(n, clock(0));
      TryShape(rate, maxTokens, old(Abs()), clock(0), n);
      while !granted
        invariant Valid() && lastRefill == clock(pauses) && pauses <= n
        invariant !granted ==> grants == old(grants) && pauses < n && pauses as real <= tokens
        invariant granted ==> grants == old(grants) + [Grant(clock(pauses), n)]
        decreases n - pauses, !granted
      {
        ghost var before := Abs();
        PauseAccrues(rate, clock(pauses), clock(pauses + 1));
        pauses := pauses + 1;
        granted := TryAcquire(n, clock(pauses));
        TryShape(rate, maxTokens, before, clock(pauses), n);
        if !granted {
          FailedTry(rate, maxTokens, before, clock(pauses), n, pauses - 1);
        }
      }
    }
  }

  lemma PauseAccrues(rate: real, from: real, to: real)
    requires rate > 0.0 && from + WaitMs(rate) as real / 1000.0 <= to
    ensures from <= to && 1.0 <= Accrued(rate, to - from)
  {
    var pause := WaitMs(rate) as real / 1000.0;
    PauseRefillsOne(rate);
    AccruedGrows(rate, pause, to - from);
    PausePositive(rate);
  }

  lemma PausePositive(rate: real)
    requires rate > 0.0
    ensures 0.0 <= WaitMs(rate) as real / 1000.0
  {
    assert 0.0 <= 1000.0 / rate;
  }

  lemma TryShape(rate: real, max: real, b: Bucket, now: real, n: nat)
    requires rate > 0.0 && Inv(rate, max, b) && b.lastRefill <= now
    ensures var (c, granted) := Try(rate, max, b, now, n);
            && c.lastRefill == now
            && c.grants == (if granted then b.grants + [Grant(now, n)] else b.grants)
            && (!granted ==> 0.0 <= c.tokens < n as real)
  {
    RefillGains(rate, max, b, now);
    hide Refill;
  }
}

/** One worker at a time works on a symbol. A timed wait is the attempt made when the wait ends. */
module SymbolLocks {

  /** Who holds each locked symbol, after an attempt of `worker`. */
  function AfterAttempt(holders: map<string, nat>, symbol: string, worker: nat): map<string, nat> {
    if symbol in holders then holders else holders[symbol := worker]
  }

  function AfterUnlock(holders: map<string, nat>, symbol: string): map<string, nat> {
    holders - {symbol}
  }

  class SymbolLockManager {
    var locked: set<string>
    ghost var holders: map<string, nat>

    ghost predicate Valid()
      reads this
    {
      locked == holders.Keys
    }

    constructor ()
      ensures Valid() && holders == map[]
    {
      locked, holders := {}, map[];
    }

    /** Takes the lock only when nobody holds it. */
    method TryLock(symbol: string, ghost worker: nat) returns (ok: bool)
      requires Valid()
      modifies this
      ensures Valid() && ok == (symbol !in old(holders))
      ensures holders == AfterAttempt(old(holders), symbol, worker)
    {
      ok := symbol !in locked;
      if ok {
        locked := locked + {symbol};
        holders := holders[symbol := worker];
      }
    }

    method Unlock(symbol: string)
      requires Valid()
      modifies this
      ensures Valid() && holders == AfterUnlock(old(holders), symbol)
    {
      locked := locked - {symbol};
      holders := holders - {symbol};
    }
  }
}

/** At most 600 accepted requests per caller in any closed minute. */
module WebhookLimit {

  const MAX_PER_MINUTE := 600
  const WINDOW := 60.0

  ghost predicate Ordered(times: seq<real>) {
    forall i, j :: 0 <= i <= j < |times| ==> times[i] <= times[j]
  }

  /** The times at or after `cutoff`. */
  function Since(times: seq<real>, cutoff: real): seq<real> {
    if times == [] then []
    else
      var t := times[|times| - 1];
      Since(times[..|times| - 1], cutoff) + if cutoff <= t then [t] else []
  }

  /** The times from `from` to `to`, both included. */
  function CountBetween(times: seq<real>, from: real, to: real): nat {
    if times == [] then 0
    else
      var t := times[|times| - 1];
      CountBetween(times[..|times| - 1], from, to) + if from <= t <= to then 1 else 0
  }

  lemma SuffixSnoc(times: seq<real>, d: nat)
    requires d < |times|
    ensures times[d..] == times[..|times| - 1][d..] + [times[|times| - 1]]
  {
  }

  lemma {:induction false} SinceIsASuffix(times: seq<real>, d: nat, cutoff: real)
    requires Ordered(times) && d <= |times|
    requires forall i :: 0 <= i < d ==> times[i] < cutoff
    requires d < |times| ==> cutoff <= times[d]
    ensures Since(times, cutoff) == times[d..]
  {
    if times != [] {
      var n := |times| - 1;
      if d <= n {
        SinceIsASuffix(times[..n], d, cutoff);
        SuffixSnoc(times, d);
      } else {
        SinceIsASuffix(times[..n], n, cutoff);
        assert times[..n][n..] == [];
      }
    }
  }

  /** Accepts that are 600 apart in the order are more than a minute apart in time. */
  ghost predicate Spaced(times: seq<real>) {
    forall i :: 0 <= i < |times| - MAX_PER_MINUTE ==> times[i] + WINDOW < times[i + MAX_PER_MINUTE]
  }

  lemma {:induction false} CountIsASlice(times: seq<real>, from: real, to: real) returns (i: nat)
    requires Ordered(times)
    ensures i + CountBetween(times, from, to) <= |times|
    ensures forall k :: i <= k < i + CountBetween(times, from, to) ==> from <= times[k] <= to
    ensures forall k :: i + CountBetween(times, from, to) <= k < |times| ==> to < times[k]
  {
    if times == [] {
      i := 0;
    } else {
      var n := |times| - 1;
      i := CountIsASlice(times[..n], from, to);
      if times[n] <= to && CountBetween(times, from, to) == 0 {
        i := n + 1;
      } else if times[n] <= to {
        i := n + 1 - CountBetween(times, from, to);
      }
    }
  }

  /** Spaced accepts put at most 600 in a closed minute, wherever it starts. */
  lemma SpacedBound(times: seq<real>, from: real)
    requires Ordered(times) && Spaced(times)
    ensures CountBetween(times, from, from + WINDOW) <= MAX_PER_MINUTE
  {
    var i := CountIsASlice(times, from, from + WINDOW);
    var c := CountBetween(times, from, from + WINDOW);
    assert i < |times| - MAX_PER_MINUTE ==> times[i] + WINDOW < times[i + MAX_PER_MINUTE];
  }

  /** The queue is the accepts of a caller less some that are over a minute old. */
  ghost predicate Kept(accepts: seq<real>, queue: seq<real>, clock: real) {
    && Ordered(accepts) && Spaced(accepts)
    && (accepts != [] ==> accepts[|accepts| - 1] <= clock)
    && |queue| <= |accepts| && queue == accepts[|accepts| - |queue|..]
    && forall i :: 0 <= i < |accepts| - |queue| ==> accepts[i] < clock - WINDOW
  }

  /** `rest` is `queue` without the times before the cutoff at its front. */
  ghost predicate Dropped(queue: seq<real>, rest: seq<real>, cutoff: real) {
    && |rest| <= |queue| && rest == queue[|queue| - |rest|..]
    && (forall i :: 0 <= i < |queue| - |rest| ==> queue[i] < cutoff)
    && (rest != [] ==> cutoff <= rest[0])
  }

  /** A caller without an entry has an empty list. */
  function At(lists: map<string, seq<real>>, ip: string): seq<real> {
    if ip in lists then lists[ip] else []
  }

  function NonEmpty(lists: map<string, seq<real>>): map<string, seq<real>> {
    map k | k in lists && lists[k] != [] :: lists[k]
  }

  /** Every caller's queue is its accepts less some that are over a minute old. */
  ghost predicate AllKept(accepts: map<string, seq<real>>, requests: map<string, seq<real>>, clock: real) {
    forall ip :: Kept(At(accepts, ip), At(requests, ip), clock)
  }

  /** In every valid state of the limiter no closed minute holds more than 600 accepts of any caller. */
  lemma MinuteBound(accepts: map<string, seq<real>>, requests: map<string, seq<real>>, clock: real, ip: string,
                    from: real)
    requires AllKept(accepts, requests, clock)
    ensures CountBetween(At(accepts, ip), from, from + 60.0) <= 600
  {
    assert Kept(At(accepts, ip), At(requests, ip), clock);
    SpacedBound(At(accepts, ip), from);
  }

  class WebhookRateLimiter {
    var requests: map<string, seq<real>>
    var checkCount: nat
    /** Every accept of every caller, and the time of the latest check. */
    ghost var accepts: map<string, seq<real>>
    ghost var clock: real

    ghost predicate Valid()
      reads this
    {
      AllKept(accepts, requests, clock)
    }

    constructor (now: real)
      ensures Valid() && accepts == map[] && clock == now
    {
      requests, checkCount, accepts, clock := map[], 0, map[], now;
    }

    /** Accepts exactly when fewer than 600 accepts of this caller lie in the last minute. */
    method Check(ip: string, now: real) returns (ok: bool)
      requires Valid() && clock <= now
      modifies this
      ensures Valid() && clock == now
      ensures ok <==> |Since(old(At(accepts, ip)), now - 60.0)| < 600
      ensures accepts == if ok then old(accepts)[ip := old(At(accepts, ip)) + [now]] else old(accepts)
      ensures At(requests, ip) == Since(At(accepts, ip), now - WINDOW)
    {
      hide Kept, Since, Dropped, AllKept, At, NonEmpty;
      var queue := Prune(ip, now - WINDOW);
      DropAllKept(accepts, requests, ip, queue, clock, now);
      requests := requests[ip := queue];
      clock := now;
      if |queue| >= MAX_PER_MINUTE {
        return false;
      }
      Accept(ip, now);
      return true;
    }

    method Accept(ip: string, now: real)
      requires Valid() && clock == now && |At(requests, ip)| < MAX_PER_MINUTE
      requires At(requests, ip) == Since(At(accepts, ip), now - WINDOW)
      modifies `requests, `accepts, `checkCount
      ensures Valid() && accepts == old(accepts)[ip := old(At(accepts, ip)) + [now]]
      ensures At(requests, ip) == Since(At(accepts, ip), now - WINDOW)
    {
      hide Kept, Since, AllKept, At, NonEmpty;
      PushAllKept(accepts, requests, ip, now);
      requests, accepts := requests[ip := At(requests, ip) + [now]], accepts[ip := At(accepts, ip) + [now]];
      SometimesErase(ip);
    }

    method SometimesErase(ghost ip: string)
      requires Valid()
      modifies `requests, `checkCount
      ensures Valid() && At(requests, ip) == At(old(requests), ip)
    {
      hide Kept, AllKept, At, NonEmpty;
      checkCount := checkCount + 1;
      if checkCount % 100 == 0 {
        EraseAllKept(accepts, requests, ip, clock);
        requests := NonEmpty(requests);
      }
    }

    /** Drops the caller's times before the cutoff from the front. */
    method Prune(ip: string, cutoff: real) returns (queue: seq<real>)
      ensures Dropped(At(requests, ip), queue, cutoff)
    {
      queue := At(requests, ip);
      ghost var d := 0;
      while queue != [] && queue[0] < cutoff
        invariant d <= |At(requests, ip)| && queue == At(requests, ip)[d..]
        invariant forall i :: 0 <= i < d ==> At(requests, ip)[i] < cutoff
        decreases |queue|
      {
        queue, d := queue[1..], d + 1;
      }
    }
  }

  lemma DropAllKept(accepts: map<string, seq<real>>, requests: map<string, seq<real>>, ip: string, rest: seq<real>,
                    clock: real, now: real)
    requires AllKept(accepts, requests, clock) && clock <= now && Dropped(At(requests, ip), rest, now - WINDOW)
    ensures AllKept(accepts, requests[ip := rest], now)
    ensures rest == Since(At(accepts, ip), now - WINDOW) && At(requests[ip := rest], ip) == rest
  {
    hide Kept, Dropped, Since;
    DropKeeps(At(accepts, ip), At(requests, ip), rest, clock, now);
    forall other | other != ip
      ensures Kept(At(accepts, other), At(requests[ip := rest], other), now)
    {
      TimePasses(At(accepts, other), At(requests, other), clock, now);
    }
  }

  lemma PushAllKept(accepts: map<string, seq<real>>, requests: map<string, seq<real>>, ip: string, now: real)
    requires AllKept(accepts, requests, now) && |At(requests, ip)| < MAX_PER_MINUTE
    requires At(requests, ip) == Since(At(accepts, ip), now - WINDOW)
    ensures var a, q := accepts[ip := At(accepts, ip) + [now]], requests[ip := At(requests, ip) + [now]];
            AllKept(a, q, now) && At(q, ip) == Since(At(a, ip), now - WINDOW)
  {
    hide Kept, Since;
    AcceptKeeps(At(accepts, ip), At(requests, ip), now);
    var a, q := accepts[ip := At(accepts, ip) + [now]], requests[ip := At(requests, ip) + [now]];
    forall other | other != ip
      ensures Kept(At(a, other), At(q, other), now)
    {
      assert Kept(At(accepts, other), At(requests, other), now);
    }
  }

  /** Dropping the empty queues changes no caller's queue. */
  lemma EraseAllKept(accepts: map<string, seq<real>>, requests: map<string, seq<real>>, ip: string, now: real)
    requires AllKept(accepts, requests, now)
    ensures AllKept(accepts, NonEmpty(requests), now) && At(NonEmpty(requests), ip) == At(requests, ip)
  {
    hide Kept;
    var q := NonEmpty(requests);
    forall other
      ensures At(q, other) == At(requests, other)
    {
    }
  }

  lemma DropKeeps(accepts: seq<real>, queue: seq<real>, rest: seq<real>, clock: real, now: real)
    requires Kept(accepts, queue, clock) && clock <= now && Dropped(queue, rest, now - WINDOW)
    ensures Kept(accepts, rest, now) && rest == Since(accepts, now - WINDOW)
  {
    var n := |accepts| - |queue|;
    forall i | 0 <= i < |accepts| - |rest|
      ensures accepts[i] < now - WINDOW
    {
      if n <= i {
        assert accepts[i] == queue[i - n];
      }
    }
    SinceIsASuffix(accepts, |accepts| - |rest|, now - WINDOW);
  }

  lemma TimePasses(accepts: seq<real>, queue: seq<real>, clock: real, now: real)
    requires Kept(accepts, queue, clock) && clock <= now
    ensures Kept(accepts, queue, now)
  {
  }

  lemma AcceptKeeps(accepts: seq<real>, queue: seq<real>, now: real)
    requires Kept(accepts, queue, now) && |queue| < MAX_PER_MINUTE
    ensures Kept(accepts + [now], queue + [now], now)
    ensures Since(accepts + [now], now - WINDOW) == Since(accepts, now - WINDOW) + [now]
  {
    hide Since, Spaced;
    StaysSpaced(accepts, queue, now);
    SinceSnoc(accepts, now);
    var a, q := accepts + [now], queue + [now];
    assert q == a[|a| - |q|..];
  }

  lemma SinceSnoc(accepts: seq<real>, now: real)
    ensures Since(accepts + [now], now - WINDOW) == Since(accepts, now - WINDOW) + [now]
  {
    assert (accepts + [now])[..|accepts|] == accepts;
  }

  /** The accept 600 places back was dropped from the queue, so it is over a minute old. */
  lemma StaysSpaced(accepts: seq<real>, queue: seq<real>, now: real)
    requires Kept(accepts, queue, now) && |queue| < MAX_PER_MINUTE
    ensures Spaced(accepts + [now])
  {
    hide Ordered;
    var a := accepts + [now];
    forall i | 0 <= i < |a| - MAX_PER_MINUTE
      ensures a[i] + WINDOW < a[i + MAX_PER_MINUTE]
    {
      assert a[i] == accepts[i];
    }
  }
}

/** Fixed windows per dashboard client: no half-open minute holds more than twice the limit, and that is attained. */
module DashboardLimit {

  const WINDOW_SECONDS := 60

  datatype Entry = Entry(count: nat, windowStart: real)

  /** What a client has that never called: the clock's origin as its window start. */
  const BLANK := Entry(0, 0.0)

  /** Whole seconds since the window started. */
  function Elapsed(e: Entry, now: real): int {
    (now - e.windowStart).Floor
  }

  function Allow(max: nat, e: Entry, now: real): (Entry, bool) {
    if Elapsed(e, now) >= WINDOW_SECONDS then (Entry(1, now), true)
    else (e.(count := e.count + 1), e.count + 1 <= max)
  }

  /** `window` counts the windows opened before this accept. */
  datatype Accept = Accept(time: real, window: nat)

  /** An entry with its whole past: its accepts and the starts of its windows. */
  datatype Client = Client(entry: Entry, accepts: seq<Accept>, starts: seq<real>, last: real)

  const NEWCOMER := Client(BLANK, [], [0.0], 0.0)

  function Visit(max: nat, c: Client, now: real): Client
    requires c.starts != []
  {
    var (e, ok) := Allow(max, c.entry, now);
    var starts := if Elapsed(c.entry, now) >= WINDOW_SECONDS then c.starts + [now] else c.starts;
    Client(e, if ok then c.accepts + [Accept(now, |starts| - 1)] else c.accepts, starts, now)
  }

  function Run(max: nat, times: seq<real>): (c: Client)
    ensures c.starts != []
  {
    if times == [] then NEWCOMER else Visit(max, Run(max, times[..|times| - 1]), times[|times| - 1])
  }

  ghost predicate Chronological(times: seq<real>) {
    && (forall i :: 0 <= i < |times| ==> 0.0 <= times[i])
    && (forall i, j :: 0 <= i <= j < |times| ==> times[i] <= times[j])
  }

  /** Windows start a minute or more apart, and the current one is the last. */
  ghost predicate Apart(c: Client) {
    && c.starts != [] && c.entry.windowStart == c.starts[|c.starts| - 1] <= c.last
    && (forall w :: 0 <= w < |c.starts| - 1 ==> c.starts[w] + WINDOW_SECONDS as real <= c.starts[w + 1])
  }

  /** Each accept lies in its window. */
  ghost predicate Inside(c: Client) {
    forall i :: 0 <= i < |c.accepts| ==>
                  var a := c.accepts[i];
                  && a.window < |c.starts| && c.starts[a.window] <= a.time <= c.last
                  && (a.window + 1 < |c.starts| ==> a.time <= c.starts[a.window + 1])
  }

  /** An accept `max` places later is in a later window, and the current window has room for the rest. */
  ghost predicate Few(max: nat, c: Client) {
    && (forall i :: 0 <= i < |c.accepts| - max ==> c.accepts[i].window < c.accepts[i + max].window)
    && (forall i :: 0 <= i < |c.accepts| - c.entry.count ==> c.accepts[i].window < |c.starts| - 1)
  }

  ghost predicate Inv(max: nat, c: Client) {
    Apart(c) && Inside(c) && Few(max, c)
  }

  function Opening(c: Client, now: real): Client {
    Client(Entry(1, now), c.accepts + [Accept(now, |c.starts|)], c.starts + [now], now)
  }

  function Staying(c: Client, now: real, ok: bool): Client
    requires c.starts != []
  {
    Client(c.entry.(count := c.entry.count + 1), if ok then c.accepts + [Accept(now, |c.starts| - 1)]
           else c.accepts, c.starts, now)
  }

  lemma VisitIs(max: nat, c: Client, now: real)
    requires c.starts != []
    ensures Visit(max, c, now) ==
            if Elapsed(c.entry, now) >= WINDOW_SECONDS then Opening(c, now)
            else Staying(c, now, c.entry.count + 1 <= max)
  {
  }

  lemma VisitKeeps(max: nat, c: Client, now: real)
    requires max >= 1 && Inv(max, c) && c.last <= now
    ensures Inv(max, Visit(max, c, now)) && Visit(max, c, now).last == now
  {
    VisitIs(max, c, now);
    if Elapsed(c.entry, now) >= WINDOW_SECONDS {
      OpenKeepsWindows(c, now);
      OpenKeepsFew(max, c, now);
    } else {
      var ok := c.entry.count + 1 <= max;
      SameKeepsWindows(c, now, ok);
      SameKeepsFew(max, c, now, ok);
    }
    hide Visit, Apart, Inside, Few, Elapsed;
  }

  lemma OpenKeepsWindows(c: Client, now: real)
    requires Apart(c) && Inside(c) && Elapsed(c.entry, now) >= WINDOW_SECONDS && c.last <= now
    ensures Apart(Opening(c, now)) && Inside(Opening(c, now))
  {
  }

  lemma OpenKeepsFew(max: nat, c: Client, now: real)
    requires max >= 1 && Few(max, c) && Inside(c)
    ensures Few(max, Opening(c, now))
  {
  }

  lemma SameKeepsWindows(c: Client, now: real, ok: bool)
    requires Apart(c) && Inside(c) && c.last <= now
    ensures Apart(Staying(c, now, ok)) && Inside(Staying(c, now, ok))
  {
    var d := Staying(c, now, ok);
    assert Apart(d) by {
      hide Inside;
    }
    var last := |c.starts| - 1;
    assert c.starts[last] <= now;
    hide Apart;
    forall i | 0 <= i < |d.accepts|
      ensures var a := d.accepts[i];
              && a.window < |c.starts| && c.starts[a.window] <= a.time <= now
              && (a.window + 1 < |c.starts| ==> a.time <= c.starts[a.window + 1])
    {
      if i < |c.accepts| {
        assert d.accepts[i] == c.accepts[i];
      } else {
        assert d.accepts[i] == Accept(now, last);
      }
    }
  }

  lemma SameKeepsFew(max: nat, c: Client, now: real, ok: bool)
    requires Few(max, c) && c.starts != [] && (ok ==> c.entry.count + 1 <= max)
    ensures Few(max, Staying(c, now, ok))
  {
  }

  lemma {:induction false} RunKeeps(max: nat, times: seq<real>)
    requires max >= 1 && Chronological(times)
    ensures Inv(max, Run(max, times)) && Run(max, times).last == if times == [] then 0.0 else times[|times| - 1]
  {
    hide Visit;
    if times != [] {
      RunKeeps(max, times[..|times| - 1]);
      VisitKeeps(max, Run(max, times[..|times| - 1]), times[|times| - 1]);
    }
  }

  /** Accepts twice the limit apart in the order are at least a minute apart in time. */
  lemma MinuteApart(max: nat, times: seq<real>, i: nat)
    requires max >= 1 && Chronological(times) && i + 2 * max < |Run(max, times).accepts|
    ensures Run(max, times).accepts[i].time + WINDOW_SECONDS as real <= Run(max, times).accepts[i + 2 * max].time
  {
    RunKeeps(max, times);
    var c := Run(max, times);
    hide Run;
    var a, b, d := c.accepts[i], c.accepts[i + max], c.accepts[i + 2 * max];
    assert a.window < b.window < c.accepts[i + max + max].window;
    StartsRise(c, a.window + 1, d.window - 1);
  }

  lemma {:induction false} StartsRise(c: Client, v: nat, w: nat)
    requires Apart(c) && v <= w < |c.starts|
    ensures c.starts[v] <= c.starts[w]
    decreases w
  {
    if v < w {
      StartsRise(c, v, w - 1);
      assert c.starts[w - 1] + WINDOW_SECONDS as real <= c.starts[w - 1 + 1];
    }
  }

  /** How many accepts fall in the minute from `from`, its end excluded. */
  function CountIn(accepts: seq<Accept>, from: real): nat {
    if accepts == [] then 0
    else
      var t := accepts[|accepts| - 1].time;
      CountIn(accepts[..|accepts| - 1], from) + if from <= t < from + 60.0 then 1 else 0
  }

  ghost predicate InOrder(accepts: seq<Accept>) {
    forall j, k :: 0 <= j <= k < |accepts| ==> accepts[j].time <= accepts[k].time
  }

  lemma {:induction false} CountIsASlice(accepts: seq<Accept>, from: real) returns (i: nat)
    requires InOrder(accepts)
    ensures i + CountIn(accepts, from) <= |accepts|
    ensures forall k :: i <= k < i + CountIn(accepts, from) ==> from <= accepts[k].time < from + WINDOW_SECONDS as real
    ensures forall k :: i + CountIn(accepts, from) <= k < |accepts| ==> from + WINDOW_SECONDS as real <= accepts[k].time
  {
    if accepts == [] {
      i := 0;
    } else {
      var n := |accepts| - 1;
      i := CountIsASlice(accepts[..n], from);
      if accepts[n].time < from + WINDOW_SECONDS as real {
        i := n + 1 - CountIn(accepts, from);
      }
    }
  }

  lemma {:induction false} AcceptsInOrder(max: nat, times: seq<real>)
    requires max >= 1 && Chronological(times)
    ensures InOrder(Run(max, times).accepts)
  {
    if times != [] {
      AcceptsInOrder(max, times[..|times| - 1]);
      RunKeeps(max, times[..|times| - 1]);
      hide Run, Allow;
    }
  }

  /** However the calls fall, a half-open minute holds at most twice the limit of accepts. */
  lemma MinuteBound(max: nat, times: seq<real>, from: real)
    requires max >= 1 && Chronological(times)
    ensures CountIn(Run(max, times).accepts, from) <= 2 * max
  {
    AcceptsInOrder(max, times);
    var accepts := Run(max, times).accepts;
    var i := CountIsASlice(accepts, from);
    if i + 2 * max < |accepts| {
      MinuteApart(max, times, i);
    }
  }

  /** `n` calls at one time, by a client with room for them, are all accepted. */
  lemma {:induction false} BurstIsAccepted(max: nat, times: seq<real>, at: real, n: nat, from: real)
    requires from <= at < from + WINDOW_SECONDS as real
    requires var e := Run(max, times).entry; Elapsed(e, at) < WINDOW_SECONDS && e.count + n <= max
    ensures var c := Run(max, times + seq(n, _ => at));
            && c.entry == Run(max, times).entry.(count := Run(max, times).entry.count + n)
            && CountIn(c.accepts, from) == CountIn(Run(max, times).accepts, from) + n
  {
    hide Run, CountIn, Elapsed;
    if n == 0 {
      assert times + seq(n, _ => at) == times;
    } else {
      BurstIsAccepted(max, times, at, n - 1, from);
      var before := times + seq(n - 1, _ => at);
      ElapsedOf(Run(max, times).entry, n - 1, at);
      RepeatSnoc(times, at, n);
      SameWindowCall(max, before, at, from);
    }
  }

  lemma RepeatFirst(times: seq<real>, at: real, n: nat)
    requires 0 < n
    ensures times + [at] + seq(n - 1, _ => at) == times + seq(n, _ => at)
  {
  }

  lemma ElapsedOf(e: Entry, count: nat, at: real)
    ensures Elapsed(e.(count := count + e.count), at) == Elapsed(e, at)
  {
  }

  lemma RepeatSnoc(times: seq<real>, at: real, n: nat)
    requires 0 < n
    ensures times + seq(n, _ => at) == times + seq(n - 1, _ => at) + [at]
  {
    assert seq(n, _ => at) == seq(n - 1, _ => at) + [at];
  }

  /** A call in a window with room left. */
  lemma SameWindowCall(max: nat, times: seq<real>, at: real, from: real)
    requires from <= at < from + WINDOW_SECONDS as real
    requires var e := Run(max, times).entry; Elapsed(e, at) < WINDOW_SECONDS && e.count + 1 <= max
    ensures var c, d := Run(max, times), Run(max, times + [at]);
            d.entry == c.entry.(count := c.entry.count + 1) && CountIn(d.accepts, from) == CountIn(c.accepts, from) + 1
  {
    CallSnoc(max, times, at, from);
    hide Run, CountIn, Elapsed;
  }

  /** A call that opens a window. */
  lemma OpeningCall(max: nat, times: seq<real>, at: real, from: real)
    requires from <= at < from + WINDOW_SECONDS as real
    requires Elapsed(Run(max, times).entry, at) >= WINDOW_SECONDS
    ensures var c, d := Run(max, times), Run(max, times + [at]);
            d.entry == Entry(1, at) && CountIn(d.accepts, from) == CountIn(c.accepts, from) + 1
  {
    CallSnoc(max, times, at, from);
    hide Run, CountIn, Elapsed;
  }

  lemma CallSnoc(max: nat, times: seq<real>, at: real, from: real)
    ensures Run(max, times + [at]) == Visit(max, Run(max, times), at)
    ensures from <= at < from + WINDOW_SECONDS as real && Allow(max, Run(max, times).entry, at).1 ==>
              CountIn(Run(max, times + [at]).accepts, from) == CountIn(Run(max, times).accepts, from) + 1
  {
    assert (times + [at])[..|times|] == times;
    var c, d := Run(max, times), Visit(max, Run(max, times), at);
    assert Allow(max, c.entry, at).1 ==> d.accepts[..|c.accepts|] == c.accepts;
    hide Run;
  }

  /**
   The limit's worth of calls just before the first window ends and again as it ends: all accepted,
   within one second.
   */
  lemma TwiceTheLimitIsAttained(max: nat)
    requires max >= 1
    ensures CountIn(Run(max, seq(max, _ => 59.0) + seq(max, _ => 60.0)).accepts, 59.0) == 2 * max
  {
    var first := seq(max, _ => 59.0);
    FirstBurst(max);
    assert Elapsed(Entry(max, 0.0), 60.0) == 60 && Elapsed(Entry(1, 60.0), 60.0) == 0;
    hide Run, CountIn, Elapsed;
    OpeningCall(max, first, 60.0, 59.0);
    BurstIsAccepted(max, first + [60.0], 60.0, max - 1, 59.0);
    RepeatFirst(first, 60.0, max);
  }

  lemma FirstBurst(max: nat)
    ensures var c := Run(max, seq(max, _ => 59.0));
            c.entry == Entry(max, 0.0) && CountIn(c.accepts, 59.0) == max
  {
    BurstIsAccepted(max, [], 59.0, max, 59.0);
    assert [] + seq(max, _ => 59.0) == seq(max, _ => 59.0);
  }

  // ---- Clients that first call after the first minute ----

  /** The accept is the first of its window, or follows one of the same window. */
  ghost predicate StartedAt(c: Client, i: nat)
    requires i < |c.accepts|
  {
    var a := c.accepts[i];
    && 1 <= a.window < |c.starts|
    && (a.time == c.starts[a.window] || (0 < i && c.accepts[i - 1].window == a.window))
  }

  /** Every window but the blank one starts with its own accept, and no accept lies in the blank one. */
  ghost predicate StartedByAccepts(c: Client) {
    && (forall i :: 0 <= i < |c.accepts| ==> StartedAt(c, i))
    && (if |c.starts| == 1 then c.entry == BLANK
        else c.accepts != [] && c.accepts[|c.accepts| - 1].window == |c.starts| - 1)
  }

  lemma VisitStarts(max: nat, c: Client, now: real)
    requires c.starts != [] && StartedByAccepts(c) && WINDOW_SECONDS as real <= now
    ensures StartedByAccepts(Visit(max, c, now))
  {
    assert Elapsed(BLANK, now) >= WINDOW_SECONDS;
    hide Elapsed;
    VisitIs(max, c, now);
    if Elapsed(c.entry, now) >= WINDOW_SECONDS {
      OpeningStarts(c, now);
    } else {
      StayingStarts(c, now, c.entry.count + 1 <= max);
    }
  }

  lemma OpeningStarts(c: Client, now: real)
    requires c.starts != [] && StartedByAccepts(c)
    ensures StartedByAccepts(Opening(c, now))
  {
    var d := Opening(c, now);
    forall i | 0 <= i < |d.accepts|
      ensures StartedAt(d, i)
    {
      if i < |c.accepts| {
        assert StartedAt(c, i);
      }
    }
  }

  lemma StayingStarts(c: Client, now: real, ok: bool)
    requires c.starts != [] && StartedByAccepts(c) && |c.starts| != 1
    ensures StartedByAccepts(Staying(c, now, ok))
  {
    var d := Staying(c, now, ok);
    forall i | 0 <= i < |d.accepts|
      ensures StartedAt(d, i)
    {
      if i < |c.accepts| {
        assert StartedAt(c, i);
      }
    }
  }

  ghost predicate LateCaller(times: seq<real>) {
    forall i :: 0 <= i < |times| ==> 60.0 <= times[i]
  }

  lemma {:induction false} RunStarts(max: nat, times: seq<real>)
    requires LateCaller(times)
    ensures StartedByAccepts(Run(max, times))
  {
    if times != [] {
      RunStarts(max, times[..|times| - 1]);
      VisitStarts(max, Run(max, times[..|times| - 1]), times[|times| - 1]);
      hide Visit;
    }
  }

  lemma {:induction false} WindowsRise(max: nat, times: seq<real>)
    requires max >= 1 && Chronological(times)
    ensures var a := Run(max, times).accepts; forall j, k :: 0 <= j <= k < |a| ==> a[j].window <= a[k].window
  {
    if times != [] {
      WindowsRise(max, times[..|times| - 1]);
      RunKeeps(max, times[..|times| - 1]);
      hide Run, Allow, Few;
    }
  }

  /** For such a client the last accept of twice the limit is already a minute after the first. */
  lemma LateMinuteApart(max: nat, times: seq<real>, i: nat)
    requires max >= 1 && Chronological(times) && LateCaller(times)
    requires i + 2 * max - 1 < |Run(max, times).accepts|
    ensures Run(max, times).accepts[i].time + WINDOW_SECONDS as real <= Run(max, times).accepts[i + 2 * max - 1].time
  {
    RunKeeps(max, times);
    RunStarts(max, times);
    WindowsRise(max, times);
    var c := Run(max, times);
    hide Run, BLANK;
    var a, d := c.accepts[i], c.accepts[i + 2 * max - 1];
    if a.time == c.starts[a.window] {
      assert a.window < c.accepts[i + max].window <= d.window;
      StartsRise(c, a.window + 1, d.window);
      assert c.starts[a.window] + WINDOW_SECONDS as real <= c.starts[a.window + 1];
    } else {
      NotOpening(c, i);
      assert c.accepts[i - 1].window < c.accepts[i - 1 + max].window < c.accepts[i - 1 + max + max].window;
      StartsRise(c, a.window + 2, d.window);
      assert c.starts[a.window + 1] + WINDOW_SECONDS as real <= c.starts[a.window + 1 + 1];
    }
  }

  lemma NotOpening(c: Client, i: nat)
    requires StartedByAccepts(c) && i < |c.accepts| && c.accepts[i].window < |c.starts|
    requires c.accepts[i].time != c.starts[c.accepts[i].window]
    ensures 0 < i && c.accepts[i - 1].window == c.accepts[i].window
  {
    assert StartedAt(c, i);
  }

  /** However such calls fall, a half-open minute holds at most twice the limit less one. */
  lemma LateMinuteBound(max: nat, times: seq<real>, from: real)
    requires max >= 1 && Chronological(times) && LateCaller(times)
    ensures CountIn(Run(max, times).accepts, from) <= 2 * max - 1
  {
    AcceptsInOrder(max, times);
    var accepts := Run(max, times).accepts;
    var i := CountIsASlice(accepts, from);
    if i + 2 * max - 1 < |accepts| {
      LateMinuteApart(max, times, i);
    }
  }

  /** One call to open a window, the rest of the limit just before it ends, and the limit again as it ends. */
  function LateBurst(max: nat): seq<real>
    requires max >= 1
  {
    [60.0] + seq(max - 1, _ => 119.0) + seq(max, _ => 120.0)
  }

  /** That many are accepted, within one second. */
  lemma LateBoundIsAttained(max: nat)
    requires max >= 1
    ensures CountIn(Run(max, LateBurst(max)).accepts, 119.0) == 2 * max - 1
  {
    var second := [60.0] + seq(max - 1, _ => 119.0);
    SecondBurst(max);
    assert Elapsed(Entry(max, 60.0), 120.0) == 60 && Elapsed(Entry(1, 120.0), 120.0) == 0;
    hide Run, CountIn, Elapsed;
    OpeningCall(max, second, 120.0, 119.0);
    BurstIsAccepted(max, second + [120.0], 120.0, max - 1, 119.0);
    hide Allow, Visit;
    RepeatFirst(second, 120.0, max);
  }

  /** In every half-open minute of every late client the limit itself holds. */
  ghost predicate LateLimitHolds(max: nat) {
    forall times, from :: Chronological(times) && LateCaller(times) ==> CountIn(Run(max, times).accepts, from) <= max
  }

  /** That is so exactly for a limit of one. */
  lemma LateLimitHoldsIff(max: nat)
    requires max >= 1
    ensures LateLimitHolds(max) <==> max == 1
  {
    hide Run, CountIn, LateCaller;
    if max == 1 {
      forall times, from | Chronological(times) && LateCaller(times)
        ensures CountIn(Run(max, times).accepts, from) <= max
      {
        LateMinuteBound(max, times, from);
      }
    } else {
      LateBoundIsAttained(max);
      BurstIsLate(max);
      hide LateBurst, Chronological;
    }
  }

  lemma BurstIsLate(max: nat)
    requires max >= 1
    ensures Chronological(LateBurst(max)) && LateCaller(LateBurst(max))
  {
  }

  lemma SecondBurst(max: nat)
    requires max >= 1
    ensures var c := Run(max, [60.0] + seq(max - 1, _ => 119.0));
            c.entry == Entry(max, 60.0) && CountIn(c.accepts, 119.0) == max - 1
  {
    hide Run, CountIn;
    FirstCall(max);
    assert Elapsed(Entry(1, 60.0), 119.0) == 59;
    hide *;
    BurstIsAccepted(max, [60.0], 119.0, max - 1, 119.0);
  }

  lemma FirstCall(max: nat)
    requires max >= 1
    ensures Run(max, [60.0]).entry == Entry(1, 60.0) && CountIn(Run(max, [60.0]).accepts, 119.0) == 0
  {
    assert Run(max, [60.0][..0]) == NEWCOMER;
    var c := Run(max, [60.0]);
    assert c.accepts == [Accept(60.0, 1)];
    assert c.accepts[..0] == [];
  }

  function EntryOf(clients: map<string, Entry>, ip: string): Entry {
    if ip in clients then clients[ip] else BLANK
  }

  function CallsOf(calls: map<string, seq<real>>, ip: string): seq<real> {
    if ip in calls then calls[ip] else []
  }

  /** Every entry is where the client's calls have led it. */
  ghost predicate AllFollow(max: nat, clients: map<string, Entry>, calls: map<string, seq<real>>) {
    forall ip :: EntryOf(clients, ip) == Run(max, CallsOf(calls, ip)).entry
  }

  lemma CallFollows(max: nat, clients: map<string, Entry>, calls: map<string, seq<real>>, ip: string, now: real)
    requires AllFollow(max, clients, calls)
    ensures AllFollow(max, clients[ip := Allow(max, EntryOf(clients, ip), now).0],
                      calls[ip := CallsOf(calls, ip) + [now]])
    ensures EntryOf(clients, ip) == Run(max, CallsOf(calls, ip)).entry
  {
    CallSnoc(max, CallsOf(calls, ip), now, now);
    hide Run, Allow;
    var a, b := clients[ip := Allow(max, EntryOf(clients, ip), now).0], calls[ip := CallsOf(calls, ip) + [now]];
    forall other | other != ip
      ensures EntryOf(a, other) == Run(max, CallsOf(b, other)).entry
    {
      assert EntryOf(clients, other) == Run(max, CallsOf(calls, other)).entry;
    }
  }

  class DashboardRateLimiter {
    const maxRequests: nat
    var clients: map<string, Entry>
    /** The times at which each client has called. */
    ghost var calls: map<string, seq<real>>

    ghost predicate Valid()
      reads this
    {
      AllFollow(maxRequests, clients, calls)
    }

    constructor (maxRequests: nat)
      ensures Valid() && this.maxRequests == maxRequests && calls == map[]
    {
      this.maxRequests := maxRequests;
      clients, calls := map[], map[];
    }

    method Admit(ip: string, now: real) returns (ok: bool)
      requires Valid()
      modifies this
      ensures Valid() && calls == old(calls)[ip := CallsOf(old(calls), ip) + [now]]
      ensures ok == Allow(maxRequests, Run(maxRequests, CallsOf(old(calls), ip)).entry, now).1
    {
      hide Run, AllFollow, EntryOf, CallsOf;
      CallFollows(maxRequests, clients, calls, ip, now);
      var e := EntryOf(clients, ip);
      if Elapsed(e, now) >= WINDOW_SECONDS {
        e := Entry(1, now);
        ok := true;
      } else {
        e := e.(count := e.count + 1);
        ok := e.count <= maxRequests;
      }
      clients, calls := clients[ip := e], calls[ip := CallsOf(calls, ip) + [now]];
    }
  }
}
