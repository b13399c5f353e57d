/**
 The shared rate limiter: the token bucket script that Redis evaluates, with its expiring key, and
 the circuit that stops calling Redis while it fails.
 */
module RedisLimiter {
  import opened Prelude
  import opened TokenBucket

  const MILLIS: int := 1000

  // ----- the script

  /** The hash stored for one key; the key names the rate and the burst, so the limit is fixed. */
  datatype Hash = Hash(tokens: real, last: int, expires: int)

  datatype Reply = Reply(hash: Hash, allowed: bool, retry: int)

  /** The lifetime passed to the script, in milliseconds: Go durations divided as integers. */
  function Lifetime(limit: Limit): int
    requires limit.Valid()
  {
    Max(2 * limit.burst * NANOS / limit.rate, NANOS) / 1_000_000
  }

  /** The duration product fits 64 bits. */
  predicate Representable(limit: Limit) {
    limit.Valid() && 2 * limit.burst * NANOS <= MAX_INT64
  }

  function Alive(stored: Option<Hash>, now: int): Option<Hash> {
    if stored.Some? && now < stored.value.expires then stored else None
  }

  function Script(stored: Option<Hash>, limit: Limit, now: int): Reply
    requires limit.Valid()
  {
    var h := Alive(stored, now);
    var tokens0, last0 := if h.None? then limit.burst as real else h.value.tokens, if h.None? then now else h.value.last;
    var tokens := if now > last0 then MinReal(limit.burst as real, tokens0 + Earned(limit, now - last0, MILLIS)) else tokens0;
    var last := if now > last0 then now else last0;
    var allowed := tokens >= 1.0;
    Reply(Hash(if allowed then tokens - 1.0 else tokens, last, now + Lifetime(limit)),
          allowed,
          if allowed then 0 else Ceil((1.0 - tokens) * 1000.0 / limit.rate as real))
  }

  /** With no other call in between, the wait the script returns is enough, whether or not the key expires. */
  lemma {:induction false} ScriptRetrySucceeds(stored: Option<Hash>, limit: Limit, now: int, wait: int)
    requires limit.Valid() && !Script(stored, limit, now).allowed && wait >= Script(stored, limit, now).retry
    requires stored.Some? ==> stored.value.last <= now
    ensures wait > 0 && Script(Some(Script(stored, limit, now).hash), limit, now + wait).allowed
  {
    hide Earned, Lifetime;
    var r := Script(stored, limit, now);
    var tokens := r.hash.tokens;
    assert r.hash.last == now && tokens < 1.0;
    SameQuotient(1.0 - tokens, limit.rate as real);
    RetryEarnsToken(tokens, limit, wait, MILLIS);
  }

  lemma {:induction false} SameQuotient(x: real, r: real)
    requires r > 0.0
    ensures x * 1000.0 / r == x / r * 1000.0
  {
    assert (x / r * 1000.0) * r == x / r * r * 1000.0 == x * 1000.0;
  }

  /** A key that expires has been idle long enough to be full again. */
  lemma {:induction false} LifetimeRefills(limit: Limit, idle: int)
    requires Representable(limit) && idle >= Lifetime(limit)
    ensures FullRefill(limit, idle, MILLIS)
  {
    var rate, burst, ttl := limit.rate, limit.burst, Lifetime(limit);
    LifetimeProduct(rate, burst, ttl);
    assert idle * rate >= ttl * rate;
    assert idle as real * rate as real == (idle * rate) as real;
    DivAtLeast(idle as real * rate as real, MILLIS as real, burst as real);
  }

  lemma {:induction false} Scale(a: int, b: int, rate: int)
    requires a >= b && rate > 0
    ensures a * rate >= b * rate
  {
  }

  lemma {:induction false} Quotient(n: int, rate: int)
    requires n >= 0 && rate > 0
    ensures (n / rate) * rate > n - rate
  {
    assert n == (n / rate) * rate + n % rate;
  }

  lemma {:induction false} LifetimeProduct(rate: int, burst: int, ttl: int)
    requires rate > 0 && burst > 0 && ttl == Max(2 * burst * NANOS / rate, NANOS) / 1_000_000
    ensures ttl * rate >= 1000 * burst
  {
    var q := 2 * burst * NANOS / rate;
    if burst <= rate {
      Scale(ttl, 1000, rate);
    } else {
      Quotient(2 * burst * NANOS, rate);
      LongLifetime(rate, burst, q, ttl);
    }
  }

  lemma {:induction false} LongLifetime(rate: int, burst: int, q: int, ttl: int)
    requires 0 < rate < burst && q * rate > 2 * burst * NANOS - rate && ttl * 1_000_000 >= q - 999_999
    ensures ttl * rate >= 1000 * burst
  {
    Scale(ttl * 1_000_000, q - 999_999, rate);
    assert (ttl * 1_000_000) * rate == (ttl * rate) * 1_000_000;
    assert (q - 999_999) * rate == q * rate - 999_999 * rate;
  }

  /** The hash left behind by calls at all the given instants. */
  function Evaluated(limit: Limit, times: seq<int>): Option<Hash>
    requires limit.Valid()
  {
    if times == [] then None
    else Some(Script(Evaluated(limit, times[..|times| - 1]), limit, times[|times| - 1]).hash)
  }

  /** The script and the never-forgetting bucket agree on one call. */
  lemma {:induction false} ScriptStep(b: Option<Bucket>, stored: Option<Hash>, limit: Limit, now: int)
    requires Representable(limit)
    requires match stored
             case None => b.None?
             case Some(h) => b == Some(Bucket(h.tokens, h.last)) && 0.0 <= h.tokens <= limit.burst as real
                             && h.last <= now && h.expires == h.last + Lifetime(limit)
    ensures var r := Script(stored, limit, now);
            && r.allowed == Granted(b, limit, now, MILLIS)
            && After(b, limit, now, MILLIS) == Bucket(r.hash.tokens, r.hash.last)
            && r.hash.last == now && r.hash.expires == now + Lifetime(limit)
  {
    hide Lifetime, Earned, FullRefill, Ceil;
    if stored.Some? && now >= stored.value.expires {
      LifetimeRefills(limit, now - stored.value.last);
      ForgettingIsInvisible(b.value, limit, now, MILLIS);
    }
  }

  /** Over any sequence of calls the script grants exactly what the never-forgetting bucket grants. */
  lemma {:induction false} ScriptIsIdeal(limit: Limit, times: seq<int>)
    requires Representable(limit) && Ordered(times)
    ensures var b, h := Replay(limit, times, MILLIS), Evaluated(limit, times);
            && (times == [] ==> h.None?)
            && (times != [] ==> h.Some? && b == Some(Bucket(h.value.tokens, h.value.last))
                                && h.value.last == times[|times| - 1]
                                && h.value.expires == h.value.last + Lifetime(limit))
    ensures forall i | 0 <= i < |times| ::
              Script(Evaluated(limit, times[..i]), limit, times[i]).allowed == GrantedAt(limit, times, i, MILLIS)
  {
    hide Script, Lifetime, Refilled, After;
    if times != [] {
      var n := |times| - 1;
      var init, now := times[..n], times[n];
      ScriptIsIdeal(limit, init);
      ReplayWithin(limit, init, MILLIS);
      ScriptStep(Replay(limit, init, MILLIS), Evaluated(limit, init), limit, now);
      forall i | 0 <= i < |times|
        ensures Script(Evaluated(limit, times[..i]), limit, times[i]).allowed == GrantedAt(limit, times, i, MILLIS)
      {
        if i < n {
          assert init[..i] == times[..i] && init[i] == times[i];
          assert GrantedAt(limit, init, i, MILLIS) == GrantedAt(limit, times, i, MILLIS);
        }
      }
    }
  }

  // ----- in numbers

  /** How many of the evaluations `i..j` allow their call. */
  function ScriptCount(limit: Limit, times: seq<int>, i: nat, j: nat): nat
    requires limit.Valid() && i <= j <= |times|
    decreases j
  {
    if i == j then 0
    else ScriptCount(limit, times, i, j - 1) + if Script(Evaluated(limit, times[..j - 1]), limit, times[j - 1]).allowed then 1 else 0
  }

  lemma {:induction false} ScriptCounts(limit: Limit, times: seq<int>, i: nat, j: nat)
    requires Representable(limit) && Ordered(times) && i <= j <= |times|
    ensures ScriptCount(limit, times, i, j) == GrantedCount(limit, times, i, j, MILLIS)
    decreases j
  {
    hide Script, GrantedAt, Evaluated;
    if i < j {
      ScriptCounts(limit, times, i, j - 1);
      ScriptIsIdeal(limit, times);
    }
  }

  /** The window bound of the script, in milliseconds. */
  lemma {:induction false} ScriptWindow(limit: Limit, times: seq<int>, i: nat, j: nat)
    requires Representable(limit) && Ordered(times) && i < j <= |times|
    ensures (ScriptCount(limit, times, i, j) - limit.burst) * 1000 <= limit.rate * (times[j - 1] - times[i])
  {
    hide GrantedCount, ScriptCount;
    ScriptCounts(limit, times, i, j);
    WindowInNumbers(limit, times, i, j, MILLIS);
  }

  /** A live hash with less than a token allows a call exactly when the milliseconds since make up a whole one. */
  lemma {:induction false} ScriptExactly(h: Hash, limit: Limit, now: int)
    requires limit.Valid() && h.last <= now < h.expires && h.tokens < 1.0
    ensures Script(Some(h), limit, now).allowed <==> h.tokens * 1000.0 + ((now - h.last) * limit.rate) as real >= 1000.0
  {
    hide Earned, Lifetime, Ceil;
    GrantedExactly(Bucket(h.tokens, h.last), limit, now, MILLIS);
  }

  /** The wait that the script returns is the least: a millisecond less is too early. */
  lemma {:induction false} ScriptRetryIsLeast(h: Hash, limit: Limit, now: int, wait: int)
    requires limit.Valid() && h.tokens < 1.0 && h.last == now < h.expires && 0 <= wait
    requires !Script(Some(h), limit, now).allowed && wait < Script(Some(h), limit, now).retry && now + wait < h.expires
    ensures !Script(Some(h), limit, now + wait).allowed
  {
    hide Earned, Lifetime, Ceil;
    var x, r := (1.0 - h.tokens) * 1000.0, limit.rate as real;
    assert Script(Some(h), limit, now).retry == Ceil(x / r);
    hide Script;
    BelowCeil(x / r, wait);
    Scaled(wait as real, x / r, r);
    QuotientTimes(x, r);
    ProductAsReal(wait, limit.rate);
    ScriptExactly(h, limit, now + wait);
  }

  /** A key lives at least a second, and no more than twice its refill if that is longer. */
  lemma {:induction false} LifetimeInNumbers(limit: Limit)
    requires limit.Valid()
    ensures Lifetime(limit) >= 1000
    ensures Lifetime(limit) > 1000 ==> Lifetime(limit) * limit.rate <= 2000 * limit.burst
  {
    var q := 2 * limit.burst * NANOS / limit.rate;
    if Lifetime(limit) > 1000 {
      assert q > NANOS;
      var ttl := Lifetime(limit);
      assert ttl * 1_000_000 <= q;
      assert q * limit.rate <= 2 * limit.burst * NANOS by {
        assert 2 * limit.burst * NANOS == q * limit.rate + 2 * limit.burst * NANOS % limit.rate;
      }
      Scale(q, ttl * 1_000_000, limit.rate);
      assert ttl * 1_000_000 * limit.rate == ttl * limit.rate * 1_000_000;
    }
  }

  // ----- the circuit

  const MAXIMUM_BACKOFF: int := 5 * NANOS
  const MINIMUM_BACKOFF: int := 100_000_000

  function Pow2(n: nat): nat {
    if n == 0 then 1 else 2 * Pow2(n - 1)
  }

  /** The delay after `failures` failures in a row: doubled each time, capped at five seconds. */
  function Backoff(base: int, failures: nat): int
    requires failures >= 1
  {
    Min(base * Pow2(failures - 1), MAXIMUM_BACKOFF)
  }

  /** The delay starts at the base, doubles with each failure, and never exceeds five seconds. */
  lemma {:induction false} BackoffDoubles(base: int, failures: nat)
    requires failures >= 1 && base > 0
    ensures Backoff(base, 1) == Min(base, 5_000_000_000)
    ensures Backoff(base, failures + 1) == Min(2 * Backoff(base, failures), 5_000_000_000)
  {
    assert base * Pow2(failures) == 2 * (base * Pow2(failures - 1));
    assert Pow2(0) == 1;
  }

  lemma {:induction false} BackoffCaps(base: int, delay: int, done: nat, total: nat)
    requires 0 < base && done <= total && delay == base * Pow2(done) && 2 * delay > MAXIMUM_BACKOFF && done < total
    ensures base * Pow2(total) > MAXIMUM_BACKOFF
    decreases total - done
  {
    assert base * Pow2(done + 1) == 2 * delay;
    if done + 1 < total {
      BackoffCaps(base, 2 * delay, done + 1, total);
    }
  }

  class RateCircuit {
    const base: int
    var failures: nat
    var openUntil: int
    var probing: bool

    constructor (operationTimeout: int)
      ensures Valid() && failures == 0 && !probing && openUntil == 0
      ensures operationTimeout <= 100_000_000 ==> base == 100_000_000
      ensures operationTimeout >= 5_000_000_000 ==> base == 5_000_000_000
      ensures 100_000_000 <= operationTimeout <= 5_000_000_000 ==> base == operationTimeout
    {
      base := Min(Max(operationTimeout, MINIMUM_BACKOFF), MAXIMUM_BACKOFF);
      failures, openUntil, probing := 0, 0, false;
    }

    ghost predicate Valid()
      reads this
    {
      MINIMUM_BACKOFF <= base <= MAXIMUM_BACKOFF && failures <= 63 && (failures == 0 ==> !probing)
    }

    /** While failing, at most one probe passes, and none before the delay is over. */
    method Allow(now: int) returns (ok: bool)
      requires Valid()
      modifies this`probing
      ensures Valid()
      ensures ok <==> failures == 0 || (!old(probing) && now >= openUntil)
      ensures probing == (old(probing) || (ok && failures > 0))
    {
      if failures == 0 {
        return true;
      }
      if probing || now < openUntil {
        return false;
      }
      probing := true;
      return true;
    }

    /** The doubling loop computes the capped exponential delay without overflowing. */
    method Fail(now: int)
      requires Valid()
      modifies this
      ensures Valid() && !probing && failures == Min(old(failures) + 1, 63)
      ensures openUntil == now + Backoff(base, failures)
    {
      if failures < 63 {
        failures := failures + 1;
      }
      var delay, remaining := base, failures;
      while remaining > 1 && delay < MAXIMUM_BACKOFF
        invariant 1 <= remaining <= failures
        invariant 0 < delay <= MAXIMUM_BACKOFF
        invariant delay == base * Pow2(failures - remaining)
              || (delay == MAXIMUM_BACKOFF && base * Pow2(failures - 1) >= MAXIMUM_BACKOFF)
        decreases remaining
      {
        if delay > MAXIMUM_BACKOFF / 2 {
          BackoffCaps(base, delay, failures - remaining, failures - 1);
          delay := MAXIMUM_BACKOFF;
          break;
        }
        assert base * Pow2(failures - remaining + 1) == 2 * delay;
        delay, remaining := delay * 2, remaining - 1;
      }
      if delay == MAXIMUM_BACKOFF && remaining > 1 && delay == base * Pow2(failures - remaining) {
        BackoffCaps(base, delay, failures - remaining, failures - 1);
      }
      openUntil := now + Min(delay, MAXIMUM_BACKOFF);
      probing := false;
    }

    method Succeed()
      requires Valid()
      modifies this
      ensures Valid() && failures == 0 && !probing && openUntil == 0
    {
      failures, openUntil, probing := 0, 0, false;
    }

    method CancelProbe()
      requires Valid()
      modifies this`probing
      ensures Valid() && !probing
    {
      probing := false;
    }
  }
}
