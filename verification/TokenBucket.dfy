/**
 The token bucket that never forgets: one key, one limit, calls at non-decreasing instants.
 Both rate limiters are compared with it. Instants count `unit` ticks per second.
 */
module TokenBucket {
  import opened Prelude

  datatype Limit = Limit(rate: int, burst: int) {
    predicate Valid() {
      rate > 0 && burst > 0
    }
  }

  datatype Bucket = Bucket(tokens: real, last: int)

  function MinReal(a: real, b: real): real {
    if a < b then a else b
  }

  function Ceil(x: real): int {
    -((-x).Floor)
  }

  /** Tokens earned in `elapsed` ticks. */
  function Earned(limit: Limit, elapsed: int, unit: int): real
    requires unit > 0
  {
    elapsed as real * limit.rate as real / unit as real
  }

  /** The bucket at `now`, before the call takes a token. A key never seen has a full bucket. */
  function Refilled(b: Option<Bucket>, limit: Limit, now: int, unit: int): Bucket
    requires unit > 0
  {
    match b
    case None => Bucket(limit.burst as real, now)
    case Some(Bucket(tokens, last)) =>
      var kept := MinReal(limit.burst as real, tokens);
      if now > last then Bucket(MinReal(limit.burst as real, kept + Earned(limit, now - last, unit)), now)
      else Bucket(kept, last)
  }

  function Granted(b: Option<Bucket>, limit: Limit, now: int, unit: int): bool
    requires unit > 0
  {
    Refilled(b, limit, now, unit).tokens >= 1.0
  }

  function After(b: Option<Bucket>, limit: Limit, now: int, unit: int): Bucket
    requires unit > 0
  {
    var r := Refilled(b, limit, now, unit);
    if r.tokens >= 1.0 then r.(tokens := r.tokens - 1.0) else r
  }

  /** The bucket after calls at all the given instants. */
  function Replay(limit: Limit, times: seq<int>, unit: int): Option<Bucket>
    requires unit > 0
  {
    if times == [] then None
    else Some(After(Replay(limit, times[..|times| - 1], unit), limit, times[|times| - 1], unit))
  }

  predicate Ordered(times: seq<int>) {
    forall i, j | 0 <= i <= j < |times| :: times[i] <= times[j]
  }

  /** Whether call `i` of the sequence is granted. */
  predicate GrantedAt(limit: Limit, times: seq<int>, i: nat, unit: int)
    requires unit > 0 && i < |times|
  {
    Granted(Replay(limit, times[..i], unit), limit, times[i], unit)
  }

  /** How many of the calls `i..j` are granted. */
  function GrantedCount(limit: Limit, times: seq<int>, i: nat, j: nat, unit: int): nat
    requires unit > 0 && i <= j <= |times|
    decreases j
  {
    if i == j then 0
    else GrantedCount(limit, times, i, j - 1, unit) + (if GrantedAt(limit, times, j - 1, unit) then 1 else 0)
  }

  // ----- bounds

  lemma {:induction false} EarnedAdds(limit: Limit, a: int, b: int, unit: int)
    requires unit > 0
    ensures Earned(limit, a + b, unit) == Earned(limit, a, unit) + Earned(limit, b, unit)
  {
    var r, u := limit.rate as real, unit as real;
    var x, y := a as real, b as real;
    assert (a + b) as real == x + y;
    assert (x + y) * r / u == x * r / u + y * r / u;
  }

  lemma {:induction false} EarnedGrows(limit: Limit, a: int, b: int, unit: int)
    requires unit > 0 && limit.rate >= 0 && a <= b
    ensures Earned(limit, a, unit) <= Earned(limit, b, unit)
    ensures Earned(limit, 0, unit) == 0.0
  {
    EarnedAdds(limit, a, b - a, unit);
    var r, u := limit.rate as real, unit as real;
    assert (b - a) as real * r >= 0.0;
    assert (b - a) as real * r / u >= 0.0;
  }

  lemma {:induction false} ReplayWithin(limit: Limit, times: seq<int>, unit: int)
    requires unit > 0 && limit.Valid() && Ordered(times)
    ensures var b := Replay(limit, times, unit);
            b.Some? ==> 0.0 <= b.value.tokens <= limit.burst as real && b.value.last == times[|times| - 1]
  {
    hide Earned;
    if times != [] {
      var init, now := times[..|times| - 1], times[|times| - 1];
      ReplayWithin(limit, init, unit);
      var b := Replay(limit, init, unit);
      if b.Some? {
        assert init[|init| - 1] == times[|times| - 2];
        EarnedGrows(limit, 0, now - b.value.last, unit);
      }
    }
  }

  /**
   In any stretch of calls `i..j`, the granted ones number at most the burst plus what the rate
   earns between the first and the last of them.
   */
  lemma {:induction false} RateBound(limit: Limit, times: seq<int>, i: nat, j: nat, unit: int)
    requires unit > 0 && limit.Valid() && Ordered(times) && i < j <= |times|
    ensures GrantedCount(limit, times, i, j, unit) as real
         <= limit.burst as real + Earned(limit, times[j - 1] - times[i], unit)
  {
    StretchBound(limit, times, i, j, unit);
    ReplayWithin(limit, times[..j], unit);
  }

  lemma {:induction false} StretchBound(limit: Limit, times: seq<int>, i: nat, j: nat, unit: int)
    requires unit > 0 && limit.Valid() && Ordered(times) && i < j <= |times|
    ensures Replay(limit, times[..j], unit).Some?
    ensures GrantedCount(limit, times, i, j, unit) as real + Replay(limit, times[..j], unit).value.tokens
         <= limit.burst as real + Earned(limit, times[j - 1] - times[i], unit)
    decreases j
  {
    hide Earned;
    var now := times[j - 1];
    var before := Replay(limit, times[..j - 1], unit);
    assert times[..j][..j - 1] == times[..j - 1];
    assert Replay(limit, times[..j], unit) == Some(After(before, limit, now, unit));
    EarnedGrows(limit, 0, now - times[i], unit);
    if i == j - 1 {
      assert GrantedCount(limit, times, i, i, unit) == 0;
      ReplayWithin(limit, times[..j - 1], unit);
    } else {
      StretchBound(limit, times, i, j - 1, unit);
      ReplayWithin(limit, times[..j - 1], unit);
      assert before.value.last == times[j - 2];
      EarnedAdds(limit, times[j - 2] - times[i], now - times[j - 2], unit);
      EarnedGrows(limit, 0, now - times[j - 2], unit);
    }
  }

  // ----- in numbers

  /** `unit` times the earned tokens is the product of time and rate. */
  lemma {:induction false} EarnedTimesUnit(limit: Limit, elapsed: int, unit: int)
    requires unit > 0
    ensures Earned(limit, elapsed, unit) * unit as real == (elapsed * limit.rate) as real
  {
    var x, u := elapsed as real * limit.rate as real, unit as real;
    assert x / u * u == x;
    assert elapsed as real * limit.rate as real == (elapsed * limit.rate) as real;
  }

  /** In any stretch, the granted calls beyond the burst fit into the rate times the time: one per `unit / rate` ticks. */
  lemma {:induction false} WindowInNumbers(limit: Limit, times: seq<int>, i: nat, j: nat, unit: int)
    requires unit > 0 && limit.Valid() && Ordered(times) && i < j <= |times|
    ensures (GrantedCount(limit, times, i, j, unit) - limit.burst) * unit <= limit.rate * (times[j - 1] - times[i])
  {
    hide Earned, GrantedCount;
    RateBound(limit, times, i, j, unit);
    var n, elapsed := GrantedCount(limit, times, i, j, unit), times[j - 1] - times[i];
    EarnedTimesUnit(limit, elapsed, unit);
    Scaled((n - limit.burst) as real, Earned(limit, elapsed, unit), unit as real);
    assert ((n - limit.burst) * unit) as real == (n - limit.burst) as real * unit as real;
    assert elapsed * limit.rate == limit.rate * elapsed;
  }

  lemma {:induction false} Scaled(a: real, b: real, u: real)
    requires u > 0.0
    ensures (a <= b <==> a * u <= b * u) && (a < b <==> a * u < b * u)
  {
  }

  lemma {:induction false} QuotientTimes(x: real, u: real)
    requires u > 0.0
    ensures x / u * u == x
  {
  }

  lemma {:induction false} ProductAsReal(a: int, b: int)
    ensures (a * b) as real == a as real * b as real
  {
  }

  lemma {:induction false} BelowCeil(x: real, n: int)
    requires n < Ceil(x)
    ensures n as real < x
  {
  }

  /** With less than a token left, a call is granted exactly when the time since has made up a whole one. */
  lemma {:induction false} GrantedExactly(b: Bucket, limit: Limit, now: int, unit: int)
    requires unit > 0 && limit.Valid() && b.tokens < 1.0 && b.last <= now
    ensures Granted(Some(b), limit, now, unit) <==> b.tokens * unit as real + ((now - b.last) * limit.rate) as real >= unit as real
  {
    hide Earned;
    var elapsed := now - b.last;
    EarnedTimesUnit(limit, elapsed, unit);
    EarnedGrows(limit, 0, 0, unit);
    var u := unit as real;
    var sum := b.tokens + Earned(limit, elapsed, unit);
    assert sum * u == b.tokens * u + Earned(limit, elapsed, unit) * u;
    Scaled(1.0, sum, u);
    assert Granted(Some(b), limit, now, unit) <==> 1.0 <= sum;
  }

  /** A full refill is a burst of tokens earned at the rate. */
  lemma {:induction false} FullRefillInNumbers(limit: Limit, idle: int, unit: int)
    requires unit > 0 && limit.Valid()
    ensures FullRefill(limit, idle, unit) <==> idle * limit.rate >= limit.burst * unit
  {
    hide Earned;
    EarnedTimesUnit(limit, idle, unit);
    Scaled(limit.burst as real, Earned(limit, idle, unit), unit as real);
    assert limit.burst as real * unit as real == (limit.burst * unit) as real;
  }

  function Instants(t: int, n: nat): (times: seq<int>)
    ensures |times| == n && forall i | 0 <= i < n :: times[i] == t
  {
    if n == 0 then [] else Instants(t, n - 1) + [t]
  }

  /** A key that was never used grants exactly its burst at one instant. */
  lemma {:induction false} BurstAtOnce(limit: Limit, t: int, n: nat, unit: int)
    requires unit > 0 && limit.Valid()
    ensures n > 0 ==> Replay(limit, Instants(t, n), unit) == Some(Bucket(Max(0, limit.burst - n) as real, t))
    ensures Granted(Replay(limit, Instants(t, n), unit), limit, t, unit) <==> n < limit.burst
  {
    if n > 0 {
      BurstAtOnce(limit, t, n - 1, unit);
      var times := Instants(t, n);
      assert times[..n - 1] == Instants(t, n - 1) && times[n - 1] == t;
    }
  }

  // ----- forgetting

  /** An idle stretch long enough to earn a full bucket. */
  predicate FullRefill(limit: Limit, idle: int, unit: int)
    requires unit > 0
  {
    Earned(limit, idle, unit) >= limit.burst as real
  }

  /** After a full refill it makes no difference whether the bucket was kept or forgotten. */
  lemma {:induction false} ForgettingIsInvisible(b: Bucket, limit: Limit, now: int, unit: int)
    requires unit > 0 && limit.Valid() && b.tokens >= 0.0 && b.last <= now
    requires FullRefill(limit, now - b.last, unit)
    ensures Refilled(Some(b), limit, now, unit) == Refilled(None, limit, now, unit)
  {
    hide Earned;
    EarnedGrows(limit, 0, 0, unit);
  }

  // ----- the advertised delay

  lemma {:induction false} DivAtLeast(a: real, u: real, b: real)
    requires u > 0.0 && a >= b * u
    ensures a / u >= b
  {
    var q := a / u;
    assert q * u == a;
    if q < b {
      assert q * u < b * u;
    }
  }

  /** Waiting the advertised number of milliseconds earns the missing part of a token. */
  lemma {:induction false} RetryEarnsToken(tokens: real, limit: Limit, wait: int, unit: int)
    requires unit > 0 && limit.Valid() && tokens < 1.0
    requires wait as real * 1000.0 >= Ceil((1.0 - tokens) / limit.rate as real * 1000.0) as real * unit as real
    ensures tokens + Earned(limit, wait, unit) >= 1.0
    ensures wait > 0
  {
    var r, u, w := limit.rate as real, unit as real, wait as real;
    var missing := (1.0 - tokens) / r * 1000.0;
    assert Ceil(missing) as real >= missing;
    assert missing > 0.0;
    assert w * 1000.0 >= missing * u by {
      assert Ceil(missing) as real * u >= missing * u;
    }
    assert missing * r == (1.0 - tokens) * 1000.0 by {
      assert (1.0 - tokens) / r * r == 1.0 - tokens;
    }
    assert w * 1000.0 * r >= missing * u * r;
    assert missing * u * r == missing * r * u == (1.0 - tokens) * 1000.0 * u;
    assert w * r * 1000.0 >= (1.0 - tokens) * u * 1000.0;
    assert w * r >= (1.0 - tokens) * u;
    DivAtLeast(w * r, u, 1.0 - tokens);
    assert missing * u > 0.0;
  }
}
