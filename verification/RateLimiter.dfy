/**
 The process-local rate limiter: a bounded map of buckets, two lists ordered by last use, and
 expiry of idle buckets from the front of the lists. It answers like the token bucket that
 never forgets.
 */
module RateLimiter {
  import opened Prelude
  import opened TokenBucket

  const MILLISECOND: int := 1_000_000
  const DEFAULT_ANONYMOUS_LIMIT := 16_384
  const DEFAULT_AUTHENTICATED_LIMIT := 65_536
  const DEFAULT_TTL: int := 600 * NANOS

  datatype Entry = Entry(tokens: real, last: int, lastSeen: int, retention: int) {
    function Bucket(): Bucket {
      TokenBucket.Bucket(tokens, last)
    }

    predicate Expired(now: int) {
      now - lastSeen >= retention
    }
  }

  /** One call that reached a bucket, and its answer. */
  datatype Call = Call(limit: Limit, time: int, allowed: bool)

  predicate Anonymous(key: string) {
    "anonymous:" <= key
  }

  // ----- order lists

  predicate Distinct(order: seq<string>) {
    forall i, j | 0 <= i < j < |order| :: order[i] != order[j]
  }

  /** Least recently used first. */
  predicate ByUse(order: seq<string>, buckets: map<string, Entry>)
    requires forall k | k in order :: k in buckets
  {
    forall i, j | 0 <= i <= j < |order| :: buckets[order[i]].lastSeen <= buckets[order[j]].lastSeen
  }

  /** Keys of one class, each once, all of them buckets, least recently used first. */
  ghost predicate Listed(order: seq<string>, buckets: map<string, Entry>, anonymous: bool) {
    && Distinct(order)
    && (forall k :: k in order <==> k in buckets && Anonymous(k) == anonymous)
    && ByUse(order, buckets)
  }

  function Without(order: seq<string>, key: string): seq<string> {
    if order == [] then []
    else (if order[0] == key then [] else [order[0]]) + Without(order[1..], key)
  }

  lemma {:induction false} WithoutKeepsOrder(order: seq<string>, buckets: map<string, Entry>, key: string)
    requires Distinct(order) && (forall k | k in order :: k in buckets) && ByUse(order, buckets)
    ensures var w := Without(order, key);
            && Distinct(w) && (forall k :: k in w <==> k in order && k != key)
            && ByUse(w, buckets)
            && |w| == |order| - (if key in order then 1 else 0)
  {
    if order != [] {
      var first, rest := order[0], order[1..];
      assert forall k :: k in order <==> k == first || k in rest;
      assert first !in rest;
      WithoutKeepsOrder(rest, buckets, key);
      var w, w' := Without(order, key), Without(rest, key);
      if first != key {
        assert w == [first] + w';
        forall i, j | 0 <= i <= j < |w| ensures buckets[w[i]].lastSeen <= buckets[w[j]].lastSeen {
          if i == 0 && j > 0 {
            assert w[j] in w';
            var m :| 0 <= m < |order| && order[m] == w[j];
            assert buckets[order[0]].lastSeen <= buckets[order[m]].lastSeen;
          }
        }
      }
    }
  }

  // ----- retention

  /** Nanoseconds to earn a full bucket, rounded up. */
  function FullRefillNanos(limit: Limit): int
    requires limit.Valid()
  {
    Ceil(limit.burst as real * NANOS as real / limit.rate as real)
  }

  /** The full refill fits a Go duration. */
  predicate Refillable(limit: Limit) {
    limit.Valid() && FullRefillNanos(limit) <= MAX_INT64
  }

  function Retention(limit: Limit, minimum: int): int
    requires limit.Valid()
  {
    Max(minimum, Min(FullRefillNanos(limit), MAX_INT64))
  }

  /** An idle bucket is kept at least until it is full again. */
  lemma {:induction false} RetentionRefills(limit: Limit, minimum: int, idle: int)
    requires Refillable(limit) && idle >= Retention(limit, minimum)
    ensures FullRefill(limit, idle, NANOS)
  {
    var full := limit.burst as real * NANOS as real / limit.rate as real;
    var r, u := limit.rate as real, NANOS as real;
    assert idle as real >= full;
    assert full * r == limit.burst as real * u;
    assert idle as real * r >= full * r;
    DivAtLeast(idle as real * r, u, limit.burst as real);
  }

  // ----- histories

  function Times(calls: seq<Call>): seq<int> {
    seq(|calls|, i requires 0 <= i < |calls| => calls[i].time)
  }

  predicate Uniform(calls: seq<Call>, limit: Limit) {
    forall i | 0 <= i < |calls| :: calls[i].limit == limit
  }

  /** Every recorded answer is the one of the bucket that never forgets. */
  predicate AnsweredIdeally(calls: seq<Call>, limit: Limit) {
    forall i | 0 <= i < |calls| :: calls[i].allowed == GrantedAt(limit, Times(calls), i, NANOS)
  }

  function Past(history: map<string, seq<Call>>, key: string): seq<Call> {
    if key in history then history[key] else []
  }

  // ----- the limiter as a value

  datatype Config = Config(maxAnonymous: int, maxAuthenticated: int, anonymousTTL: int, authenticatedTTL: int) {
    function Capacity(anonymous: bool): (n: int)
      ensures n > 0
    {
      if anonymous then (if maxAnonymous <= 0 then DEFAULT_ANONYMOUS_LIMIT else maxAnonymous)
      else (if maxAuthenticated <= 0 then DEFAULT_AUTHENTICATED_LIMIT else maxAuthenticated)
    }

    function MinimumTTL(anonymous: bool): int {
      var ttl := if anonymous then anonymousTTL else authenticatedTTL;
      if ttl <= 0 then DEFAULT_TTL else ttl
    }
  }

  /** `history` holds every call that reached a bucket, `clock` the latest instant seen. */
  datatype View = View(
    buckets: map<string, Entry>, anonymous: seq<string>, authenticated: seq<string>,
    history: map<string, seq<Call>>, clock: int)
  {
    function Order(anonymous: bool): seq<string> {
      if anonymous then this.anonymous else authenticated
    }

    function WithOrder(anonymous: bool, order: seq<string>): View {
      if anonymous then this.(anonymous := order) else this.(authenticated := order)
    }
  }

  /**
   What the never-forgetting bucket of a key is known to be: exactly the stored one, or, when
   nothing is stored, one that has since been refilled completely.
   */
  ghost predicate Remembered(calls: seq<Call>, stored: Option<Entry>, minimum: int, clock: int) {
    && calls != [] && Ordered(Times(calls)) && calls[|calls| - 1].time <= clock
    && forall limit | Uniform(calls, limit) && Refillable(limit) ::
         var b := Replay(limit, Times(calls), NANOS);
         && b.Some? && 0.0 <= b.value.tokens && b.value.last <= clock
         && AnsweredIdeally(calls, limit)
         && match stored
            case None => FullRefill(limit, clock - b.value.last, NANOS)
            case Some(e) => e.Bucket() == b.value && e.lastSeen == e.last && e.retention == Retention(limit, minimum)
  }

  function Stored(buckets: map<string, Entry>, key: string): Option<Entry> {
    if key in buckets then Some(buckets[key]) else None
  }

  function BucketOf(e: Option<Entry>): Option<Bucket> {
    match e
    case None => None
    case Some(e) => Some(e.Bucket())
  }

  /** Lists and map agree, and neither class exceeds its capacity. */
  ghost predicate Consistent(v: View, c: Config) {
    && Listed(v.anonymous, v.buckets, true) && Listed(v.authenticated, v.buckets, false)
    && |v.anonymous| <= c.Capacity(true) && |v.authenticated| <= c.Capacity(false)
    && (forall k | k in v.buckets ::
          v.buckets[k].last <= v.buckets[k].lastSeen <= v.clock && k in v.history)
  }

  /** The stored buckets carry the whole past. */
  ghost predicate Faithful(v: View, c: Config) {
    forall k | k in v.history ::
      Remembered(v.history[k], Stored(v.buckets, k), c.MinimumTTL(Anonymous(k)), v.clock)
  }

  ghost predicate Valid(v: View, c: Config) {
    Consistent(v, c) && Faithful(v, c)
  }

  // ----- what a call does to it

  function DropFront(v: View, anonymous: bool): View
    requires v.Order(anonymous) != []
  {
    v.(buckets := v.buckets - {v.Order(anonymous)[0]}).WithOrder(anonymous, v.Order(anonymous)[1..])
  }

  function Expire(v: View, anonymous: bool): View
    requires forall k | k in v.Order(anonymous) :: k in v.buckets
    requires Distinct(v.Order(anonymous))
    decreases |v.Order(anonymous)|
  {
    if v.Order(anonymous) == [] || !v.buckets[v.Order(anonymous)[0]].Expired(v.clock) then v
    else Expire(DropFront(v, anonymous), anonymous)
  }

  function CallOf(v: View, key: string, limit: Limit): Call {
    Call(limit, v.clock, Granted(BucketOf(Stored(v.buckets, key)), limit, v.clock, NANOS))
  }

  /** The call reaches the bucket of `key`, stored or fresh, which becomes the most recently used. */
  function Serve(v: View, key: string, limit: Limit, c: Config): View
    requires limit.Valid()
  {
    var anonymous := Anonymous(key);
    var b := After(BucketOf(Stored(v.buckets, key)), limit, v.clock, NANOS);
    var e := Entry(b.tokens, b.last, v.clock, Retention(limit, c.MinimumTTL(anonymous)));
    v.(buckets := v.buckets[key := e],
       history := v.history[key := Past(v.history, key) + [CallOf(v, key, limit)]])
     .WithOrder(anonymous, Without(v.Order(anonymous), key) + [key])
  }

  // ----- each part keeps the invariant

  lemma {:induction false} AdvanceKeeps(v: View, c: Config, now: int)
    requires Valid(v, c) && v.clock <= now
    ensures Valid(v.(clock := now), c)
  {
    hide Remembered, Listed;
    forall k | k in v.history
      ensures Remembered(v.history[k], Stored(v.buckets, k), c.MinimumTTL(Anonymous(k)), now)
    {
      RememberedLater(v.history[k], Stored(v.buckets, k), c.MinimumTTL(Anonymous(k)), v.clock, now);
    }
  }

  lemma {:induction false} RememberedLater(calls: seq<Call>, stored: Option<Entry>, minimum: int, clock: int, now: int)
    requires Remembered(calls, stored, minimum, clock) && clock <= now
    ensures Remembered(calls, stored, minimum, now)
  {
    hide Earned, Replay, Retention, Uniform;
    if stored.None? {
      forall limit | Uniform(calls, limit) && Refillable(limit)
        ensures var b := Replay(limit, Times(calls), NANOS); b.Some? && FullRefill(limit, now - b.value.last, NANOS)
      {
        var b := Replay(limit, Times(calls), NANOS);
        EarnedGrows(limit, clock - b.value.last, now - b.value.last, NANOS);
      }
    }
  }

  lemma {:induction false} FrontFacts(v: View, c: Config, anonymous: bool)
    requires Valid(v, c)
    ensures Distinct(v.Order(anonymous)) && forall k | k in v.Order(anonymous) :: k in v.buckets
    ensures v.Order(anonymous) != [] ==>
              var key := v.Order(anonymous)[0];
              key in v.buckets && key in v.history && Anonymous(key) == anonymous
  {
  }

  lemma {:induction false} DropKeeps(v: View, c: Config, anonymous: bool)
    requires Valid(v, c) && v.Order(anonymous) != []
    requires v.Order(anonymous)[0] in v.buckets && v.buckets[v.Order(anonymous)[0]].Expired(v.clock)
    ensures Valid(DropFront(v, anonymous), c)
  {
    FrontFacts(v, c, anonymous);
    hide Listed, Remembered, Anonymous, Distinct;
    var key, v' := v.Order(anonymous)[0], DropFront(v, anonymous);
    ForgetExpired(v.history[key], v.buckets[key], c.MinimumTTL(anonymous), v.clock);
    RestIsListed(v.Order(anonymous), v.buckets, anonymous);
    OthersStayListed(v.Order(!anonymous), v.buckets, !anonymous, key);
    assert Faithful(v', c) by {
      forall k | k in v.history
        ensures Remembered(v.history[k], Stored(v'.buckets, k), c.MinimumTTL(Anonymous(k)), v.clock)
      {
        assert k != key ==> Stored(v'.buckets, k) == Stored(v.buckets, k);
      }
    }
  }

  /** An expired bucket may be forgotten. */
  lemma {:induction false} ForgetExpired(calls: seq<Call>, e: Entry, minimum: int, clock: int)
    requires Remembered(calls, Some(e), minimum, clock) && e.Expired(clock)
    ensures Remembered(calls, None, minimum, clock)
  {
    hide Replay, Retention, FullRefill;
    forall limit | Uniform(calls, limit) && Refillable(limit)
      ensures FullRefill(limit, clock - Replay(limit, Times(calls), NANOS).value.last, NANOS)
    {
      RetentionRefills(limit, minimum, clock - e.lastSeen);
    }
  }

  lemma {:induction false} RestIsListed(order: seq<string>, buckets: map<string, Entry>, anonymous: bool)
    requires Listed(order, buckets, anonymous) && order != []
    ensures Listed(order[1..], buckets - {order[0]}, anonymous)
  {
    var rest, others := order[1..], buckets - {order[0]};
    assert order == [order[0]] + rest;
    assert order[0] !in rest;
    forall k ensures k in rest <==> k in others && Anonymous(k) == anonymous {
      assert k in order <==> k == order[0] || k in rest;
    }
  }

  lemma {:induction false} OthersStayListed(order: seq<string>, buckets: map<string, Entry>, anonymous: bool, key: string)
    requires Listed(order, buckets, anonymous) && Anonymous(key) != anonymous
    ensures Listed(order, buckets - {key}, anonymous)
  {
  }

  /** Expiry keeps the invariant and leaves the surviving suffix with its buckets untouched. */
  lemma {:induction false} ExpireKeeps(v: View, c: Config, anonymous: bool)
    requires Valid(v, c)
    requires Distinct(v.Order(anonymous)) && forall k | k in v.Order(anonymous) :: k in v.buckets
    ensures var v' := Expire(v, anonymous);
            && Valid(v', c) && v'.clock == v.clock && v'.history == v.history
            && v'.Order(!anonymous) == v.Order(!anonymous)
            && |v'.Order(anonymous)| <= |v.Order(anonymous)|
            && (|v'.Order(anonymous)| == |v.Order(anonymous)| ==> v' == v)
            && (forall k | k in v'.buckets :: k in v.buckets && v'.buckets[k] == v.buckets[k])
            && (v'.Order(anonymous) == [] || !v'.buckets[v'.Order(anonymous)[0]].Expired(v.clock))
    decreases |v.Order(anonymous)|
  {
    FrontFacts(v, c, anonymous);
    hide Listed, Faithful, Anonymous, Distinct;
    if v.Order(anonymous) != [] && v.buckets[v.Order(anonymous)[0]].Expired(v.clock) {
      DropKeeps(v, c, anonymous);
      FrontFacts(DropFront(v, anonymous), c, anonymous);
      ExpireKeeps(DropFront(v, anonymous), c, anonymous);
    }
  }

  // ----- serving agrees with the bucket that never forgets

  /** The stored bucket and the remembered one are the same to this call. */
  lemma {:induction false} SameBucket(calls: seq<Call>, stored: Option<Entry>, minimum: int, clock: int, limit: Limit)
    requires calls == [] ==> stored.None?
    requires calls != [] ==> Remembered(calls, stored, minimum, clock)
    requires Uniform(calls, limit) && Refillable(limit)
    ensures Refilled(BucketOf(stored), limit, clock, NANOS) == Refilled(Replay(limit, Times(calls), NANOS), limit, clock, NANOS)
  {
    hide Earned, FullRefill, Uniform, Ordered;
    if calls != [] && stored.None? {
      ForgettingIsInvisible(Replay(limit, Times(calls), NANOS).value, limit, clock, NANOS);
    }
  }

  lemma {:induction false} TimesAppend(calls: seq<Call>, call: Call)
    ensures Times(calls + [call]) == Times(calls) + [call.time]
    ensures Times(calls + [call])[..|calls|] == Times(calls)
  {
  }

  lemma {:induction false} RememberServed(calls: seq<Call>, stored: Option<Entry>, minimum: int, clock: int, limit: Limit)
    requires limit.Valid()
    requires calls == [] ==> stored.None?
    requires calls != [] ==> Remembered(calls, stored, minimum, clock)
    ensures var b := After(BucketOf(stored), limit, clock, NANOS);
            Remembered(calls + [Call(limit, clock, Granted(BucketOf(stored), limit, clock, NANOS))],
                       Some(Entry(b.tokens, b.last, clock, Retention(limit, minimum))), minimum, clock)
  {
    hide Retention, Refilled, FullRefill;
    var call := Call(limit, clock, Granted(BucketOf(stored), limit, clock, NANOS));
    var calls' := calls + [call];
    TimesAppend(calls, call);
    var times := Times(calls');
    assert Ordered(times) by {
      forall i, j | 0 <= i <= j < |times| ensures times[i] <= times[j] {
        if i < |calls| {
          assert Times(calls)[i] <= Times(calls)[|calls| - 1];
        }
      }
    }
    forall l | Uniform(calls', l) && Refillable(l)
      ensures l == limit && Replay(l, times, NANOS) == Some(After(BucketOf(stored), limit, clock, NANOS))
      ensures After(BucketOf(stored), limit, clock, NANOS).tokens >= 0.0
      ensures After(BucketOf(stored), limit, clock, NANOS).last == clock
      ensures AnsweredIdeally(calls', l)
    {
      assert calls'[|calls|].limit == limit;
      assert Uniform(calls, l) by {
        assert forall i | 0 <= i < |calls| :: calls'[i] == calls[i];
      }
      SameBucket(calls, stored, minimum, clock, limit);
      ReplayWithin(limit, times, NANOS);
      IdealAppend(calls, call);
    }
  }

  lemma {:induction false} IdealAppend(calls: seq<Call>, call: Call)
    requires calls != [] ==> AnsweredIdeally(calls, call.limit)
    requires call.allowed == Granted(Replay(call.limit, Times(calls), NANOS), call.limit, call.time, NANOS)
    ensures AnsweredIdeally(calls + [call], call.limit)
  {
    hide Granted, Replay;
    TimesAppend(calls, call);
    var calls' := calls + [call];
    forall i | 0 <= i < |calls'| ensures calls'[i].allowed == GrantedAt(call.limit, Times(calls'), i, NANOS) {
      if i < |calls| {
        assert Times(calls')[..i] == Times(calls)[..i] && Times(calls')[i] == Times(calls)[i];
        assert calls[i].allowed == GrantedAt(call.limit, Times(calls), i, NANOS);
      }
    }
  }

  lemma {:induction false} AppendMostRecent(w: seq<string>, buckets: map<string, Entry>, key: string, e: Entry)
    requires Distinct(w) && key !in w && (forall k | k in w :: k in buckets) && ByUse(w, buckets)
    requires forall k | k in w :: buckets[k].lastSeen <= e.lastSeen
    ensures Distinct(w + [key])
    ensures (forall k | k in w + [key] :: k in buckets[key := e]) && ByUse(w + [key], buckets[key := e])
  {
    var w', buckets' := w + [key], buckets[key := e];
    assert forall i | 0 <= i < |w| :: w'[i] == w[i] && w[i] in w;
    forall i, j | 0 <= i <= j < |w'| ensures buckets'[w'[i]].lastSeen <= buckets'[w'[j]].lastSeen {
      if j < |w| {
        assert buckets[w[i]].lastSeen <= buckets[w[j]].lastSeen;
      }
    }
  }

  lemma {:induction false} ServedIsListed(order: seq<string>, buckets: map<string, Entry>, key: string, e: Entry)
    requires Listed(order, buckets, Anonymous(key))
    requires forall k | k in buckets :: buckets[k].lastSeen <= e.lastSeen
    ensures Listed(Without(order, key) + [key], buckets[key := e], Anonymous(key))
    ensures |Without(order, key) + [key]| == |order| + (if key in buckets then 0 else 1)
  {
    hide Without, Anonymous, Distinct, ByUse;
    WithoutKeepsOrder(order, buckets, key);
    var w := Without(order, key);
    AppendMostRecent(w, buckets, key, e);
    assert forall k :: k in w + [key] <==> k in w || k == key;
  }

  lemma {:induction false} OtherClassIsListed(order: seq<string>, buckets: map<string, Entry>, key: string, e: Entry)
    requires Listed(order, buckets, !Anonymous(key))
    ensures Listed(order, buckets[key := e], !Anonymous(key))
  {
  }

  lemma {:induction false} PastFacts(v: View, c: Config, key: string)
    requires Valid(v, c)
    ensures var past, stored := Past(v.history, key), Stored(v.buckets, key);
            && (past == [] ==> stored.None?)
            && (past != [] ==> Remembered(past, stored, c.MinimumTTL(Anonymous(key)), v.clock))
  {
    hide Listed;
  }

  lemma {:induction false} AfterLast(b: Option<Bucket>, limit: Limit, now: int)
    requires b.Some? ==> b.value.last <= now
    ensures After(b, limit, now, NANOS).last <= now
  {
  }

  lemma {:induction false} ServeConsistent(v: View, c: Config, key: string, limit: Limit)
    requires Valid(v, c) && limit.Valid()
    requires key in v.buckets || |v.Order(Anonymous(key))| < c.Capacity(Anonymous(key))
    ensures Consistent(Serve(v, key, limit, c), c)
  {
    hide Faithful, Listed, After, Retention, Without, Anonymous;
    var anonymous, e := Anonymous(key), Serve(v, key, limit, c).buckets[key];
    AfterLast(BucketOf(Stored(v.buckets, key)), limit, v.clock);
    ServedIsListed(v.Order(anonymous), v.buckets, key, e);
    OtherClassIsListed(v.Order(!anonymous), v.buckets, key, e);
  }

  lemma {:induction false} ServeFaithful(v: View, c: Config, key: string, limit: Limit)
    requires Valid(v, c) && limit.Valid()
    ensures Faithful(Serve(v, key, limit, c), c)
  {
    hide Consistent, Remembered, After, Retention, Without, Anonymous;
    var v' := Serve(v, key, limit, c);
    PastFacts(v, c, key);
    RememberServed(Past(v.history, key), Stored(v.buckets, key), c.MinimumTTL(Anonymous(key)), v.clock, limit);
    forall k | k in v'.history
      ensures Remembered(v'.history[k], Stored(v'.buckets, k), c.MinimumTTL(Anonymous(k)), v'.clock)
    {
      assert k != key ==> v'.history[k] == v.history[k] && Stored(v'.buckets, k) == Stored(v.buckets, k);
    }
  }

  lemma {:induction false} ServeKeeps(v: View, c: Config, key: string, limit: Limit)
    requires Valid(v, c) && limit.Valid()
    requires key in v.buckets || |v.Order(Anonymous(key))| < c.Capacity(Anonymous(key))
    ensures Valid(Serve(v, key, limit, c), c)
  {
    hide Consistent, Faithful;
    ServeConsistent(v, c, key, limit);
    ServeFaithful(v, c, key, limit);
  }

  // ----- one call

  datatype Answer = Answer(allowed: bool, retry: int)

  ghost function Swept(v: View, c: Config, now: int): (v': View)
    requires Valid(v, c) && v.clock <= now
    ensures Valid(v', c) && v'.clock == now && v'.history == v.history
    ensures forall k | k in v'.buckets :: k in v.buckets && v'.buckets[k] == v.buckets[k]
    ensures forall anonymous ::
              && |v'.Order(anonymous)| <= |v.Order(anonymous)|
              && (|v'.Order(anonymous)| == |v.Order(anonymous)| ==> v'.Order(anonymous) == v.Order(anonymous))
              && (v'.Order(anonymous) == [] || v'.Order(anonymous)[0] in v'.buckets)
              && (v'.Order(anonymous) == [] || !v'.buckets[v'.Order(anonymous)[0]].Expired(now))
  {
    AdvanceKeeps(v, c, now);
    var v0 := v.(clock := now);
    FrontFacts(v0, c, true);
    ExpireKeeps(v0, c, true);
    var v1 := Expire(v0, true);
    FrontFacts(v1, c, true);
    FrontFacts(v1, c, false);
    ExpireKeeps(v1, c, false);
    var v2 := Expire(v1, false);
    FrontFacts(v2, c, true);
    FrontFacts(v2, c, false);
    v2
  }

  function RoomRetry(v: View, anonymous: bool): int
    requires forall k | k in v.Order(anonymous) :: k in v.buckets
  {
    if v.Order(anonymous) == [] then NANOS else
    var e := v.buckets[v.Order(anonymous)[0]];
    var retry := e.lastSeen + e.retention - v.clock;
    if retry <= 0 then MILLISECOND else retry
  }

  function TokenRetry(tokens: real, limit: Limit): int
    requires limit.Valid()
  {
    Ceil((1.0 - tokens) / limit.rate as real * 1000.0) * MILLISECOND
  }

  function Decide(tokens: real, limit: Limit): Answer
    requires limit.Valid()
  {
    if tokens >= 1.0 then Answer(true, 0) else Answer(false, TokenRetry(tokens, limit))
  }

  predicate HasRoom(v: View, c: Config, key: string) {
    key in v.buckets || |v.Order(Anonymous(key))| < c.Capacity(Anonymous(key))
  }

  ghost function AllowSpec(v: View, c: Config, key: string, limit: Limit, now: int): (r: (View, Answer))
    requires Valid(v, c) && v.clock <= now && limit.Valid()
    ensures Valid(r.0, c) && r.0.clock == now
  {
    var s := Swept(v, c, now);
    if !HasRoom(s, c, key) then
      FrontFacts(s, c, Anonymous(key));
      (s, Answer(false, RoomRetry(s, Anonymous(key))))
    else
      ServeKeeps(s, c, key, limit);
      var b := Refilled(BucketOf(Stored(s.buckets, key)), limit, now, NANOS);
      (Serve(s, key, limit, c), Decide(b.tokens, limit))
  }

  // ----- what the answers amount to

  /**
   The limiter agrees with the bucket that never forgets: unless its class is full, a call is
   recorded with its answer, and for a key always used with one limit every recorded answer is
   the one that bucket gives when replayed over all the key's calls.
   */
  lemma {:induction false} AllowIsIdeal(v: View, c: Config, key: string, limit: Limit, now: int)
    requires Valid(v, c) && v.clock <= now && limit.Valid() && HasRoom(Swept(v, c, now), c, key)
    ensures var r := AllowSpec(v, c, key, limit, now);
            var calls := Past(v.history, key) + [Call(limit, now, r.1.allowed)];
            && r.0.history == v.history[key := calls]
            && (Uniform(calls, limit) && Refillable(limit) ==> AnsweredIdeally(calls, limit))
  {
    hide Consistent, Swept, Refilled, AnsweredIdeally, Uniform, Refillable, Replay;
    var s := Swept(v, c, now);
    ServeKeeps(s, c, key, limit);
    PastFacts(Serve(s, key, limit, c), c, key);
  }

  function AllowedCount(calls: seq<Call>, i: nat, j: nat): nat
    requires i <= j <= |calls|
    decreases j
  {
    if i == j then 0 else AllowedCount(calls, i, j - 1) + (if calls[j - 1].allowed then 1 else 0)
  }

  lemma {:induction false} CountsAgree(calls: seq<Call>, limit: Limit, i: nat, j: nat)
    requires i <= j <= |calls| && AnsweredIdeally(calls, limit)
    ensures AllowedCount(calls, i, j) == GrantedCount(limit, Times(calls), i, j, NANOS)
    decreases j
  {
    if i < j {
      CountsAgree(calls, limit, i, j - 1);
    }
  }

  /**
   In every state the limiter can reach, and over any stretch of the calls made with one limit, at
   most the burst plus what the rate earns between the first and the last of them were allowed.
   */
  lemma {:induction false} WindowBound(v: View, c: Config, key: string, limit: Limit, i: nat, j: nat)
    requires Valid(v, c) && key in v.history && Uniform(v.history[key], limit) && Refillable(limit)
    requires i < j <= |v.history[key]|
    ensures var calls := v.history[key];
            && AllowedCount(calls, i, j) as real <=
                 limit.burst as real + Earned(limit, calls[j - 1].time - calls[i].time, NANOS)
            && (AllowedCount(calls, i, j) - limit.burst) * NANOS <= limit.rate * (calls[j - 1].time - calls[i].time)
  {
    hide Consistent, Earned, Replay, Ordered, AnsweredIdeally;
    PastFacts(v, c, key);
    var calls := v.history[key];
    assert calls != [];
    CountsAgree(calls, limit, i, j);
    RateBound(limit, Times(calls), i, j, NANOS);
    WindowInNumbers(limit, Times(calls), i, j, NANOS);
  }

  /**
   A stored bucket with less than a token answers by the clock alone: the call is allowed exactly
   when the nanoseconds since, times the rate, make up what is missing.
   */
  lemma {:induction false} AllowedExactly(v: View, c: Config, key: string, limit: Limit, now: int)
    requires Valid(v, c) && v.clock <= now && limit.Valid()
    requires key in Swept(v, c, now).buckets && v.buckets[key].tokens < 1.0
    ensures var e := v.buckets[key];
            AllowSpec(v, c, key, limit, now).1.allowed <==>
            e.tokens * NANOS as real + ((now - e.last) * limit.rate) as real >= NANOS as real
  {
    hide Faithful, Earned, Listed;
    GrantedExactly(v.buckets[key].Bucket(), limit, now, NANOS);
  }

  /** The advertised delay is the least number of milliseconds: a millisecond less is too early. */
  lemma {:induction false} RetryIsLeast(tokens: real, limit: Limit, last: int, wait: int)
    requires limit.Valid() && tokens < 1.0 && 0 <= wait <= TokenRetry(tokens, limit) - MILLISECOND
    ensures !Granted(Some(Bucket(tokens, last)), limit, last + wait, NANOS)
  {
    hide Granted, Ceil;
    var r := limit.rate as real;
    var part := (1.0 - tokens) / r;
    var n := Ceil(part * 1000.0);
    BelowCeil(part * 1000.0, n - 1);
    assert wait <= (n - 1) * 1_000_000;
    assert wait as real < part * 1_000_000_000.0;
    Scaled(wait as real, part * 1_000_000_000.0, r);
    QuotientTimes(1.0 - tokens, r);
    assert part * 1_000_000_000.0 * r == part * r * 1_000_000_000.0;
    ProductAsReal(wait, limit.rate);
    GrantedExactly(Bucket(tokens, last), limit, last + wait, NANOS);
  }

  /** A key is turned away for want of room only while its class is full, and the classes are bounded apart. */
  lemma {:induction false} RoomExactly(v: View, c: Config, key: string)
    requires Valid(v, c)
    ensures HasRoom(v, c, key) <==> key in v.buckets || |v.Order(Anonymous(key))| != c.Capacity(Anonymous(key))
    ensures c.maxAnonymous > 0 ==> c.Capacity(true) == c.maxAnonymous
    ensures c.maxAuthenticated > 0 ==> c.Capacity(false) == c.maxAuthenticated
    ensures Config(0, 0, 0, 0).Capacity(true) == 16384 && Config(0, 0, 0, 0).Capacity(false) == 65536
    ensures Config(0, 0, 0, 0).MinimumTTL(true) == Config(0, 0, 0, 0).MinimumTTL(false) == 600_000_000_000
  {
    OrderWithin(v, c, key);
  }

  /** The two classes are told apart by the first ten characters of the key. */
  lemma {:induction false} ClassOfKey(key: string)
    ensures Anonymous(key) <==> |key| >= 10 && key[..10] == "anonymous:"
  {
  }

  /** Only buckets idle for their retention are dropped. */
  lemma {:induction false} ExpireDropsExpired(v: View, anonymous: bool, key: string)
    requires (forall k | k in v.Order(anonymous) :: k in v.buckets) && Distinct(v.Order(anonymous))
    ensures key in v.buckets && key !in Expire(v, anonymous).buckets ==> v.clock - v.buckets[key].lastSeen >= v.buckets[key].retention
    decreases |v.Order(anonymous)|
  {
    if v.Order(anonymous) != [] && v.buckets[v.Order(anonymous)[0]].Expired(v.clock) {
      var d := DropFront(v, anonymous);
      assert forall k | k in d.Order(anonymous) :: k in v.Order(anonymous);
      ExpireDropsExpired(d, anonymous, key);
    }
  }

  /** The retention is the configured one, or the least time in which the bucket fills, if that is longer. */
  lemma {:induction false} RetentionInNumbers(limit: Limit, minimum: int)
    requires Refillable(limit)
    ensures Retention(limit, minimum) >= minimum
    ensures Retention(limit, minimum) * limit.rate >= limit.burst * NANOS
    ensures Retention(limit, minimum) > minimum ==> (Retention(limit, minimum) - 1) * limit.rate < limit.burst * NANOS
  {
    hide FullRefillNanos, Earned;
    RetentionRefills(limit, minimum, Retention(limit, minimum));
    FullRefillInNumbers(limit, Retention(limit, minimum), NANOS);
    FullRefillIsLeast(limit);
  }

  lemma {:induction false} FullRefillIsLeast(limit: Limit)
    requires limit.Valid()
    ensures (FullRefillNanos(limit) - 1) * limit.rate < limit.burst * NANOS
  {
    hide Ceil;
    var x, r, n := limit.burst as real * NANOS as real, limit.rate as real, FullRefillNanos(limit);
    BelowCeil(x / r, n - 1);
    Scaled((n - 1) as real, x / r, r);
    QuotientTimes(x, r);
    ProductAsReal(n - 1, limit.rate);
    ProductAsReal(limit.burst, NANOS);
  }

  /** Sweeping later than the advertised delay frees a place in a full class. */
  lemma {:induction false} SweepFreesRoom(s: View, c: Config, anonymous: bool, wait: int)
    requires Valid(s, c) && s.Order(anonymous) != []
    requires s.Order(anonymous)[0] in s.buckets && !s.buckets[s.Order(anonymous)[0]].Expired(s.clock)
    requires forall k | k in s.Order(anonymous) :: k in s.buckets
    requires wait >= RoomRetry(s, anonymous)
    ensures wait > 0 && |Swept(s, c, s.clock + wait).Order(anonymous)| < |s.Order(anonymous)|
  {
    var e := s.buckets[s.Order(anonymous)[0]];
    assert e.Expired(s.clock + wait);
    var s' := Swept(s, c, s.clock + wait);
    assert |s'.Order(anonymous)| <= |s.Order(anonymous)|;
  }

  lemma {:induction false} FreshIsGranted(limit: Limit, now: int)
    requires limit.Valid()
    ensures Granted(None, limit, now, NANOS)
  {
  }

  lemma {:induction false} WaitedIsGranted(tokens: real, limit: Limit, last: int, wait: int)
    requires limit.Valid() && tokens < 1.0 && wait >= TokenRetry(tokens, limit)
    ensures wait > 0 && Granted(Some(Bucket(tokens, last)), limit, last + wait, NANOS)
  {
    var n := Ceil((1.0 - tokens) / limit.rate as real * 1000.0);
    assert wait as real * 1000.0 >= n as real * NANOS as real by {
      assert wait * 1000 >= n * MILLISECOND * 1000;
    }
    RetryEarnsToken(tokens, limit, wait, NANOS);
    hide Earned;
  }

  lemma {:induction false} OrderWithin(v: View, c: Config, key: string)
    requires Valid(v, c)
    ensures |v.Order(Anonymous(key))| <= c.Capacity(Anonymous(key))
    ensures key in v.buckets <==> key in v.Order(Anonymous(key))
  {
  }

  /**
   The advertised delay is enough. If a call is refused, for want of tokens or of room, and the key
   is next used after at least the returned delay with no call in between, that call is granted.
   */
  lemma {:induction false} RetrySucceeds(v: View, c: Config, key: string, limit: Limit, now: int, wait: int)
    requires Valid(v, c) && v.clock <= now && limit.Valid()
    requires !AllowSpec(v, c, key, limit, now).1.allowed
    requires wait >= AllowSpec(v, c, key, limit, now).1.retry
    ensures wait > 0
    ensures AllowSpec(AllowSpec(v, c, key, limit, now).0, c, key, limit, now + wait).1.allowed
  {
    hide Valid, Refilled, After, Without, Anonymous, TokenRetry, RoomRetry;
    var s := Swept(v, c, now);
    if !HasRoom(s, c, key) {
      FrontFacts(s, c, Anonymous(key));
      OrderWithin(s, c, key);
      SweepFreesRoom(s, c, Anonymous(key), wait);
      FreshIsGranted(limit, now + wait);
    } else {
      var s1 := Serve(s, key, limit, c);
      ServeKeeps(s, c, key, limit);
      RefusedBucket(s, c, key, limit);
      var tokens := s1.buckets[key].tokens;
      WaitedIsGranted(tokens, limit, now, wait);
      var s2 := Swept(s1, c, now + wait);
      OrderWithin(s1, c, key);
      OrderWithin(s2, c, key);
      FreshIsGranted(limit, now + wait);
    }
  }

  /** A refused bucket is left with what it had, dated to the call. */
  lemma {:induction false} RefusedBucket(s: View, c: Config, key: string, limit: Limit)
    requires Valid(s, c) && limit.Valid()
    requires !Granted(BucketOf(Stored(s.buckets, key)), limit, s.clock, NANOS)
    ensures var b, e := Refilled(BucketOf(Stored(s.buckets, key)), limit, s.clock, NANOS), Serve(s, key, limit, c).buckets[key];
            && e.tokens == b.tokens < 1.0 && e.last == s.clock
  {
    hide Listed, Faithful, Earned;
  }

  // ----- the limiter itself

  class MemoryLimiter {
    var buckets: map<string, Entry>
    var anonymousOrder: seq<string>
    var authenticatedOrder: seq<string>
    var anonymousBuckets: int
    var authenticatedBuckets: int
    const config: Config
    ghost var history: map<string, seq<Call>>
    ghost var clock: int

    constructor (start: int)
      ensures Ok() && history == map[] && buckets == map[] && clock == start
    {
      buckets, anonymousOrder, authenticatedOrder := map[], [], [];
      anonymousBuckets, authenticatedBuckets := 0, 0;
      config := Config(DEFAULT_ANONYMOUS_LIMIT, DEFAULT_AUTHENTICATED_LIMIT, DEFAULT_TTL, DEFAULT_TTL);
      history, clock := map[], start;
    }

    function Order(anonymous: bool): seq<string>
      reads this
    {
      if anonymous then anonymousOrder else authenticatedOrder
    }

    ghost function Contents(): View
      reads this
    {
      View(buckets, anonymousOrder, authenticatedOrder, history, clock)
    }

    ghost predicate Ok()
      reads this
    {
      && Valid(Contents(), config)
      && anonymousBuckets == |anonymousOrder| && authenticatedBuckets == |authenticatedOrder|
    }

    /** Removes the least recently used bucket of one class. */
    method RemoveFront(anonymous: bool)
      requires Contents().Order(anonymous) != []
      requires anonymousBuckets == |anonymousOrder| && authenticatedBuckets == |authenticatedOrder|
      modifies this`buckets, this`anonymousOrder, this`authenticatedOrder,
               this`anonymousBuckets, this`authenticatedBuckets
      ensures Contents() == DropFront(old(Contents()), anonymous)
      ensures anonymousBuckets == |anonymousOrder| && authenticatedBuckets == |authenticatedOrder|
    {
      if anonymous {
        buckets := buckets - {anonymousOrder[0]};
        anonymousOrder, anonymousBuckets := anonymousOrder[1..], anonymousBuckets - 1;
      } else {
        buckets := buckets - {authenticatedOrder[0]};
        authenticatedOrder, authenticatedBuckets := authenticatedOrder[1..], authenticatedBuckets - 1;
      }
    }

    /** Drops expired buckets from the front of one list. */
    method ExpireBuckets(anonymous: bool, now: int)
      requires Ok() && clock == now
      modifies this`buckets, this`anonymousOrder, this`authenticatedOrder,
               this`anonymousBuckets, this`authenticatedBuckets
      ensures Ok() && Distinct(old(Contents()).Order(anonymous))
      ensures forall k | k in old(Contents()).Order(anonymous) :: k in old(buckets)
      ensures Contents() == Expire(old(Contents()), anonymous)
    {
      ghost var v0 := Contents();
      FrontFacts(v0, config, anonymous);
      hide Valid, Distinct, DropFront;
      while Order(anonymous) != []
        invariant Ok()
        invariant Distinct(Contents().Order(anonymous))
        invariant forall k | k in Contents().Order(anonymous) :: k in buckets
        invariant Expire(v0, anonymous) == Expire(Contents(), anonymous)
        decreases |Contents().Order(anonymous)|
      {
        var key := Order(anonymous)[0];
        if now - buckets[key].lastSeen < buckets[key].retention {
          return;
        }
        ghost var v := Contents();
        DropKeeps(v, config, anonymous);
        FrontFacts(DropFront(v, anonymous), config, anonymous);
        DropFrontUnfolds(v, anonymous);
        RemoveFront(anonymous);
      }
    }

    /** The delay until the front of a full class expires. */
    method BucketRoomRetry(anonymous: bool, now: int) returns (retry: int)
      requires clock == now && forall k | k in Contents().Order(anonymous) :: k in buckets
      ensures retry == RoomRetry(Contents(), anonymous)
    {
      var order := Order(anonymous);
      if order == [] {
        return NANOS;
      }
      var e := buckets[order[0]];
      retry := e.lastSeen + e.retention - now;
      if retry <= 0 {
        retry := MILLISECOND;
      }
    }

    /** Moves the key to the back of its list, counting it if it is new. */
    method Touch(key: string)
      requires Ok()
      modifies this`anonymousOrder, this`authenticatedOrder, this`anonymousBuckets, this`authenticatedBuckets
      ensures Contents() == old(Contents()).WithOrder(Anonymous(key), Without(old(Contents()).Order(Anonymous(key)), key) + [key])
      ensures anonymousBuckets == |anonymousOrder| && authenticatedBuckets == |authenticatedOrder|
    {
      var anonymous := Anonymous(key);
      OrderWithin(Contents(), config, key);
      FrontFacts(Contents(), config, anonymous);
      hide Valid, Anonymous, Distinct;
      WithoutLength(Contents().Order(anonymous), key);
      if anonymous {
        if key !in buckets {
          anonymousBuckets := anonymousBuckets + 1;
        }
        anonymousOrder := Without(anonymousOrder, key) + [key];
      } else {
        if key !in buckets {
          authenticatedBuckets := authenticatedBuckets + 1;
        }
        authenticatedOrder := Without(authenticatedOrder, key) + [key];
      }
    }

    /** The bucket of `key` after this call, and the answer. */
    method Charge(key: string, limit: Limit, now: int) returns (e: Entry, allowed: bool, retry: int)
      requires clock == now && limit.Valid()
      ensures e == Serve(Contents(), key, limit, config).buckets[key]
      ensures Answer(allowed, retry) == Decide(Refilled(BucketOf(Stored(buckets, key)), limit, now, NANOS).tokens, limit)
    {
      hide After, Refilled, Anonymous, Without, Retention, TokenRetry;
      ghost var stored := BucketOf(Stored(buckets, key));
      var tokens, last := limit.burst as real, now;
      if key in buckets {
        tokens, last := buckets[key].tokens, buckets[key].last;
      }
      tokens, last := Refill(tokens, last, limit, now, stored);
      allowed, retry := tokens >= 1.0, 0;
      if allowed {
        tokens := tokens - 1.0;
      } else {
        retry := TokenRetry(tokens, limit);
      }
      AfterOf(stored, limit, now);
      e := Entry(tokens, last, now, Retention(limit, config.MinimumTTL(Anonymous(key))));
    }

    /** The part of `Allow` after the room check. */
    method ServeKey(key: string, limit: Limit, now: int) returns (allowed: bool, retry: int)
      requires Ok() && clock == now && limit.Valid() && HasRoom(Contents(), config, key)
      modifies this
      ensures Ok() && Contents() == Serve(old(Contents()), key, limit, config)
      ensures Answer(allowed, retry) == Decide(Refilled(BucketOf(Stored(old(buckets), key)), limit, now, NANOS).tokens, limit)
    {
      hide Valid, Refilled, Anonymous, Without, Serve, TokenRetry;
      ServeKeeps(Contents(), config, key, limit);
      ServeFields(Contents(), key, limit, config);
      var e: Entry;
      e, allowed, retry := Charge(key, limit, now);
      Touch(key);
      buckets := buckets[key := e];
      history := history[key := Past(history, key) + [Call(limit, now, allowed)]];
    }

    /**
     One call. The clock does not run backwards between calls. `AllowIsIdeal` and `RetrySucceeds`
     say what the specified answer means.
     */
    method Allow(key: string, limit: Limit, now: int) returns (allowed: bool, retry: int)
      requires Ok() && clock <= now
      modifies this
      ensures Ok()
      ensures !limit.Valid() ==> !allowed && retry == NANOS && Contents() == old(Contents())
      ensures limit.Valid() ==> (Contents(), Answer(allowed, retry)) == AllowSpec(old(Contents()), config, key, limit, now)
    {
      hide Valid, Swept, Refilled, Distinct, Anonymous, Serve, Expire, RoomRetry, TokenRetry, Decide;
      if !limit.Valid() {
        return false, NANOS;
      }
      AdvanceKeeps(Contents(), config, now);
      SweptUnfolds(Contents(), config, now);
      clock := now;
      ExpireBuckets(true, now);
      ExpireBuckets(false, now);
      ghost var s := Contents();
      assert s == Swept(old(Contents()), config, now);
      var anonymous := Anonymous(key);
      var count := if anonymous then anonymousBuckets else authenticatedBuckets;
      if key !in buckets && count >= config.Capacity(anonymous) {
        FrontFacts(s, config, anonymous);
        retry := BucketRoomRetry(anonymous, now);
        return false, retry;
      }
      allowed, retry := ServeKey(key, limit, now);
    }

    /** The arithmetic of `Allow`, for a stored bucket and for the full one of a new key. */
    method Refill(tokens: real, last: int, limit: Limit, now: int, ghost stored: Option<Bucket>)
      returns (tokens': real, last': int)
      requires limit.Valid()
      requires stored == Some(Bucket(tokens, last)) || (stored == None && tokens == limit.burst as real && last == now)
      ensures Refilled(stored, limit, now, NANOS) == Bucket(tokens', last')
    {
      tokens', last' := MinReal(limit.burst as real, tokens), last;
      var elapsed := now - last;
      if elapsed > 0 {
        tokens' := MinReal(limit.burst as real, tokens' + elapsed as real * limit.rate as real / NANOS as real);
        last' := now;
      }
    }
  }

  lemma {:induction false} ServeFields(v: View, key: string, limit: Limit, c: Config)
    requires limit.Valid()
    ensures var v' := Serve(v, key, limit, c);
            && key in v'.buckets && v'.buckets == v.buckets[key := v'.buckets[key]]
            && v'.history == v.history[key := Past(v.history, key) + [CallOf(v, key, limit)]]
            && v'.clock == v.clock && v'.Order(!Anonymous(key)) == v.Order(!Anonymous(key))
            && v'.Order(Anonymous(key)) == Without(v.Order(Anonymous(key)), key) + [key]
  {
  }

  lemma {:induction false} DropFrontUnfolds(v: View, anonymous: bool)
    requires v.Order(anonymous) != []
    ensures var order := v.Order(anonymous);
            DropFront(v, anonymous) == v.(buckets := v.buckets - {order[0]}).WithOrder(anonymous, order[1..])
  {
  }

  lemma {:induction false} SweptUnfolds(v: View, c: Config, now: int)
    requires Valid(v, c) && v.clock <= now
    ensures var v0 := v.(clock := now);
            && Distinct(v0.Order(true)) && (forall k | k in v0.Order(true) :: k in v0.buckets)
            && var v1 := Expire(v0, true);
               && Distinct(v1.Order(false)) && (forall k | k in v1.Order(false) :: k in v1.buckets)
               && Swept(v, c, now) == Expire(v1, false)
  {
    AdvanceKeeps(v, c, now);
    var v0 := v.(clock := now);
    FrontFacts(v0, c, true);
    ExpireKeeps(v0, c, true);
    FrontFacts(Expire(v0, true), c, false);
  }

  lemma {:induction false} AfterOf(b: Option<Bucket>, limit: Limit, now: int)
    ensures After(b, limit, now, NANOS) ==
            var r := Refilled(b, limit, now, NANOS); if r.tokens >= 1.0 then r.(tokens := r.tokens - 1.0) else r
  {
  }

  lemma {:induction false} WithoutLength(order: seq<string>, key: string)
    requires Distinct(order)
    ensures |Without(order, key)| == |order| - (if key in order then 1 else 0)
  {
    if order != [] {
      WithoutLength(order[1..], key);
      assert key in order <==> key == order[0] || key in order[1..];
    }
  }
}
