/**
 The recorder that holds back a handler's response until its charge is decided. It is
 proved against a recorder without limits.
 */
module ResponseCapture {
  import opened Prelude
  import Text

  type Headers = map<string, seq<string>>

  // ----- header sizes

  function ValuesCost(values: seq<string>): nat {
    if values == [] then 0 else ValuesCost(values[..|values| - 1]) + |values[|values| - 1]| + 2
  }

  function NameCost(name: string, values: seq<string>): nat {
    |name| + 2 + ValuesCost(values)
  }

  /** The size of a header, summed in any order. */
  ghost function HeaderBytes(h: Headers): nat
    decreases |h|
  {
    if h == map[] then 0
    else var name :| name in h; NameCost(name, h[name]) + HeaderBytes(h - {name})
  }

  /** Whichever name is counted first, the sum is the same. */
  lemma {:induction false} AnyOrder(h: Headers, name: string)
    requires name in h
    ensures HeaderBytes(h) == NameCost(name, h[name]) + HeaderBytes(h - {name})
    decreases |h|
  {
    hide NameCost;
    assert h != map[];
    var first :| first in h && HeaderBytes(h) == NameCost(first, h[first]) + HeaderBytes(h - {first});
    if first != name {
      AnyOrder(h - {first}, name);
      AnyOrder(h - {name}, first);
      assert h - {first} - {name} == h - {name} - {first};
    }
  }

  method ComputeHeaderBytes(h: Headers) returns (total: nat)
    ensures total == HeaderBytes(h)
  {
    total := 0;
    var rest := h;
    while rest != map[]
      invariant rest.Keys <= h.Keys && forall name | name in rest :: rest[name] == h[name]
      invariant HeaderBytes(h) == total + HeaderBytes(rest)
      decreases |rest|
    {
      var name :| name in rest;
      AnyOrder(rest, name);
      var cost := |name| + 2;
      var values, i := rest[name], 0;
      while i < |values|
        invariant 0 <= i <= |values| && cost == |name| + 2 + ValuesCost(values[..i])
      {
        assert values[..i + 1][..i] == values[..i];
        cost := cost + |values[i]| + 2;
        i := i + 1;
      }
      assert values[..|values|] == values;
      total := total + cost;
      rest := rest - {name};
    }
  }

  // ----- what a handler may do, and the recorder without limits

  datatype HandlerOp = SetHeaders(headers: Headers) | SetStatus(status: int) | Emit(data: Bytes) | Stream(flush: bool)

  datatype Sheet = Sheet(header: Headers, snapshot: Option<Headers>, status: int, written: Bytes, streamed: bool)

  const BLANK := Sheet(map[], None, 0, [], false)

  /** The first status counts, and the headers are those of the first call. */
  function WithStatus(s: Sheet, status: int): Sheet {
    if s.status != 0 then s
    else s.(status := status, snapshot := if s.snapshot.None? then Some(s.header) else s.snapshot)
  }

  /** A body or a flush without a status means 200. */
  function Started(s: Sheet): Sheet {
    WithStatus(s, 200)
  }

  function Perform(s: Sheet, op: HandlerOp): Sheet {
    match op
    case SetHeaders(h) => s.(header := h)
    case SetStatus(status) => WithStatus(s, status)
    case Emit(data) => Started(s).(written := s.written + data)
    case Stream(flush) => (if flush then Started(s) else s).(streamed := true)
  }

  function PerformAll(s: Sheet, ops: seq<HandlerOp>): Sheet {
    if ops == [] then s else Perform(PerformAll(s, ops[..|ops| - 1]), ops[|ops| - 1])
  }

  /** All the bytes a handler wrote, in order. */
  function Written(ops: seq<HandlerOp>): Bytes {
    if ops == [] then []
    else Written(ops[..|ops| - 1]) + if ops[|ops| - 1].Emit? then ops[|ops| - 1].data else []
  }

  lemma {:induction false} WrittenIsAll(ops: seq<HandlerOp>)
    ensures PerformAll(BLANK, ops).written == Written(ops)
  {
    if ops != [] {
      WrittenIsAll(ops[..|ops| - 1]);
    }
  }

  /** The response fits: no streaming, both header sets and the whole body within their limits. */
  ghost predicate Deliverable(s: Sheet, maxBody: int, maxHeader: int) {
    && !s.streamed && HeaderBytes(s.header) <= maxHeader
    && (s.snapshot.Some? ==> HeaderBytes(s.snapshot.value) <= maxHeader)
    && |s.written| <= maxBody
  }

  datatype Finish = Fine | Streaming | HeaderLimit | BodyLimit

  /** What finishing reports first: streaming, then headers, then the body. */
  ghost function FinishOf(s: Sheet, maxBody: int, maxHeader: int): Finish {
    if s.streamed then Streaming
    else if HeaderBytes(s.header) > maxHeader || (s.snapshot.Some? && HeaderBytes(s.snapshot.value) > maxHeader) then HeaderLimit
    else if |s.written| > maxBody then BodyLimit
    else Fine
  }

  function Clip(b: Bytes, n: nat): Bytes {
    if |b| <= n then b else b[..n]
  }

  class CapturedResponse {
    var header: Headers
    var snapshot: Option<Headers>
    var body: Bytes
    var status: int
    const maxBody: nat
    const maxHeader: int
    var bodyOverflow: bool
    var headerOverflow: bool
    var streamViolation: bool
    ghost var sheet: Sheet

    /** The fields follow the unlimited recorder, except that the body is cut at its limit. */
    ghost predicate Valid()
      reads this
    {
      && header == sheet.header && snapshot == sheet.snapshot && status == sheet.status
      && streamViolation == sheet.streamed
      && body == Clip(sheet.written, maxBody)
      && (bodyOverflow <==> |sheet.written| > maxBody)
      && (headerOverflow <==> sheet.snapshot.Some? && HeaderBytes(sheet.snapshot.value) > maxHeader)
    }

    constructor (maxBody: nat, maxHeader: int)
      ensures Valid() && sheet == BLANK && this.maxBody == maxBody && this.maxHeader == maxHeader
    {
      this.maxBody, this.maxHeader := maxBody, maxHeader;
      header, snapshot, body, status := map[], None, [], 0;
      bodyOverflow, headerOverflow, streamViolation := false, false, false;
      sheet := BLANK;
    }

    method ReplaceHeaders(h: Headers)
      requires Valid()
      modifies this
      ensures Valid() && sheet == Perform(old(sheet), SetHeaders(h))
    {
      header := h;
      sheet := Perform(sheet, SetHeaders(h));
    }

    method SnapshotHeaders()
      requires header == sheet.header && snapshot == sheet.snapshot
      requires headerOverflow <==> sheet.snapshot.Some? && HeaderBytes(sheet.snapshot.value) > maxHeader
      modifies this`snapshot, this`headerOverflow
      ensures snapshot == (if sheet.snapshot.None? then Some(sheet.header) else sheet.snapshot)
      ensures headerOverflow <==> HeaderBytes(snapshot.value) > maxHeader
    {
      if snapshot.Some? {
        return;
      }
      snapshot := Some(header);
      var size := ComputeHeaderBytes(snapshot.value);
      if size > maxHeader {
        headerOverflow := true;
      }
    }

    method WriteHeader(code: int)
      requires Valid()
      modifies this
      ensures Valid() && sheet == WithStatus(old(sheet), code)
      ensures body == old(body)
    {
      if status != 0 {
        return;
      }
      status := code;
      SnapshotHeaders();
      sheet := WithStatus(sheet, code);
    }

    /** Reports the full length even when the body is cut. */
    method Write(data: Bytes) returns (count: nat, overflow: bool)
      requires Valid()
      modifies this
      ensures Valid() && sheet == Perform(old(sheet), Emit(data))
      ensures count == |data| && (overflow <==> |old(body)| + |data| > maxBody)
    {
      if status == 0 {
        WriteHeader(200);
      }
      var remaining := maxBody - |body|;
      sheet := sheet.(written := sheet.written + data);
      if remaining < |data| {
        bodyOverflow := true;
        if remaining > 0 {
          body := body + data[..remaining];
        }
        return |data|, true;
      }
      body := body + data;
      return |data|, false;
    }

    method Flush()
      requires Valid()
      modifies this
      ensures Valid() && sheet == Perform(old(sheet), Stream(true))
    {
      streamViolation := true;
      sheet := sheet.(streamed := true);
      if status == 0 {
        WriteHeader(200);
      }
    }

    /** `Hijack` and `Push`: refused and remembered. */
    method Refuse()
      requires Valid()
      modifies this
      ensures Valid() && sheet == Perform(old(sheet), Stream(false))
    {
      streamViolation := true;
      sheet := sheet.(streamed := true);
    }

    /** Succeeds exactly on a deliverable response, and then holds every byte of it. */
    method Close() returns (r: Finish)
      requires Valid()
      modifies this
      ensures sheet == Started(old(sheet))
      ensures r.Fine? <==> Deliverable(sheet, maxBody, maxHeader)
      ensures r.Fine? ==> body == sheet.written && status == sheet.status && snapshot == sheet.snapshot
      ensures r == FinishOf(sheet, maxBody, maxHeader)
    {
      if status == 0 {
        WriteHeader(200);
      }
      var size := ComputeHeaderBytes(header);
      if size > maxHeader {
        headerOverflow := true;
      }
      if streamViolation {
        return Streaming;
      }
      if headerOverflow {
        return HeaderLimit;
      }
      if bodyOverflow {
        return BodyLimit;
      }
      return Fine;
    }

    /** A handler's calls, one after another. */
    method Play(ops: seq<HandlerOp>)
      requires Valid() && sheet == BLANK
      modifies this
      ensures Valid() && sheet == PerformAll(BLANK, ops)
    {
      var i := 0;
      while i < |ops|
        invariant 0 <= i <= |ops| && Valid() && sheet == PerformAll(BLANK, ops[..i])
      {
        assert ops[..i + 1][..i] == ops[..i];
        match ops[i] {
          case SetHeaders(h) => ReplaceHeaders(h);
          case SetStatus(code) => WriteHeader(code);
          case Emit(data) =>
            var count, overflow := Write(data);
          case Stream(flush) =>
            if flush {
              Flush();
            } else {
              Refuse();
            }
        }
        i := i + 1;
      }
      assert ops[..|ops|] == ops;
    }
  }

  // ----- releasing the headers

  /** The spelling rules of the HTTP and string libraries. */
  datatype Spelling = Spelling(
    canonical: string -> string, lower: string -> string, trim: string -> string, same: (string, string) -> bool)

  const HELD_BACK: set<string> := {
    "Connection", "Keep-Alive", "Proxy-Authenticate", "Proxy-Authorization", "Te", "Trailer",
    "Transfer-Encoding", "Upgrade", "Set-Cookie", "Content-Length", "X-Request-Id", "Cache-Control",
    "X-Content-Type-Options", "Content-Security-Policy", "Referrer-Policy", "Permissions-Policy",
    "Access-Control-Allow-Origin", "Access-Control-Expose-Headers", "Access-Control-Allow-Credentials", "Vary"}

  /** One of the parts names this header. */
  ghost predicate NamedIn(parts: seq<string>, spelling: Spelling, name: string) {
    name != "" && exists i | 0 <= i < |parts| :: spelling.canonical(spelling.trim(parts[i])) == name
  }

  ghost predicate ListedIn(values: seq<string>, spelling: Spelling, name: string) {
    exists i | 0 <= i < |values| :: NamedIn(Text.Split(values[i], ','), spelling, name)
  }

  /** A connection header, among those visited, lists this name. */
  ghost predicate Listed(source: Headers, visited: set<string>, spelling: Spelling, name: string) {
    exists key | key in visited && key in source && spelling.same(key, "Connection") :: ListedIn(source[key], spelling, name)
  }

  lemma {:induction false} NamedUpTo(parts: seq<string>, i: nat, spelling: Spelling, name: string)
    requires i < |parts|
    ensures NamedIn(parts[..i + 1], spelling, name) <==>
            NamedIn(parts[..i], spelling, name) || (name != "" && spelling.canonical(spelling.trim(parts[i])) == name)
  {
    assert parts[..i + 1] == parts[..i] + [parts[i]];
    assert parts[..i + 1][i] == parts[i] && forall k | 0 <= k < i :: parts[..i + 1][k] == parts[..i][k];
  }

  lemma {:induction false} ListedUpTo(values: seq<string>, i: nat, spelling: Spelling, name: string)
    requires i < |values|
    ensures ListedIn(values[..i + 1], spelling, name) <==>
            ListedIn(values[..i], spelling, name) || NamedIn(Text.Split(values[i], ','), spelling, name)
  {
    hide NamedIn;
    assert values[..i + 1][i] == values[i] && forall k | 0 <= k < i :: values[..i + 1][k] == values[..i][k];
  }

  lemma {:induction false} ListedOne(source: Headers, visited: set<string>, key: string, spelling: Spelling, name: string)
    requires key in source
    ensures Listed(source, visited + {key}, spelling, name) <==>
            Listed(source, visited, spelling, name) || (spelling.same(key, "Connection") && ListedIn(source[key], spelling, name))
  {
    hide ListedIn;
  }

  method TokenNames(value: string, spelling: Spelling) returns (r: set<string>)
    ensures forall name :: name in r <==> NamedIn(Text.Split(value, ','), spelling, name)
  {
    hide NamedIn, Text.Split;
    var parts := Text.Split(value, ',');
    r := {};
    var i := 0;
    NothingNamed(spelling);
    assert parts[..0] == [];
    while i < |parts|
      invariant 0 <= i <= |parts| && forall name :: name in r <==> NamedIn(parts[..i], spelling, name)
    {
      var canonical := spelling.canonical(spelling.trim(parts[i]));
      forall name ensures name in r || (name != "" && name == canonical) <==> NamedIn(parts[..i + 1], spelling, name) {
        NamedUpTo(parts, i, spelling, name);
      }
      if canonical != "" {
        r := r + {canonical};
      }
      i := i + 1;
    }
    assert parts[..|parts|] == parts;
  }

  lemma {:induction false} NothingNamed(spelling: Spelling)
    ensures forall name :: !NamedIn([], spelling, name) && !ListedIn([], spelling, name)
  {
  }

  method ListedNames(values: seq<string>, spelling: Spelling) returns (r: set<string>)
    ensures forall name :: name in r <==> ListedIn(values, spelling, name)
  {
    hide NamedIn, ListedIn, Text.Split;
    r := {};
    var i := 0;
    NothingNamed(spelling);
    assert values[..0] == [];
    while i < |values|
      invariant 0 <= i <= |values| && forall name :: name in r <==> ListedIn(values[..i], spelling, name)
    {
      var more := TokenNames(values[i], spelling);
      forall name ensures name in r + more <==> ListedIn(values[..i + 1], spelling, name) {
        ListedUpTo(values, i, spelling, name);
      }
      r := r + more;
      i := i + 1;
    }
    assert values[..|values|] == values;
  }

  /** The names that the connection headers list. */
  method ConnectionNames(source: Headers, spelling: Spelling) returns (r: set<string>)
    ensures forall name :: name in r <==> Listed(source, source.Keys, spelling, name)
  {
    hide ListedIn, Listed;
    r := {};
    var rest := source.Keys;
    ghost var visited: set<string> := {};
    assert forall name :: !Listed(source, {}, spelling, name) by { NothingListed(source, spelling); }
    while rest != {}
      invariant rest + visited == source.Keys
      invariant forall name :: name in r <==> Listed(source, visited, spelling, name)
      decreases |rest|
    {
      var key :| key in rest;
      forall name
        ensures Listed(source, visited + {key}, spelling, name) <==>
                name in r || (spelling.same(key, "Connection") && ListedIn(source[key], spelling, name))
      {
        ListedOne(source, visited, key, spelling, name);
      }
      if spelling.same(key, "Connection") {
        var more := ListedNames(source[key], spelling);
        r := r + more;
      }
      rest, visited := rest - {key}, visited + {key};
    }
    assert visited == source.Keys;
  }

  lemma {:induction false} NothingListed(source: Headers, spelling: Spelling)
    ensures forall name :: !Listed(source, {}, spelling, name)
  {
  }

  predicate Forbidden(name: string, connection: set<string>, spelling: Spelling) {
    name in connection || name in HELD_BACK || "payment-" <= spelling.lower(name)
  }

  /** A header that stays behind: hop-by-hop, reserved to this server, or about payments. */
  ghost predicate Held(source: Headers, spelling: Spelling, name: string) {
    Listed(source, source.Keys, spelling, name) || name in HELD_BACK || "payment-" <= spelling.lower(name)
  }

  /** Some captured header, among those visited, has this canonical name and these values. */
  ghost predicate Carries(source: Headers, visited: set<string>, name: string, values: seq<string>, spelling: Spelling) {
    exists key | key in visited && key in source :: spelling.canonical(key) == name && source[key] == values
  }

  ghost predicate Carried(source: Headers, visited: set<string>, name: string, spelling: Spelling) {
    exists key | key in visited && key in source :: spelling.canonical(key) == name
  }

  function ValuesOf(h: Headers, name: string): seq<string> {
    if name in h then h[name] else []
  }

  /**
   A captured header is copied under its canonical name unless it is held back, and one without
   values removes that name; every other header of the destination, and every name held back,
   keeps its value.
   */
  ghost predicate Released(
    r: Headers, destination: Headers, source: Headers, visited: set<string>, held: bool, spelling: Spelling, name: string)
  {
    if !held && Carried(source, visited, name, spelling)
    then Carries(source, visited, name, ValuesOf(r, name), spelling) && (name in r ==> r[name] != [])
    else (name in r <==> name in destination) && ValuesOf(r, name) == ValuesOf(destination, name)
  }

  function Replace(h: Headers, name: string, values: seq<string>): Headers {
    if values == [] then h - {name} else h[name := values]
  }

  lemma {:induction false} ReleaseOne(
    r: Headers, destination: Headers, source: Headers, visited: set<string>, key: string, held: bool, spelling: Spelling, name: string)
    requires key in source && Released(r, destination, source, visited, held, spelling, name)
    ensures var q := if held || spelling.canonical(key) != name then r else Replace(r, name, source[key]);
            Released(q, destination, source, visited + {key}, held, spelling, name)
  {
    if spelling.canonical(key) == name {
      assert Carries(source, visited + {key}, name, source[key], spelling);
      assert Carried(source, visited + {key}, name, spelling);
    } else {
      forall v | Carries(source, visited, name, v, spelling) ensures Carries(source, visited + {key}, name, v, spelling) {
        var k :| k in visited && k in source && spelling.canonical(k) == name && source[k] == v;
        assert k in visited + {key};
      }
      assert Carried(source, visited + {key}, name, spelling) <==> Carried(source, visited, name, spelling);
    }
  }

  lemma {:induction false} ReleasedElsewhere(
    r: Headers, q: Headers, destination: Headers, source: Headers, visited: set<string>, held: bool, spelling: Spelling, name: string)
    requires Released(r, destination, source, visited, held, spelling, name)
    requires (name in q <==> name in r) && (name in r ==> q[name] == r[name])
    ensures Released(q, destination, source, visited, held, spelling, name)
  {
  }

  /** What the client is given: every name obeys the rule. */
  ghost predicate Delivered(r: Headers, destination: Headers, source: Headers, spelling: Spelling) {
    forall name :: Released(r, destination, source, source.Keys, Held(source, spelling, name), spelling, name)
  }

  method ReleaseHeaders(destination: Headers, source: Headers, spelling: Spelling) returns (r: Headers)
    ensures Delivered(r, destination, source, spelling)
  {
    hide Forbidden, Released, Held;
    var connection := ConnectionNames(source, spelling);
    forall name ensures Forbidden(name, connection, spelling) <==> Held(source, spelling, name) {
      ForbiddenIsHeld(name, connection, source, spelling);
    }
    r := destination;
    var rest := source.Keys;
    ghost var visited: set<string> := {};
    forall name ensures Released(r, destination, source, {}, Held(source, spelling, name), spelling, name) {
      NothingReleased(destination, source, Held(source, spelling, name), spelling, name);
    }
    while rest != {}
      invariant rest + visited == source.Keys
      invariant forall name :: Released(r, destination, source, visited, Held(source, spelling, name), spelling, name)
      decreases |rest|
    {
      var key :| key in rest;
      var target := spelling.canonical(key);
      ghost var before := r;
      if !Forbidden(target, connection, spelling) {
        r := Replace(r, target, source[key]);
      }
      forall name ensures Released(r, destination, source, visited + {key}, Held(source, spelling, name), spelling, name) {
        var held := Held(source, spelling, name);
        ReleaseOne(before, destination, source, visited, key, held, spelling, name);
        var q := if held || target != name then before else Replace(before, name, source[key]);
        ReleasedElsewhere(q, r, destination, source, visited + {key}, held, spelling, name);
      }
      rest, visited := rest - {key}, visited + {key};
    }
    assert visited == source.Keys;
  }

  lemma {:induction false} ForbiddenIsHeld(name: string, connection: set<string>, source: Headers, spelling: Spelling)
    requires name in connection <==> Listed(source, source.Keys, spelling, name)
    ensures Forbidden(name, connection, spelling) <==> Held(source, spelling, name)
  {
    hide Listed;
  }

  lemma {:induction false} NothingReleased(destination: Headers, source: Headers, held: bool, spelling: Spelling, name: string)
    ensures Released(destination, destination, source, {}, held, spelling, name)
  {
  }

  // ----- in numbers

  lemma {:induction false} OneMoreValue(values: seq<string>, v: string)
    ensures ValuesCost(values + [v]) == ValuesCost(values) + |v| + 2 && ValuesCost([]) == 0
  {
    assert (values + [v])[..|values|] == values;
  }

  /** A new header adds its name and each of its values, with two bytes for each. */
  lemma {:induction false} HeaderCost(h: Headers, name: string, values: seq<string>)
    requires name !in h
    ensures HeaderBytes(map[]) == 0
    ensures HeaderBytes(h[name := values]) == HeaderBytes(h) + |name| + 2 + ValuesCost(values)
  {
    AnyOrder(h[name := values], name);
    assert h[name := values] - {name} == h;
  }

  /** The headers that a handler has set so far. */
  function HeadersAfter(ops: seq<HandlerOp>): Headers {
    if ops == [] then map[]
    else if ops[|ops| - 1].SetHeaders? then ops[|ops| - 1].headers else HeadersAfter(ops[..|ops| - 1])
  }

  /** The status that a call starts the response with, if it is the first to do so. */
  function StartsWith(op: HandlerOp): int {
    match op
    case SetStatus(status) => status
    case Emit(_) => 200
    case Stream(flush) => if flush then 200 else 0
    case SetHeaders(_) => 0
  }

  lemma {:induction false} Unstarted(ops: seq<HandlerOp>)
    requires forall i | 0 <= i < |ops| :: ops[i].SetHeaders? || ops[i] == Stream(false)
    ensures var s := PerformAll(BLANK, ops); s.status == 0 && s.snapshot.None? && s.header == HeadersAfter(ops)
  {
    if ops != [] {
      var n := |ops| - 1;
      Unstarted(ops[..n]);
      assert ops[n].SetHeaders? || ops[n] == Stream(false);
    }
  }

  /** The first call with a status, a body or a flush fixes the status and the headers; what follows changes neither. */
  lemma {:induction false} FirstCallCounts(ops: seq<HandlerOp>, k: nat)
    requires k < |ops| && StartsWith(ops[k]) != 0
    requires forall i | 0 <= i < k :: ops[i].SetHeaders? || ops[i] == Stream(false)
    ensures var s := PerformAll(BLANK, ops);
            s.status == StartsWith(ops[k]) && s.snapshot == Some(HeadersAfter(ops[..k]))
  {
    var n := |ops| - 1;
    if k < n {
      FirstCallCounts(ops[..n], k);
      assert ops[..n][..k] == ops[..k];
    } else {
      Unstarted(ops[..k]);
    }
  }

  /** Hop-by-hop headers, cookies, lengths, caching, security and payment headers of a handler never replace the server's own. */
  lemma {:induction false} ServerKeepsItsOwn(r: Headers, destination: Headers, source: Headers, spelling: Spelling, name: string)
    requires Delivered(r, destination, source, spelling)
    requires name in {"Connection", "Keep-Alive", "Proxy-Authenticate", "Proxy-Authorization", "Te", "Trailer",
                      "Transfer-Encoding", "Upgrade", "Set-Cookie", "Content-Length"}
             || name in {"X-Request-Id", "Cache-Control", "X-Content-Type-Options", "Content-Security-Policy", "Referrer-Policy",
                         "Permissions-Policy", "Access-Control-Allow-Origin", "Access-Control-Expose-Headers",
                         "Access-Control-Allow-Credentials", "Vary"}
             || "payment-" <= spelling.lower(name)
    ensures (name in r <==> name in destination) && ValuesOf(r, name) == ValuesOf(destination, name)
  {
    hide Carried, Carries, Listed;
    assert Released(r, destination, source, source.Keys, Held(source, spelling, name), spelling, name);
  }

  /** Any other header that no connection header lists is the handler's. */
  lemma {:induction false} HandlerSetsTheRest(r: Headers, destination: Headers, source: Headers, spelling: Spelling, key: string)
    requires Delivered(r, destination, source, spelling) && key in source
    requires var name := spelling.canonical(key);
             name !in HELD_BACK && !("payment-" <= spelling.lower(name)) && !Listed(source, source.Keys, spelling, name)
    requires forall k | k in source && spelling.canonical(k) == spelling.canonical(key) :: k == key
    ensures ValuesOf(r, spelling.canonical(key)) == source[key]
  {
    hide Listed;
    var name := spelling.canonical(key);
    assert Released(r, destination, source, source.Keys, Held(source, spelling, name), spelling, name);
    assert Carried(source, source.Keys, name, spelling);
    assert Carries(source, source.Keys, name, ValuesOf(r, name), spelling);
  }

  /** Empty parts of a connection header name nothing. */
  lemma {:induction false} EmptyIsNotListed(source: Headers, visited: set<string>, spelling: Spelling)
    ensures !Listed(source, visited, spelling, "")
  {
  }
}
