/**
 The encoding of the Solidity Contract ABI Specification, section "Formal Specification of
 the Encoding", and the proof that the reference decoder inverts it.
 */
module AbiEncoding {
  import opened Prelude
  import opened AbiTypes

  /** `v` is a value of type `t`; slice counts fit in a uint256. */
  predicate HasType(v: Value, t: AbiType) {
    match t
    case Missing => false
    case Word => v.VWord? && |v.word| == 32
    case Blob => v.VBlob?
    case FixedArray(n, e) =>
      v.VArray? && |v.elems| == n && forall i | 0 <= i < |v.elems| :: HasType(v.elems[i], e)
    case Slice(_, e) =>
      v.VList? && |v.elems| < UINT256_BOUND && forall i | 0 <= i < |v.elems| :: HasType(v.elems[i], e)
    case Tuple(fs) =>
      v.VTuple? && |v.elems| == |fs| && forall i | 0 <= i < |fs| :: HasType(v.elems[i], fs[i])
  }

  predicate HaveTypes(vs: seq<Value>, ts: seq<AbiType>) {
    |vs| == |ts| && forall i | 0 <= i < |ts| :: HasType(vs[i], ts[i])
  }

  // ----- words

  /** The low `k` bytes of `n`, most significant first. */
  function ToBytes(n: nat, k: nat): (s: Bytes)
    ensures |s| == k
  {
    if k == 0 then [] else ToBytes(n / 256, k - 1) + [n % 256]
  }

  function WordOf(n: nat): (s: Bytes)
    ensures |s| == 32
  {
    ToBytes(n, WordSize())
  }

  lemma {:induction false} BytesRoundTrip(n: nat, k: nat)
    requires n < Pow256(k)
    ensures BigEndian(ToBytes(n, k)) == n
  {
    if k > 0 {
      BytesRoundTrip(n / 256, k - 1);
      var s := ToBytes(n, k);
      assert s[..|s| - 1] == ToBytes(n / 256, k - 1);
    }
  }

  lemma {:induction false} Pow256Grows(a: nat, b: nat)
    requires a <= b
    ensures Pow256(a) <= Pow256(b)
    decreases b
  {
    if a < b {
      Pow256Grows(a, b - 1);
    }
  }

  lemma {:induction false} LengthsFit(n: nat)
    requires n <= MAX_INT64
    ensures n < UINT256_BOUND
  {
    EightBytesHoldLengths();
    Pow256Grows(8, WordSize());
  }

  // ----- layout of a tuple, whatever its components are

  /** An encoded component and whether it is stored behind an offset. */
  datatype Part = Part(dynamic: bool, enc: Bytes) {
    function Head(offset: nat): Bytes {
      if dynamic then WordOf(offset) else enc
    }

    function Tail(): Bytes {
      if dynamic then enc else []
    }
  }

  datatype Parts = End | More(first: Part, rest: Parts)

  /** All heads; `offset` is where the first tail starts. */
  function Heads(parts: Parts, offset: nat): Bytes
    decreases parts
  {
    match parts
    case End => []
    case More(p, rest) => p.Head(offset) + Heads(rest, offset + |p.Tail()|)
  }

  function Tails(parts: Parts): Bytes {
    match parts
    case End => []
    case More(p, rest) => p.Tail() + Tails(rest)
  }

  function HeadLength(parts: Parts): nat {
    match parts
    case End => 0
    case More(p, rest) => (if p.dynamic then 32 else |p.enc|) + HeadLength(rest)
  }

  predicate AllStatic(parts: Parts) {
    parts.More? ==> !parts.first.dynamic && AllStatic(parts.rest)
  }

  function Layout(parts: Parts): Bytes {
    Heads(parts, HeadLength(parts)) + Tails(parts)
  }

  lemma {:induction false} HeadsLength(parts: Parts, offset: nat)
    ensures |Heads(parts, offset)| == HeadLength(parts)
    decreases parts
  {
    if parts.More? {
      HeadsLength(parts.rest, offset + |parts.first.Tail()|);
    }
  }

  lemma {:induction false} NoTails(parts: Parts)
    requires AllStatic(parts)
    ensures Tails(parts) == []
  {
    if parts.More? {
      NoTails(parts.rest);
    }
  }

  // ----- encoder

  function Encode(t: AbiType, v: Value): Bytes
    requires HasType(v, t)
    decreases t, 0, 0
  {
    match t
    case Word => v.word
    case Blob => WordOf(|v.content|) + v.content + seq((32 - |v.content| % 32) % 32, _ => 0)
    case FixedArray(_, e) => Layout(PartsOfMany(e, v.elems))
    case Slice(_, e) => WordOf(|v.elems|) + Layout(PartsOfMany(e, v.elems))
    case Tuple(fs) => Layout(PartsOf(fs, v.elems))
  }

  function PartsOfMany(t: AbiType, vs: seq<Value>): Parts
    requires forall i | 0 <= i < |vs| :: HasType(vs[i], t)
    decreases t, 1, |vs|
  {
    if vs == [] then End else More(Part(IsDynamic(t), Encode(t, vs[0])), PartsOfMany(t, vs[1..]))
  }

  function PartsOf(ts: seq<AbiType>, vs: seq<Value>): Parts
    requires HaveTypes(vs, ts)
    decreases ts, 0, 0
  {
    if ts == [] then End else More(Part(IsDynamic(ts[0]), Encode(ts[0], vs[0])), PartsOf(ts[1..], vs[1..]))
  }

  lemma {:induction false} StaticLength(t: AbiType, v: Value)
    requires HasType(v, t) && !IsDynamic(t)
    ensures |Encode(t, v)| == HeadSize(t)
    decreases t, 0, 0
  {
    match t
    case Word =>
    case FixedArray(n, e) =>
      var parts := PartsOfMany(e, v.elems);
      HeadLengthOfMany(e, v.elems);
      HeadsLength(parts, HeadLength(parts));
      NoTails(parts);
      StrideIsProduct(HeadSize(e), n);
    case Tuple(fs) =>
      var parts := PartsOf(fs, v.elems);
      HeadLengthOf(fs, v.elems);
      HeadsLength(parts, HeadLength(parts));
      NoTails(parts);
  }

  lemma {:induction false} HeadLengthOfMany(t: AbiType, vs: seq<Value>)
    requires forall i | 0 <= i < |vs| :: HasType(vs[i], t)
    ensures HeadLength(PartsOfMany(t, vs)) == Stride(HeadSize(t), |vs|)
    ensures !IsDynamic(t) ==> AllStatic(PartsOfMany(t, vs))
    decreases t, 1, |vs|
  {
    if vs != [] {
      if !IsDynamic(t) {
        StaticLength(t, vs[0]);
      }
      HeadLengthOfMany(t, vs[1..]);
    }
  }

  lemma {:induction false} HeadLengthOf(ts: seq<AbiType>, vs: seq<Value>)
    requires HaveTypes(vs, ts)
    ensures HeadLength(PartsOf(ts, vs)) == HeadSizes(ts)
    ensures (forall i | 0 <= i < |ts| :: !IsDynamic(ts[i])) ==> AllStatic(PartsOf(ts, vs))
    decreases ts, 0, 0
  {
    if ts != [] {
      if !IsDynamic(ts[0]) {
        StaticLength(ts[0], vs[0]);
      }
      HeadLengthOf(ts[1..], vs[1..]);
    }
  }

  // ----- decoding what was encoded

  /** `part` is what `data` holds at `position`. */
  predicate Holds(data: Bytes, position: nat, part: Bytes)
    decreases |part|
  {
    position <= |data| &&
    (part == [] || (position < |data| && data[position] == part[0] && Holds(data, position + 1, part[1..])))
  }

  lemma {:induction false} Held(data: Bytes, position: nat, part: Bytes)
    requires Holds(data, position, part)
    ensures position + |part| <= |data| && data[position..position + |part|] == part
    decreases |part|
  {
    if part != [] {
      Held(data, position + 1, part[1..]);
    }
  }

  lemma {:induction false} HoldsSlice(data: Bytes, position: nat, part: Bytes)
    requires position + |part| <= |data| && data[position..position + |part|] == part
    ensures Holds(data, position, part)
    decreases |part|
  {
    if part != [] {
      assert data[position + 1..position + |part|] == data[position..position + |part|][1..];
      HoldsSlice(data, position + 1, part[1..]);
    }
  }

  lemma {:induction false} HoldsConcat(data: Bytes, position: nat, a: Bytes, b: Bytes)
    requires Holds(data, position, a + b)
    ensures Holds(data, position, a) && Holds(data, position + |a|, b)
    ensures position + |a| + |b| <= |data|
  {
    Held(data, position, a + b);
    var whole := data[position..position + |a + b|];
    assert data[position..position + |a|] == whole[..|a|] == a;
    assert data[position + |a|..position + |a| + |b|] == whole[|a|..] == b;
    HoldsSlice(data, position, a);
    HoldsSlice(data, position + |a|, b);
  }

  lemma {:induction false} WordRoundTrip(data: Bytes, position: nat, n: nat)
    requires Holds(data, position, WordOf(n)) && n < UINT256_BOUND
    ensures position + 32 <= |data| && Uint(data, position) == n
  {
    Held(data, position, WordOf(n));
    BytesRoundTrip(n, WordSize());
  }

  /** A held blob of `n` bytes behind its length word reads back as itself. */
  lemma {:induction false} DecodeHeldBlob(content: Bytes, data: Bytes, position: nat)
    requires |data| <= MAX_INT64
    requires Holds(data, position, WordOf(|content|)) && Holds(data, position + 32, content)
    ensures DecodeBody(Blob, data, position) == Some(VBlob(content))
  {
    Held(data, position + 32, content);
    assert Uint(data, position) == |content| by {
      LengthsFit(|content|);
      WordRoundTrip(data, position, |content|);
    }
  }

  /** Every component's head lies in sequence from `cursor`, its tail in sequence from `base + offset`. */
  predicate LaidOut(parts: Parts, data: Bytes, base: nat, cursor: nat, offset: nat)
    decreases parts
  {
    match parts
    case End => true
    case More(p, rest) =>
      && Holds(data, cursor, p.Head(offset)) && Holds(data, base + offset, p.Tail())
      && LaidOut(rest, data, base, cursor + |p.Head(offset)|, offset + |p.Tail()|)
  }

  lemma {:induction false} HeldIsLaidOut(parts: Parts, data: Bytes, base: nat, cursor: nat, offset: nat)
    requires |data| <= MAX_INT64
    requires Holds(data, cursor, Heads(parts, offset)) && Holds(data, base + offset, Tails(parts))
    ensures LaidOut(parts, data, base, cursor, offset)
    decreases parts
  {
    hide Holds, WordOf;
    if parts.More? {
      var head, tail := parts.first.Head(offset), parts.first.Tail();
      HoldsConcat(data, cursor, head, Heads(parts.rest, offset + |tail|));
      HoldsConcat(data, base + offset, tail, Tails(parts.rest));
      HeldIsLaidOut(parts.rest, data, base, cursor + |head|, offset + |tail|);
    }
  }

  /** Wherever the encoding of `v` lies, the reference decoder reads `v` back. */
  lemma {:induction false} DecodeEncoded(t: AbiType, v: Value, data: Bytes, position: nat)
    requires HasType(v, t) && |data| <= MAX_INT64
    requires Holds(data, position, Encode(t, v))
    ensures DecodeBody(t, data, position) == Some(v)
    decreases t, 1, 0
  {
    match t
    case Word => Held(data, position, v.word);
    case Blob =>
      var pad: Bytes := seq((32 - |v.content| % 32) % 32, _ => 0);
      HoldsConcat(data, position, WordOf(|v.content|) + v.content, pad);
      HoldsConcat(data, position, WordOf(|v.content|), v.content);
      DecodeHeldBlob(v.content, data, position);
    case FixedArray(_, e) =>
      var parts := PartsOfMany(e, v.elems);
      LayoutIsLaidOut(parts, data, position);
      DecodePartsMany(e, v.elems, parts, data, position, position, HeadLength(parts));
    case Slice(_, e) =>
      var parts := PartsOfMany(e, v.elems);
      HoldsConcat(data, position, WordOf(|v.elems|), Layout(parts));
      WordRoundTrip(data, position, |v.elems|);
      LayoutIsLaidOut(parts, data, position + 32);
      DecodePartsMany(e, v.elems, parts, data, position + 32, position + 32, HeadLength(parts));
    case Tuple(fs) =>
      var parts := PartsOf(fs, v.elems);
      LayoutIsLaidOut(parts, data, position);
      DecodeParts(fs, v.elems, parts, data, position, position, HeadLength(parts));
  }

  lemma {:induction false} DecodePart(t: AbiType, v: Value, data: Bytes, base: nat, cursor: nat, offset: nat)
    requires HasType(v, t) && |data| <= MAX_INT64
    requires Holds(data, cursor, Part(IsDynamic(t), Encode(t, v)).Head(offset))
    requires Holds(data, base + offset, Part(IsDynamic(t), Encode(t, v)).Tail())
    ensures DecodeAt(t, data, base, cursor) == Some(v)
    ensures |Part(IsDynamic(t), Encode(t, v)).Head(offset)| == HeadSize(t)
    decreases t, 1, 1
  {
    hide Holds, Encode, WordOf, DecodeBody, HasType;
    if IsDynamic(t) {
      Held(data, base + offset, Encode(t, v));
      LengthsFit(offset);
      WordRoundTrip(data, cursor, offset);
      DecodeEncoded(t, v, data, base + offset);
    } else {
      DecodeEncoded(t, v, data, cursor);
      StaticLength(t, v);
    }
  }

  lemma {:induction false} AssembleFields(ts: seq<AbiType>, vs: seq<Value>, data: Bytes, base: nat, cursor: nat)
    requires |ts| == |vs| && ts != []
    requires DecodeAt(ts[0], data, base, cursor) == Some(vs[0])
    requires DecodeFields(ts[1..], data, base, cursor + HeadSize(ts[0])) == Some(vs[1..])
    ensures DecodeFields(ts, data, base, cursor) == Some(vs)
  {
    assert vs == [vs[0]] + vs[1..];
  }

  lemma {:induction false} AssembleMany(t: AbiType, vs: seq<Value>, data: Bytes, base: nat, cursor: nat)
    requires vs != []
    requires DecodeAt(t, data, base, cursor) == Some(vs[0])
    requires DecodeMany(t, |vs| - 1, data, base, cursor + HeadSize(t)) == Some(vs[1..])
    ensures DecodeMany(t, |vs|, data, base, cursor) == Some(vs)
  {
    assert vs == [vs[0]] + vs[1..];
  }

  lemma {:induction false} DecodeParts(
    ts: seq<AbiType>, vs: seq<Value>, parts: Parts, data: Bytes, base: nat, cursor: nat, offset: nat)
    requires HaveTypes(vs, ts) && parts == PartsOf(ts, vs) && |data| <= MAX_INT64
    requires LaidOut(parts, data, base, cursor, offset)
    ensures DecodeFields(ts, data, base, cursor) == Some(vs)
    decreases ts, 0, 0
  {
    hide Holds, Encode, WordOf, DecodeBody, HasType;
    if ts != [] {
      DecodePart(ts[0], vs[0], data, base, cursor, offset);
      DecodeParts(ts[1..], vs[1..], parts.rest, data, base, cursor + HeadSize(ts[0]), offset + |parts.first.Tail()|);
      AssembleFields(ts, vs, data, base, cursor);
    }
  }

  lemma {:induction false} DecodePartsMany(
    t: AbiType, vs: seq<Value>, parts: Parts, data: Bytes, base: nat, cursor: nat, offset: nat)
    requires |data| <= MAX_INT64 && (forall i | 0 <= i < |vs| :: HasType(vs[i], t)) && parts == PartsOfMany(t, vs)
    requires LaidOut(parts, data, base, cursor, offset)
    ensures DecodeMany(t, |vs|, data, base, cursor) == Some(vs)
    decreases t, 2, |vs|
  {
    hide Holds, Encode, WordOf, DecodeBody, HasType;
    if vs != [] {
      DecodePart(t, vs[0], data, base, cursor, offset);
      DecodePartsMany(t, vs[1..], parts.rest, data, base, cursor + HeadSize(t), offset + |parts.first.Tail()|);
      AssembleMany(t, vs, data, base, cursor);
    }
  }

  lemma {:induction false} LayoutIsLaidOut(parts: Parts, data: Bytes, base: nat)
    requires |data| <= MAX_INT64 && Holds(data, base, Layout(parts))
    ensures LaidOut(parts, data, base, base, HeadLength(parts))
  {
    var offset := HeadLength(parts);
    HeadsLength(parts, offset);
    HoldsConcat(data, base, Heads(parts, offset), Tails(parts));
    HeldIsLaidOut(parts, data, base, base, offset);
  }

  /** Calldata: the encoding of an argument tuple. */
  function EncodeArguments(ts: seq<AbiType>, vs: seq<Value>): Bytes
    requires HaveTypes(vs, ts)
  {
    Layout(PartsOf(ts, vs))
  }

  lemma {:induction false} ArgumentsRoundTrip(ts: seq<AbiType>, vs: seq<Value>)
    requires HaveTypes(vs, ts) && |EncodeArguments(ts, vs)| <= MAX_INT64
    ensures DecodeFields(ts, EncodeArguments(ts, vs), 0, 0) == Some(vs)
  {
    var data := EncodeArguments(ts, vs);
    assert data[0..|data|] == data;
    HoldsSlice(data, 0, data);
    LayoutIsLaidOut(PartsOf(ts, vs), data, 0);
    DecodeParts(ts, vs, PartsOf(ts, vs), data, 0, 0, HeadLength(PartsOf(ts, vs)));
  }
}
