/**
 ABI types, the head layout of the Solidity Contract ABI Specification, and a
 reference decoder. Nothing here knows about budgets: this is the meaning that the
 preflight is compared against.
 */
module AbiTypes {
  import opened Prelude

  /** `Missing` stands for a nil type pointer; `Word` for every 32-byte static kind. */
  datatype AbiType =
    | Missing
    | Word
    | Blob
    | FixedArray(size: int, elem: AbiType)
    | Slice(size: int, elem: AbiType)
    | Tuple(fields: seq<AbiType>)

  /** A decoded value. Fixed arrays and slices are kept apart: only slices read a count. */
  datatype Value =
    | VWord(word: Bytes)
    | VBlob(content: Bytes)
    | VArray(elems: seq<Value>)
    | VList(elems: seq<Value>)
    | VTuple(elems: seq<Value>)

  // ----- head layout

  predicate IsDynamic(t: AbiType) {
    match t
    case Missing => false
    case Word => false
    case Blob => true
    case FixedArray(_, e) => IsDynamic(e)
    case Slice(_, _) => true
    case Tuple(fs) => exists i | 0 <= i < |fs| :: IsDynamic(fs[i])
  }

  function HeadSize(t: AbiType): nat
    decreases t, 1
  {
    if IsDynamic(t) then 32 else
    match t
    case Missing => 32
    case Word => 32
    case Blob => 32
    case FixedArray(n, e) => Max(0, n) * HeadSize(e)
    case Slice(_, _) => 32
    case Tuple(fs) => HeadSizes(fs)
  }

  function HeadSizes(ts: seq<AbiType>): nat
    decreases ts, 0
  {
    if ts == [] then 0 else HeadSize(ts[0]) + HeadSizes(ts[1..])
  }

  /** The distance of `i` heads, kept additive so that proofs about arrays stay linear. */
  function Stride(head: nat, i: nat): nat {
    if i == 0 then 0 else Stride(head, i - 1) + head
  }

  lemma {:induction false} StrideIsProduct(head: nat, i: nat)
    ensures Stride(head, i) == i * head
  {
    if i > 0 {
      StrideIsProduct(head, i - 1);
    }
  }

  /** No nil pointer and no negative array size anywhere. */
  predicate WellFormed(t: AbiType) {
    match t
    case Missing => false
    case Word => true
    case Blob => true
    case FixedArray(n, e) => 0 <= n && WellFormed(e)
    case Slice(_, e) => WellFormed(e)
    case Tuple(fs) => forall i | 0 <= i < |fs| :: WellFormed(fs[i])
  }

  // ----- words

  /** Big-endian value. */
  function BigEndian(s: Bytes): nat {
    if s == [] then 0 else BigEndian(s[..|s| - 1]) * 256 + s[|s| - 1]
  }

  lemma {:induction false} EightBytesHoldLengths()
    ensures Pow256(8) > MAX_INT64
  {
  }

  function Uint(data: Bytes, position: nat): nat
    requires position + 32 <= |data|
  {
    BigEndian(data[position..position + 32])
  }

  // ----- reference decoder

  /** Decodes one head-encoded component of the tuple that starts at `base`. */
  function DecodeAt(t: AbiType, data: Bytes, base: nat, position: nat): Option<Value>
    decreases t, 1, 0
  {
    if !IsDynamic(t) then DecodeBody(t, data, position)
    else if position + 32 > |data| then None
    else if base + Uint(data, position) > |data| then None
    else DecodeBody(t, data, base + Uint(data, position))
  }

  function DecodeBody(t: AbiType, data: Bytes, position: nat): Option<Value>
    decreases t, 0, 0
  {
    match t
    case Missing => None
    case Word =>
      if position + 32 > |data| then None else Some(VWord(data[position..position + 32]))
    case Blob =>
      if position + 32 > |data| then None else
      var n := Uint(data, position);
      if position + 32 + n > |data| then None
      else Some(VBlob(data[position + 32..position + 32 + n]))
    case FixedArray(n, e) =>
      (match DecodeMany(e, Max(0, n), data, position, position)
       case None => None
       case Some(vs) => Some(VArray(vs)))
    case Slice(_, e) =>
      if position + 32 > |data| then None else
      (match DecodeMany(e, Uint(data, position), data, position + 32, position + 32)
       case None => None
       case Some(vs) => Some(VList(vs)))
    case Tuple(fs) =>
      (match DecodeFields(fs, data, position, position)
       case None => None
       case Some(vs) => Some(VTuple(vs)))
  }

  /** `n` components of one type, heads from `cursor` on, offsets relative to `base`. */
  function DecodeMany(t: AbiType, n: nat, data: Bytes, base: nat, cursor: nat): Option<seq<Value>>
    decreases t, 2, n
  {
    if n == 0 then Some([]) else
    match DecodeAt(t, data, base, cursor)
    case None => None
    case Some(v) =>
      match DecodeMany(t, n - 1, data, base, cursor + HeadSize(t))
      case None => None
      case Some(vs) => Some([v] + vs)
  }

  function DecodeFields(ts: seq<AbiType>, data: Bytes, base: nat, cursor: nat): Option<seq<Value>>
    decreases ts, 0, 0
  {
    if ts == [] then Some([]) else
    match DecodeAt(ts[0], data, base, cursor)
    case None => None
    case Some(v) =>
      match DecodeFields(ts[1..], data, base, cursor + HeadSize(ts[0]))
      case None => None
      case Some(vs) => Some([v] + vs)
  }

  // ----- what a value costs

  /** Every visited node, leaves included; shared data counts once per visit. */
  function Nodes(v: Value): nat
    decreases v, 1
  {
    match v
    case VWord(_) => 1
    case VBlob(_) => 1
    case VArray(vs) => 1 + NodesOf(vs)
    case VList(vs) => 1 + NodesOf(vs)
    case VTuple(vs) => 1 + NodesOf(vs)
  }

  function NodesOf(vs: seq<Value>): nat
    decreases vs, 0
  {
    if vs == [] then 0 else Nodes(vs[0]) + NodesOf(vs[1..])
  }

  /** Bytes of leaf content: 32 for a word, the unpadded length for a blob. */
  function LeafBytes(v: Value): nat
    decreases v, 1
  {
    match v
    case VWord(_) => 32
    case VBlob(b) => |b|
    case VArray(vs) => LeafBytesOf(vs)
    case VList(vs) => LeafBytesOf(vs)
    case VTuple(vs) => LeafBytesOf(vs)
  }

  function LeafBytesOf(vs: seq<Value>): nat
    decreases vs, 0
  {
    if vs == [] then 0 else LeafBytes(vs[0]) + LeafBytesOf(vs[1..])
  }

  /** Every blob has at most `blob` bytes and every array or slice at most `count` elements. */
  predicate LeavesWithin(v: Value, blob: int, count: int) {
    match v
    case VWord(_) => true
    case VBlob(b) => |b| <= blob
    case VArray(vs) => |vs| <= count && forall i | 0 <= i < |vs| :: LeavesWithin(vs[i], blob, count)
    case VList(vs) => |vs| <= count && forall i | 0 <= i < |vs| :: LeavesWithin(vs[i], blob, count)
    case VTuple(vs) => forall i | 0 <= i < |vs| :: LeavesWithin(vs[i], blob, count)
  }

  /** Every slice has at most `count` elements. */
  predicate ListsWithin(v: Value, count: int) {
    match v
    case VWord(_) => true
    case VBlob(_) => true
    case VArray(vs) => forall i | 0 <= i < |vs| :: ListsWithin(vs[i], count)
    case VList(vs) => |vs| <= count && forall i | 0 <= i < |vs| :: ListsWithin(vs[i], count)
    case VTuple(vs) => forall i | 0 <= i < |vs| :: ListsWithin(vs[i], count)
  }

  lemma {:induction false} NodesAtLeastCount(vs: seq<Value>)
    ensures NodesOf(vs) >= |vs|
  {
    if vs != [] {
      NodesAtLeastCount(vs[1..]);
    }
  }

  // ----- where a successful decoding can reach

  /**
   A static component that decodes lies inside the data with its whole head. This is what
   makes the preflight's early bounds checks redundant.
   */
  lemma {:induction false} HeadInsideData(t: AbiType, data: Bytes, base: nat, position: nat)
    requires position <= |data|
    requires DecodeAt(t, data, base, position).Some?
    ensures position + HeadSize(t) <= |data|
    decreases t, 1, 0
  {
    if !IsDynamic(t) {
      match t
      case Missing =>
      case Word =>
      case Blob =>
      case FixedArray(n, e) =>
        ManyInsideData(e, Max(0, n), data, position, position);
        StrideIsProduct(HeadSize(e), Max(0, n));
      case Slice(_, _) =>
      case Tuple(fs) => FieldsInsideData(fs, data, position, position);
    }
  }

  lemma {:induction false} ManyInsideData(t: AbiType, n: nat, data: Bytes, base: nat, cursor: nat)
    requires cursor <= |data|
    requires DecodeMany(t, n, data, base, cursor).Some?
    ensures |DecodeMany(t, n, data, base, cursor).value| == n
    ensures cursor + Stride(HeadSize(t), n) <= |data|
    decreases t, 2, n
  {
    if n > 0 {
      HeadInsideData(t, data, base, cursor);
      ManyInsideData(t, n - 1, data, base, cursor + HeadSize(t));
    }
  }

  lemma {:induction false} FieldsInsideData(ts: seq<AbiType>, data: Bytes, base: nat, cursor: nat)
    requires cursor <= |data|
    requires DecodeFields(ts, data, base, cursor).Some?
    ensures |DecodeFields(ts, data, base, cursor).value| == |ts|
    ensures cursor + HeadSizes(ts) <= |data|
    decreases ts, 0, 0
  {
    if ts != [] {
      HeadInsideData(ts[0], data, base, cursor);
      FieldsInsideData(ts[1..], data, base, cursor + HeadSize(ts[0]));
    }
  }
}
