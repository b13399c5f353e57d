/**
 What the preflight charges, measured against the encoder: a value costs the bytes its leaves
 take in its encoding, and one node per component. Verdicts on whole calls follow, in numbers.
 */
module AbiCosts {
  import opened Prelude
  import opened AbiTypes
  import opened AbiEncoding
  import opened AbiValues

  // ----- bytes

  /** Encoded components, without the offsets between them. */
  function EncodedLength(parts: Parts): nat {
    match parts
    case End => 0
    case More(p, rest) => |p.enc| + EncodedLength(rest)
  }

  lemma {:induction false} LayoutHoldsAll(parts: Parts)
    ensures HeadLength(parts) + |Tails(parts)| >= EncodedLength(parts)
    ensures AllStatic(parts) ==> |Layout(parts)| == EncodedLength(parts)
    ensures |Layout(parts)| == HeadLength(parts) + |Tails(parts)|
  {
    HeadsLength(parts, HeadLength(parts));
    if parts.More? {
      LayoutHoldsAll(parts.rest);
    }
  }

  /** The bytes charged for a value of a static type are exactly the bytes of its encoding. */
  lemma {:induction false} StaticCost(t: AbiType, v: Value)
    requires HasType(v, t) && !IsDynamic(t)
    ensures LeafBytes(v) == |Encode(t, v)| == HeadSize(t)
  {
    StaticLength(t, v);
    CostWithin(t, v);
  }

  /** Those charged for any value are at most that many: on canonical calldata no byte is paid for twice. */
  lemma {:induction false} CostWithin(t: AbiType, v: Value)
    requires HasType(v, t)
    ensures LeafBytes(v) <= |Encode(t, v)|
    ensures !IsDynamic(t) ==> LeafBytes(v) == |Encode(t, v)|
    decreases t, 0, 0
  {
    hide Layout, WordOf;
    match t
    case Word =>
    case Blob =>
    case FixedArray(_, e) =>
      CostWithinMany(e, v.elems);
      LayoutHoldsAll(PartsOfMany(e, v.elems));
    case Slice(_, e) =>
      CostWithinMany(e, v.elems);
      LayoutHoldsAll(PartsOfMany(e, v.elems));
    case Tuple(fs) =>
      CostWithinFields(fs, v.elems);
      LayoutHoldsAll(PartsOf(fs, v.elems));
  }

  lemma {:induction false} CostWithinMany(t: AbiType, vs: seq<Value>)
    requires forall i | 0 <= i < |vs| :: HasType(vs[i], t)
    ensures LeafBytesOf(vs) <= EncodedLength(PartsOfMany(t, vs))
    ensures !IsDynamic(t) ==> LeafBytesOf(vs) == EncodedLength(PartsOfMany(t, vs)) && AllStatic(PartsOfMany(t, vs))
    decreases t, 1, |vs|
  {
    hide Encode;
    if vs != [] {
      CostWithin(t, vs[0]);
      CostWithinMany(t, vs[1..]);
    }
  }

  lemma {:induction false} CostWithinFields(ts: seq<AbiType>, vs: seq<Value>)
    requires HaveTypes(vs, ts)
    ensures LeafBytesOf(vs) <= EncodedLength(PartsOf(ts, vs))
    ensures (forall i | 0 <= i < |ts| :: !IsDynamic(ts[i])) ==>
              LeafBytesOf(vs) == EncodedLength(PartsOf(ts, vs)) && AllStatic(PartsOf(ts, vs))
    decreases ts, 0, 0
  {
    hide Encode;
    if ts != [] {
      CostWithin(ts[0], vs[0]);
      CostWithinFields(ts[1..], vs[1..]);
    }
  }

  /** A call encoded canonically is charged at most the length of its calldata. */
  lemma {:induction false} CanonicalCost(ts: seq<AbiType>, vs: seq<Value>)
    requires HaveTypes(vs, ts)
    ensures LeafBytesOf(vs) <= |EncodeArguments(ts, vs)|
  {
    CostWithinFields(ts, vs);
    LayoutHoldsAll(PartsOf(ts, vs));
  }

  /** The contents of all leaves, in order. */
  function Contents(v: Value): Bytes
    decreases v, 1
  {
    match v
    case VWord(w) => w
    case VBlob(b) => b
    case VArray(vs) => ContentsOf(vs)
    case VList(vs) => ContentsOf(vs)
    case VTuple(vs) => ContentsOf(vs)
  }

  function ContentsOf(vs: seq<Value>): Bytes
    decreases vs, 0
  {
    if vs == [] then [] else Contents(vs[0]) + ContentsOf(vs[1..])
  }

  /** All values a walk visits, each before its components. */
  function Visited(v: Value): seq<Value>
    decreases v, 1
  {
    [v] + match v
          case VWord(_) => []
          case VBlob(_) => []
          case VArray(vs) => VisitedOf(vs)
          case VList(vs) => VisitedOf(vs)
          case VTuple(vs) => VisitedOf(vs)
  }

  function VisitedOf(vs: seq<Value>): seq<Value>
    decreases vs, 0
  {
    if vs == [] then [] else Visited(vs[0]) + VisitedOf(vs[1..])
  }

  ghost predicate FullWords(v: Value) {
    match v
    case VWord(w) => |w| == 32
    case VBlob(_) => true
    case VArray(vs) => forall i | 0 <= i < |vs| :: FullWords(vs[i])
    case VList(vs) => forall i | 0 <= i < |vs| :: FullWords(vs[i])
    case VTuple(vs) => forall i | 0 <= i < |vs| :: FullWords(vs[i])
  }

  /** The charges are the length of all contents and the number of visited values, for values of any type. */
  lemma {:induction false} ChargesAreCounts(v: Value)
    requires FullWords(v)
    ensures LeafBytes(v) == |Contents(v)| && Nodes(v) == |Visited(v)|
    decreases v, 1
  {
    match v
    case VWord(_) =>
    case VBlob(_) =>
    case VArray(vs) => ChargesOfAll(vs);
    case VList(vs) => ChargesOfAll(vs);
    case VTuple(vs) => ChargesOfAll(vs);
  }

  lemma {:induction false} ChargesOfAll(vs: seq<Value>)
    requires forall i | 0 <= i < |vs| :: FullWords(vs[i])
    ensures LeafBytesOf(vs) == |ContentsOf(vs)| && NodesOf(vs) == |VisitedOf(vs)|
    decreases vs, 0
  {
    if vs != [] {
      ChargesAreCounts(vs[0]);
      ChargesOfAll(vs[1..]);
    }
  }

  // ----- nodes

  /** Components of a value of a static type, which depend on the type alone. */
  function Places(t: AbiType): nat
    decreases t, 1
  {
    match t
    case FixedArray(n, e) => 1 + Max(0, n) * Places(e)
    case Tuple(fs) => 1 + PlacesOf(fs)
    case _ => 1
  }

  function PlacesOf(ts: seq<AbiType>): nat
    decreases ts, 0
  {
    if ts == [] then 0 else Places(ts[0]) + PlacesOf(ts[1..])
  }

  lemma {:induction false} StaticNodes(t: AbiType, v: Value)
    requires HasType(v, t) && !IsDynamic(t)
    ensures Nodes(v) == Places(t)
    decreases t, 0, 0
  {
    match t
    case Word =>
    case FixedArray(n, e) => StaticNodesMany(e, v.elems);
    case Tuple(fs) => StaticNodesFields(fs, v.elems);
  }

  lemma {:induction false} StaticNodesFields(ts: seq<AbiType>, vs: seq<Value>)
    requires HaveTypes(vs, ts) && forall i | 0 <= i < |ts| :: !IsDynamic(ts[i])
    ensures NodesOf(vs) == PlacesOf(ts)
    decreases ts, 0, 0
  {
    if ts != [] {
      StaticNodes(ts[0], vs[0]);
      StaticNodesFields(ts[1..], vs[1..]);
    }
  }

  lemma {:induction false} StaticNodesMany(t: AbiType, vs: seq<Value>)
    requires !IsDynamic(t) && forall i | 0 <= i < |vs| :: HasType(vs[i], t)
    ensures NodesOf(vs) == |vs| * Places(t)
    decreases t, 1, |vs|
  {
    if vs != [] {
      StaticNodes(t, vs[0]);
      StaticNodesMany(t, vs[1..]);
      OneMoreTime(|vs|, Places(t));
    }
  }

  lemma {:induction false} OneMoreTime(n: int, k: int)
    ensures k + (n - 1) * k == n * k
  {
  }

  lemma {:induction false} StaticBytesMany(t: AbiType, vs: seq<Value>)
    requires !IsDynamic(t) && forall i | 0 <= i < |vs| :: HasType(vs[i], t)
    ensures LeafBytesOf(vs) == |vs| * HeadSize(t)
  {
    if vs != [] {
      StaticCost(t, vs[0]);
      StaticBytesMany(t, vs[1..]);
      OneMoreTime(|vs|, HeadSize(t));
    }
  }

  /**
   A list or an array of values of a static type is one node and those of each element, and
   takes as many bytes as its elements, whatever the type.
   */
  lemma {:induction false} ListCost(t: AbiType, vs: seq<Value>)
    requires !IsDynamic(t) && forall i | 0 <= i < |vs| :: HasType(vs[i], t)
    ensures Nodes(VList(vs)) == Nodes(VArray(vs)) == 1 + |vs| * Places(t)
    ensures LeafBytes(VList(vs)) == LeafBytes(VArray(vs)) == |vs| * HeadSize(t)
  {
    StaticNodesMany(t, vs);
    StaticBytesMany(t, vs);
  }

  // ----- verdicts on whole calls

  function Plain(ts: seq<AbiType>): seq<Argument> {
    if ts == [] then [] else [Argument(false, ts[0])] + Plain(ts[1..])
  }

  lemma {:induction false} PlainCarries(ts: seq<AbiType>)
    ensures Carried(Plain(ts)) == ts && |Plain(ts)| == |ts|
  {
    if ts != [] {
      PlainCarries(ts[1..]);
      assert Plain(ts)[1..] == Plain(ts[1..]);
      assert ts == [ts[0]] + ts[1..];
    }
  }

  /** Indexed arguments are not in the data and not charged. */
  lemma {:induction false} IndexedIsSkipped(before: seq<Argument>, t: AbiType, after: seq<Argument>)
    ensures Carried(before + [Argument(true, t)] + after) == Carried(before + after) == Carried(before) + Carried(after)
  {
    if before == [] {
      assert before + [Argument(true, t)] + after == [Argument(true, t)] + after && before + after == after;
    } else {
      assert (before + [Argument(true, t)] + after)[1..] == before[1..] + [Argument(true, t)] + after;
      assert (before + after)[1..] == before[1..] + after;
      IndexedIsSkipped(before[1..], t, after);
    }
  }

  function BlobTypes(n: nat): (ts: seq<AbiType>)
    ensures |ts| == n && forall i | 0 <= i < n :: ts[i] == Blob
  {
    if n == 0 then [] else [Blob] + BlobTypes(n - 1)
  }

  function BlobValues(bs: seq<Bytes>): (vs: seq<Value>)
    ensures |vs| == |bs| && forall i | 0 <= i < |bs| :: vs[i] == VBlob(bs[i])
  {
    if bs == [] then [] else [VBlob(bs[0])] + BlobValues(bs[1..])
  }

  function TotalLength(bs: seq<Bytes>): nat {
    if bs == [] then 0 else |bs[0]| + TotalLength(bs[1..])
  }

  lemma {:induction false} BlobCosts(bs: seq<Bytes>)
    ensures NodesOf(BlobValues(bs)) == |bs| && LeafBytesOf(BlobValues(bs)) == TotalLength(bs)
  {
    if bs != [] {
      BlobCosts(bs[1..]);
      assert BlobValues(bs)[1..] == BlobValues(bs[1..]);
    }
  }

  lemma {:induction false} BlobTypesWithin(n: nat, limits: Limits)
    requires limits.Valid()
    ensures TypesWithin(BlobTypes(n), limits) <==> n <= limits.MaxNodes
  {
    BlobTypeNodes(n);
  }

  lemma {:induction false} BlobTypeNodes(n: nat)
    ensures TypeNodesOf(BlobTypes(n)) == n
  {
    if n > 0 {
      BlobTypeNodes(n - 1);
      assert BlobTypes(n)[1..] == BlobTypes(n - 1);
    }
  }

  /** Dynamic bytes are charged by their number: together within the value budget, each within its own. */
  lemma {:induction false} BlobsVerdict(bs: seq<Bytes>, limits: Limits)
    requires |EncodeArguments(BlobTypes(|bs|), BlobValues(bs))| <= MAX_INT64
    ensures var data := EncodeArguments(BlobTypes(|bs|), BlobValues(bs));
            && (Ideal(BlobTypes(|bs|), data, limits) <==>
                  && |bs| <= limits.MaxNodes && TotalLength(bs) <= limits.MaxValueBytes
                  && forall i | 0 <= i < |bs| :: |bs[i]| <= limits.MaxDynamicBytes)
            && (Accepted(Plain(BlobTypes(|bs|)), data, limits) <==>
                  && limits.Valid() && |data| <= limits.MaxDataBytes && |bs| <= limits.MaxArguments
                  && |bs| <= limits.MaxNodes && TotalLength(bs) <= limits.MaxValueBytes
                  && forall i | 0 <= i < |bs| :: |bs[i]| <= limits.MaxDynamicBytes)
  {
    hide DecodeFields, EncodeArguments, NodesOf, LeafBytesOf, TypesWithin, BlobTypes, BlobValues;
    var ts, vs := BlobTypes(|bs|), BlobValues(bs);
    ArgumentsRoundTrip(ts, vs);
    BlobCosts(bs);
    PlainCarries(ts);
    if limits.Valid() {
      BlobTypesWithin(|bs|, limits);
    }
    assert forall i | 0 <= i < |vs| :: LeavesWithin(vs[i], limits.MaxDynamicBytes, limits.MaxArrayElements) == (|bs[i]| <= limits.MaxDynamicBytes);
    assert CountsWithin(vs, |EncodeArguments(ts, vs)|);
  }

  lemma {:induction false} OneBlob(b: Bytes, limits: Limits)
    requires |EncodeArguments([Blob], [VBlob(b)])| <= MAX_INT64
    ensures Ideal([Blob], EncodeArguments([Blob], [VBlob(b)]), limits) <==>
            1 <= limits.MaxNodes && |b| <= limits.MaxValueBytes && |b| <= limits.MaxDynamicBytes
  {
    hide Ideal, EncodeArguments;
    assert BlobTypes(1) == [Blob] && BlobValues([b]) == [VBlob(b)];
    assert TotalLength([b]) == |b|;
    BlobsVerdict([b], limits);
    assert [b][0] == b;
  }

  lemma {:induction false} TwoBlobs(a: Bytes, b: Bytes, limits: Limits)
    requires |EncodeArguments([Blob, Blob], [VBlob(a), VBlob(b)])| <= MAX_INT64
    ensures Ideal([Blob, Blob], EncodeArguments([Blob, Blob], [VBlob(a), VBlob(b)]), limits) <==>
            && 2 <= limits.MaxNodes && |a| + |b| <= limits.MaxValueBytes
            && |a| <= limits.MaxDynamicBytes && |b| <= limits.MaxDynamicBytes
  {
    hide Ideal, EncodeArguments;
    var bs := [a, b];
    assert BlobTypes(2) == [Blob, Blob] && BlobValues(bs) == [VBlob(a), VBlob(b)] by {
      assert bs[1..] == [b] && BlobValues([b]) == [VBlob(b)];
      assert BlobTypes(1) == [Blob];
    }
    assert [b][1..] == [] && TotalLength([b]) == |b|;
    assert bs[1..] == [b] && TotalLength(bs) == |a| + TotalLength(bs[1..]);
    BlobsVerdict(bs, limits);
    assert bs[0] == a && bs[1] == b;
  }

  predicate Words(vs: seq<Value>) {
    forall i | 0 <= i < |vs| :: HasType(vs[i], Word)
  }

  lemma {:induction false} WordCosts(vs: seq<Value>, limits: Limits)
    requires Words(vs)
    ensures NodesOf(vs) == |vs| && LeafBytesOf(vs) == 32 * |vs|
  {
    StaticNodesMany(Word, vs);
    StaticBytesMany(Word, vs);
  }

  lemma {:induction false} One(v: Value)
    ensures NodesOf([v]) == Nodes(v) && LeafBytesOf([v]) == LeafBytes(v)
  {
    assert [v][1..] == [];
  }

  lemma {:induction false} OneType(t: AbiType)
    ensures TypeNodesOf([t]) == TypeNodes(t)
  {
    assert [t][1..] == [];
  }

  /** A call with one argument, by the costs of its value and the demands on its type. */
  lemma {:induction false} OneArgument(t: AbiType, v: Value, limits: Limits)
    requires HaveTypes([v], [t]) && |EncodeArguments([t], [v])| <= MAX_INT64
    ensures var data := EncodeArguments([t], [v]);
            Accepted([Argument(false, t)], data, limits) <==>
            && limits.Valid() && |data| <= limits.MaxDataBytes
            && TypeNodes(t) <= limits.MaxNodes && Admissible(t, 0, limits)
            && Nodes(v) <= limits.MaxNodes && LeafBytes(v) <= limits.MaxValueBytes
            && LeavesWithin(v, limits.MaxDynamicBytes, limits.MaxArrayElements) && ListsWithin(v, |data|)
  {
    hide DecodeFields, EncodeArguments, NodesOf, LeafBytesOf, TypeNodesOf, Admissible, LeavesWithin, ListsWithin, Nodes, LeafBytes, HaveTypes;
    ArgumentsRoundTrip([t], [v]);
    One(v);
    OneType(t);
    assert [Argument(false, t)][1..] == [] && Carried([Argument(false, t)]) == [t];
    assert [t][0] == t && [v][0] == v;
  }

  lemma {:induction false} OneTyped(t: AbiType, v: Value)
    requires HasType(v, t)
    ensures HaveTypes([v], [t])
    ensures |EncodeArguments([t], [v])| == (if IsDynamic(t) then 32 else 0) + |Encode(t, v)|
  {
    hide HasType, Encode;
    assert [t][0] == t && [v][0] == v && [t][1..] == [] && [v][1..] == [];
    var parts := More(Part(IsDynamic(t), Encode(t, v)), End);
    assert PartsOf([t], [v]) == parts;
    HeadsLength(parts, HeadLength(parts));
    assert Tails(parts) == parts.first.Tail() + [];
  }

  /** A list of words: one node and 32 bytes for each, and one node for the list. */
  lemma {:induction false} WordListVerdict(ws: seq<Value>, limits: Limits)
    requires Words(ws) && |ws| < UINT256_BOUND && 64 + 32 * |ws| <= MAX_INT64
    ensures var t, v := Slice(0, Word), VList(ws);
            && HasType(v, t) && HaveTypes([v], [t]) && |EncodeArguments([t], [v])| == 64 + 32 * |ws|
            && (Accepted([Argument(false, t)], EncodeArguments([t], [v]), limits) <==>
                  && limits.Valid() && 64 + 32 * |ws| <= limits.MaxDataBytes && 2 <= limits.MaxNodes
                  && 1 + |ws| <= limits.MaxNodes && 32 * |ws| <= limits.MaxValueBytes && |ws| <= limits.MaxArrayElements)
  {
    hide Accepted, Ideal, EncodeArguments, Layout, WordOf;
    var t, v := Slice(0, Word), VList(ws);
    WordCosts(ws, limits);
    CostWithinMany(Word, ws);
    LayoutHoldsAll(PartsOfMany(Word, ws));
    OneTyped(t, v);
    OneArgument(t, v, limits);
    assert TypeNodes(t) == 2 && Nodes(v) == 1 + |ws| && LeafBytes(v) == 32 * |ws|;
    assert limits.Valid() ==> Admissible(t, 0, limits) by { assert limits.Valid() ==> Admissible(Word, 1, limits); }
    assert LeavesWithin(v, limits.MaxDynamicBytes, limits.MaxArrayElements) <==> |ws| <= limits.MaxArrayElements;
    assert ListsWithin(v, 64 + 32 * |ws|);
  }

  /** An array of words has no count word, and its size is bounded with its type. */
  lemma {:induction false} WordArrayVerdict(ws: seq<Value>, limits: Limits)
    requires Words(ws) && 32 * |ws| <= MAX_INT64
    ensures var t, v := FixedArray(|ws|, Word), VArray(ws);
            && HasType(v, t) && HaveTypes([v], [t]) && |EncodeArguments([t], [v])| == 32 * |ws|
            && (Accepted([Argument(false, t)], EncodeArguments([t], [v]), limits) <==>
                  && limits.Valid() && 32 * |ws| <= limits.MaxDataBytes && 2 <= limits.MaxNodes
                  && 1 + |ws| <= limits.MaxNodes && 32 * Max(1, |ws|) <= limits.MaxValueBytes && |ws| <= limits.MaxArrayElements)
  {
    hide Accepted, Ideal, EncodeArguments, Layout, WordOf;
    var t, v := FixedArray(|ws|, Word), VArray(ws);
    WordCosts(ws, limits);
    CostWithinMany(Word, ws);
    LayoutHoldsAll(PartsOfMany(Word, ws));
    OneTyped(t, v);
    OneArgument(t, v, limits);
    assert TypeNodes(t) == 2 && Nodes(v) == 1 + |ws| && LeafBytes(v) == 32 * |ws|;
    assert limits.Valid() ==>
             (Admissible(t, 0, limits) <==> |ws| <= limits.MaxArrayElements && 32 * Max(1, |ws|) <= limits.MaxValueBytes) by {
      assert limits.Valid() ==> Admissible(Word, 1, limits);
    }
    assert LeavesWithin(v, limits.MaxDynamicBytes, limits.MaxArrayElements) <==> |ws| <= limits.MaxArrayElements;
    assert ListsWithin(v, 32 * |ws|);
  }

  /** A tuple of words: its fields are bounded like arguments. */
  lemma {:induction false} WordTupleVerdict(ws: seq<Value>, fs: seq<AbiType>, limits: Limits)
    requires Words(ws) && |fs| == |ws| && (forall i | 0 <= i < |fs| :: fs[i] == Word) && 32 * |ws| <= MAX_INT64
    ensures var t, v := Tuple(fs), VTuple(ws);
            && HasType(v, t) && HaveTypes([v], [t]) && |EncodeArguments([t], [v])| == 32 * |ws|
            && (Accepted([Argument(false, t)], EncodeArguments([t], [v]), limits) <==>
                  && limits.Valid() && 32 * |ws| <= limits.MaxDataBytes
                  && 1 + |ws| <= limits.MaxNodes && 32 * |ws| <= limits.MaxValueBytes && |ws| <= limits.MaxArguments)
  {
    hide Accepted, Ideal, EncodeArguments, Layout, WordOf;
    var t, v := Tuple(fs), VTuple(ws);
    assert HasType(v, t);
    WordCosts(ws, limits);
    WordFields(fs);
    CostWithinFields(fs, ws);
    LayoutHoldsAll(PartsOf(fs, ws));
    OneTyped(t, v);
    OneArgument(t, v, limits);
    assert TypeNodes(t) == 1 + |ws| && Nodes(v) == 1 + |ws| && LeafBytes(v) == 32 * |ws|;
    assert limits.Valid() ==>
             (Admissible(t, 0, limits) <==> |ws| <= limits.MaxArguments && 32 * |ws| <= limits.MaxValueBytes) by {
      assert limits.Valid() ==> Admissible(Word, 1, limits);
    }
    assert forall i | 0 <= i < |ws| ::
             LeavesWithin(ws[i], limits.MaxDynamicBytes, limits.MaxArrayElements) && ListsWithin(ws[i], 32 * |ws|);
  }

  lemma {:induction false} WordFields(fs: seq<AbiType>)
    requires forall i | 0 <= i < |fs| :: fs[i] == Word
    ensures HeadSizes(fs) == 32 * |fs| && TypeNodesOf(fs) == |fs|
  {
    if fs != [] {
      WordFields(fs[1..]);
    }
  }

  /** Lists nested `k` times around a word. */
  function Deep(k: nat): AbiType {
    if k == 0 then Word else Slice(0, Deep(k - 1))
  }

  /** A type nested `k` times is admitted exactly when the depth allows it, and counts one node for each level. */
  lemma {:induction false} DepthVerdict(k: nat, depth: int, limits: Limits)
    requires limits.Valid()
    ensures TypeNodes(Deep(k)) == k + 1
    ensures Admissible(Deep(k), depth, limits) <==> depth + k <= limits.MaxDepth
  {
    if k > 0 {
      DepthVerdict(k - 1, depth + 1, limits);
    }
  }

  // ----- the encoding itself, in bytes

  lemma {:induction false} SmallWord(n: nat, k: nat)
    requires n < 256 && k >= 1
    ensures ToBytes(n, k) == Zeros(k - 1) + [n]
  {
    if k == 1 {
      assert ToBytes(n / 256, 0) == [];
    } else {
      ZeroWord(k - 1);
      assert n / 256 == 0;
    }
  }

  function Zeros(k: nat): (s: Bytes)
    ensures |s| == k && forall i | 0 <= i < k :: s[i] == 0
  {
    if k == 0 then [] else Zeros(k - 1) + [0]
  }

  lemma {:induction false} ZeroWord(k: nat)
    ensures ToBytes(0, k) == Zeros(k)
  {
    if k > 0 {
      ZeroWord(k - 1);
    }
  }

  /** The calldata of one short `bytes` argument: offset 32, the length, the bytes, and zeros up to 32. */
  lemma {:induction false} ShortBlobBytes(b: Bytes)
    requires 0 < |b| < 32
    ensures HaveTypes([VBlob(b)], [Blob])
    ensures EncodeArguments([Blob], [VBlob(b)]) == Zeros(31) + [32] + Zeros(31) + [|b|] + b + Zeros(32 - |b|)
  {
    hide ToBytes, Zeros;
    OneTyped(Blob, VBlob(b));
    SmallWord(32, WordSize());
    SmallWord(|b|, WordSize());
    var enc := Encode(Blob, VBlob(b));
    assert seq((32 - |b| % 32) % 32, _ => 0) == Zeros(32 - |b|);
    assert enc == Zeros(31) + [|b|] + b + Zeros(32 - |b|);
    OneBlobLayout(b);
  }

  lemma {:induction false} OneBlobLayout(b: Bytes)
    ensures HaveTypes([VBlob(b)], [Blob])
    ensures EncodeArguments([Blob], [VBlob(b)]) == WordOf(32) + Encode(Blob, VBlob(b))
  {
    hide Encode, WordOf;
    assert [Blob][0] == Blob && [VBlob(b)][0] == VBlob(b) && [Blob][1..] == [] && [VBlob(b)][1..] == [];
    var parts := More(Part(true, Encode(Blob, VBlob(b))), End);
    assert PartsOf([Blob], [VBlob(b)]) == parts;
    assert HeadLength(parts) == 32;
    assert Heads(parts, 32) == WordOf(32) + [] == WordOf(32);
    assert Tails(parts) == Encode(Blob, VBlob(b)) + [] == Encode(Blob, VBlob(b));
  }
}
