/**
 The value-graph preflight: type shapes, then a walk over the calldata that spends four
 budgets. The walk is proved to accept exactly what the reference decoder of `AbiTypes`
 turns into a small enough value.
 */
module AbiValues {
  import opened Prelude
  import opened AbiTypes

  datatype Limits = Limits(
    MaxDocumentBytes: int, MaxEntries: int, MaxArguments: int, MaxTypeBytes: int, MaxDepth: int,
    MaxNodes: int, MaxDataBytes: int, MaxValueBytes: int, MaxDynamicBytes: int, MaxArrayElements: int)
  {
    predicate Valid() {
      && MaxDocumentBytes > 2 && MaxEntries > 0 && MaxArguments > 0 && MaxTypeBytes > 0
      && MaxDepth > 0 && MaxNodes > 0 && MaxDataBytes > 0
      && MaxValueBytes > 0 && MaxDynamicBytes > 0 && MaxArrayElements > 0
    }
  }

  datatype Argument = Argument(indexed: bool, typ: AbiType)

  datatype Kind = WordKind | BlobKind | ArrayKind | SliceKind | TupleKind

  datatype Shape = Shape(
    kind: Kind, size: int, head: int, dynamic: bool, elem: Option<Shape>, fields: seq<Shape>)

  // ----- shapes

  /** The shape a type has when it is admissible, by the head layout alone. */
  function ShapeOf(t: AbiType): Shape
    requires WellFormed(t)
  {
    match t
    case Word => Shape(WordKind, 0, 32, false, None, [])
    case Blob => Shape(BlobKind, 0, 32, true, None, [])
    case FixedArray(n, e) => Shape(ArrayKind, n, HeadSize(t), IsDynamic(t), Some(ShapeOf(e)), [])
    case Slice(n, e) => Shape(SliceKind, n, 32, true, Some(ShapeOf(e)), [])
    case Tuple(fs) =>
      Shape(TupleKind, 0, HeadSize(t), IsDynamic(t), None,
            seq(|fs|, i requires 0 <= i < |fs| => ShapeOf(fs[i])))
  }

  /** Type nodes, counting every occurrence. */
  function TypeNodes(t: AbiType): nat
    decreases t, 1
  {
    match t
    case Missing => 1
    case Word => 1
    case Blob => 1
    case FixedArray(_, e) => 1 + TypeNodes(e)
    case Slice(_, e) => 1 + TypeNodes(e)
    case Tuple(fs) => 1 + TypeNodesOf(fs)
  }

  function TypeNodesOf(ts: seq<AbiType>): nat
    decreases ts, 0
  {
    if ts == [] then 0 else TypeNodes(ts[0]) + TypeNodesOf(ts[1..])
  }

  /** Depth, array sizes, field counts and static heads are all within the limits. */
  predicate Admissible(t: AbiType, depth: int, limits: Limits) {
    && depth <= limits.MaxDepth
    && match t
       case Missing => false
       case Word => true
       case Blob => true
       case FixedArray(n, e) =>
         && Admissible(e, depth + 1, limits)
         && 0 <= n <= limits.MaxArrayElements
         && (!IsDynamic(e) ==> HeadSize(e) * Max(1, n) <= limits.MaxValueBytes)
       case Slice(n, e) => Admissible(e, depth + 1, limits) && 0 <= n <= limits.MaxArrayElements
       case Tuple(fs) =>
         && |fs| <= limits.MaxArguments
         && HeadSizes(fs) <= limits.MaxValueBytes
         && forall i | 0 <= i < |fs| :: Admissible(fs[i], depth + 1, limits)
  }

  lemma {:induction false} AdmissibleIsWellFormed(t: AbiType, depth: int, limits: Limits)
    requires Admissible(t, depth, limits)
    ensures WellFormed(t)
  {
    match t
    case Word =>
    case Blob =>
    case FixedArray(_, e) => AdmissibleIsWellFormed(e, depth + 1, limits);
    case Slice(_, e) => AdmissibleIsWellFormed(e, depth + 1, limits);
    case Tuple(fs) =>
      forall i | 0 <= i < |fs| ensures WellFormed(fs[i]) {
        AdmissibleIsWellFormed(fs[i], depth + 1, limits);
      }
  }

  lemma {:induction false} DivisionBound(head: int, limit: int, count: int)
    requires 0 <= limit && 1 <= count
    ensures head > limit / count <==> head * count > limit
  {
    var q := limit / count;
    assert limit == q * count + limit % count;
    if head > q {
      assert head * count >= (q + 1) * count == q * count + count;
    } else {
      assert head * count <= q * count;
    }
  }

  method MakeShape(t: AbiType, depth: int, nodes: int, limits: Limits)
    returns (s: Option<Shape>, left: int)
    requires limits.Valid()
    ensures s.Some? <==> Admissible(t, depth, limits) && TypeNodes(t) <= nodes
    ensures s.Some? ==> WellFormed(t) && s.value == ShapeOf(t) && left == nodes - TypeNodes(t)
    decreases t
  {
    if t.Missing? || depth > limits.MaxDepth || nodes <= 0 {
      return None, nodes;
    }
    left := nodes - 1;
    match t
    case Word => return Some(Shape(WordKind, 0, 32, false, None, [])), left;
    case Blob => return Some(Shape(BlobKind, 0, 32, true, None, [])), left;
    case FixedArray(n, e) =>
      var elem: Option<Shape>;
      elem, left := MakeShape(e, depth + 1, left, limits);
      if elem.None? || n < 0 || n > limits.MaxArrayElements {
        return None, left;
      }
      var dynamic := elem.value.dynamic;
      ShapeFields(e);
      var head := 32;
      if !dynamic {
        DivisionBound(elem.value.head, limits.MaxValueBytes, Max(1, n));
        if elem.value.head > limits.MaxValueBytes / Max(1, n) {
          return None, left;
        }
        head := n * elem.value.head;
      }
      return Some(Shape(ArrayKind, n, head, dynamic, elem, [])), left;
    case Slice(n, e) =>
      var elem: Option<Shape>;
      elem, left := MakeShape(e, depth + 1, left, limits);
      if elem.None? || n < 0 || n > limits.MaxArrayElements {
        return None, left;
      }
      return Some(Shape(SliceKind, n, 32, true, elem, [])), left;
    case Tuple(fs) =>
      s, left := MakeTuple(fs, depth, left, limits);
  }

  /** The tuple case of `MakeShape`. */
  method MakeTuple(fs: seq<AbiType>, depth: int, nodes: int, limits: Limits)
    returns (s: Option<Shape>, left: int)
    requires limits.Valid() && depth <= limits.MaxDepth && 0 <= nodes
    ensures s.Some? <==> Admissible(Tuple(fs), depth, limits) && TypeNodesOf(fs) <= nodes
    ensures s.Some? ==> WellFormed(Tuple(fs)) && s.value == ShapeOf(Tuple(fs))
    ensures s.Some? ==> left == nodes - TypeNodesOf(fs)
    decreases fs
  {
    hide Admissible, ShapeOf, WellFormed, HeadSize;
    TupleAdmissible(fs, depth, limits);
    left := nodes;
    if |fs| > limits.MaxArguments {
      return None, left;
    }
    var total, dynamic, built := 0, false, [];
    var i := 0;
    while i < |fs|
      invariant 0 <= i <= |fs| == |fs[i..]| + i && |built| == i
      invariant forall j | 0 <= j < i :: Admissible(fs[j], depth + 1, limits)
      invariant forall j | 0 <= j < i :: WellFormed(fs[j]) && built[j] == ShapeOf(fs[j])
      invariant 0 <= total <= limits.MaxValueBytes && 0 <= left
      invariant HeadSizes(fs) == total + HeadSizes(fs[i..])
      invariant nodes - TypeNodesOf(fs) == left - TypeNodesOf(fs[i..])
      invariant dynamic == exists j | 0 <= j < i :: IsDynamic(fs[j])
    {
      assert fs[i..][0] == fs[i] && fs[i..][1..] == fs[i + 1..];
      var child: Option<Shape>;
      child, left := MakeShape(fs[i], depth + 1, left, limits);
      if child.None? {
        return None, left;
      }
      ShapeFields(fs[i]);
      if child.value.head > limits.MaxValueBytes - total {
        return None, left;
      }
      built := built + [child.value];
      total := total + child.value.head;
      dynamic := dynamic || child.value.dynamic;
      i := i + 1;
    }
    assert fs[i..] == [];
    s := Some(Shape(TupleKind, 0, if dynamic then 32 else total, dynamic, None, built));
    TupleShape(fs, built);
  }

  lemma {:induction false} TupleAdmissible(fs: seq<AbiType>, depth: int, limits: Limits)
    ensures Admissible(Tuple(fs), depth, limits) <==>
            && depth <= limits.MaxDepth && |fs| <= limits.MaxArguments && HeadSizes(fs) <= limits.MaxValueBytes
            && forall i | 0 <= i < |fs| :: Admissible(fs[i], depth + 1, limits)
  {
  }

  lemma {:induction false} TupleShape(fs: seq<AbiType>, built: seq<Shape>)
    requires |built| == |fs|
    requires forall j | 0 <= j < |fs| :: WellFormed(fs[j]) && built[j] == ShapeOf(fs[j])
    ensures WellFormed(Tuple(fs))
    ensures ShapeOf(Tuple(fs)) ==
            var dynamic := exists j | 0 <= j < |fs| :: IsDynamic(fs[j]);
            Shape(TupleKind, 0, if dynamic then 32 else HeadSizes(fs), dynamic, None, built)
  {
    assert built == ShapeOf(Tuple(fs)).fields;
  }

  lemma {:induction false} ShapeFields(t: AbiType)
    requires WellFormed(t)
    ensures ShapeOf(t).head == HeadSize(t) && ShapeOf(t).dynamic == IsDynamic(t)
  {
  }

  // ----- the walk

  /** The reference value exists and all four budgets cover it. */
  predicate Affordable(r: Option<Value>, nodes: int, bytes: int, blob: int, count: int, length: int) {
    && r.Some?
    && Nodes(r.value) <= nodes && LeafBytes(r.value) <= bytes
    && LeavesWithin(r.value, blob, count) && ListsWithin(r.value, length)
  }

  /** The same for the components of a tuple or an array. */
  predicate AffordableAll(r: Option<seq<Value>>, nodes: int, bytes: int, blob: int, count: int, length: int) {
    && r.Some?
    && NodesOf(r.value) <= nodes && LeafBytesOf(r.value) <= bytes
    && forall i | 0 <= i < |r.value| ::
         LeavesWithin(r.value[i], blob, count) && ListsWithin(r.value[i], length)
  }

  /** The budgets left after paying for a value, or None when it cannot be paid for. */
  function Pay(r: Option<Value>, nodes: int, bytes: int, blob: int, count: int, length: int): Option<(int, int)> {
    if Affordable(r, nodes, bytes, blob, count, length)
    then Some((nodes - Nodes(r.value), bytes - LeafBytes(r.value)))
    else None
  }

  function PayAll(r: Option<seq<Value>>, nodes: int, bytes: int, blob: int, count: int, length: int)
    : Option<(int, int)>
  {
    if AffordableAll(r, nodes, bytes, blob, count, length)
    then Some((nodes - NodesOf(r.value), bytes - LeafBytesOf(r.value)))
    else None
  }

  lemma {:induction false} LeadingZeros(s: Bytes, k: nat)
    requires k <= |s| && |s| - k <= 8
    ensures (forall i | 0 <= i < k :: s[i] == 0) ==> BigEndian(s) == BigEndian(s[k..])
    ensures (exists i | 0 <= i < k :: s[i] != 0) ==> BigEndian(s) >= Pow256(|s| - k)
    decreases |s|
  {
    if k == |s| {
      if s != [] {
        assert s[..|s|] == s;
        LeadingZerosWhole(s);
      }
    } else {
      var init := s[..|s| - 1];
      LeadingZeros(init, k);
      assert s[k..][..|s[k..]| - 1] == init[k..];
      if exists i | 0 <= i < k :: s[i] != 0 {
        var i :| 0 <= i < k && s[i] != 0;
        assert init[i] != 0;
      }
    }
  }

  lemma {:induction false} LeadingZerosWhole(s: Bytes)
    ensures (forall i | 0 <= i < |s| :: s[i] == 0) ==> BigEndian(s) == 0
    ensures (exists i | 0 <= i < |s| :: s[i] != 0) ==> BigEndian(s) >= 1
  {
    if s != [] {
      var init := s[..|s| - 1];
      LeadingZerosWhole(init);
      if s[|s| - 1] == 0 && exists i | 0 <= i < |s| :: s[i] != 0 {
        var i :| 0 <= i < |s| && s[i] != 0;
        assert init[i] != 0;
      }
    }
  }

  class ValueBudget {
    const data: Bytes
    const dynamicBytes: int
    const arrayElements: int
    var nodes: int
    var bytes: int

    constructor (data: Bytes, limits: Limits)
      ensures this.data == data && nodes == limits.MaxNodes && bytes == limits.MaxValueBytes
      ensures dynamicBytes == limits.MaxDynamicBytes && arrayElements == limits.MaxArrayElements
    {
      this.data := data;
      nodes, bytes := limits.MaxNodes, limits.MaxValueBytes;
      dynamicBytes, arrayElements := limits.MaxDynamicBytes, limits.MaxArrayElements;
    }

    /**
     Reads a length or offset. It looks at the top 24 bytes and an 8-byte integer, yet answers
     as if the whole 256-bit word had been compared with the data length.
     */
    method ReadWord(position: int) returns (value: int, ok: bool)
      requires |data| <= MAX_INT64
      ensures ok <==> 0 <= position && position + 32 <= |data| && Uint(data, position) <= |data|
      ensures ok ==> value == Uint(data, position)
    {
      if position < 0 || position > |data| - 32 {
        return 0, false;
      }
      var word := data[position..position + 32];
      EightBytesHoldLengths();
      LeadingZeros(word, 24);
      var i := 0;
      while i < 24
        invariant 0 <= i <= 24
        invariant forall j | 0 <= j < i :: word[j] == 0
      {
        if word[i] != 0 {
          return 0, false;
        }
        i := i + 1;
      }
      value := BigEndian(word[24..]);
      ok := value <= |data|;
    }

    method WalkTuple(fields: seq<Shape>, base: int, ghost ts: seq<AbiType>) returns (ok: bool)
      requires |data| <= MAX_INT64 && 0 <= base <= |data|
      requires |fields| == |ts|
      requires forall i | 0 <= i < |ts| :: WellFormed(ts[i]) && fields[i] == ShapeOf(ts[i])
      requires 0 <= nodes && 0 <= bytes
      modifies this`nodes, this`bytes
      ensures var paid := PayAll(DecodeFields(ts, data, base, base),
                                 old(nodes), old(bytes), dynamicBytes, arrayElements, |data|);
              ok == paid.Some? && (ok ==> (nodes, bytes) == paid.value)
      decreases ts, 1
    {
      hide WellFormed, ShapeOf, DecodeAt, LeavesWithin, ListsWithin, HeadSize;
      var cursor, i := base, 0;
      assert ts[0..] == ts;
      while i < |fields|
        invariant 0 <= i <= |fields| && base <= cursor <= |data| && 0 <= nodes && 0 <= bytes
        invariant PayAll(DecodeFields(ts, data, base, base),
                         old(nodes), old(bytes), dynamicBytes, arrayElements, |data|)
               == PayAll(DecodeFields(ts[i..], data, base, cursor),
                         nodes, bytes, dynamicBytes, arrayElements, |data|)
        decreases |fields| - i
      {
        ghost var here := DecodeAt(ts[i], data, base, cursor);
        ghost var rest := DecodeFields(ts[i + 1..], data, base, cursor + HeadSize(ts[i]));
        assert ts[i..][0] == ts[i] && ts[i..][1..] == ts[i + 1..];
        assert DecodeFields(ts[i..], data, base, cursor) == Prepend(here, rest);
        ShapeFields(ts[i]);
        SplitFirst(here, rest, nodes, bytes, dynamicBytes, arrayElements, |data|);
        var good := WalkAt(fields[i], base, cursor, ts[i]);
        if !good {
          return false;
        }
        HeadInsideData(ts[i], data, base, cursor);
        cursor := cursor + fields[i].head;
        i := i + 1;
      }
      assert ts[i..] == [];
      return true;
    }

    method WalkAt(s: Shape, base: int, position: int, ghost t: AbiType) returns (ok: bool)
      requires |data| <= MAX_INT64 && 0 <= base <= |data| && 0 <= position <= |data|
      requires WellFormed(t) && s == ShapeOf(t)
      requires 0 <= nodes && 0 <= bytes
      modifies this`nodes, this`bytes
      ensures var paid := Pay(DecodeAt(t, data, base, position), old(nodes), old(bytes), dynamicBytes, arrayElements, |data|);
              ok == paid.Some? && (ok ==> (nodes, bytes) == paid.value)
      decreases t, 3
    {
      ShapeFields(t);
      if position < 0 || position > |data| - s.head {
        if DecodeAt(t, data, base, position).Some? {
          HeadInsideData(t, data, base, position);
        }
        return false;
      }
      if s.dynamic {
        var offset, good := ReadWord(position);
        if !good || offset > |data| - base {
          return false;
        }
        ok := WalkValue(s, base + offset, t);
      } else {
        ok := WalkValue(s, position, t);
      }
    }

    method WalkValue(s: Shape, position: int, ghost t: AbiType) returns (ok: bool)
      requires |data| <= MAX_INT64 && 0 <= position <= |data|
      requires WellFormed(t) && s == ShapeOf(t)
      requires 0 <= nodes && 0 <= bytes
      modifies this`nodes, this`bytes
      ensures var paid := Pay(DecodeBody(t, data, position), old(nodes), old(bytes), dynamicBytes, arrayElements, |data|);
              ok == paid.Some? && (ok ==> (nodes, bytes) == paid.value)
      decreases t, 2
    {
      hide DecodeMany, DecodeFields, BigEndian, HeadSize, IsDynamic;
      if nodes <= 0 {
        return false;
      }
      nodes := nodes - 1;
      match s.kind
      case BlobKind =>
        var size, good := ReadWord(position);
        if !good || size > |data| - position - 32 || size > bytes || size > dynamicBytes {
          return false;
        }
        bytes := bytes - size;
        return true;
      case ArrayKind =>
        ok := WalkElements(s.elem.value, s.size, position, t.elem);
        ManyCount(t.elem, s.size, data, position, position);
      case SliceKind =>
        var count, good := ReadWord(position);
        if !good {
          if position + 32 <= |data| && DecodeBody(t, data, position).Some? {
            ManyInsideData(t.elem, Uint(data, position), data, position + 32, position + 32);
          }
          return false;
        }
        ok := WalkElements(s.elem.value, count, position + 32, t.elem);
        ManyCount(t.elem, count, data, position + 32, position + 32);
      case TupleKind =>
        ok := WalkTuple(s.fields, position, t.fields);
      case WordKind =>
        if position < 0 || position > |data| - 32 || bytes < 32 {
          return false;
        }
        bytes := bytes - 32;
        return true;
    }

    /** The array part of `WalkValue`: the early count checks, then one visit per element. */
    method WalkElements(elem: Shape, count: int, position: int, ghost t: AbiType) returns (ok: bool)
      requires |data| <= MAX_INT64 && 0 <= count && 0 <= position <= |data|
      requires WellFormed(t) && elem == ShapeOf(t)
      requires 0 <= nodes && 0 <= bytes
      modifies this`nodes, this`bytes
      ensures var paid := PayAll(DecodeMany(t, count, data, position, position),
                                 old(nodes), old(bytes), dynamicBytes, arrayElements, |data|);
              ok == (paid.Some? && count <= arrayElements) && (ok ==> (nodes, bytes) == paid.value)
      decreases t, 5
    {
      ShapeFields(t);
      if elem.head > 0 {
        DivisionBound(count, |data| - position, elem.head);
      }
      if count > nodes || count > arrayElements || position > |data|
         || (elem.head > 0 && count > (|data| - position) / elem.head) {
        if DecodeMany(t, count, data, position, position).Some? {
          ManyInsideData(t, count, data, position, position);
          StrideIsProduct(elem.head, count);
          NodesAtLeastCount(DecodeMany(t, count, data, position, position).value);
        }
        return false;
      }
      ok := VisitElements(elem, count, position, t);
    }

    /** The element loop of `WalkElements`. */
    method VisitElements(elem: Shape, count: int, position: int, ghost t: AbiType) returns (ok: bool)
      requires |data| <= MAX_INT64 && 0 <= count && 0 <= position <= |data|
      requires WellFormed(t) && elem == ShapeOf(t)
      requires 0 <= nodes && 0 <= bytes
      modifies this`nodes, this`bytes
      ensures var paid := PayAll(DecodeMany(t, count, data, position, position),
                                 old(nodes), old(bytes), dynamicBytes, arrayElements, |data|);
              ok == paid.Some? && (ok ==> (nodes, bytes) == paid.value)
      decreases t, 4
    {
      hide WellFormed, ShapeOf, DecodeAt, LeavesWithin, ListsWithin, HeadSize;
      ShapeFields(t);
      ghost var all := DecodeMany(t, count, data, position, position);
      var i := 0;
      ghost var cursor := position;
      while i < count
        invariant 0 <= i <= count && cursor == position + Stride(elem.head, i) <= |data| && 0 <= nodes && 0 <= bytes
        invariant PayAll(all, old(nodes), old(bytes), dynamicBytes, arrayElements, |data|)
               == PayAll(DecodeMany(t, count - i, data, position, cursor),
                         nodes, bytes, dynamicBytes, arrayElements, |data|)
      {
        ghost var here := DecodeAt(t, data, position, cursor);
        ghost var rest := DecodeMany(t, count - i - 1, data, position, cursor + HeadSize(t));
        assert DecodeMany(t, count - i, data, position, cursor) == Prepend(here, rest);
        SplitFirst(here, rest, nodes, bytes, dynamicBytes, arrayElements, |data|);
        StrideIsProduct(elem.head, i);
        var good := WalkAt(elem, position, position + i * elem.head, t);
        if !good {
          return false;
        }
        HeadInsideData(t, data, position, cursor);
        i, cursor := i + 1, cursor + elem.head;
      }
      return true;
    }
  }

  lemma {:induction false} ManyCount(t: AbiType, n: nat, data: Bytes, base: nat, cursor: nat)
    requires cursor <= |data|
    ensures var r := DecodeMany(t, n, data, base, cursor); r.Some? ==> |r.value| == n
  {
    if DecodeMany(t, n, data, base, cursor).Some? {
      ManyInsideData(t, n, data, base, cursor);
    }
  }

  function Prepend(here: Option<Value>, rest: Option<seq<Value>>): Option<seq<Value>> {
    if here.Some? && rest.Some? then Some([here.value] + rest.value) else None
  }

  /** Paying for a sequence is paying for its first component and then for the others. */
  lemma {:induction false} SplitFirst(here: Option<Value>, rest: Option<seq<Value>>,
                   nodes: int, bytes: int, blob: int, count: int, length: int)
    ensures PayAll(Prepend(here, rest), nodes, bytes, blob, count, length)
         == match Pay(here, nodes, bytes, blob, count, length)
            case None => None
            case Some((n, b)) => PayAll(rest, n, b, blob, count, length)
  {
  }

  // ----- the preflight as a whole

  /** The types of the arguments that calldata carries: indexed event arguments are skipped. */
  function Carried(arguments: seq<Argument>): seq<AbiType> {
    if arguments == [] then []
    else (if arguments[0].indexed then [] else [arguments[0].typ]) + Carried(arguments[1..])
  }

  /** What the limits demand of the argument types alone. */
  predicate TypesWithin(ts: seq<AbiType>, limits: Limits) {
    TypeNodesOf(ts) <= limits.MaxNodes && forall i | 0 <= i < |ts| :: Admissible(ts[i], 0, limits)
  }

  /** The reference decoding exists and is affordable; nothing is said about slice counts. */
  predicate Ideal(ts: seq<AbiType>, data: Bytes, limits: Limits) {
    var r := DecodeFields(ts, data, 0, 0);
    && r.Some? && NodesOf(r.value) <= limits.MaxNodes && LeafBytesOf(r.value) <= limits.MaxValueBytes
    && forall i | 0 <= i < |r.value| ::
         LeavesWithin(r.value[i], limits.MaxDynamicBytes, limits.MaxArrayElements)
  }

  predicate CountsWithin(vs: seq<Value>, length: int) {
    forall i | 0 <= i < |vs| :: ListsWithin(vs[i], length)
  }

  /**
   The calldata whose reference decoding is affordable and none of whose slice counts exceeds
   the length of the calldata.
   */
  predicate Accepted(arguments: seq<Argument>, data: Bytes, limits: Limits) {
    && limits.Valid() && |data| <= limits.MaxDataBytes && |arguments| <= limits.MaxArguments
    && TypesWithin(Carried(arguments), limits)
    && Ideal(Carried(arguments), data, limits)
    && CountsWithin(DecodeFields(Carried(arguments), data, 0, 0).value, |data|)
  }

  method CheckValuesWithLimits(arguments: seq<Argument>, data: Bytes, limits: Limits) returns (ok: bool)
    requires |data| <= MAX_INT64
    ensures ok <==> Accepted(arguments, data, limits)
  {
    if !limits.Valid() || |data| > limits.MaxDataBytes || |arguments| > limits.MaxArguments {
      return false;
    }
    ghost var ts := Carried(arguments);
    var shapes, good := MakeShapes(arguments, limits);
    if !good {
      return false;
    }
    var v := new ValueBudget(data, limits);
    ok := v.WalkTuple(shapes, 0, ts);
  }

  /** The shape loop: all arguments share one budget of type nodes. */
  method MakeShapes(arguments: seq<Argument>, limits: Limits) returns (shapes: seq<Shape>, ok: bool)
    requires limits.Valid()
    ensures ok <==> TypesWithin(Carried(arguments), limits)
    ensures ok ==> |shapes| == |Carried(arguments)| &&
                   forall i | 0 <= i < |shapes| ::
                     WellFormed(Carried(arguments)[i]) && shapes[i] == ShapeOf(Carried(arguments)[i])
  {
    hide Admissible, WellFormed, ShapeOf;
    ghost var ts := Carried(arguments);
    var nodes := limits.MaxNodes;
    shapes := [];
    var k := 0;
    assert arguments[0..] == arguments;
    while k < |arguments|
      invariant 0 <= k <= |arguments| && 0 <= nodes && |shapes| <= |ts|
      invariant ts[|shapes|..] == Carried(arguments[k..])
      invariant forall i | 0 <= i < |shapes| ::
                  Admissible(ts[i], 0, limits) && WellFormed(ts[i]) && shapes[i] == ShapeOf(ts[i])
      invariant limits.MaxNodes - TypeNodesOf(ts) == nodes - TypeNodesOf(ts[|shapes|..])
    {
      assert arguments[k..][0] == arguments[k] && arguments[k..][1..] == arguments[k + 1..];
      if !arguments[k].indexed {
        ghost var rest := ts[|shapes|..];
        assert rest[0] == ts[|shapes|] == arguments[k].typ;
        assert rest[1..] == ts[|shapes| + 1..] == Carried(arguments[k + 1..]);
        var s: Option<Shape>;
        s, nodes := MakeShape(arguments[k].typ, 0, nodes, limits);
        if s.None? {
          return [], false;
        }
        shapes := shapes + [s.value];
      }
      k := k + 1;
    }
    return shapes, true;
  }

  // ----- when the slice-count clause can be dropped

  /** No slice anywhere has elements of width zero (empty tuples, arrays of length zero). */
  predicate NoZeroWidthSlice(t: AbiType) {
    match t
    case Missing => true
    case Word => true
    case Blob => true
    case FixedArray(_, e) => NoZeroWidthSlice(e)
    case Slice(_, e) => HeadSize(e) > 0 && NoZeroWidthSlice(e)
    case Tuple(fs) => forall i | 0 <= i < |fs| :: NoZeroWidthSlice(fs[i])
  }

  lemma {:induction false} StrideAtLeastCount(head: nat, n: nat)
    requires head > 0
    ensures Stride(head, n) >= n
  {
    if n > 0 {
      StrideAtLeastCount(head, n - 1);
    }
  }

  lemma {:induction false} BodyCounts(t: AbiType, data: Bytes, position: nat)
    requires NoZeroWidthSlice(t) && position <= |data| && DecodeBody(t, data, position).Some?
    ensures ListsWithin(DecodeBody(t, data, position).value, |data|)
    decreases t, 0, 0
  {
    match t
    case Word =>
    case Blob =>
    case FixedArray(n, e) => ManyCounts(e, Max(0, n), data, position, position);
    case Slice(_, e) =>
      var n := Uint(data, position);
      ManyCounts(e, n, data, position + 32, position + 32);
      ManyInsideData(e, n, data, position + 32, position + 32);
      StrideAtLeastCount(HeadSize(e), n);
    case Tuple(fs) => FieldCounts(fs, data, position, position);
  }

  lemma {:induction false} AtCounts(t: AbiType, data: Bytes, base: nat, position: nat)
    requires NoZeroWidthSlice(t) && position <= |data| && DecodeAt(t, data, base, position).Some?
    ensures ListsWithin(DecodeAt(t, data, base, position).value, |data|)
    decreases t, 1, 0
  {
    BodyCounts(t, data, if IsDynamic(t) then base + Uint(data, position) else position);
  }

  lemma {:induction false} ManyCounts(t: AbiType, n: nat, data: Bytes, base: nat, cursor: nat)
    requires NoZeroWidthSlice(t) && cursor <= |data| && DecodeMany(t, n, data, base, cursor).Some?
    ensures CountsWithin(DecodeMany(t, n, data, base, cursor).value, |data|)
    decreases t, 2, n
  {
    hide ListsWithin, NoZeroWidthSlice;
    if n > 0 {
      AtCounts(t, data, base, cursor);
      HeadInsideData(t, data, base, cursor);
      ManyCounts(t, n - 1, data, base, cursor + HeadSize(t));
    }
  }

  lemma {:induction false} FieldCounts(ts: seq<AbiType>, data: Bytes, base: nat, cursor: nat)
    requires (forall i | 0 <= i < |ts| :: NoZeroWidthSlice(ts[i])) && cursor <= |data|
    requires DecodeFields(ts, data, base, cursor).Some?
    ensures CountsWithin(DecodeFields(ts, data, base, cursor).value, |data|)
    decreases ts, 0, 0
  {
    hide ListsWithin, NoZeroWidthSlice;
    if ts != [] {
      AtCounts(ts[0], data, base, cursor);
      HeadInsideData(ts[0], data, base, cursor);
      FieldCounts(ts[1..], data, base, cursor + HeadSize(ts[0]));
    }
  }

  /**
   Without zero-width slice elements the early checks never change the verdict: the slice
   counts of anything the reference decoder reads are already bounded by the calldata.
   */
  lemma {:induction false} EarlyChecksAreRedundant(ts: seq<AbiType>, data: Bytes, limits: Limits)
    requires forall i | 0 <= i < |ts| :: NoZeroWidthSlice(ts[i])
    requires Ideal(ts, data, limits)
    ensures CountsWithin(DecodeFields(ts, data, 0, 0).value, |data|)
  {
    FieldCounts(ts, data, 0, 0);
  }
}
