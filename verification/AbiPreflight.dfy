/**
 The preflight on canonical calldata, and the one family of canonical calldata it refuses
 although the value is small.
 */
module AbiPreflight {
  import opened Prelude
  import opened AbiTypes
  import opened AbiEncoding
  import opened AbiValues

  /**
   The verdict on the canonical encoding of `vs` depends on the size of `vs` alone, never on
   how the encoding lays it out.
   */
  lemma {:induction false} CanonicalVerdict(ts: seq<AbiType>, vs: seq<Value>, limits: Limits)
    requires HaveTypes(vs, ts) && |EncodeArguments(ts, vs)| <= MAX_INT64
    ensures Ideal(ts, EncodeArguments(ts, vs), limits) <==>
            && NodesOf(vs) <= limits.MaxNodes && LeafBytesOf(vs) <= limits.MaxValueBytes
            && forall i | 0 <= i < |vs| ::
                 LeavesWithin(vs[i], limits.MaxDynamicBytes, limits.MaxArrayElements)
  {
    ArgumentsRoundTrip(ts, vs);
  }

  function Units(n: nat): (vs: seq<Value>)
    ensures |vs| == n && forall i | 0 <= i < n :: vs[i] == VTuple([])
  {
    if n == 0 then [] else [VTuple([])] + Units(n - 1)
  }

  lemma {:induction false} UnitsCost(n: nat)
    ensures NodesOf(Units(n)) == n && LeafBytesOf(Units(n)) == 0
  {
    if n > 0 {
      UnitsCost(n - 1);
      assert Units(n)[1..] == Units(n - 1);
    }
  }

  lemma {:induction false} OneDynamicPart(enc: Bytes)
    ensures |Layout(More(Part(true, enc), End))| == 32 + |enc|
  {
    var parts := More(Part(true, enc), End);
    HeadsLength(parts, HeadLength(parts));
    assert Tails(parts) == enc + [];
  }

  lemma {:induction false} UnitsLayout(n: nat)
    ensures Layout(PartsOfMany(Tuple([]), Units(n))) == []
  {
    hide Heads, Tails;
    var e, vs := Tuple([]), Units(n);
    var parts := PartsOfMany(e, vs);
    HeadLengthOfMany(e, vs);
    StrideIsProduct(HeadSize(e), n);
    HeadsLength(parts, HeadLength(parts));
    NoTails(parts);
  }

  /** A slice of `n` empty tuples takes 64 bytes whatever `n` is. */
  lemma {:induction false} UnitsEncoding(n: nat)
    requires n < UINT256_BOUND
    ensures HaveTypes([VList(Units(n))], [Slice(0, Tuple([]))])
    ensures |EncodeArguments([Slice(0, Tuple([]))], [VList(Units(n))])| == 64
  {
    hide Layout, WordOf;
    var t, v := Slice(0, Tuple([])), VList(Units(n));
    UnitsLayout(n);
    assert |Encode(t, v)| == 32;
    assert HasType(v, t);
    var ts, vs := [t], [v];
    assert ts[0] == t && vs[0] == v;
    assert HaveTypes(vs, ts);
    assert PartsOf([t], [v]) == More(Part(true, Encode(t, v)), End);
    OneDynamicPart(Encode(t, v));
  }

  /**
   Every slice of more than 64 empty tuples has an admissible type, is small enough for the
   budgets, is canonically encoded, and is refused: its count word exceeds the length of the
   calldata.
   */
  lemma {:induction false} ZeroWidthSliceIsRefused(n: nat, limits: Limits)
    requires limits.Valid() && 64 < n <= limits.MaxArrayElements && n < limits.MaxNodes
    requires n < UINT256_BOUND
    ensures var ts, vs := [Slice(0, Tuple([]))], [VList(Units(n))];
            && HaveTypes(vs, ts) && TypesWithin(ts, limits)
            && var data := EncodeArguments(ts, vs);
               && |data| == 64 && Ideal(ts, data, limits)
               && !CountsWithin(DecodeFields(ts, data, 0, 0).value, |data|)
  {
    var ts, vs := [Slice(0, Tuple([]))], [VList(Units(n))];
    UnitsEncoding(n);
    ArgumentsRoundTrip(ts, vs);
    UnitsCost(n);
    assert vs[1..] == [] && ts[1..] == [];
    assert TypeNodesOf(ts) == 2;
    assert NodesOf(vs) == 1 + n && LeafBytesOf(vs) == 0;
  }
}
