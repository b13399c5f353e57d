/**
 Bounds on the expansion of ABI types before anything is built from them: the array
 suffixes of a type text, the running multiplier of fixed array sizes and the node budget
 shared by all arguments of a document.
 */
module AbiTypeBounds {
  import opened Prelude
  import opened AbiValues
  import Decimal
  import Text

  datatype Marshaled = Marshaled(typ: string, components: seq<Marshaled>)

  datatype Entry = Entry(inputs: seq<Marshaled>, outputs: seq<Marshaled>)

  // ----- type texts

  /** The bracketed texts of a suffix "[d1]...[dk]", or None when it has another form. */
  function Dims(suffix: string): Option<seq<string>>
    decreases |suffix|
  {
    if suffix == [] then Some([])
    else if suffix[0] != '[' then None
    else
      var k := Text.Find(suffix[1..], ']');
      if k == |suffix| - 1 then None
      else match Dims(suffix[k + 2..])
           case None => None
           case Some(ds) => Some([suffix[1..k + 1]] + ds)
  }

  function Brackets(ds: seq<string>): string {
    if ds == [] then [] else "[" + ds[0] + "]" + Brackets(ds[1..])
  }

  /** `Dims` reads back every list of texts without a closing bracket. */
  lemma {:induction false} DimsOfBrackets(ds: seq<string>)
    requires forall i | 0 <= i < |ds| :: ']' !in ds[i]
    ensures Dims(Brackets(ds)) == Some(ds)
  {
    if ds != [] {
      var d, rest := ds[0], Brackets(ds[1..]);
      var s := "[" + d + "]" + rest;
      assert s[1..] == d + "]" + rest;
      assert (d + "]" + rest)[|d|] == ']' && forall j | 0 <= j < |d| :: (d + "]" + rest)[j] == d[j];
      assert Text.Find(s[1..], ']') == |d|;
      assert s[|d| + 2..] == rest && s[1..|d| + 1] == d;
      DimsOfBrackets(ds[1..]);
      assert ds == [d] + ds[1..];
    }
  }

  lemma {:induction false} BracketsOfDims(suffix: string)
    requires Dims(suffix).Some?
    ensures Brackets(Dims(suffix).value) == suffix
    decreases |suffix|
  {
    hide Dims, Text.Find;
    if suffix == [] {
      NoDims();
    } else {
      var k := FirstBracket(suffix);
      BracketsOfDims(suffix[k + 2..]);
      assert Dims(suffix).value[1..] == Dims(suffix[k + 2..]).value;
      assert suffix == "[" + suffix[1..k + 1] + "]" + suffix[k + 2..];
    }
  }

  lemma {:induction false} NoDims()
    ensures Dims([]) == Some([])
  {
  }

  lemma {:induction false} FirstBracket(suffix: string) returns (k: nat)
    requires suffix != [] && Dims(suffix).Some?
    ensures k + 2 <= |suffix| && suffix[0] == '[' && suffix[k + 1] == ']' && Dims(suffix[k + 2..]).Some?
    ensures Dims(suffix).value == [suffix[1..k + 1]] + Dims(suffix[k + 2..]).value
  {
    k := Text.Find(suffix[1..], ']');
    assert suffix[k + 1] == suffix[1..][k];
  }

  function Base(typ: string): string {
    typ[..Text.Find(typ, '[')]
  }

  function Suffix(typ: string): string {
    typ[Text.Find(typ, '[')..]
  }

  // ----- sizes

  /** `strconv.Atoi`: an optional sign, at least one digit, and a 64-bit result. */
  function Atoi(s: string): Option<int> {
    var signed := s != [] && (s[0] == '+' || s[0] == '-');
    var digits := if signed then s[1..] else s;
    if digits == [] || !Decimal.Digits(digits) then None else
    var n: int := if signed && s[0] == '-' then 0 - Decimal.Value(digits) else Decimal.Value(digits);
    if 0 - MAX_INT64 - 1 <= n <= MAX_INT64 then Some(n) else None
  }

  predicate DimWithin(d: string, limits: Limits) {
    d == "" || (Atoi(d).Some? && 0 <= Atoi(d).value <= limits.MaxArrayElements)
  }

  /** How often a dimension repeats its element; an unsized or empty one counts once. */
  function Repeats(d: string): (n: nat)
    ensures n >= 1
  {
    if d == "" || Atoi(d).None? then 1 else Max(1, Atoi(d).value)
  }

  function RepeatsOf(ds: seq<string>): (n: nat)
    ensures n >= 1
  {
    if ds == [] then 1 else
    assert Repeats(ds[0]) * RepeatsOf(ds[1..]) >= 1;
    Repeats(ds[0]) * RepeatsOf(ds[1..])
  }

  // ----- what one argument expands to

  /** Text lengths, suffix syntax, sizes, nesting and component counts are all within the limits. */
  predicate Nested(a: Marshaled, depth: int, limits: Limits) {
    var ds := Dims(Suffix(a.typ));
    && |a.typ| <= limits.MaxTypeBytes && |a.components| <= limits.MaxArguments
    && ds.Some? && (forall i | 0 <= i < |ds.value| :: DimWithin(ds.value[i], limits))
    && depth + |ds.value| <= limits.MaxDepth
    && (Base(a.typ) != "tuple" ==> a.components == [])
    && forall i | 0 <= i < |a.components| :: Nested(a.components[i], depth + |ds.value| + 1, limits)
  }

  function Copies(a: Marshaled, multiplier: nat): nat {
    var ds := Dims(Suffix(a.typ));
    if ds.None? then multiplier else multiplier * RepeatsOf(ds.value)
  }

  /** The sum, over all type nodes, of the product of the enclosing fixed array sizes. */
  function Weight(a: Marshaled, multiplier: nat): nat
    decreases a, 1
  {
    Copies(a, multiplier) + WeightOf(a.components, Copies(a, multiplier))
  }

  function WeightOf(cs: seq<Marshaled>, multiplier: nat): nat
    decreases cs, 0
  {
    if cs == [] then 0 else Weight(cs[0], multiplier) + WeightOf(cs[1..], multiplier)
  }

  lemma {:induction false} ProductBound(multiplier: nat, n: nat, m: nat, limit: nat)
    requires m >= 1 && n >= 1
    ensures multiplier * n > limit ==> multiplier * (n * m) > limit
    ensures multiplier * n * m == multiplier * (n * m)
  {
    assert multiplier * (n * m) == multiplier * n * m;
    assert multiplier * n * m >= multiplier * n;
  }

  /** The suffix loop: the multiplier stays within the node limit, so it never overflows. */
  method ScanSuffix(text: string, depth: int, multiplier: int, limits: Limits)
    returns (ok: bool, depth': int, multiplier': int)
    requires limits.Valid() && 1 <= multiplier <= limits.MaxNodes && depth <= limits.MaxDepth
    ensures ok ==> 1 <= multiplier' <= limits.MaxNodes
    ensures var ds := Dims(text);
            && (ok <==> && ds.Some? && depth + |ds.value| <= limits.MaxDepth
                        && (forall i | 0 <= i < |ds.value| :: DimWithin(ds.value[i], limits))
                        && multiplier * RepeatsOf(ds.value) <= limits.MaxNodes)
            && (ok ==> depth' == depth + |ds.value| && multiplier' == multiplier * RepeatsOf(ds.value))
    decreases |text|
  {
    hide DimWithin, Repeats, Atoi;
    var suffix := text;
    depth', multiplier' := depth, multiplier;
    ghost var all := Dims(text);
    while suffix != ""
      invariant 1 <= multiplier' <= limits.MaxNodes && depth' <= limits.MaxDepth
      invariant all.Some? <==> Dims(suffix).Some?
      invariant all.Some? ==>
                  var rest := Dims(suffix).value;
                  && depth + |all.value| == depth' + |rest|
                  && multiplier * RepeatsOf(all.value) == multiplier' * RepeatsOf(rest)
                  && ((forall i | 0 <= i < |all.value| :: DimWithin(all.value[i], limits))
                      <==> forall i | 0 <= i < |rest| :: DimWithin(rest[i], limits))
      decreases |suffix|
    {
      if suffix[0] != '[' {
        return false, depth', multiplier';
      }
      var k := Text.Find(suffix[1..], ']');
      if k == |suffix| - 1 {
        return false, depth', multiplier';
      }
      var size, tail := suffix[1..k + 1], suffix[k + 2..];
      ghost var rest := Dims(suffix);
      if rest.Some? {
        FirstDim(size, Dims(tail).value, limits);
      }
      depth' := depth' + 1;
      if depth' > limits.MaxDepth {
        return false, depth', multiplier';
      }
      var good, next := ScanSize(size, multiplier', limits);
      if rest.Some? {
        ProductBound(multiplier', Repeats(size), RepeatsOf(Dims(tail).value), limits.MaxNodes);
      }
      if !good {
        return false, depth', multiplier';
      }
      multiplier' := next;
      suffix := tail;
    }
    ok := true;
  }

  lemma {:induction false} FirstDim(d: string, ds: seq<string>, limits: Limits)
    ensures var all := [d] + ds;
            && RepeatsOf(all) == Repeats(d) * RepeatsOf(ds)
            && ((forall i | 0 <= i < |all| :: DimWithin(all[i], limits))
                <==> DimWithin(d, limits) && forall i | 0 <= i < |ds| :: DimWithin(ds[i], limits))
  {
    hide DimWithin, Repeats;
    var all := [d] + ds;
    assert all[1..] == ds;
    assert forall i | 0 <= i < |ds| :: all[i + 1] == ds[i];
    if DimWithin(d, limits) && forall i | 0 <= i < |ds| :: DimWithin(ds[i], limits) {
      assert forall i | 0 <= i < |all| :: all[i] == if i == 0 then d else ds[i - 1];
    }
  }

  /** One bracketed size: the division test is exactly "the product stays within the limit". */
  method ScanSize(size: string, multiplier: int, limits: Limits) returns (ok: bool, next: int)
    requires limits.Valid() && 1 <= multiplier <= limits.MaxNodes
    ensures ok <==> DimWithin(size, limits) && multiplier * Repeats(size) <= limits.MaxNodes
    ensures ok ==> next == multiplier * Repeats(size) && 1 <= next
  {
    next := multiplier;
    if size != "" {
      var count := Atoi(size);
      if count.None? || count.value < 0 || count.value > limits.MaxArrayElements {
        return false, next;
      }
      DivisionBound(multiplier, limits.MaxNodes, Max(1, count.value));
      if multiplier > limits.MaxNodes / Max(1, count.value) {
        return false, next;
      }
      next := multiplier * Max(1, count.value);
    }
    ok := true;
  }

  /**
   Accepts exactly the arguments that are nested within the limits and whose expanded weight
   the remaining budget covers. The multiplier test inside the suffix loop only rejects
   earlier what the budget would reject anyway.
   */
  method BoundedType(a: Marshaled, depth: int, multiplier: int, remaining: int, limits: Limits)
    returns (ok: bool, left: int)
    requires limits.Valid() && 1 <= multiplier <= limits.MaxNodes && 0 <= remaining <= limits.MaxNodes
    ensures ok <==> Nested(a, depth, limits) && Weight(a, multiplier) <= remaining
    ensures ok ==> left == remaining - Weight(a, multiplier)
    decreases a, 1
  {
    hide Dims, Base, Suffix, RepeatsOf, DimWithin;
    left := remaining;
    if |a.typ| > limits.MaxTypeBytes || depth > limits.MaxDepth || |a.components| > limits.MaxArguments {
      return false, left;
    }
    var base, suffix := Base(a.typ), Suffix(a.typ);
    var good, depth', multiplier' := ScanSuffix(suffix, depth, multiplier, limits);
    if !good || multiplier' > left {
      return false, left;
    }
    left := left - multiplier';
    if base != "tuple" && |a.components| != 0 {
      return false, left;
    }
    ok, left := BoundedTypes(a.components, depth' + 1, multiplier', left, limits);
  }

  /** The component loop, also used for the argument lists of a document. */
  method BoundedTypes(cs: seq<Marshaled>, depth: int, multiplier: int, remaining: int, limits: Limits)
    returns (ok: bool, left: int)
    requires limits.Valid() && 1 <= multiplier <= limits.MaxNodes && 0 <= remaining <= limits.MaxNodes
    ensures ok <==> (forall i | 0 <= i < |cs| :: Nested(cs[i], depth, limits)) && WeightOf(cs, multiplier) <= remaining
    ensures ok ==> left == remaining - WeightOf(cs, multiplier)
    decreases cs, 0
  {
    hide Nested, Weight;
    left := remaining;
    var i := 0;
    assert cs[0..] == cs;
    while i < |cs|
      invariant 0 <= i <= |cs| && 0 <= left <= limits.MaxNodes
      invariant forall j | 0 <= j < i :: Nested(cs[j], depth, limits)
      invariant remaining - WeightOf(cs, multiplier) == left - WeightOf(cs[i..], multiplier)
    {
      assert cs[i..][0] == cs[i] && cs[i..][1..] == cs[i + 1..];
      var good: bool;
      good, left := BoundedType(cs[i], depth, multiplier, left, limits);
      if !good {
        return false, left;
      }
      i := i + 1;
    }
    assert cs[i..] == [];
    ok := true;
  }

  function EntriesWeight(es: seq<Entry>): nat {
    if es == [] then 0
    else EntryWeight(es[0]) + EntriesWeight(es[1..])
  }

  predicate EntryWithin(e: Entry, limits: Limits) {
    && |e.inputs| <= limits.MaxArguments && |e.outputs| <= limits.MaxArguments
    && (forall i | 0 <= i < |e.inputs| :: Nested(e.inputs[i], 0, limits))
    && (forall i | 0 <= i < |e.outputs| :: Nested(e.outputs[i], 0, limits))
  }

  function EntryWeight(e: Entry): nat {
    WeightOf(e.inputs, 1) + WeightOf(e.outputs, 1)
  }

  method AdmitEntry(e: Entry, remaining: int, limits: Limits) returns (ok: bool, left: int)
    requires limits.Valid() && 0 <= remaining <= limits.MaxNodes
    ensures ok <==> EntryWithin(e, limits) && EntryWeight(e) <= remaining
    ensures ok ==> left == remaining - EntryWeight(e)
  {
    hide WeightOf, Nested;
    if |e.inputs| > limits.MaxArguments {
      return false, remaining;
    }
    ok, left := BoundedTypes(e.inputs, 0, 1, remaining, limits);
    if !ok || |e.outputs| > limits.MaxArguments {
      return false, remaining;
    }
    ok, left := BoundedTypes(e.outputs, 0, 1, left, limits);
  }

  /** One budget is shared by every argument of every entry of a document. */
  method AdmitEntries(es: seq<Entry>, limits: Limits) returns (ok: bool)
    requires limits.Valid()
    ensures ok <==> |es| <= limits.MaxEntries && EntriesWeight(es) <= limits.MaxNodes &&
                    forall i | 0 <= i < |es| :: EntryWithin(es[i], limits)
  {
    hide EntryWithin, EntryWeight;
    if |es| > limits.MaxEntries {
      return false;
    }
    var remaining := limits.MaxNodes;
    var k := 0;
    assert es[0..] == es;
    while k < |es|
      invariant 0 <= k <= |es| && 0 <= remaining <= limits.MaxNodes
      invariant forall i | 0 <= i < k :: EntryWithin(es[i], limits)
      invariant limits.MaxNodes - EntriesWeight(es) == remaining - EntriesWeight(es[k..])
    {
      assert es[k..][0] == es[k] && es[k..][1..] == es[k + 1..];
      ok, remaining := AdmitEntry(es[k], remaining, limits);
      if !ok {
        return;
      }
      k := k + 1;
    }
    assert es[k..] == [];
    return true;
  }

  // ----- in numbers

  /** The text of a number is read as that number, with a sign as its opposite. */
  lemma {:induction false} AtoiOfFormat(n: nat)
    requires n <= MAX_INT64
    ensures Atoi(Decimal.Format(n)) == Some(n) && Atoi("-" + Decimal.Format(n)) == Some(0 - n)
    ensures ']' !in Decimal.Format(n) && Decimal.Format(n) != ""
  {
    hide Decimal.Format;
    Decimal.FormatIsCanonical(n);
    var s := Decimal.Format(n);
    assert s[0] != '+' && s[0] != '-';
    assert ("-" + s)[1..] == s;
  }

  function Texts(ns: seq<nat>): (ds: seq<string>)
    ensures |ds| == |ns| && forall i | 0 <= i < |ns| :: ds[i] == Decimal.Format(ns[i])
  {
    if ns == [] then [] else [Decimal.Format(ns[0])] + Texts(ns[1..])
  }

  function Product(ns: seq<nat>): nat {
    if ns == [] then 1 else Max(1, ns[0]) * Product(ns[1..])
  }

  lemma {:induction false} RepeatsInNumbers(ns: seq<nat>)
    requires forall i | 0 <= i < |ns| :: ns[i] <= MAX_INT64
    ensures RepeatsOf(Texts(ns)) == Product(ns)
  {
    hide Atoi;
    if ns != [] {
      AtoiOfFormat(ns[0]);
      assert Texts(ns)[1..] == Texts(ns[1..]);
      RepeatsInNumbers(ns[1..]);
    }
  }

  lemma {:induction false} SuffixOf(base: string, ds: seq<string>)
    requires '[' !in base
    ensures Base(base + Brackets(ds)) == base && Suffix(base + Brackets(ds)) == Brackets(ds)
  {
    var s := base + Brackets(ds);
    assert forall j | 0 <= j < |base| :: s[j] == base[j];
    assert ds != [] ==> s[|base|] == '[';
    assert Text.Find(s, '[') == |base|;
    assert s[..|base|] == base && s[|base|..] == Brackets(ds);
  }

  predicate Simple(a: Marshaled) {
    '[' !in a.typ && a.components == []
  }

  lemma {:induction false} SimpleWeights(cs: seq<Marshaled>, k: nat)
    requires forall i | 0 <= i < |cs| :: Simple(cs[i])
    ensures WeightOf(cs, k) == |cs| * k
  {
    if cs != [] {
      SimpleWeights(cs[1..], k);
      SuffixOf(cs[0].typ, []);
      assert cs[0].typ + Brackets([]) == cs[0].typ;
      assert Weight(cs[0], k) == k;
      assert k + (|cs| - 1) * k == |cs| * k;
    }
  }

  /**
   An array type of the given sizes weighs their product, with an empty size counted as one, and
   as often as it has components besides; its depth is the number of its sizes.
   */
  lemma {:induction false} ArrayInNumbers(base: string, ns: seq<nat>, cs: seq<Marshaled>, depth: int, limits: Limits)
    requires limits.Valid() && '[' !in base && (forall i | 0 <= i < |ns| :: ns[i] <= MAX_INT64)
    requires forall i | 0 <= i < |cs| :: Simple(cs[i])
    ensures var a := Marshaled(base + Brackets(Texts(ns)), cs);
            && Weight(a, 1) == Product(ns) * (1 + |cs|)
            && (cs == [] ==>
                  (Nested(a, depth, limits) <==>
                     && |a.typ| <= limits.MaxTypeBytes && depth + |ns| <= limits.MaxDepth
                     && forall i | 0 <= i < |ns| :: ns[i] <= limits.MaxArrayElements))
            && (base != "tuple" && cs != [] ==> !Nested(a, depth, limits))
  {
    hide Atoi, Dims, Base, Suffix, RepeatsOf, Product, Brackets;
    var ds := Texts(ns);
    var a := Marshaled(base + Brackets(ds), cs);
    SuffixOf(base, ds);
    forall i | 0 <= i < |ns| ensures ']' !in ds[i] && (DimWithin(ds[i], limits) <==> ns[i] <= limits.MaxArrayElements) {
      AtoiOfFormat(ns[i]);
    }
    DimsOfBrackets(ds);
    RepeatsInNumbers(ns);
    SimpleWeights(cs, Product(ns));
    assert Weight(a, 1) == Product(ns) + |cs| * Product(ns);
    Distribute(Product(ns), |cs|);
  }

  lemma {:induction false} Distribute(p: nat, n: nat)
    ensures p + n * p == p * (1 + n)
  {
  }
}
