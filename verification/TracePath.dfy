/** Trace paths: reading and printing. */
module TracePath {
  import opened Prelude
  import opened Lexicographic
  import Decimal
  import Text

  const UINT32_BOUND: nat := 0x1_0000_0000

  type Path = Word

  /** A path that the trace tables can hold. */
  predicate Storable(p: Path) {
    |p| <= 128 && forall i | 0 <= i < |p| :: p[i] < UINT32_BOUND
  }

  /** `canonicalDecimal`. */
  predicate CanonicalDecimal(s: string, maximum: nat) {
    s != [] && |s| <= maximum && (|s| > 1 ==> s[0] != '0') && Decimal.Digits(s)
  }

  /** One component: canonical, at most ten digits, and a 32-bit value. */
  function Component(s: string): Option<nat> {
    if CanonicalDecimal(s, 10) && Decimal.Value(s) < UINT32_BOUND then Some(Decimal.Value(s)) else None
  }

  function Components(parts: seq<string>): Option<Path> {
    if parts == [] then Some([])
    else match (Component(parts[0]), Components(parts[1..]))
         case (Some(n), Some(rest)) => Some([n] + rest)
         case _ => None
  }

  function Parse(text: string): Option<Path> {
    if text == "" then Some([])
    else
      var parts := Text.Split(text, '.');
      if |parts| > 128 then None else Components(parts)
  }

  function Formats(p: Path): (parts: seq<string>)
    ensures |parts| == |p|
  {
    if p == [] then [] else [Decimal.Format(p[0])] + Formats(p[1..])
  }

  function Print(p: Path): string {
    Text.Join(Formats(p), '.')
  }

  // ----- reading and printing are inverse

  lemma {:induction false} ComponentOfFormat(n: nat)
    requires n < UINT32_BOUND
    ensures Component(Decimal.Format(n)) == Some(n)
    ensures '.' !in Decimal.Format(n) && Decimal.Format(n) != []
  {
    Decimal.FormatIsCanonical(n);
    var s := Decimal.Format(n);
    if |s| > 10 {
      Decimal.LeadingDigit(s);
      Decimal.Pow10Grows(10, |s| - 1);
    }
  }

  lemma {:induction false} ComponentsOfFormats(p: Path)
    requires forall i | 0 <= i < |p| :: p[i] < UINT32_BOUND
    ensures Components(Formats(p)) == Some(p)
    ensures forall i | 0 <= i < |p| :: '.' !in Formats(p)[i] && Formats(p)[i] != []
  {
    hide Component, Decimal.Format;
    if p != [] {
      ComponentOfFormat(p[0]);
      ComponentsOfFormats(p[1..]);
      assert Formats(p)[1..] == Formats(p[1..]);
      assert p == [p[0]] + p[1..];
    }
  }

  lemma {:induction false} JoinIsNonEmpty(parts: seq<string>)
    requires parts != [] && parts[0] != []
    ensures Text.Join(parts, '.') != []
  {
  }

  lemma {:induction false} ParsePrint(p: Path)
    requires Storable(p)
    ensures Parse(Print(p)) == Some(p)
  {
    if p != [] {
      ComponentsOfFormats(p);
      var parts := Formats(p);
      JoinIsNonEmpty(parts);
      Text.SplitJoin(parts, '.');
    }
  }

  lemma {:induction false} FormatsOfComponents(parts: seq<string>)
    requires Components(parts).Some?
    ensures var p := Components(parts).value;
            |p| == |parts| && Formats(p) == parts && forall i | 0 <= i < |p| :: p[i] < UINT32_BOUND
  {
    if parts != [] {
      FormatsOfComponents(parts[1..]);
      Decimal.FormatOfValue(parts[0]);
      var p := Components(parts).value;
      assert p[1..] == Components(parts[1..]).value;
      assert parts == [parts[0]] + parts[1..];
    }
  }

  lemma {:induction false} PrintParse(text: string)
    requires Parse(text).Some?
    ensures Print(Parse(text).value) == text && Storable(Parse(text).value)
  {
    if text != "" {
      FormatsOfComponents(Text.Split(text, '.'));
      Text.JoinSplit(text, '.');
    }
  }

  lemma {:induction false} PrintIsInjective(p: Path, q: Path)
    requires Storable(p) && Storable(q) && Print(p) == Print(q)
    ensures p == q
  {
    ParsePrint(p);
    ParsePrint(q);
  }

  method ParseTracePath(text: string) returns (r: Option<Path>)
    ensures r == Parse(text)
  {
    if text == "" {
      return Some([]);
    }
    var parts := Text.Split(text, '.');
    if |parts| > 128 {
      return None;
    }
    var path: Path := [];
    var i := 0;
    assert parts[0..] == parts && forall q: Path :: path + q == q;
    while i < |parts|
      invariant 0 <= i <= |parts| == |parts[i..]| + i
      invariant Components(parts) == match Components(parts[i..])
                                     case None => None
                                     case Some(rest) => Some(path + rest)
    {
      assert parts[i..][0] == parts[i] && parts[i..][1..] == parts[i + 1..];
      var n := Component(parts[i]);
      if n.None? {
        return None;
      }
      ghost var rest := Components(parts[i + 1..]);
      assert rest.Some? ==> path + ([n.value] + rest.value) == path + [n.value] + rest.value;
      path := path + [n.value];
      i := i + 1;
    }
    assert parts[i..] == [] && path + [] == path;
    r := Some(path);
  }
}
