/** The order of sequences, as of texts: by the first difference, a prefix first. */
module Lexicographic {

  type Word = seq<nat>

  /** `slices.Compare(a, b) < 0`. */
  predicate Less(a: Word, b: Word) {
    b != [] && (a == [] || a[0] < b[0] || (a[0] == b[0] && Less(a[1..], b[1..])))
  }

  lemma {:induction false} LessIrreflexive(a: Word)
    ensures !Less(a, a)
  {
    if a != [] {
      LessIrreflexive(a[1..]);
    }
  }

  lemma {:induction false} LessTransitive(a: Word, b: Word, c: Word)
    requires Less(a, b) && Less(b, c)
    ensures Less(a, c)
  {
    if a != [] && a[0] == b[0] == c[0] {
      LessTransitive(a[1..], b[1..], c[1..]);
    }
  }

  lemma {:induction false} LessTotal(a: Word, b: Word)
    ensures Less(a, b) || Less(b, a) || a == b
  {
    if a != [] && b != [] && a[0] == b[0] {
      LessTotal(a[1..], b[1..]);
      assert a == [a[0]] + a[1..] && b == [b[0]] + b[1..];
    }
  }

  lemma {:induction false} PrefixIsLess(a: Word, b: Word)
    requires a < b
    ensures Less(a, b)
  {
    if a != [] {
      assert a[1..] < b[1..];
      PrefixIsLess(a[1..], b[1..]);
    }
  }

  /** Everything between two extensions of `p` extends `p`. */
  lemma {:induction false} BetweenExtensions(p: Word, a: Word, m: Word, b: Word)
    requires p <= a && p <= b && (a == m || Less(a, m)) && (m == b || Less(m, b))
    ensures p <= m
  {
    if p != [] && a != m && m != b {
      assert p[1..] <= a[1..] && p[1..] <= b[1..];
      assert m != [] && m[0] == p[0];
      BetweenExtensions(p[1..], a[1..], m[1..], b[1..]);
      assert p == [p[0]] + p[1..] && m == [m[0]] + m[1..];
    }
  }
}
