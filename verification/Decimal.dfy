/**
 Decimal texts: canonical spellings, printing and reading back, and the length-then-text
 order that the cache invalidation script uses in place of numeric order.
 */
module Decimal {

  predicate Digits(s: string) {
    forall i | 0 <= i < |s| :: '0' <= s[i] <= '9'
  }

  function Value(s: string): nat
    requires Digits(s)
  {
    if s == [] then 0 else Value(s[..|s| - 1]) * 10 + (s[|s| - 1] as int - '0' as int)
  }

  /** At least one digit and no superfluous leading zero. */
  predicate Canonical(s: string) {
    s != [] && Digits(s) && (|s| > 1 ==> s[0] != '0')
  }

  /** The digits of `n`, as `strconv.FormatUint` prints them. */
  function Format(n: nat): string {
    if n < 10 then [('0' as int + n) as char] else Format(n / 10) + [('0' as int + n % 10) as char]
  }

  function Pow10(k: nat): nat {
    if k == 0 then 1 else 10 * Pow10(k - 1)
  }

  lemma {:induction false} FormatIsCanonical(n: nat)
    ensures Canonical(Format(n)) && Value(Format(n)) == n
    ensures Format(n)[0] == '0' <==> n == 0
  {
    if n >= 10 {
      FormatIsCanonical(n / 10);
      var s := Format(n);
      assert s[..|s| - 1] == Format(n / 10);
    }
  }

  lemma {:induction false} FormatOfValue(s: string)
    requires Canonical(s)
    ensures Format(Value(s)) == s
  {
    var init, last := s[..|s| - 1], s[|s| - 1];
    if |s| == 1 {
      assert Value(init) == 0;
    } else {
      assert Canonical(init);
      FormatOfValue(init);
      LeadingDigit(init);
      assert s == init + [last];
    }
  }

  /** A canonical text of k digits lies between 10^(k-1) and 10^k. */
  lemma {:induction false} LeadingDigit(s: string)
    requires Canonical(s)
    ensures Value(s) < Pow10(|s|)
    ensures s[0] != '0' ==> Pow10(|s| - 1) <= Value(s)
  {
    if |s| > 1 {
      LeadingDigit(s[..|s| - 1]);
    } else {
      assert Value(s[..0]) == 0;
    }
  }

  lemma {:induction false} Pow10Grows(a: nat, b: nat)
    requires a <= b
    ensures Pow10(a) <= Pow10(b)
    decreases b
  {
    if a < b {
      Pow10Grows(a, b - 1);
    }
  }

  // ----- order

  /** Byte-wise text order. */
  predicate TextLess(a: string, b: string) {
    exists k | 0 <= k <= |a| && k <= |b| ::
      a[..k] == b[..k] && k < |b| && (k == |a| || a[k] < b[k])
  }

  /** The script's test for a newer event identifier. */
  predicate Newer(incoming: string, current: string) {
    |incoming| > |current| || (|incoming| == |current| && TextLess(current, incoming))
  }

  lemma {:induction false} TextLessByLast(a: string, b: string)
    requires |a| == |b| > 0
    ensures TextLess(a, b) <==>
            var a', b' := a[..|a| - 1], b[..|b| - 1];
            TextLess(a', b') || (a' == b' && a[|a| - 1] < b[|b| - 1])
  {
    var n := |a| - 1;
    var a', b' := a[..n], b[..n];
    if TextLess(a, b) {
      var k :| 0 <= k <= |a| && a[..k] == b[..k] && k < |b| && (k == |a| || a[k] < b[k]);
      if k < n {
        assert a'[..k] == a[..k] && b'[..k] == b[..k] && a'[k] < b'[k];
      }
    }
    if TextLess(a', b') {
      var k :| 0 <= k <= |a'| && a'[..k] == b'[..k] && k < |b'| && (k == |a'| || a'[k] < b'[k]);
      assert a[..k] == a'[..k] && b[..k] == b'[..k] && a[k] < b[k];
    } else if a' == b' && a[n] < b[n] {
      assert a[..n] == b[..n] && a[n] < b[n];
    }
  }

  lemma {:induction false} NothingBelow(a: string, b: string)
    requires |b| == 0
    ensures !TextLess(a, b)
  {
  }

  lemma {:induction false} SameLengthOrder(a: string, b: string)
    requires Digits(a) && Digits(b) && |a| == |b|
    ensures TextLess(a, b) <==> Value(a) < Value(b)
    ensures Value(a) == Value(b) ==> a == b
  {
    hide TextLess;
    if a == [] {
      assert !TextLess(a, b) by { NothingBelow(a, b); }
    } else {
      var n := |a| - 1;
      TextLessByLast(a, b);
      SameLengthOrder(a[..n], b[..n]);
      assert a == a[..n] + [a[n]] && b == b[..n] + [b[n]];
    }
  }

  /** On canonical texts the script compares numbers. */
  lemma {:induction false} NewerIsGreater(incoming: string, current: string)
    requires Canonical(incoming) && Canonical(current)
    ensures Newer(incoming, current) <==> Value(incoming) > Value(current)
  {
    LeadingDigit(incoming);
    LeadingDigit(current);
    if |incoming| == |current| {
      SameLengthOrder(current, incoming);
    } else if |incoming| > |current| {
      Pow10Grows(|current|, |incoming| - 1);
    } else {
      Pow10Grows(|incoming|, |current| - 1);
    }
  }
}
