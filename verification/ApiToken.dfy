/**
 API key tokens: `evk_`, ten characters of base 32 in lower case, `_`, and 43 characters of
 the URL alphabet of base 64, which contains the underscore itself. A character stands for one
 byte of the text.
 */
module ApiToken {
  import opened Prelude
  import Text

  // ----- the alphabets

  function Digit32(n: nat): char
    requires n < 32
  {
    if n < 26 then ('a' as int + n) as char else ('2' as int + (n - 26)) as char
  }

  function Value32(c: char): Option<nat> {
    if 'A' <= c <= 'Z' then Some(c as int - 'A' as int)
    else if '2' <= c <= '7' then Some(c as int - '2' as int + 26)
    else None
  }

  function Digit64(n: nat): char
    requires n < 64
  {
    if n < 26 then ('A' as int + n) as char
    else if n < 52 then ('a' as int + (n - 26)) as char
    else if n < 62 then ('0' as int + (n - 52)) as char
    else if n == 62 then '-' else '_'
  }

  function Value64(c: char): Option<nat> {
    if 'A' <= c <= 'Z' then Some(c as int - 'A' as int)
    else if 'a' <= c <= 'z' then Some(c as int - 'a' as int + 26)
    else if '0' <= c <= '9' then Some(c as int - '0' as int + 52)
    else if c == '-' then Some(62) else if c == '_' then Some(63) else None
  }

  // ----- values of a text

  function Values(s: string, value: char -> Option<nat>): Option<seq<nat>> {
    if s == "" then Some([])
    else match (value(s[0]), Values(s[1..], value))
         case (Some(v), Some(rest)) => Some([v] + rest)
         case _ => None
  }

  function Digits(vs: seq<nat>, digit: nat --> char): string
    requires forall i | 0 <= i < |vs| :: digit.requires(vs[i])
  {
    if vs == [] then "" else [digit(vs[0])] + Digits(vs[1..], digit)
  }

  lemma {:induction false} ValuesOfDigits(vs: seq<nat>, digit: nat --> char, value: char -> Option<nat>, bound: nat)
    requires forall n: nat | n < bound :: digit.requires(n) && value(digit(n)) == Some(n)
    requires forall i | 0 <= i < |vs| :: vs[i] < bound
    ensures Values(Digits(vs, digit), value) == Some(vs) && |Digits(vs, digit)| == |vs|
  {
    if vs != [] {
      ValuesOfDigits(vs[1..], digit, value, bound);
      assert Digits(vs, digit)[1..] == Digits(vs[1..], digit);
      assert vs == [vs[0]] + vs[1..];
    }
  }

  // ----- six bytes as ten groups of five bits

  function Split32(b: Bytes): (vs: seq<nat>)
    requires |b| == 6
    ensures |vs| == 10 && forall i | 0 <= i < 10 :: vs[i] < 32
  {
    [b[0] / 8, (b[0] % 8) * 4 + b[1] / 64, (b[1] / 2) % 32, (b[1] % 2) * 16 + b[2] / 16,
     (b[2] % 16) * 2 + b[3] / 128, (b[3] / 4) % 32, (b[3] % 4) * 8 + b[4] / 32, b[4] % 32,
     b[5] / 8, (b[5] % 8) * 4]
  }

  /** Eight groups as five bytes. */
  function Octet(vs: seq<nat>): (b: Bytes)
    requires |vs| == 8 && forall i | 0 <= i < 8 :: vs[i] < 32
    ensures |b| == 5
  {
    [vs[0] * 8 + vs[1] / 4, (vs[1] % 4) * 64 + vs[2] * 2 + vs[3] / 16, (vs[3] % 16) * 16 + vs[4] / 2,
     (vs[4] % 2) * 128 + vs[5] * 4 + vs[6] / 8, (vs[6] % 8) * 32 + vs[7]]
  }

  /** Bytes kept of an incomplete octet; without padding every length is accepted. */
  function TailBytes(n: nat): nat {
    match n
    case 2 => 1
    case 4 => 2
    case 5 => 3
    case 7 => 4
    case _ => 0
  }

  /** Bits left over are dropped. */
  function Join32(vs: seq<nat>): Bytes
    requires forall i | 0 <= i < |vs| :: vs[i] < 32
  {
    if |vs| >= 8 then Octet(vs[..8]) + Join32(vs[8..])
    else Octet(vs + [0, 0, 0, 0, 0, 0, 0, 0][|vs|..])[..TailBytes(|vs|)]
  }

  lemma {:induction false} JoinTen(vs: seq<nat>)
    requires |vs| == 10 && forall i | 0 <= i < 10 :: vs[i] < 32
    ensures Join32(vs) == Octet(vs[..8]) + [vs[8] * 8 + vs[9] / 4]
  {
    var tail := vs[8..];
    assert tail + [0, 0, 0, 0, 0, 0, 0, 0][2..] == [vs[8], vs[9], 0, 0, 0, 0, 0, 0];
    assert Join32(tail) == Octet([vs[8], vs[9], 0, 0, 0, 0, 0, 0])[..1];
  }

  lemma {:induction false} FirstByte(x: Byte, y: Byte)
    ensures (x / 8) * 8 + ((x % 8) * 4 + y / 64) / 4 == x
  {
  }

  lemma {:induction false} SecondByte(w: Byte, x: Byte, y: Byte)
    ensures (((w % 8) * 4 + x / 64) % 4) * 64 + ((x / 2) % 32) * 2 + ((x % 2) * 16 + y / 16) / 16 == x
  {
    assert ((w % 8) * 4 + x / 64) % 4 == x / 64 && ((x % 2) * 16 + y / 16) / 16 == x % 2;
  }

  lemma {:induction false} ThirdByte(w: Byte, x: Byte, y: Byte)
    ensures (((w % 2) * 16 + x / 16) % 16) * 16 + ((x % 16) * 2 + y / 128) / 2 == x
  {
    assert ((w % 2) * 16 + x / 16) % 16 == x / 16 && ((x % 16) * 2 + y / 128) / 2 == x % 16;
  }

  lemma {:induction false} FourthByte(w: Byte, x: Byte, y: Byte)
    ensures (((w % 16) * 2 + x / 128) % 2) * 128 + ((x / 4) % 32) * 4 + ((x % 4) * 8 + y / 32) / 8 == x
  {
    assert ((w % 16) * 2 + x / 128) % 2 == x / 128 && ((x % 4) * 8 + y / 32) / 8 == x % 4;
  }

  lemma {:induction false} FifthByte(w: Byte, x: Byte)
    ensures (((w % 4) * 8 + x / 32) % 8) * 32 + x % 32 == x
  {
    assert ((w % 4) * 8 + x / 32) % 8 == x / 32;
  }

  lemma {:induction false} Join32Split(b: Bytes)
    requires |b| == 6
    ensures Join32(Split32(b)) == b
  {
    hide Join32;
    JoinTen(Split32(b));
    OctetOf(b);
    assert b == b[..5] + [b[5]];
  }

  lemma {:induction false} OctetOf(b: Bytes)
    requires |b| == 6
    ensures Octet(Split32(b)[..8]) == b[..5]
  {
    var j := Octet(Split32(b)[..8]);
    assert j[0] == b[0] by { FirstByte(b[0], b[1]); }
    assert j[1] == b[1] by { SecondByte(b[0], b[1], b[2]); }
    assert j[2] == b[2] by { ThirdByte(b[1], b[2], b[3]); }
    assert j[3] == b[3] by { FourthByte(b[2], b[3], b[4]); }
    assert j[4] == b[4] by { FifthByte(b[3], b[4]); }
  }

  /** Ten groups whose last two bits are clear come from six bytes. */
  lemma {:induction false} Split32Join(vs: seq<nat>)
    requires |vs| == 10 && (forall i | 0 <= i < 10 :: vs[i] < 32) && vs[9] % 4 == 0
    ensures |Join32(vs)| == 6 && Split32(Join32(vs)) == vs
  {
    hide Join32, Split32, Octet;
    JoinTen(vs);
    var j := Octet(vs[..8]);
    var b := Join32(vs);
    assert b == j + [vs[8] * 8 + vs[9] / 4];
    SplitOctet(vs[..8], vs[8] * 8 + vs[9] / 4);
    forall i | 0 <= i < 10 ensures Split32(b)[i] == vs[i] {
      LastGroups(b, vs[8], vs[9]);
    }
  }

  lemma {:induction false} SplitOctet(vs: seq<nat>, last: Byte)
    requires |vs| == 8 && forall i | 0 <= i < 8 :: vs[i] < 32
    ensures Split32(Octet(vs) + [last])[..8] == vs
  {
    hide Octet, Split32;
    var b := Octet(vs) + [last];
    var s := Split32(b);
    assert s[..4] == vs[..4] by { SplitFront(vs, b); }
    assert s[4..8] == vs[4..] by { SplitMiddle(vs, b); }
    assert s[..8] == s[..4] + s[4..8] && vs == vs[..4] + vs[4..];
  }

  lemma {:induction false} SplitFront(vs: seq<nat>, b: Bytes)
    requires |vs| == 8 && (forall i | 0 <= i < 8 :: vs[i] < 32) && |b| == 6 && b[..5] == Octet(vs)
    ensures Split32(b)[..4] == vs[..4]
  {
    FrontGroups(vs[0], vs[1], vs[2], vs[3], vs[4]);
    assert b[0] == b[..5][0] && b[1] == b[..5][1] && b[2] == b[..5][2];
  }

  lemma {:induction false} SplitMiddle(vs: seq<nat>, b: Bytes)
    requires |vs| == 8 && (forall i | 0 <= i < 8 :: vs[i] < 32) && |b| == 6 && b[..5] == Octet(vs)
    ensures Split32(b)[4..8] == vs[4..]
  {
    BackGroups(vs[3], vs[4], vs[5], vs[6], vs[7]);
    assert b[2] == b[..5][2] && b[3] == b[..5][3] && b[4] == b[..5][4];
  }

  lemma {:induction false} FrontGroups(a: nat, b: nat, c: nat, d: nat, e: nat)
    requires a < 32 && b < 32 && c < 32 && d < 32 && e < 32
    ensures var x, y, z := a * 8 + b / 4, (b % 4) * 64 + c * 2 + d / 16, (d % 16) * 16 + e / 2;
            x / 8 == a && (x % 8) * 4 + y / 64 == b && (y / 2) % 32 == c && (y % 2) * 16 + z / 16 == d
  {
    var y, z := (b % 4) * 64 + c * 2 + d / 16, (d % 16) * 16 + e / 2;
    assert y == 2 * ((b % 4) * 32 + c) + d / 16;
    assert y / 2 == (b % 4) * 32 + c && y % 2 == d / 16;
    assert y / 64 == b % 4 && z / 16 == d % 16;
  }

  lemma {:induction false} BackGroups(d: nat, e: nat, f: nat, g: nat, h: nat)
    requires d < 32 && e < 32 && f < 32 && g < 32 && h < 32
    ensures var z, u, v := (d % 16) * 16 + e / 2, (e % 2) * 128 + f * 4 + g / 8, (g % 8) * 32 + h;
            (z % 16) * 2 + u / 128 == e && (u / 4) % 32 == f && (u % 4) * 8 + v / 32 == g && v % 32 == h
  {
    var z, u, v := (d % 16) * 16 + e / 2, (e % 2) * 128 + f * 4 + g / 8, (g % 8) * 32 + h;
    assert z % 16 == e / 2;
    assert u == 4 * ((e % 2) * 32 + f) + g / 8;
    assert u / 4 == (e % 2) * 32 + f && u % 4 == g / 8;
    assert u / 128 == e % 2;
    assert v / 32 == g % 8 && v % 32 == h;
  }

  lemma {:induction false} LastGroups(b: Bytes, v: nat, w: nat)
    requires |b| == 6 && v < 32 && w < 32 && w % 4 == 0 && b[5] == v * 8 + w / 4
    ensures Split32(b)[8] == v && Split32(b)[9] == w
  {
  }

  // ----- 32 bytes as 43 groups of six bits

  /** Three bytes as four groups, and back. */
  function Quad(x: Byte, y: Byte, z: Byte): (vs: seq<nat>)
    ensures |vs| == 4 && forall i | 0 <= i < 4 :: vs[i] < 64
  {
    [x / 4, (x % 4) * 16 + y / 16, (y % 16) * 4 + z / 64, z % 64]
  }

  function Unquad(a: nat, b: nat, c: nat, d: nat): (r: Bytes)
    requires a < 64 && b < 64 && c < 64 && d < 64
    ensures |r| == 3
  {
    [a * 4 + b / 16, (b % 16) * 16 + c / 4, (c % 4) * 64 + d]
  }

  lemma {:induction false} Parts4(q: nat, x: nat)
    requires x < 4
    ensures (q * 4 + x) / 4 == q && (q * 4 + x) % 4 == x
  {
  }

  lemma {:induction false} Parts16(q: nat, x: nat)
    requires x < 16
    ensures (q * 16 + x) / 16 == q && (q * 16 + x) % 16 == x
  {
  }

  lemma {:induction false} Parts64(q: nat, x: nat)
    requires x < 64
    ensures (q * 64 + x) / 64 == q && (q * 64 + x) % 64 == x
  {
  }

  lemma {:induction false} UnquadQuad(x: Byte, y: Byte, z: Byte)
    ensures var vs := Quad(x, y, z); Unquad(vs[0], vs[1], vs[2], vs[3]) == [x, y, z]
  {
    var x1: nat, x0: nat, y1: nat, y0: nat, z1: nat, z0: nat := x / 4, x % 4, y / 16, y % 16, z / 64, z % 64;
    assert x1 * 4 + x0 == x && y1 * 16 + y0 == y && z1 * 64 + z0 == z;
    assert Quad(x, y, z) == [x1, x0 * 16 + y1, y0 * 4 + z1, z0];
    UnquadOf(x1, x0, y1, y0, z1, z0);
  }

  lemma {:induction false} UnquadOf(x1: nat, x0: nat, y1: nat, y0: nat, z1: nat, z0: nat)
    requires x1 < 64 && x0 < 4 && y1 < 16 && y0 < 16 && z1 < 4 && z0 < 64
    ensures Unquad(x1, x0 * 16 + y1, y0 * 4 + z1, z0) == [x1 * 4 + x0, y1 * 16 + y0, z1 * 64 + z0]
  {
    Parts16(x0, y1);
    Parts4(y0, z1);
  }

  /** Two bytes at the end give three groups: the fourth would hold no bit of them. */
  function Split64(b: Bytes): (vs: seq<nat>)
    requires |b| % 3 == 2
    ensures 3 * |vs| == 4 * (|b| - 2) + 9 && forall i | 0 <= i < |vs| :: vs[i] < 64
  {
    if |b| == 2 then Quad(b[0], b[1], 0)[..3] else Quad(b[0], b[1], b[2]) + Split64(b[3..])
  }

  /** Without padding only a single group left over is refused. */
  function Join64(vs: seq<nat>): (b: Bytes)
    requires |vs| % 4 != 1 && forall i | 0 <= i < |vs| :: vs[i] < 64
    ensures 3 * |vs| - 2 <= 4 * |b| <= 3 * |vs|
  {
    if |vs| == 0 then []
    else if |vs| == 2 then Unquad(vs[0], vs[1], 0, 0)[..1]
    else if |vs| == 3 then Unquad(vs[0], vs[1], vs[2], 0)[..2]
    else Unquad(vs[0], vs[1], vs[2], vs[3]) + Join64(vs[4..])
  }

  lemma {:induction false} SplitStep(b: Bytes)
    requires |b| % 3 == 2 && |b| > 2
    ensures |b[3..]| % 3 == 2 && Split64(b) == Quad(b[0], b[1], b[2]) + Split64(b[3..])
  {
    hide Quad;
  }

  lemma {:induction false} JoinStep(head: seq<nat>, rest: seq<nat>)
    requires |head| == 4 && |rest| % 4 == 3
    requires (forall i | 0 <= i < 4 :: head[i] < 64) && forall i | 0 <= i < |rest| :: rest[i] < 64
    ensures |head + rest| % 4 == 3 && (forall i | 0 <= i < |head + rest| :: (head + rest)[i] < 64)
    ensures Join64(head + rest) == Unquad(head[0], head[1], head[2], head[3]) + Join64(rest)
  {
    hide Unquad;
    assert (head + rest)[4..] == rest;
  }

  lemma {:induction false} JoinTwo(x: Byte, y: Byte)
    ensures Split64([x, y]) == Quad(x, y, 0)[..3] && Join64(Split64([x, y])) == [x, y]
  {
    hide Quad, Unquad;
    UnquadQuad(x, y, 0);
    LastGroup(x, y);
  }

  lemma {:induction false} Join64Split(b: Bytes)
    requires |b| % 3 == 2
    ensures |Split64(b)| % 4 == 3 && Join64(Split64(b)) == b
  {
    hide Quad, Unquad, Split64, Join64;
    if |b| == 2 {
      JoinTwo(b[0], b[1]);
      assert b == [b[0], b[1]];
    } else {
      SplitStep(b);
      Join64Split(b[3..]);
      UnquadQuad(b[0], b[1], b[2]);
      JoinStep(Quad(b[0], b[1], b[2]), Split64(b[3..]));
      assert b == [b[0], b[1], b[2]] + b[3..];
    }
  }

  lemma {:induction false} LastGroup(x: Byte, y: Byte)
    ensures Quad(x, y, 0)[3] == 0
  {
  }

  lemma {:induction false} QuadUnquad(a: nat, b: nat, c: nat, d: nat)
    requires a < 64 && b < 64 && c < 64 && d < 64
    ensures var r := Unquad(a, b, c, d); Quad(r[0], r[1], r[2]) == [a, b, c, d]
  {
    var b1: nat, b0: nat, c1: nat, c0: nat := b / 16, b % 16, c / 4, c % 4;
    Parts4(a, b1);
    Parts16(b0, c1);
    Parts64(c0, d);
    assert b1 * 16 + b0 == b && c1 * 4 + c0 == c;
    assert Unquad(a, b, c, d) == [a * 4 + b1, b0 * 16 + c1, c0 * 64 + d];
    QuadOf(a, b1, b0, c1, c0, d);
  }

  lemma {:induction false} QuadOf(a: nat, b1: nat, b0: nat, c1: nat, c0: nat, d: nat)
    requires a < 64 && b1 < 4 && b0 < 16 && c1 < 16 && c0 < 4 && d < 64
    ensures Quad(a * 4 + b1, b0 * 16 + c1, c0 * 64 + d) == [a, b1 * 16 + b0, c1 * 4 + c0, d]
  {
    Parts4(a, b1);
    Parts16(b0, c1);
    Parts64(c0, d);
  }

  /** Groups whose last two bits are clear come from bytes. */
  lemma {:induction false} Split64Join(vs: seq<nat>)
    requires |vs| % 4 == 3 && (forall i | 0 <= i < |vs| :: vs[i] < 64) && vs[|vs| - 1] % 4 == 0
    ensures |Join64(vs)| % 3 == 2 && Split64(Join64(vs)) == vs
  {
    hide Quad, Unquad, Split64, Join64;
    if |vs| == 3 {
      SplitThree(vs);
    } else {
      var head, rest := vs[..4], vs[4..];
      FourLess(vs);
      Split64Join(rest);
      OneQuad(head, rest);
      assert vs == head + rest;
    }
  }

  lemma {:induction false} FourLess(vs: seq<nat>)
    requires |vs| % 4 == 3 && |vs| > 3
    ensures |vs| >= 7 && |vs[4..]| % 4 == 3 && vs[4..][|vs[4..]| - 1] == vs[|vs| - 1]
  {
  }

  lemma {:induction false} OneQuad(head: seq<nat>, rest: seq<nat>)
    requires |head| == 4 && |rest| % 4 == 3
    requires (forall i | 0 <= i < 4 :: head[i] < 64) && forall i | 0 <= i < |rest| :: rest[i] < 64
    requires |Join64(rest)| % 3 == 2 && Split64(Join64(rest)) == rest
    ensures |head + rest| % 4 == 3 && (forall i | 0 <= i < |head + rest| :: (head + rest)[i] < 64)
    ensures |Join64(head + rest)| % 3 == 2 && Split64(Join64(head + rest)) == head + rest
  {
    hide Quad, Unquad, Split64, Join64;
    JoinStep(head, rest);
    QuadUnquad(head[0], head[1], head[2], head[3]);
    SplitBack(Unquad(head[0], head[1], head[2], head[3]), Join64(rest));
    assert head == [head[0], head[1], head[2], head[3]];
  }

  lemma {:induction false} SplitBack(head: Bytes, rest: Bytes)
    requires |head| == 3 && |rest| % 3 == 2
    ensures |head + rest| % 3 == 2 && Split64(head + rest) == Quad(head[0], head[1], head[2]) + Split64(rest)
  {
    hide Quad;
    assert (head + rest)[3..] == rest;
  }

  lemma {:induction false} SplitThree(vs: seq<nat>)
    requires |vs| == 3 && (forall i | 0 <= i < 3 :: vs[i] < 64) && vs[2] % 4 == 0
    ensures |Join64(vs)| == 2 && Split64(Join64(vs)) == vs
  {
    hide Quad, Unquad;
    QuadUnquad(vs[0], vs[1], vs[2], 0);
    UnquadEnds(vs[0], vs[1], vs[2]);
  }

  lemma {:induction false} UnquadEnds(a: nat, b: nat, c: nat)
    requires a < 64 && b < 64 && c < 64 && c % 4 == 0
    ensures Unquad(a, b, c, 0)[2] == 0
  {
  }

  // ----- spelling

  /** The two letters outside ASCII whose upper case is in the alphabet, by their bytes in UTF-8. */
  function Fold(c: char, d: char): Option<char> {
    if c == '\U{C4}' && d == '\U{B1}' then Some('I')
    else if c == '\U{C5}' && d == '\U{BF}' then Some('S')
    else None
  }

  /** One of the two stands at `i`. */
  predicate Opens(s: string, i: int) {
    0 <= i && i + 1 < |s| && Fold(s[i], s[i + 1]).Some?
  }

  function UpperChar(c: char): char {
    if 'a' <= c <= 'z' then (c as int - 32) as char else c
  }

  /** Upper case. Other bytes outside ASCII give bytes outside ASCII; here they stay as they are. */
  function Upper(s: string): string {
    if s == "" then ""
    else if Opens(s, 0) then [Fold(s[0], s[1]).value] + Upper(s[2..])
    else [UpperChar(s[0])] + Upper(s[1..])
  }

  /** The decoders skip carriage returns and line feeds. */
  function Unbroken(s: string): string {
    if s == "" then ""
    else if s[0] == '\r' || s[0] == '\n' then Unbroken(s[1..])
    else [s[0]] + Unbroken(s[1..])
  }

  // ----- tokens

  function Prefix(random: Bytes): (s: string)
    requires |random| == 6
  {
    Digits(Split32(random), Digit32)
  }

  function Secret(random: Bytes): (s: string)
    requires |random| == 32
  {
    Digits(Split64(random), Digit64)
  }

  function Token(prefix: string, secret: string): string {
    "evk_" + prefix + "_" + secret
  }

  /** The text before the first underscore and the text after it. */
  function Cut(s: string): Option<(string, string)> {
    var k := Text.Find(s, '_');
    if k == |s| then None else Some((s[..k], s[k + 1..]))
  }

  function Decode32(s: string): Option<Bytes> {
    match Values(Unbroken(s), Value32)
    case None => None
    case Some(vs) => if forall i | 0 <= i < |vs| :: vs[i] < 32 then Some(Join32(vs)) else None
  }

  function Decode64(s: string): Option<Bytes> {
    match Values(Unbroken(s), Value64)
    case None => None
    case Some(vs) => if |vs| % 4 != 1 && (forall i | 0 <= i < |vs| :: vs[i] < 64) then Some(Join64(vs)) else None
  }

  /** Only the first two underscores are delimiters; the prefix is returned when every part decodes. */
  function ParseToken(token: string): Option<string> {
    match Cut(token)
    case None => None
    case Some((head, rest)) =>
      match Cut(rest)
      case None => None
      case Some((prefix, secret)) =>
        if head == "evk" && |prefix| == 10 && |secret| == 43 && Decode32(Upper(prefix)).Some?
           && Decode64(secret).Some? && |Decode64(secret).value| == 32
        then Some(prefix) else None
  }

  lemma {:induction false} PrefixDecodes(random: Bytes)
    requires |random| == 6
    ensures |Prefix(random)| == 10 && Decode32(Upper(Prefix(random))) == Some(random)
    ensures forall i | 0 <= i < 10 :: Low(Prefix(random)[i])
  {
    hide Join32, Split32, Digits, Values, Upper, Unbroken;
    Digits32();
    var vs := Split32(random);
    ValuesOfDigits(vs, Digit32, LowValue, 32);
    DigitsAt(vs, Digit32);
    UpperOfLow(Prefix(random));
    Join32Split(random);
  }

  /** A character of the alphabet in lower case. */
  predicate Low(c: char) {
    'a' <= c <= 'z' || '2' <= c <= '7'
  }

  function LowValue(c: char): Option<nat> {
    if 'a' <= c <= 'z' then Some(c as int - 'a' as int)
    else if '2' <= c <= '7' then Some(c as int - '2' as int + 26)
    else None
  }

  lemma {:induction false} UpperOfLow(s: string)
    requires forall i | 0 <= i < |s| :: Low(s[i])
    ensures Values(Unbroken(Upper(s)), Value32) == Values(s, LowValue)
  {
    if s != "" {
      UpperOfLow(s[1..]);
      var u := Upper(s);
      assert !Opens(s, 0) by { assert Low(s[0]); }
      assert u[1..] == Upper(s[1..]);
      assert Unbroken(u) == [u[0]] + Unbroken(u[1..]);
      assert Unbroken(u)[1..] == Unbroken(u[1..]);
    }
  }

  lemma {:induction false} Digits32()
    ensures forall n: nat | n < 32 :: LowValue(Digit32(n)) == Some(n) && Low(Digit32(n))
  {
  }

  lemma {:induction false} Digits64()
    ensures forall n: nat | n < 64 :: Value64(Digit64(n)) == Some(n)
  {
    hide Value64, Digit64;
    forall n: nat | n < 64 ensures Value64(Digit64(n)) == Some(n) {
      ValueOfDigit64(n);
    }
  }

  lemma {:induction false} ValueOfDigit64(n: nat)
    requires n < 64
    ensures Value64(Digit64(n)) == Some(n)
  {
  }

  lemma {:induction false} DigitsAt(vs: seq<nat>, digit: nat --> char)
    requires forall i | 0 <= i < |vs| :: digit.requires(vs[i])
    ensures |Digits(vs, digit)| == |vs| && forall i | 0 <= i < |vs| :: Digits(vs, digit)[i] == digit(vs[i])
  {
    if vs != [] {
      DigitsAt(vs[1..], digit);
    }
  }

  lemma {:induction false} SecretDecodes(random: Bytes)
    requires |random| == 32
    ensures |Secret(random)| == 43 && Decode64(Secret(random)) == Some(random)
    ensures forall i | 0 <= i < 43 :: Value64(Secret(random)[i]).Some?
  {
    hide Join64, Split64, Digits, Values, Unbroken;
    Digits64();
    var vs := Split64(random);
    ValuesOfDigits(vs, Digit64, Value64, 64);
    DigitsAt(vs, Digit64);
    NothingBroken(Secret(random));
    Join64Split(random);
  }

  lemma {:induction false} NothingBroken(s: string)
    ensures |Unbroken(s)| <= |s|
    ensures |Unbroken(s)| == |s| ==> Unbroken(s) == s
    ensures (forall i | 0 <= i < |s| :: s[i] != '\r' && s[i] != '\n') ==> Unbroken(s) == s
  {
    if s != "" {
      NothingBroken(s[1..]);
    }
  }

  lemma {:induction false} CutAt(head: string, tail: string)
    requires '_' !in head
    ensures Cut(head + "_" + tail) == Some((head, tail))
  {
    Text.FindAfter(head, tail, '_');
    var s := head + ['_'] + tail;
    assert s == head + "_" + tail && s[..|head|] == head && s[|head| + 1..] == tail;
  }

  /** Every issued token parses back to its prefix, whatever the random bytes. */
  lemma {:induction false} IssuedTokensParse(prefixBytes: Bytes, secretBytes: Bytes)
    requires |prefixBytes| == 6 && |secretBytes| == 32
    ensures ParseToken(Token(Prefix(prefixBytes), Secret(secretBytes))) == Some(Prefix(prefixBytes))
  {
    hide Prefix, Secret, Cut, Decode32, Decode64;
    PrefixDecodes(prefixBytes);
    SecretDecodes(secretBytes);
    var prefix, secret := Prefix(prefixBytes), Secret(secretBytes);
    assert "evk_" + prefix + "_" + secret == "evk" + "_" + (prefix + "_" + secret);
    CutAt("evk", prefix + "_" + secret);
    CutAt(prefix, secret);
  }

  /** Different random bytes give different prefixes. */
  lemma {:induction false} PrefixIsInjective(a: Bytes, b: Bytes)
    requires |a| == 6 && |b| == 6 && Prefix(a) == Prefix(b)
    ensures a == b
  {
    hide Prefix, Decode32;
    PrefixDecodes(a);
    PrefixDecodes(b);
  }

  // ----- exactly the tokens that parse

  predicate Plain(c: char) {
    'a' <= c <= 'z' || 'A' <= c <= 'Z' || '2' <= c <= '7' || c == '\r' || c == '\n'
  }

  predicate Allowed(s: string, i: nat)
    requires i < |s|
  {
    Plain(s[i]) || Opens(s, i) || Opens(s, i - 1)
  }

  lemma {:induction false} AllowedLater(s: string, n: nat, i: nat)
    requires i < |s| - n && n >= 1 && n < |s| && !Opens(s, n - 1)
    ensures Allowed(s[n..], i) <==> Allowed(s, n + i)
  {
    assert Opens(s[n..], i) <==> Opens(s, n + i);
    assert i > 0 ==> (Opens(s[n..], i - 1) <==> Opens(s, n + i - 1));
  }

  /** The prefix decodes exactly when each of its characters is allowed. */
  lemma {:induction false} DecodesExactly(s: string)
    ensures Values(Unbroken(Upper(s)), Value32).Some? <==> forall i | 0 <= i < |s| :: Allowed(s, i)
  {
    hide Allowed, Values, Unbroken, Upper;
    if s == "" {
      NothingToDecode();
    } else {
      var n := if Opens(s, 0) then 2 else 1;
      UpperStep(s, n);
      OneMore(Upper(s)[0], Upper(s[n..]));
      DecodesExactly(s[n..]);
      FrontAllowed(s, n);
      forall i | 0 <= i < |s| - n ensures Allowed(s[n..], i) <==> Allowed(s, n + i) {
        AllowedLater(s, n, i);
      }
      assert forall i | n <= i < |s| :: Allowed(s, i) <==> Allowed(s[n..], i - n);
    }
  }

  lemma {:induction false} NothingToDecode()
    ensures Values(Unbroken(Upper("")), Value32).Some?
  {
  }

  lemma {:induction false} UpperStep(s: string, n: nat)
    requires s != "" && n == if Opens(s, 0) then 2 else 1
    ensures Upper(s) == [Upper(s)[0]] + Upper(s[n..])
    ensures Upper(s)[0] == if n == 2 then Fold(s[0], s[1]).value else UpperChar(s[0])
  {
  }

  /** The front of the text is allowed exactly when its upper case is skipped or in the alphabet. */
  lemma {:induction false} FrontAllowed(s: string, n: nat)
    requires s != "" && n == if Opens(s, 0) then 2 else 1
    ensures !Opens(s, n - 1)
    ensures n == 2 ==> Allowed(s, 0) && Allowed(s, 1) && Value32(Fold(s[0], s[1]).value).Some?
    ensures n == 1 ==>
              (Allowed(s, 0) <==> UpperChar(s[0]) == '\r' || UpperChar(s[0]) == '\n' || Value32(UpperChar(s[0])).Some?)
  {
  }

  lemma {:induction false} OneMore(c: char, t: string)
    ensures Values(Unbroken([c] + t), Value32).Some? <==>
            (c == '\r' || c == '\n' || Value32(c).Some?) && Values(Unbroken(t), Value32).Some?
  {
    assert ([c] + t)[1..] == t;
    assert ([c] + Unbroken(t))[1..] == Unbroken(t);
  }

  lemma {:induction false} ValuesAt(s: string, value: char -> Option<nat>)
    ensures Values(s, value).Some? <==> forall i | 0 <= i < |s| :: value(s[i]).Some?
    ensures Values(s, value).Some? ==> |Values(s, value).value| == |s|
    ensures Values(s, value).Some? ==> forall i | 0 <= i < |s| :: value(s[i]) == Some(Values(s, value).value[i])
  {
    if s != "" {
      ValuesAt(s[1..], value);
      assert forall i | 1 <= i < |s| :: s[i] == s[1..][i - 1];
    }
  }

  /** 43 characters decode to 32 bytes exactly when they all belong to the alphabet. */
  lemma {:induction false} SecretExactly(s: string)
    requires |s| == 43
    ensures Decode64(s).Some? && |Decode64(s).value| == 32 <==> forall i | 0 <= i < 43 :: Value64(s[i]).Some?
  {
    hide Values, Unbroken;
    NothingBroken(s);
    ValuesAt(Unbroken(s), Value64);
  }

  lemma {:induction false} PrefixExactly(s: string)
    ensures Decode32(Upper(s)).Some? <==> forall i | 0 <= i < |s| :: Allowed(s, i)
  {
    hide Values, Unbroken, Upper, Allowed;
    DecodesExactly(s);
    ValuesAt(Unbroken(Upper(s)), Value32);
  }

  lemma {:induction false} CutParts(s: string)
    ensures Cut(s).Some? ==> s == Cut(s).value.0 + "_" + Cut(s).value.1 && '_' !in Cut(s).value.0
  {
    var k := Text.Find(s, '_');
    assert k < |s| ==> s == s[..k] + [s[k]] + s[k + 1..];
  }

  /** The form of a token that parses, character by character. */
  ghost predicate WellFormed(token: string) {
    && |token| == 58 && token[..4] == "evk_" && token[14] == '_'
    && (forall i | 0 <= i < 10 :: Allowed(token[4..14], i))
    && (forall i | 15 <= i < 58 :: Value64(token[i]).Some?)
  }

  /** A token parses exactly when it has that form, and then to its prefix as it stands. */
  lemma {:induction false} ParsedTokens(token: string)
    ensures ParseToken(token).Some? <==> WellFormed(token)
    ensures ParseToken(token).Some? ==> ParseToken(token).value == token[4..14]
  {
    hide Decode32, Decode64, Upper, Cut, Allowed;
    CutParts(token);
    if Cut(token).Some? {
      CutParts(Cut(token).value.1);
    }
    if ParseToken(token).Some? {
      var rest := Cut(token).value.1;
      var prefix, secret := Cut(rest).value.0, Cut(rest).value.1;
      assert token == Token(prefix, secret);
      PartsOf(prefix, secret);
      PrefixExactly(prefix);
      SecretExactly(secret);
    }
    if WellFormed(token) {
      var prefix, secret := token[4..14], token[15..];
      assert token == "evk" + "_" + (prefix + "_" + secret);
      NoUnderscore(prefix);
      CutAt("evk", prefix + "_" + secret);
      CutAt(prefix, secret);
      PrefixExactly(prefix);
      SecretExactly(secret);
    }
  }

  lemma {:induction false} PartsOf(prefix: string, secret: string)
    requires |prefix| == 10 && |secret| == 43
    ensures var token := Token(prefix, secret);
            && |token| == 58 && token[..4] == "evk_" && token[4..14] == prefix && token[14] == '_'
            && token[15..] == secret && forall i | 15 <= i < 58 :: token[i] == secret[i - 15]
  {
  }

  lemma {:induction false} NoUnderscore(s: string)
    requires forall i | 0 <= i < |s| :: Allowed(s, i)
    ensures '_' !in s
  {
    forall i | 0 <= i < |s| ensures s[i] != '_' {
      assert Allowed(s, i);
    }
  }

  // ----- exactly the tokens that are issued

  ghost predicate Issued(token: string) {
    exists a: Bytes, b: Bytes | |a| == 6 && |b| == 32 :: token == Token(Prefix(a), Secret(b))
  }

  /** Lower case throughout, and no bits left over. */
  ghost predicate Canonical(token: string)
    requires WellFormed(token)
  {
    && (forall i | 4 <= i < 14 :: Low(token[i]))
    && LowValue(token[13]).value % 4 == 0 && Value64(token[57]).value % 4 == 0
  }

  lemma {:induction false} PrefixFrom(s: string) returns (a: Bytes)
    requires |s| == 10 && (forall i | 0 <= i < 10 :: Low(s[i])) && Low(s[9]) && LowValue(s[9]).value % 4 == 0
    ensures |a| == 6 && Prefix(a) == s
  {
    hide Split32, Join32, Digits;
    var vs: seq<nat> := seq(10, i requires 0 <= i < 10 => LowValue(s[i]).value);
    Split32Join(vs);
    a := Join32(vs);
    DigitsAt(vs, Digit32);
    assert forall i | 0 <= i < 10 :: Digit32(vs[i]) == s[i];
  }

  lemma {:induction false} SecretFrom(s: string) returns (b: Bytes)
    requires |s| == 43 && (forall i | 0 <= i < 43 :: Value64(s[i]).Some?) && Value64(s[42]).value % 4 == 0
    ensures |b| == 32 && Secret(b) == s
  {
    hide Split64, Join64, Digits;
    var vs: seq<nat> := seq(43, i requires 0 <= i < 43 => Value64(s[i]).value);
    Split64Join(vs);
    b := Join64(vs);
    DigitsAt(vs, Digit64);
    assert forall i | 0 <= i < 43 :: Digit64(vs[i]) == s[i];
  }

  lemma {:induction false} PrefixEnds(a: Bytes)
    requires |a| == 6
    ensures |Prefix(a)| == 10 && LowValue(Prefix(a)[9]) == Some((a[5] % 8) * 4)
  {
    hide Digits;
    DigitsAt(Split32(a), Digit32);
    Digits32();
  }

  lemma {:induction false} SplitEnds(b: Bytes)
    requires |b| % 3 == 2
    ensures |Split64(b)| >= 3 && Split64(b)[|Split64(b)| - 1] == (b[|b| - 1] % 16) * 4
  {
    hide Quad, Split64;
    if |b| == 2 {
      SplitTwo(b);
    } else {
      SplitStep(b);
      SplitEnds(b[3..]);
    }
  }

  lemma {:induction false} SplitTwo(b: Bytes)
    requires |b| == 2
    ensures |Split64(b)| == 3 && Split64(b)[2] == (b[1] % 16) * 4
  {
  }

  lemma {:induction false} SecretEnds(b: Bytes)
    requires |b| == 32
    ensures |Secret(b)| == 43 && Value64(Secret(b)[42]) == Some((b[31] % 16) * 4)
  {
    hide Digits, Split64;
    SplitEnds(b);
    DigitsAt(Split64(b), Digit64);
    Digits64();
  }

  lemma {:induction false} IssuedIsCanonical(a: Bytes, b: Bytes)
    requires |a| == 6 && |b| == 32
    ensures var token := Token(Prefix(a), Secret(b)); WellFormed(token) && Canonical(token)
  {
    hide ParseToken, Prefix, Secret, WellFormed, Value64, LowValue, Low, Token;
    var token := Token(Prefix(a), Secret(b));
    ParsedTokens(token);
    IssuedTokensParse(a, b);
    PrefixDecodes(a);
    PrefixEnds(a);
    SecretEnds(b);
    PartsOf(Prefix(a), Secret(b));
    assert forall i | 4 <= i < 14 :: token[i] == token[4..14][i - 4];
  }

  lemma {:induction false} CanonicalIsIssued(token: string)
    requires WellFormed(token) && Canonical(token)
    ensures Issued(token)
  {
    hide Prefix, Secret, WellFormed, Value64, LowValue, Low, Token;
    FormOf(token);
    var a := PrefixFrom(token[4..14]);
    var b := SecretFrom(token[15..]);
  }

  /** Of the tokens that parse, those were issued that are in lower case and leave no bits over. */
  lemma {:induction false} IssuedExactly(token: string)
    ensures Issued(token) <==> ParseToken(token).Some? && WellFormed(token) && Canonical(token)
  {
    hide ParseToken, Prefix, Secret, WellFormed, Canonical, Token;
    ParsedTokens(token);
    if Issued(token) {
      var a: Bytes, b: Bytes :| |a| == 6 && |b| == 32 && token == Token(Prefix(a), Secret(b));
      IssuedIsCanonical(a, b);
    }
    if WellFormed(token) && Canonical(token) {
      CanonicalIsIssued(token);
    }
  }

  lemma {:induction false} FormOf(token: string)
    requires WellFormed(token)
    ensures |token| == 58 && token[..4] == "evk_" && token[14] == '_' && token == Token(token[4..14], token[15..])
    ensures forall i | 0 <= i < 43 :: Value64(token[15..][i]).Some?
  {
    hide Allowed, Value64;
    assert token == token[..4] + token[4..14] + [token[14]] + token[15..];
  }

  /** Line feeds fill up a prefix that is too short: such a token parses and was never issued. */
  lemma {:induction false} BrokenPrefixParses(secret: string)
    requires |secret| == 43 && forall i | 0 <= i < 43 :: Value64(secret[i]).Some?
    ensures ParseToken(Token("abcdefgh\n\n", secret)) == Some("abcdefgh\n\n")
    ensures !Issued(Token("abcdefgh\n\n", secret))
  {
    hide ParseToken, Value64, Issued;
    var prefix := "abcdefgh\n\n";
    var token := Token(prefix, secret);
    PartsOf(prefix, secret);
    assert forall i | 0 <= i < 10 :: Plain(prefix[i]);
    ParsedTokens(token);
    IssuedExactly(token);
    assert token[13] == prefix[9];
  }

  /** So do capitals, though issued prefixes are in lower case. */
  lemma {:induction false} CapitalsParse(prefix: string, secret: string)
    requires |prefix| == 10 && forall i | 0 <= i < 10 :: 'A' <= prefix[i] <= 'Z'
    requires |secret| == 43 && forall i | 0 <= i < 43 :: Value64(secret[i]).Some?
    ensures ParseToken(Token(prefix, secret)) == Some(prefix) && !Issued(Token(prefix, secret))
  {
    hide ParseToken, Value64, Issued;
    var token := Token(prefix, secret);
    PartsOf(prefix, secret);
    assert forall i | 0 <= i < 10 :: Plain(prefix[i]);
    ParsedTokens(token);
    IssuedExactly(token);
    assert token[4] == prefix[0];
  }
}
