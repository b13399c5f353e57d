/** Small shared vocabulary: optional values, byte strings and the fate of a request that failed. */
module Prelude {

  datatype Option<+T> = None | Some(value: T)

  /** A request that failed may have had no effect, may have taken effect, or may take effect later. */
  datatype Effect = Never | Now | Later

  type Byte = b: int | 0 <= b < 256

  type Bytes = seq<Byte>

  /** Length of the longest slice a 64-bit Go program can hold. */
  const MAX_INT64: nat := 0x7fff_ffff_ffff_ffff

  /** Nanoseconds in a second. */
  const NANOS: int := 1_000_000_000

  function Pow256(n: nat): nat {
    if n == 0 then 1 else 256 * Pow256(n - 1)
  }

  /** Written as a function so that the solver does not unroll 32-step recursions. */
  function WordSize(): nat { 32 }

  /** The first number that does not fit in a word of the Ethereum machine. */
  const UINT256_BOUND: nat := Pow256(WordSize())

  function Elements<T>(s: seq<T>): set<T> {
    set x | x in s
  }

  function Min(a: int, b: int): int {
    if a < b then a else b
  }

  function Max(a: int, b: int): int {
    if a < b then b else a
  }
}
