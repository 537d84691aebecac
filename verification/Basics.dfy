/** Go's fixed-width integers and immutable byte strings. */
module Basics {

  const MAX_INT: int := 0x7FFF_FFFF_FFFF_FFFF
  const MIN_INT: int := -0x8000_0000_0000_0000
  const TWO_64: int := 0x1_0000_0000_0000_0000

  /** Nanoseconds in Go's time.Second and time.Millisecond. */
  const SECOND: int := 1_000_000_000
  const MILLISECOND: int := 1_000_000

  /** A value of Go's `int`, `int64` or `time.Duration`. */
  type Int = n: int | MIN_INT <= n <= MAX_INT

  /** A Go string: one element per byte, with a length that fits an `int`. */
  type Bytes = s: string | |s| <= MAX_INT

  datatype Option<+T> = None | Some(value: T)

  /** Two's-complement wrap-around of 64-bit arithmetic. */
  function Wrap(n: int): (r: Int)
    ensures MIN_INT <= n <= MAX_INT ==> r == n
  {
    var m := n % TWO_64;
    if m > MAX_INT then m - TWO_64 else m
  }

  /** Unary minus, which leaves the smallest integer as it is. */
  function Negate(n: Int): Int {
    var m: int := n;
    Wrap(-m)
  }

  function UpperChar(c: char): char {
    if 'a' <= c <= 'z' then ((c as int) - 32) as char else c
  }

  /** strings.ToUpper on ASCII letters. */
  function Upper(s: Bytes): (r: Bytes)
    ensures |r| == |s|
  {
    seq(|s|, i requires 0 <= i < |s| => UpperChar(s[i]))
  }

  function Min(a: int, b: int): int {
    if a < b then a else b
  }
}
