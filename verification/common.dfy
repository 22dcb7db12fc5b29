/** Small helpers shared by the board model and the search engines. */
module Common {

  /** The usual optional value; `None` stands for Java's `null`. */
  datatype Option<T> = None | Some(value: T)

  const INT_MAX: int := 0x7FFF_FFFF

  function Max(a: int, b: int): int { if a >= b then a else b }

  function Min(a: int, b: int): int { if a <= b then a else b }

  /** `Math.abs` on values far from the 32-bit limits. */
  function Abs(x: int): nat { if x < 0 then -x else x }

  /** `Integer.signum`. */
  function Signum(x: int): int { if x > 0 then 1 else if x < 0 then -1 else 0 }

  /** Reduction of an unbounded integer to Java's 32-bit two's-complement `int`. */
  function Wrap32(x: int): (r: int)
    ensures -0x8000_0000 <= r <= INT_MAX
    ensures (x - r) % 0x1_0000_0000 == 0
  {
    (x + 0x8000_0000) % 0x1_0000_0000 - 0x8000_0000
  }
}
