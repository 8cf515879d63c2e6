/** The 64-bit arithmetic of the program: sums and negations wrap, division truncates. */
module Machine {
  const MIN64: int := -9_223_372_036_854_775_808
  const MAX64: int := 9_223_372_036_854_775_807

  type Int64 = x: int | MIN64 <= x <= MAX64

  /** Two's complement negation: the one value without a negative keeps its own. */
  function Neg64(v: Int64): Int64 { if v == MIN64 then MIN64 else -v }

  function Add64(a: Int64, b: Int64): Int64 {
    if a + b > MAX64 then a + b + 2 * MIN64
    else if a + b < MIN64 then a + b - 2 * MIN64
    else a + b
  }

  /** `/` and `%`, which truncate toward zero. */
  function Quo(a: int, b: int): int
    requires b > 0
  {
    if a >= 0 then a / b else -((-a) / b)
  }

  function Rem(a: int, b: int): int
    requires b > 0
  {
    a - Quo(a, b) * b
  }
}
