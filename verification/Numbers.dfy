/** Numbers as the program's math functions treat them, for whole numbers and for reals. */
module Integers {
  function Min(a: int, b: int): int { if a <= b then a else b }
  function Max(a: int, b: int): int { if a >= b then a else b }
  function Abs(a: int): int { if a >= 0 then a else -a }
}

module Reals {
  function Min(x: real, y: real): real { if x <= y then x else y }
  function Max(x: real, y: real): real { if x >= y then x else y }
  function Abs(x: real): real { if x >= 0.0 then x else -x }

  /** Rounds half up. */
  function Rounded(x: real): int { (x + 0.5).Floor }

  function Ceil(x: real): int { -((-x).Floor) }
}
