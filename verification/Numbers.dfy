/** The few numeric operations Python has that Dafny does not. */
module Numbers {

  function Ceil(x: real): int { -((-x).Floor) }

  function Max(a: int, b: int): int { if a >= b then a else b }
}
