/** Values every component shares. */
module Common {
  datatype Option<+T> = None | Some(value: T)

  /** People are identified by an opaque id (a UUID in the program). */
  type UserId = nat

  function Max(a: int, b: int): int { if a < b then b else a }

  function Min(a: int, b: int): int { if b < a then b else a }

  /** Integer division as Python's `int(x / y)` rounds it: towards zero. */
  function TruncDiv(x: int, y: int): int
    requires y > 0
  {
    if x >= 0 then x / y else -((-x) / y)
  }
}
