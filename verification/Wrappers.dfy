/** Types and functions shared by the other modules. */
module Wrappers {

  datatype Option<+T> = None | Some(value: T)
  {
    function GetOr(default: T): T {
      if Some? then value else default
    }
  }

  datatype Result<+T, +E> = Ok(value: T) | Err(error: E)

  /** A class, by its name. */
  type TypeId = string

  /** A length of time. */
  type Span = r: real | r >= 0.0

  function Max(a: int, b: int): int {
    if a >= b then a else b
  }
}
