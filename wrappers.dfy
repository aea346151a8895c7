/** Optional values and results with an error, used where the processor returns "nothing found" or raises. */
module Wrappers {

  datatype Option<+T> = None | Some(value: T)

  datatype Result<+T, +E> = Ok(value: T) | Err(error: E)

  function Min(a: int, b: int): int { if a <= b then a else b }
}
