/** Optional values and results, as the harness's `Option` and `Result`. */
module Options {
  datatype Option<+T> = None | Some(value: T)

  datatype Result<+T, +E> = Ok(value: T) | Err(error: E)

  function Min(a: int, b: int): int { if a <= b then a else b }

  function Max(a: int, b: int): int { if a <= b then b else a }

  /** Unsigned subtraction that stops at zero. */
  function SatSub(a: nat, b: nat): nat { if b <= a then a - b else 0 }
}
