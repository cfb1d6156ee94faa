/** Values the dashboard passes around that may be absent (an unset global, a missing request field). */
module Base {

  datatype Option<T> = None | Some(value: T)

  /** The shorter of two integers (JavaScript's Math.min on integers). */
  function Min(a: int, b: int): int
  {
    if a <= b then a else b
  }

  /** The larger of two integers (JavaScript's Math.max on integers). */
  function Max(a: int, b: int): int
  {
    if a >= b then a else b
  }
}
