/** What every module of the model uses. */
module Basics {
  /** Optional values, for the source's `None`. */
  datatype Option<+T> = None | Some(value: T)

  /** Time is counted in ticks of the monotonic clock, nanoseconds. */
  const SECOND := 1_000_000_000

  function Max(a: int, b: int): int {
    if a >= b then a else b
  }

  function Min(a: int, b: int): int {
    if a <= b then a else b
  }
}
