/** Go's time.Duration: nanoseconds in a signed 64-bit word, with arithmetic that wraps. */
module Durations {
  const SECOND := 1_000_000_000
  const HALF := 0x4000_0000_0000_0000
  const TOP := 0x8000_0000_0000_0000

  type Duration = x: int | -TOP <= x < TOP

  function Wrap(x: int): Duration {
    (x + TOP) % (2 * TOP) - TOP
  }

  function Max(a: int, b: int): int {
    if a < b then b else a
  }

  function Min(a: int, b: int): int {
    if a < b then a else b
  }
}
