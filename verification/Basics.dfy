/** Shared vocabulary: optional values, machine-word limits and clock units. */
module Basics {

  datatype Option<+T> = None | Some(value: T)

  /** One past the largest `usize` on the 64-bit targets the gateway ships for. */
  const USIZE: nat := 0x1_0000_0000_0000_0000

  const U32_MAX: nat := 0xFFFF_FFFF

  /** Instants and durations are counted in nanoseconds. */
  const NANOS_PER_SEC: nat := 1_000_000_000

  function Min(a: int, b: int): int {
    if a <= b then a else b
  }

  function Max(a: int, b: int): int {
    if a >= b then a else b
  }
}
