/**
 The machine word the counter lives in. The crate is built for the
 `wasm32` target, where Rust's `usize` is 32 bits wide, so `MAX` stands for
 `usize::max_value()` there. Nothing below depends on the exact width beyond
 `MAX` being large enough for the view's small keys.
 */
module Usize {

  /** `usize::max_value()` on `wasm32`, that is 2^32 - 1. */
  const MAX: nat := 0xFFFF_FFFF

  /** Number of distinct `usize` values: the modulus of wrapping arithmetic. */
  const MODULUS: nat := MAX + 1

  /** The values a `usize` can hold. */
  type Usize = x: int | 0 <= x <= MAX

  /** Adding to a value already reduced modulo MODULUS is the same as reducing the sum. */
  lemma ModAddOne(a: Usize, b: nat)
    ensures ((a + 1) % MODULUS + b) % MODULUS == (a + 1 + b) % MODULUS
  {
  }
}
