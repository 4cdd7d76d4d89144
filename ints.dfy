/** Fixed-width machine integers of the Rust source, as bounded subset types of `int`. */
module Ints {
  /** Rust `u8`. */
  type uint8 = x: int | 0 <= x < 0x100

  /** Rust `u64`, the type of lamport balances. */
  type uint64 = x: int | 0 <= x < 0x1_0000_0000_0000_0000

  /** One past the largest Rust `usize` on a 64-bit target. */
  const USIZE_LIMIT: nat := 0x1_0000_0000_0000_0000
}

/** The error-carrying result type of the Rust source (`Result<T, E>`). */
module Wrappers {
  datatype Result<+T, +E> = Ok(value: T) | Err(error: E)
}
