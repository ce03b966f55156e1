/** Machine integer widths used at the Rust/JavaScript boundary. */
module Ints {

  const TWO_TO_THE_32: nat := 0x1_0000_0000

  /** A Rust `u32`. */
  type u32 = n: nat | n < TWO_TO_THE_32

  /** A Rust `i64`. */
  type i64 = n: int | -0x8000_0000_0000_0000 <= n < 0x8000_0000_0000_0000

  /** True when `n` fits in a Rust `i32`. */
  predicate InI32(n: int) {
    -0x8000_0000 <= n < 0x8000_0000
  }

  /** Rust's `n as u32` for an unsigned `usize`: keep the low 32 bits. */
  function AsU32(n: nat): (r: u32)
    ensures (r - n) % TWO_TO_THE_32 == 0
    ensures n < TWO_TO_THE_32 ==> r == n
    ensures n >= TWO_TO_THE_32 ==> r < n
  {
    n % TWO_TO_THE_32
  }
}
