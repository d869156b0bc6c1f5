/** Machine integer types of the Rust source, and an Option for checked arithmetic. */
module Basics {

  const U32_LIMIT: int := 0x1_0000_0000
  /** `usize` on the 64-bit targets the program runs on. */
  const USIZE_LIMIT: int := 0x1_0000_0000_0000_0000

  newtype u32 = x: int | 0 <= x < 0x1_0000_0000
  newtype usize = x: int | 0 <= x < 0x1_0000_0000_0000_0000

  const USIZE_MAX: usize := 0xFFFF_FFFF_FFFF_FFFF

  /** The result of a checked operation: `None` where Rust (debug build) would panic. */
  datatype Option<T> = None | Some(value: T)
}
