/** Machine types and wrappers shared by the whole model. */
module Primitives {

  const U64_MAX: int := 0xFFFF_FFFF_FFFF_FFFF
  const I64_MIN: int := -0x8000_0000_0000_0000
  const I64_MAX: int := 0x7FFF_FFFF_FFFF_FFFF

  type byte = x: int | 0 <= x < 256

  /** Rust's `u64`: token amounts and holding periods. */
  type u64 = x: int | 0 <= x <= 0xFFFF_FFFF_FFFF_FFFF

  /** Rust's `i64`: Unix timestamps. */
  type i64 = x: int | -0x8000_0000_0000_0000 <= x <= 0x7FFF_FFFF_FFFF_FFFF

  /** A Solana public key: 32 bytes. */
  type Pubkey = s: seq<byte> | |s| == 32 witness seq(32, i => 0)

  datatype Option<+T> = None | Some(value: T)

  datatype Result<+T, +E> = Ok(value: T) | Err(error: E)
}
