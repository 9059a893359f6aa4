/** Small vocabulary shared by every module: optional and failing results, the machine widths the
    source names, and the saturating operators it uses on them. */
module Base {
  datatype Option<+T> = None | Some(value: T)

  datatype Result<+T, +E> = Ok(value: T) | Err(error: E)

  /** The value of an operation that succeeds without one. */
  datatype Unit = Unit

  const U64_MAX: nat := 0xFFFF_FFFF_FFFF_FFFF
  const U128_MAX: nat := 0xFFFF_FFFF_FFFF_FFFF_FFFF_FFFF_FFFF_FFFF
  const ADDRESS_MAX: nat := 0xFFFF_FFFF_FFFF_FFFF_FFFF_FFFF_FFFF_FFFF_FFFF_FFFF
  const HASH_MAX: nat :=
    0xFFFF_FFFF_FFFF_FFFF_FFFF_FFFF_FFFF_FFFF_FFFF_FFFF_FFFF_FFFF_FFFF_FFFF_FFFF_FFFF

  type byte = n: nat | n < 256
  type u64 = n: nat | n <= U64_MAX
  type u128 = n: nat | n <= U128_MAX

  /** A 20-byte address, read as a big-endian number: the byte order of the source is the number order. */
  type Address = n: nat | n <= ADDRESS_MAX

  /** A 32-byte commitment, read as a big-endian number. */
  type Hash = n: nat | n <= HASH_MAX

  function Min(x: int, y: int): int { if x <= y then x else y }

  function Max(x: int, y: int): int { if x <= y then y else x }

  /** `saturating_sub` on an unsigned width. */
  function SatSub(x: nat, y: nat): nat { if x < y then 0 else x - y }

  /** `n + 1` on 64 bits as an optimised build computes it: past the last number comes 0. */
  function Next64(n: u64): u64 { if n == U64_MAX then 0 else n + 1 }

  function SatAdd64(x: u64, y: u64): u64 { if x + y <= U64_MAX then x + y else U64_MAX }

  function SatAdd(x: u128, y: u128): u128 { if x + y <= U128_MAX then x + y else U128_MAX }

  function SatMul(x: u128, y: u128): u128 { if x * y <= U128_MAX then x * y else U128_MAX }
}
