/** Vocabulary shared by every component of the model: optional and failing
    results, opaque identifiers, instants, and the fixed-width counters of the
    source. */
module Prelude {

  datatype Option<+T> = None | Some(value: T)

  datatype Result<+T, +E> = Ok(value: T) | Err(error: E)

  /** Identifiers are opaque; only equality and the total order matter. */
  type Uuid = nat

  /** An instant, counted in a fixed unit from a fixed origin. */
  type Time = int

  const U32_MAX: nat := 0xFFFF_FFFF
  const U64_MAX: nat := 0xFFFF_FFFF_FFFF_FFFF

  type u32 = n: nat | n <= U32_MAX
  type u64 = n: nat | n <= U64_MAX

  function SaturatingInc32(n: u32): u32 {
    if n == U32_MAX then n else n + 1
  }

  /** Unchecked addition, which wraps. */
  function WrappingInc32(n: u32): u32 {
    if n == U32_MAX then 0 else n + 1
  }

  function CheckedAdd32(n: u32, k: nat): Option<u32> {
    if n + k <= U32_MAX then Some(n + k) else None
  }

  function CheckedAdd64(n: u64, k: nat): Option<u64> {
    if n + k <= U64_MAX then Some(n + k) else None
  }
}
