/** Shared vocabulary: optional values, 64-bit saturating arithmetic, and byte strings. */
module Common {

  datatype Option<+T> = None | Some(value: T)

  /** A byte string, one `char` per byte. */
  type Bytes = string

  const U8_MAX: nat := 0xff
  const U32_MAX: nat := 0xffff_ffff
  const U64_MAX: nat := 0xffff_ffff_ffff_ffff

  function Min(x: nat, y: nat): nat {
    if x <= y then x else y
  }

  function Max(x: nat, y: nat): nat {
    if x <= y then y else x
  }

  /** `u64::saturating_add`. */
  function SatAdd(x: nat, y: nat): nat {
    Min(x + y, U64_MAX)
  }

  /** `u64::saturating_sub`. */
  function SatSub(x: nat, y: nat): nat {
    if x <= y then 0 else x - y
  }
}
