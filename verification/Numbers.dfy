/** The machine integers of the modelled code, over unbounded numbers. */
module Numbers {
  const U32_RANGE: nat := 0x1_0000_0000
  const U32_MAX: nat := 0xFFFF_FFFF
  const U64_MAX: nat := 0xFFFF_FFFF_FFFF_FFFF

  type u32 = x: int | 0 <= x <= U32_MAX

  type u64 = x: int | 0 <= x <= U64_MAX

  function Max(a: nat, b: nat): nat {
    if a < b then b else a
  }

  function Min(a: nat, b: nat): nat {
    if a < b then a else b
  }

  function SaturatingSub(a: nat, b: nat): nat {
    if a < b then 0 else a - b
  }

  /** Addition of 64-bit values that stops at the largest one. */
  function SaturatingAdd(a: nat, b: nat): u64 {
    if a + b > U64_MAX then U64_MAX else a + b
  }

  /** Addition of 32-bit values without an overflow check. */
  function WrappingAdd(a: u32, b: u32): u32 {
    if a + b >= U32_RANGE then a + b - U32_RANGE else a + b
  }
}
