/**
 * Shared vocabulary of the document-identity model: the C++ unsigned
 * 32-bit integer, an optional value, and the abstract UUID supplied by the
 * application's UUID generator.
 */
module Basics {

  /** UT_uint32. */
  type u32 = x: int | 0 <= x <= 0xffff_ffff

  const MAX_U32: u32 := 0xffff_ffff

  /** UT_UCS4Char, one code unit of a UCS-4 string. */
  type Ucs4Char = u32

  /** `x++` / `x + 1` on a UT_uint32: wraps to 0 after the largest value. */
  function Inc32(x: u32): (r: u32)
    ensures r == (x + 1) % 0x1_0000_0000
    ensures x < MAX_U32 ==> r > x
  {
    if x == MAX_U32 then 0 else x + 1
  }

  /** Conversion of a (signed, wide) time difference to UT_uint32. */
  function Trunc32(x: int): (r: u32)
    ensures 0 <= x <= MAX_U32 ==> r == x
    ensures (x - r) % 0x1_0000_0000 == 0
  {
    x % 0x1_0000_0000
  }

  datatype Option<T> = None | Some(value: T)

  /**
   * A UT_UUID as the document sees it: an opaque value compared by
   * equality that embeds its creation time. NullUuid stands for the null
   * UUID (and for a missing UUID object).
   */
  datatype Uuid = NullUuid | Uid(node: nat, time: int)
}
