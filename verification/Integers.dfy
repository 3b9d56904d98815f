/** The integer bounds of the source languages. */
module Integers {

  const U8_MAX: nat := 0xFF
  const U16_MAX: nat := 0xFFFF
  const U32_MAX: nat := 0xFFFF_FFFF
  const U64_MAX: nat := 0xFFFF_FFFF_FFFF_FFFF

  /** The largest integer a JavaScript number represents exactly with all its predecessors. */
  const MAX_SAFE_INTEGER: nat := 0x1F_FFFF_FFFF_FFFF

  function Min(a: nat, b: nat): nat { if a <= b then a else b }
}
