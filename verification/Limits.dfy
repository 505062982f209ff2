/** Word sizes, limits and small functions that several files share. */
module Limits {
  const TWO32: nat := 0x1_0000_0000
  const TWO64: nat := 0x1_0000_0000_0000_0000
  const VFS_NAME_MAX: nat := 64

  function Bit(b: bool): int { if b then 1 else 0 }

  function Min(a: nat, b: nat): nat { if a < b then a else b }

  /** How many of n bytes at off lie within `size` bytes. */
  function Clip(off: nat, n: nat, size: nat): nat {
    if off >= size then 0 else Min(n, size - off)
  }
}
