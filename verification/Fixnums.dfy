/**
 The integers that fit in a cell: 56 bits, with sign.
 */
module Fixnums {
  const FIXNUM_MIN: int := -0x80_0000_0000_0000
  const FIXNUM_MAX: int := 0x7F_FFFF_FFFF_FFFF

  predicate FitsInFixnum(n: int)
  {
    FIXNUM_MIN <= n <= FIXNUM_MAX
  }
}
