/** Go's fixed-width integers: conversion and arithmetic wrap around. */
module Ints {
  import opened Arithmetic

  const MAX_INT32 := 0x7fff_ffff
  const MAX_INT64 := 0x7fff_ffff_ffff_ffff

  function Int32(x: int): (r: int)
    ensures -0x8000_0000 <= r <= MAX_INT32
    ensures -0x8000_0000 <= x <= MAX_INT32 ==> r == x
  {
    (x + 0x8000_0000) % 0x1_0000_0000 - 0x8000_0000
  }

  function Int64(x: int): (r: int)
    ensures -0x8000_0000_0000_0000 <= r <= MAX_INT64
    ensures -0x8000_0000_0000_0000 <= x <= MAX_INT64 ==> r == x
  {
    (x + 0x8000_0000_0000_0000) % 0x1_0000_0000_0000_0000 - 0x8000_0000_0000_0000
  }

  /** Together with the identity on the range this fixes the conversion: whole multiples of 2^32 are dropped. */
  lemma Int32WrapsAround(x: int, k: int)
    ensures Int32(x + k * 0x1_0000_0000) == Int32(x)
  {
    ShiftModulo(x + k * 0x1_0000_0000 + 0x8000_0000, k, 0x1_0000_0000);
  }

  lemma Int64WrapsAround(x: int, k: int)
    ensures Int64(x + k * 0x1_0000_0000_0000_0000) == Int64(x)
  {
    ShiftModulo(x + k * 0x1_0000_0000_0000_0000 + 0x8000_0000_0000_0000, k, 0x1_0000_0000_0000_0000);
  }
}
