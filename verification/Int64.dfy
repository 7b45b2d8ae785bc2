// The machine's 64-bit integers, whose arithmetic wraps.
module Int64 {
  const MIN64 := -0x8000_0000_0000_0000
  const MAX64 := 0x7FFF_FFFF_FFFF_FFFF

  type int64 = i: int | -0x8000_0000_0000_0000 <= i <= 0x7FFF_FFFF_FFFF_FFFF

  function Wrap(i: int): int64 {
    if MIN64 <= i <= MAX64 then i else (i - MIN64) % 0x1_0000_0000_0000_0000 + MIN64
  }
}
