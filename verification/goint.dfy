/** Go's fixed-width integer bounds, from its math package. */
module GoInt {

  const MinInt64: int := -0x8000_0000_0000_0000
  const MaxInt64: int := 0x7FFF_FFFF_FFFF_FFFF
  const MaxUint64: int := 0xFFFF_FFFF_FFFF_FFFF

  /** Go's int64 (and int, on the 64-bit platforms the scheduler runs on). */
  type Int64 = x: int | MinInt64 <= x <= MaxInt64
}
