/** Fixed-point coordinates and the integer boxes of the clip-list accumulator.
    A `fixed` is a 32-bit signed integer with 8 fraction bits; pixel coordinates
    are plain 32-bit ints. The conversion macros are the usual shifts, i.e.
    floor division by the scale, and the ceiling form adds `FixedScale - 1`
    before shifting. */
module FixedPoint {

  const MinInt: int := -0x8000_0000
  const MaxInt: int := 0x7fff_ffff

  /** `fixed` is as wide as `int`. */
  const MinFixed: int := MinInt
  const MaxFixed: int := MaxInt
  const FixedScale: int := 256

  type Fixed = v: int | MinFixed <= v <= MaxFixed

  /** fixed2int / fixed2int_var: arithmetic shift right, i.e. floor division. */
  function Fixed2Int(v: int): int {
    v / FixedScale
  }

  /** fixed2int_var_ceiling: add the fraction mask, then shift. The addition is
      the step that can overflow 32 bits, which is why the clip box clamps its
      argument first. */
  function Fixed2IntCeiling(v: int): int {
    (v + FixedScale - 1) / FixedScale
  }

  /** int2fixed: shift left by the fraction bits. */
  function Int2Fixed(v: int): int {
    v * FixedScale
  }

  /** The pixel range reachable from fixed coordinates:
      fixed2int(min_fixed) .. fixed2int(max_fixed). */
  const MinCoord: int := MinFixed / FixedScale
  const MaxCoord: int := MaxFixed / FixedScale

  /** gs_int_rect: corners p (low) and q (high). */
  datatype IntRect = IntRect(px: int, py: int, qx: int, qy: int)

  /** gs_fixed_rect. */
  datatype FixedRect = FixedRect(px: int, py: int, qx: int, qy: int)

  predicate CoordInRange(v: int) {
    MinCoord <= v <= MaxCoord
  }

  predicate BoxInRange(b: IntRect) {
    CoordInRange(b.px) && CoordInRange(b.py) && CoordInRange(b.qx) && CoordInRange(b.qy)
  }

  predicate FixedBoxInRange(b: FixedRect) {
    MinFixed <= b.px <= MaxFixed && MinFixed <= b.py <= MaxFixed &&
    MinFixed <= b.qx <= MaxFixed && MinFixed <= b.qy <= MaxFixed
  }

  /** Swaps the roles of x and y (the accumulator's transpose mode). */
  function SwapXY(b: IntRect): IntRect {
    IntRect(b.py, b.px, b.qy, b.qx)
  }
}
