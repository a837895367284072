/** The integer box logic around the clip-list accumulator: the clip box set
    from a fixed-point box, its conversion back, the clipping of an incoming
    rectangle, the growth of the bounding box, and the boxes computed when the
    accumulation ends. */
module AccumBoxes {
  import opened FixedPoint
  import opened ClipList

  datatype Option<T> = None | Some(value: T)

  /** The largest upper coordinate gx_cpath_accum_set_cbox lets through. */
  const UpperLimit: int := MaxFixed - FixedScale - 1

  /** The clamp applied to an upper fixed coordinate before its ceiling
      conversion. */
  function ClampUpper(v: Fixed): (r: Fixed)
    ensures r <= UpperLimit
    ensures r + FixedScale - 1 <= MaxFixed
    ensures v <= UpperLimit ==> r == v
    ensures v > UpperLimit ==> r == UpperLimit
  {
    if v > UpperLimit then UpperLimit else v
  }

  /** The clip box gx_cpath_accum_set_cbox stores for `pbox`: floor of the low
      corner, ceiling of the clamped high corner, x and y swapped when the
      accumulator is transposed. */
  function ClipBoxFor(pbox: FixedRect, transpose: bool): (cb: IntRect)
    requires FixedBoxInRange(pbox)
    ensures BoxInRange(cb)
  {
    var upperx := ClampUpper(pbox.qx);
    var uppery := ClampUpper(pbox.qy);
    if transpose then
      IntRect(Fixed2Int(pbox.py), Fixed2Int(pbox.px), Fixed2IntCeiling(uppery), Fixed2IntCeiling(upperx))
    else
      IntRect(Fixed2Int(pbox.px), Fixed2Int(pbox.py), Fixed2IntCeiling(upperx), Fixed2IntCeiling(uppery))
  }

  /** Transposing only swaps the two axes of the stored clip box. */
  lemma ClipBoxTransposed(pbox: FixedRect)
    requires FixedBoxInRange(pbox)
    ensures ClipBoxFor(pbox, true) == SwapXY(ClipBoxFor(pbox, false))
  {
  }

  /** The pixel clip box covers the fixed box it was made from: its low corner
      is at or below the fixed one and, unless the clamp cut it, its high corner
      is at or above. */
  lemma ClipBoxCovers(pbox: FixedRect)
    requires FixedBoxInRange(pbox)
    ensures var cb := ClipBoxFor(pbox, false);
      Int2Fixed(cb.px) <= pbox.px && Int2Fixed(cb.py) <= pbox.py &&
      (pbox.qx <= UpperLimit ==> pbox.qx <= Int2Fixed(cb.qx)) &&
      (pbox.qy <= UpperLimit ==> pbox.qy <= Int2Fixed(cb.qy))
  {
  }

  /** accum_get_clipping_box: the fixed box whose pixels are those of the clip
      box, high corner inclusive (int2fixed(q + 1) - 1). */
  function ClippingBox(cb: IntRect, transpose: bool): (r: FixedRect)
    requires BoxInRange(cb)
    ensures FixedBoxInRange(r)
  {
    if transpose then
      FixedRect(Int2Fixed(cb.py), Int2Fixed(cb.px), Int2Fixed(cb.qy + 1) - 1, Int2Fixed(cb.qx + 1) - 1)
    else
      FixedRect(Int2Fixed(cb.px), Int2Fixed(cb.py), Int2Fixed(cb.qx + 1) - 1, Int2Fixed(cb.qy + 1) - 1)
  }

  /** Converting the clipping box back with fixed2int gives the clip box again
      (swapped back when transposed). */
  lemma ClippingBoxRoundTrip(cb: IntRect, transpose: bool)
    requires BoxInRange(cb)
    ensures var r := ClippingBox(cb, transpose);
      var back := IntRect(Fixed2Int(r.px), Fixed2Int(r.py), Fixed2Int(r.qx), Fixed2Int(r.qy));
      back == (if transpose then SwapXY(cb) else cb)
  {
  }

  /** Two's-complement wrap to 32 bits. */
  function Wrap32(v: int): int {
    (v - MinInt) % 0x1_0000_0000 + MinInt
  }

  /** With the open clip box (high corner fixed2int(max_fixed)),
      int2fixed(q + 1) is 2^31 and does not fit in 32 bits; the subtraction of
      1 brings a wrapped value back to max_fixed, so the 32-bit result agrees
      with the exact one for every clip box in range. */
  lemma ClippingBoxWrapAgrees(q: int)
    requires CoordInRange(q)
    ensures Wrap32(Wrap32(Int2Fixed(q + 1)) - 1) == Int2Fixed(q + 1) - 1
  {
  }

  /** The incoming rectangle (x, y, w, h) in accumulator coordinates: with
      transpose, x and y trade places. */
  function Incoming(xi: int, yi: int, w: int, h: int, transpose: bool): ClipRect {
    if transpose then AccumRect(yi, xi, yi + h, xi + w) else AccumRect(xi, yi, xi + w, yi + h)
  }

  /** With transpose the incoming rectangle is the untransposed one for the
      swapped arguments: x runs over yi..yi + h and y over xi..xi + w. */
  lemma IncomingTransposed(xi: int, yi: int, w: int, h: int)
    ensures Incoming(xi, yi, w, h, false) == ClipRect(yi, yi + h, xi, xi + w)
    ensures Incoming(xi, yi, w, h, true) == Incoming(yi, xi, h, w, false)
    ensures Incoming(xi, yi, w, h, true) == ClipRect(xi, xi + w, yi, yi + h)
  {
  }

  /** The clip box as a rectangle; its high corner is exclusive. */
  function BoxRect(cb: IntRect): ClipRect {
    AccumRect(cb.px, cb.py, cb.qx, cb.qy)
  }

  /** The clipping at the top of accum_fill_rectangle: None when the clipped
      rectangle is empty in y or in x, otherwise exactly the intersection. */
  function ClipIncoming(xi: int, yi: int, w: int, h: int, transpose: bool, cb: IntRect): (r: Option<ClipRect>)
    ensures r.Some? ==> NonEmpty(r.value) && InsideBox(r.value, cb)
  {
    var inc := Incoming(xi, yi, w, h, transpose);
    var y := if inc.ymin < cb.py then cb.py else inc.ymin;
    var ye := if inc.ymax > cb.qy then cb.qy else inc.ymax;
    if y >= ye then None
    else
      var x := if inc.xmin < cb.px then cb.px else inc.xmin;
      var xe := if inc.xmax > cb.qx then cb.qx else inc.xmax;
      if x >= xe then None
      else Some(AccumRect(x, y, xe, ye))
  }

  /** The clipped rectangle holds exactly the pixels of the incoming one that
      lie in the clip box, and there are none when clipping leaves nothing. */
  lemma ClipIncomingExact(xi: int, yi: int, w: int, h: int, transpose: bool, cb: IntRect)
    ensures var r := ClipIncoming(xi, yi, w, h, transpose, cb);
      var inc := Incoming(xi, yi, w, h, transpose);
      && (r.Some? ==> forall pt :: Covers(r.value, pt) <==> Covers(inc, pt) && Covers(BoxRect(cb), pt))
      && (r.None? ==> forall pt :: Covers(inc, pt) ==> !Covers(BoxRect(cb), pt))
  {
  }

  /** The bounding-box update of accum_fill_rectangle: the box grows just
      enough to hold `r`. */
  function GrowBox(b: IntRect, r: ClipRect): (g: IntRect)
    ensures InsideBox(r, g)
    ensures g.px <= b.px && g.py <= b.py && b.qx <= g.qx && b.qy <= g.qy
    ensures (g.px == b.px || g.px == r.xmin) && (g.py == b.py || g.py == r.ymin)
    ensures (g.qx == b.qx || g.qx == r.xmax) && (g.qy == b.qy || g.qy == r.ymax)
  {
    IntRect(if r.xmin < b.px then r.xmin else b.px,
            if r.ymin < b.py then r.ymin else b.py,
            if r.xmax > b.qx then r.xmax else b.qx,
            if r.ymax > b.qy then r.ymax else b.qy)
  }

  /** The box accum_open_device starts from: empty, inverted at the extremes. */
  const EmptyBbox: IntRect := IntRect(MaxCoord, MaxCoord, MinCoord, MinCoord)

  /** The open clip box: the whole fixed range. */
  const FullClipBox: IntRect := IntRect(MinCoord, MinCoord, MaxCoord, MaxCoord)

  const ZeroBox: FixedRect := FixedRect(0, 0, 0, 0)

  /** The boxes gx_cpath_accum_end produces. */
  datatype EndBoxes = EndBoxes(devBbox: IntRect, bbox: FixedRect, innerBox: FixedRect)

  function BoxToFixed(b: IntRect): FixedRect {
    FixedRect(Int2Fixed(b.px), Int2Fixed(b.py), Int2Fixed(b.qx), Int2Fixed(b.qy))
  }

  /** gx_cpath_accum_end: an empty list gives an all-zero bounding box;
      otherwise the device bbox, swapped back to x/y order when transposed,
      scaled to fixed. The inner box is the bounding box when the list is at
      most one rectangle (clip_list_is_rectangle) and all zero otherwise. */
  function FinishBoxes(count: int, bbox: IntRect, transpose: bool): (e: EndBoxes)
    requires count != 0 ==> BoxInRange(bbox)
    ensures count == 0 ==> e.bbox == ZeroBox && e.devBbox == bbox
    ensures count != 0 ==> FixedBoxInRange(e.bbox)
    ensures count != 0 && !transpose ==> e.devBbox == bbox
    ensures count != 0 && transpose ==> SwapXY(e.devBbox) == bbox
    ensures count != 0 ==> Fixed2Int(e.bbox.px) == e.devBbox.px && Fixed2Int(e.bbox.py) == e.devBbox.py &&
                           Fixed2Int(e.bbox.qx) == e.devBbox.qx && Fixed2Int(e.bbox.qy) == e.devBbox.qy
    ensures count <= 1 ==> e.innerBox == e.bbox
    ensures count > 1 ==> e.innerBox == ZeroBox
  {
    var dev := if count != 0 && transpose then SwapXY(bbox) else bbox;
    var fb := if count == 0 then ZeroBox else BoxToFixed(dev);
    EndBoxes(dev, fb, if count <= 1 then fb else ZeroBox)
  }
}
