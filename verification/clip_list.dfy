/** The banded rectangle list of a clip path (gx_clip_list), as a sequence.
    In list mode the sequence runs from the head sentinel to the tail sentinel;
    the `prev`/`next` links of the C structure are the sequence order. */
module ClipList {
  import opened FixedPoint

  /** gx_clip_rect without its links; both ranges are half-open. */
  datatype ClipRect = ClipRect(ymin: int, ymax: int, xmin: int, xmax: int)

  /** A rectangle built in ACCUM_SET's argument order (px, py, qx, qy). */
  function AccumRect(px: int, py: int, qx: int, qy: int): ClipRect {
    ClipRect(py, qy, px, qx)
  }

  /** clip_head_rect and clip_tail_rect. */
  const HeadRect: ClipRect := ClipRect(MinInt, MinInt, MinInt, MinInt)
  const TailRect: ClipRect := ClipRect(MaxInt, MaxInt, MaxInt, MaxInt)

  predicate NonEmpty(r: ClipRect) {
    r.ymin < r.ymax && r.xmin < r.xmax
  }

  /** The per-rectangle test of clip_list_validate. */
  predicate Ordered(r: ClipRect) {
    r.ymin <= r.ymax && r.xmin <= r.xmax
  }

  predicate InsideBox(r: ClipRect, b: IntRect) {
    b.px <= r.xmin && r.xmax <= b.qx && b.py <= r.ymin && r.ymax <= b.qy
  }

  /** The successor test the accumulator keeps: `r` starts at or above the end
      of `p`'s band, or it lies in the same band strictly to the right of `p`. */
  predicate Follows(p: ClipRect, r: ClipRect) {
    r.ymin >= p.ymax || (r.ymin == p.ymin && r.ymax == p.ymax && r.xmin > p.xmax)
  }

  /** The successor test of clip_list_validate (it allows touching in x). */
  predicate ValidateStep(p: ClipRect, r: ClipRect) {
    Ordered(r) &&
    (r.ymin >= p.ymax || (r.ymin == p.ymin && r.ymax == p.ymax && r.xmin >= p.xmax))
  }

  predicate Chain(s: seq<ClipRect>) {
    forall i :: 0 < i < |s| ==> Follows(s[i - 1], s[i])
  }

  /** Every rectangle is non-empty and inside `box`. */
  predicate RealsIn(s: seq<ClipRect>, box: IntRect) {
    forall i :: 0 <= i < |s| ==> NonEmpty(s[i]) && InsideBox(s[i], box)
  }

  /** The list-mode invariant: sentinels at both ends, non-empty rectangles in
      between that lie inside `box`, and every successor follows its predecessor. */
  predicate Banded(l: seq<ClipRect>, box: IntRect) {
    && BoxInRange(box)
    && |l| >= 2
    && l[0] == HeadRect
    && l[|l| - 1] == TailRect
    && RealsIn(l[1..|l| - 1], box)
    && Chain(l)
  }

  /** The rectangles between the sentinels. */
  function Inner(l: seq<ClipRect>): seq<ClipRect> {
    if |l| < 2 then [] else l[1..|l| - 1]
  }

  predicate IsBand(s: seq<ClipRect>, ymin: int, ymax: int) {
    forall i :: 0 <= i < |s| ==> s[i].ymin == ymin && s[i].ymax == ymax
  }

  function SetYmax(s: seq<ClipRect>, v: int): seq<ClipRect> {
    seq(|s|, i requires 0 <= i < |s| => s[i].(ymax := v))
  }

  function SetYmin(s: seq<ClipRect>, v: int): seq<ClipRect> {
    seq(|s|, i requires 0 <= i < |s| => s[i].(ymin := v))
  }

  /** The band l[b..p] cut at height v: the lower halves stay in place and the
      upper halves follow them as a band of their own. */
  function SplitBand(l: seq<ClipRect>, b: int, p: int, v: int): seq<ClipRect>
    requires 0 <= b <= p + 1 <= |l|
  {
    l[..b] + SetYmax(l[b..p + 1], v) + SetYmin(l[b..p + 1], v) + l[p + 1..]
  }

  /** Splitting an empty run of rectangles changes nothing. */
  lemma SplitBandNone(l: seq<ClipRect>, b: int, v: int)
    requires 0 <= b <= |l|
    ensures SplitBand(l, b, b - 1, v) == l
  {
    assert SetYmax(l[b..b], v) == [] && SetYmin(l[b..b], v) == [];
    assert l[..b] + l[b..] == l;
  }

  // ---------------------------------------------------------------- area

  /** Pixel (px, py) lies in r. */
  predicate Covers(r: ClipRect, pt: (int, int)) {
    r.xmin <= pt.0 < r.xmax && r.ymin <= pt.1 < r.ymax
  }

  /** The pixels of a rectangle. */
  ghost function Pts(r: ClipRect): iset<(int, int)> {
    iset pt: (int, int) | Covers(r, pt)
  }

  /** The pixels covered by a sequence of rectangles. */
  ghost function Area(s: seq<ClipRect>): iset<(int, int)> {
    iset pt: (int, int) | InArea(s, pt)
  }

  ghost predicate InArea(s: seq<ClipRect>, pt: (int, int)) {
    exists i :: 0 <= i < |s| && Covers(s[i], pt)
  }

  lemma AreaConcat(a: seq<ClipRect>, b: seq<ClipRect>)
    ensures Area(a + b) == Area(a) + Area(b)
  {
    forall pt | pt in Area(a + b)
      ensures pt in Area(a) + Area(b)
    {
      var i :| 0 <= i < |a + b| && Covers((a + b)[i], pt);
      if i < |a| {
        assert Covers(a[i], pt);
      } else {
        assert Covers(b[i - |a|], pt);
      }
    }
    forall pt | pt in Area(b)
      ensures pt in Area(a + b)
    {
      var i :| 0 <= i < |b| && Covers(b[i], pt);
      assert (a + b)[|a| + i] == b[i];
    }
    forall pt | pt in Area(a)
      ensures pt in Area(a + b)
    {
      var i :| 0 <= i < |a| && Covers(a[i], pt);
      assert (a + b)[i] == a[i];
    }
  }

  lemma AreaOne(r: ClipRect)
    ensures Area([r]) == Pts(r)
  {
    forall pt | pt in Pts(r)
      ensures pt in Area([r])
    {
      assert Covers([r][0], pt);
    }
  }

  lemma SentinelsEmpty()
    ensures Pts(HeadRect) == iset{} && Pts(TailRect) == iset{}
  {
  }

  /** The sentinels cover nothing, so a list covers what its inner part covers. */
  lemma AreaInner(l: seq<ClipRect>)
    requires |l| >= 2 && l[0] == HeadRect && l[|l| - 1] == TailRect
    ensures Area(l) == Area(Inner(l))
  {
    assert l == [l[0]] + Inner(l) + [l[|l| - 1]];
    AreaConcat([l[0]] + Inner(l), [l[|l| - 1]]);
    AreaConcat([l[0]], Inner(l));
    AreaOne(l[0]);
    AreaOne(l[|l| - 1]);
    SentinelsEmpty();
  }

  /** Replacing the slice l[i..j] by `r` trades that slice's area for r's. */
  lemma AreaSplice(l: seq<ClipRect>, i: int, j: int, r: seq<ClipRect>)
    requires 0 <= i <= j <= |l|
    ensures Area(l[..i] + r + l[j..]) == Area(l[..i]) + Area(r) + Area(l[j..])
    ensures Area(l) == Area(l[..i]) + Area(l[i..j]) + Area(l[j..])
  {
    assert l == l[..i] + l[i..j] + l[j..];
    AreaConcat(l[..i] + l[i..j], l[j..]);
    AreaConcat(l[..i], l[i..j]);
    AreaConcat(l[..i] + r, l[j..]);
    AreaConcat(l[..i], r);
  }

  /** Two rectangles of one y-range whose x-ranges overlap or touch cover
      exactly the rectangle spanning both. */
  lemma PtsMergeX(a: ClipRect, b: ClipRect)
    requires a.ymin == b.ymin && a.ymax == b.ymax
    requires a.xmin <= b.xmax && b.xmin <= a.xmax
    ensures Pts(a) + Pts(b) == Pts(ClipRect(a.ymin, a.ymax, Min(a.xmin, b.xmin), Max(a.xmax, b.xmax)))
  {
  }

  /** Two rectangles of one x-range whose y-ranges overlap or touch cover
      exactly the rectangle spanning both. */
  lemma PtsMergeY(a: ClipRect, b: ClipRect)
    requires a.xmin == b.xmin && a.xmax == b.xmax
    requires a.ymin <= b.ymax && b.ymin <= a.ymax
    ensures Pts(a) + Pts(b) == Pts(ClipRect(Min(a.ymin, b.ymin), Max(a.ymax, b.ymax), a.xmin, a.xmax))
  {
  }

  /** Cutting a rectangle at height v loses nothing. */
  lemma PtsCutY(r: ClipRect, v: int)
    requires r.ymin <= v <= r.ymax
    ensures Pts(r.(ymax := v)) + Pts(r.(ymin := v)) == Pts(r)
  {
  }

  // ---------------------------------------------------------------- order

  lemma FollowsTrans(a: ClipRect, b: ClipRect, c: ClipRect)
    requires Ordered(b) && Follows(a, b) && Follows(b, c)
    ensures Follows(a, c)
  {
  }

  lemma RealAt(l: seq<ClipRect>, box: IntRect, k: int)
    requires Banded(l, box) && 0 < k < |l| - 1
    ensures NonEmpty(l[k]) && InsideBox(l[k], box)
    ensures CoordInRange(l[k].ymin) && CoordInRange(l[k].ymax)
    ensures CoordInRange(l[k].xmin) && CoordInRange(l[k].xmax)
  {
    assert l[k] == l[1..|l| - 1][k - 1];
  }

  lemma OrderedAt(l: seq<ClipRect>, box: IntRect, k: int)
    requires Banded(l, box) && 0 <= k < |l|
    ensures Ordered(l[k])
  {
    if 0 < k < |l| - 1 {
      RealAt(l, box, k);
    }
  }

  /** Each rectangle of a banded list follows every rectangle before it: the
      consecutive test of clip_list_validate extends to all pairs, so no two
      rectangles of the list overlap. */
  lemma {:induction false} ChainPairwise(l: seq<ClipRect>, box: IntRect, i: int, j: int)
    requires Banded(l, box) && 0 <= i < j < |l|
    ensures Follows(l[i], l[j])
    decreases j - i
  {
    if j > i + 1 {
      ChainPairwise(l, box, i, j - 1);
      OrderedAt(l, box, j - 1);
      FollowsTrans(l[i], l[j - 1], l[j]);
    }
  }

  /** Distinct rectangles of a banded list share no pixel. */
  lemma BandedDisjoint(l: seq<ClipRect>, box: IntRect, i: int, j: int)
    requires Banded(l, box) && 0 <= i < j < |l|
    ensures Pts(l[i]) * Pts(l[j]) == iset{}
  {
    ChainPairwise(l, box, i, j);
    OrderedAt(l, box, i);
  }

  lemma ChainConcat(a: seq<ClipRect>, b: seq<ClipRect>)
    requires Chain(a) && Chain(b)
    requires |a| > 0 && |b| > 0 ==> Follows(a[|a| - 1], b[0])
    ensures Chain(a + b)
  {
    var s := a + b;
    forall k | 0 < k < |s|
      ensures Follows(s[k - 1], s[k])
    {
      if k < |a| {
        assert s[k - 1] == a[k - 1] && s[k] == a[k];
      } else if k == |a| {
        assert s[k - 1] == a[|a| - 1] && s[k] == b[0];
      } else {
        assert s[k - 1] == b[k - 1 - |a|] && s[k] == b[k - |a|];
      }
    }
  }

  lemma ChainSlice(l: seq<ClipRect>, i: int, j: int)
    requires Chain(l) && 0 <= i <= j <= |l|
    ensures Chain(l[i..j])
  {
    var s := l[i..j];
    forall k | 0 < k < |s|
      ensures Follows(s[k - 1], s[k])
    {
      assert s[k - 1] == l[i + k - 1] && s[k] == l[i + k];
    }
  }

  /** Replacing l[i..j] (sentinels excluded) by a chain of real rectangles that
      follows l[i-1] and is followed by l[j] keeps the list banded. */
  lemma SpliceBanded(l: seq<ClipRect>, box: IntRect, i: int, j: int, r: seq<ClipRect>)
    requires Banded(l, box) && 1 <= i <= j <= |l| - 1
    requires |r| > 0 && Chain(r) && RealsIn(r, box)
    requires Follows(l[i - 1], r[0]) && Follows(r[|r| - 1], l[j])
    ensures Banded(l[..i] + r + l[j..], box)
    ensures |l[..i] + r + l[j..]| == |l| - (j - i) + |r|
  {
    SpliceChain(l, i, j, r);
    SpliceReals(l, box, i, j, r);
  }

  /** The chain part of SpliceBanded. */
  lemma SpliceChain(l: seq<ClipRect>, i: int, j: int, r: seq<ClipRect>)
    requires Chain(l) && 1 <= i <= j <= |l| - 1
    requires |r| > 0 && Chain(r)
    requires Follows(l[i - 1], r[0]) && Follows(r[|r| - 1], l[j])
    ensures Chain(l[..i] + r + l[j..])
  {
    ChainSlice(l, 0, i);
    ChainSlice(l, j, |l|);
    assert l[..i] == l[0..i] && l[j..] == l[j..|l|];
    ChainConcat(l[..i], r);
    ChainConcat(l[..i] + r, l[j..]);
  }

  /** The sentinel and inner-rectangle part of SpliceBanded. */
  lemma SpliceReals(l: seq<ClipRect>, box: IntRect, i: int, j: int, r: seq<ClipRect>)
    requires Banded(l, box) && 1 <= i <= j <= |l| - 1
    requires |r| > 0 && RealsIn(r, box)
    ensures var s := l[..i] + r + l[j..];
      s[0] == HeadRect && s[|s| - 1] == TailRect && RealsIn(s[1..|s| - 1], box)
  {
    var s := l[..i] + r + l[j..];
    var inner := s[1..|s| - 1];
    forall k | 0 <= k < |inner|
      ensures NonEmpty(inner[k]) && InsideBox(inner[k], box)
    {
      var t := k + 1;
      if t < i {
        assert s[t] == l[t];
        RealAt(l, box, t);
      } else if t < i + |r| {
        assert s[t] == r[t - i];
      } else {
        assert s[t] == l[t - i - |r| + j];
        RealAt(l, box, t - i - |r| + j);
      }
    }
  }

  /** The rectangles l[k+1..p] all end where l[p] ends and l[k] does not: they
      are the band of l[p] down to its first rectangle, and l[k] ends below it. */
  lemma BandByYmax(l: seq<ClipRect>, box: IntRect, k: int, p: int)
    requires Banded(l, box) && 0 <= k < p < |l| - 1
    requires forall j :: k < j <= p ==> l[j].ymax == l[p].ymax
    requires l[k].ymax != l[p].ymax
    ensures IsBand(l[k + 1..p + 1], l[p].ymin, l[p].ymax)
    ensures l[k].ymax <= l[p].ymin
  {
    RealAt(l, box, p);
    forall j | k < j < p
      ensures l[j].ymin == l[p].ymin
    {
      ChainPairwise(l, box, j, p);
    }
    ChainPairwise(l, box, k, p);
  }

  /** The same, for the rectangles that start where l[p] starts. */
  lemma BandByYmin(l: seq<ClipRect>, box: IntRect, k: int, p: int)
    requires Banded(l, box) && 0 <= k < p < |l| - 1
    requires forall j :: k < j <= p ==> l[j].ymin == l[p].ymin
    requires l[k].ymin != l[p].ymin
    ensures IsBand(l[k + 1..p + 1], l[p].ymin, l[p].ymax)
    ensures l[k].ymax <= l[p].ymin
  {
    forall j | k < j < p
      ensures l[j].ymax == l[p].ymax
    {
      RealAt(l, box, j);
      ChainPairwise(l, box, j, p);
    }
    ChainPairwise(l, box, k, p);
  }

  lemma AreaCutBand(s: seq<ClipRect>, v: int)
    requires forall i :: 0 <= i < |s| ==> s[i].ymin <= v <= s[i].ymax
    ensures Area(SetYmax(s, v)) + Area(SetYmin(s, v)) == Area(s)
  {
    var lo, hi := SetYmax(s, v), SetYmin(s, v);
    forall pt | pt in Area(s)
      ensures pt in Area(lo) + Area(hi)
    {
      var i :| 0 <= i < |s| && Covers(s[i], pt);
      if pt.1 < v {
        assert Covers(lo[i], pt);
      } else {
        assert Covers(hi[i], pt);
      }
    }
    forall pt | pt in Area(lo)
      ensures pt in Area(s)
    {
      var i :| 0 <= i < |lo| && Covers(lo[i], pt);
      assert Covers(s[i], pt);
    }
    forall pt | pt in Area(hi)
      ensures pt in Area(s)
    {
      var i :| 0 <= i < |hi| && Covers(hi[i], pt);
      assert Covers(s[i], pt);
    }
  }

  /** A band cut at height v gives two bands, the lower one first. */
  lemma CutBandChain(band: seq<ClipRect>, box: IntRect, ymin: int, ymax: int, v: int)
    requires |band| > 0 && Chain(band) && RealsIn(band, box) && IsBand(band, ymin, ymax)
    requires ymin < v < ymax
    ensures Chain(SetYmax(band, v) + SetYmin(band, v))
    ensures RealsIn(SetYmax(band, v) + SetYmin(band, v), box)
  {
    var lo, hi := SetYmax(band, v), SetYmin(band, v);
    forall k | 0 < k < |band|
      ensures Follows(lo[k - 1], lo[k]) && Follows(hi[k - 1], hi[k])
    {
      assert Follows(band[k - 1], band[k]);
    }
    ChainConcat(lo, hi);
    assert RealsIn(lo, box) && RealsIn(hi, box);
  }

  /** Where the cut band's end pieces land: the lower half of l[p] stays at
      p, the upper half of l[b] follows it, the upper half of l[p] is last, and
      l[p+1] comes right after it. */
  lemma SplitBandAt(l: seq<ClipRect>, b: int, p: int, v: int)
    requires 0 <= b <= p < |l| - 1
    ensures var s := SplitBand(l, b, p, v);
      && |s| == |l| + (p + 1 - b)
      && s[p] == l[p].(ymax := v) && s[p + 1] == l[b].(ymin := v)
      && s[2 * p - b + 1] == l[p].(ymin := v) && s[2 * p - b + 2] == l[p + 1]
  {
    var lo, hi := SetYmax(l[b..p + 1], v), SetYmin(l[b..p + 1], v);
    SplitBandSplice(l, b, p, v);
    assert lo[p - b] == l[p].(ymax := v);
    assert hi[0] == l[b].(ymin := v);
    assert hi[p - b] == l[p].(ymin := v);
  }

  /** SplitBand as a splice of the two cut halves of the band. */
  lemma SplitBandSplice(l: seq<ClipRect>, b: int, p: int, v: int)
    requires 0 <= b <= p + 1 <= |l|
    ensures SplitBand(l, b, p, v) == l[..b] + (SetYmax(l[b..p + 1], v) + SetYmin(l[b..p + 1], v)) + l[p + 1..]
  {
  }

  /** The cut halves of a band that lies between its neighbours' bands fit
      between those neighbours. */
  lemma SplitBandPieces(l: seq<ClipRect>, box: IntRect, b: int, p: int, v: int)
    requires Banded(l, box) && 1 <= b <= p < |l| - 1
    requires IsBand(l[b..p + 1], l[p].ymin, l[p].ymax)
    requires l[p].ymin < v < l[p].ymax
    ensures var r := SetYmax(l[b..p + 1], v) + SetYmin(l[b..p + 1], v);
      |r| > 0 && Chain(r) && RealsIn(r, box) &&
      r[0] == l[b].(ymax := v) && r[|r| - 1] == l[p].(ymin := v)
  {
    var band := l[b..p + 1];
    ChainSlice(l, b, p + 1);
    forall k | 0 <= k < |band|
      ensures NonEmpty(band[k]) && InsideBox(band[k], box)
    {
      RealAt(l, box, b + k);
    }
    CutBandChain(band, box, l[p].ymin, l[p].ymax, v);
  }

  /** Cutting the band l[b..p] at height v keeps the list banded. */
  lemma SplitBandKeeps(l: seq<ClipRect>, box: IntRect, b: int, p: int, v: int)
    requires Banded(l, box) && 1 <= b <= p < |l| - 1
    requires IsBand(l[b..p + 1], l[p].ymin, l[p].ymax)
    requires l[b - 1].ymax <= l[p].ymin
    requires l[p + 1].ymin >= l[p].ymax
    requires l[p].ymin < v < l[p].ymax
    ensures Banded(SplitBand(l, b, p, v), box)
    ensures |SplitBand(l, b, p, v)| == |l| + (p - b + 1)
  {
    var r := SetYmax(l[b..p + 1], v) + SetYmin(l[b..p + 1], v);
    SplitBandPieces(l, box, b, p, v);
    SplitBandSplice(l, b, p, v);
    assert l[b] == l[b..p + 1][0];
    assert l[b].ymin == l[p].ymin;
    assert Follows(l[b - 1], r[0]) && Follows(r[|r| - 1], l[p + 1]);
    SpliceBanded(l, box, b, p + 1, r);
  }

  /** Cutting the band l[b..p] at a height inside it covers the same pixels. */
  lemma SplitBandArea(l: seq<ClipRect>, b: int, p: int, v: int)
    requires 0 <= b <= p < |l|
    requires forall k :: b <= k <= p ==> l[k].ymin <= v <= l[k].ymax
    ensures Area(SplitBand(l, b, p, v)) == Area(l)
  {
    var r := SetYmax(l[b..p + 1], v) + SetYmin(l[b..p + 1], v);
    SplitBandSplice(l, b, p, v);
    BandCutArea(l, b, p, v);
    AreaSplice(l, b, p + 1, r);
  }

  /** The two halves of the band l[b..p] cut at v cover the band. */
  lemma BandCutArea(l: seq<ClipRect>, b: int, p: int, v: int)
    requires 0 <= b <= p < |l|
    requires forall k :: b <= k <= p ==> l[k].ymin <= v <= l[k].ymax
    ensures Area(SetYmax(l[b..p + 1], v) + SetYmin(l[b..p + 1], v)) == Area(l[b..p + 1])
  {
    var band := l[b..p + 1];
    forall k | 0 <= k < |band|
      ensures band[k].ymin <= v <= band[k].ymax
    {
      assert band[k] == l[b + k];
    }
    AreaCutBand(band, v);
    AreaConcat(SetYmax(band, v), SetYmin(band, v));
  }

  /** Setting the heights of a run of l works rectangle by rectangle: at
      the front ... */
  lemma SetYFront(l: seq<ClipRect>, k: int, p: int, v: int)
    requires 0 <= k <= p < |l|
    ensures SetYmax(l[k..p + 1], v) == [l[k].(ymax := v)] + SetYmax(l[k + 1..p + 1], v)
    ensures SetYmin(l[k..p + 1], v) == [l[k].(ymin := v)] + SetYmin(l[k + 1..p + 1], v)
  {
  }

  /** ... and at the back. */
  lemma SetYBack(l: seq<ClipRect>, b: int, q: int, v: int)
    requires 0 <= b <= q < |l|
    ensures SetYmax(l[b..q + 1], v) == SetYmax(l[b..q], v) + [l[q].(ymax := v)]
    ensures SetYmin(l[b..q + 1], v) == SetYmin(l[b..q], v) + [l[q].(ymin := v)]
  {
  }

  /** The list after one more rectangle below the cut run is cut, written
      out piece by piece. */
  lemma ExtendDownPieces(l: seq<ClipRect>, k: int, p: int, v: int)
    requires 0 <= k <= p < |l|
    ensures var s := SplitBand(l, k + 1, p, v);
      var lo, hi := SetYmax(l[k + 1..p + 1], v), SetYmin(l[k + 1..p + 1], v);
      var s1 := s[..p + 1] + [l[k].(ymin := v)] + s[p + 1..];
      s[k] == l[k] && |s1| == |l| + (p + 1 - k) &&
      s1[k := l[k].(ymax := v)] == l[..k] + ([l[k].(ymax := v)] + lo) + ([l[k].(ymin := v)] + hi) + l[p + 1..]
  {
    var s := SplitBand(l, k + 1, p, v);
    var lo, hi := SetYmax(l[k + 1..p + 1], v), SetYmin(l[k + 1..p + 1], v);
    assert s[..p + 1] == l[..k + 1] + lo;
    assert s[p + 1..] == hi + l[p + 1..];
    assert l[..k + 1] == l[..k] + [l[k]];
  }

  /** Cutting one more rectangle, l[k] just below the cut run, extends the
      run downwards: its upper half goes in after the run's lower halves and
      the rectangle itself keeps its lower half. */
  lemma SplitBandExtendDown(l: seq<ClipRect>, k: int, p: int, v: int)
    requires 0 <= k <= p < |l|
    ensures var s := SplitBand(l, k + 1, p, v);
      var s1 := s[..p + 1] + [l[k].(ymin := v)] + s[p + 1..];
      s[k] == l[k] && |s1| == |l| + (p + 1 - k) &&
      s1[k := l[k].(ymax := v)] == SplitBand(l, k, p, v)
  {
    ExtendDownPieces(l, k, p, v);
    SetYFront(l, k, p, v);
  }

  /** The list after one more rectangle above the cut run is cut, written
      out piece by piece. */
  lemma ExtendUpPieces(l: seq<ClipRect>, b: int, q: int, v: int)
    requires 0 <= b <= q < |l|
    ensures var s := SplitBand(l, b, q - 1, v);
      var lo, hi := SetYmax(l[b..q], v), SetYmin(l[b..q], v);
      var s1 := s[..q] + [l[q].(ymax := v)] + s[q..];
      s[2 * q - b] == l[q] && |s1| == |l| + (q + 1 - b) &&
      s1[2 * q - b + 1 := l[q].(ymin := v)] == l[..b] + (lo + [l[q].(ymax := v)]) + (hi + [l[q].(ymin := v)]) + l[q + 1..]
  {
    var s := SplitBand(l, b, q - 1, v);
    var lo, hi := SetYmax(l[b..q], v), SetYmin(l[b..q], v);
    var c, d := l[q].(ymin := v), l[q].(ymax := v);
    assert s[..q] == l[..b] + lo;
    assert s[q..] == hi + l[q..];
    var s1 := s[..q] + [d] + s[q..];
    assert l[q..] == [l[q]] + l[q + 1..];
    assert s1 == l[..b] + (lo + [d]) + hi + [l[q]] + l[q + 1..];
  }

  /** Cutting one more rectangle, l[q] just above the cut run, extends the run
      upwards: its lower half goes in after the run's lower halves and the
      rectangle itself, now after the upper halves, keeps its upper half. */
  lemma SplitBandExtendUp(l: seq<ClipRect>, b: int, q: int, v: int)
    requires 0 <= b <= q < |l|
    ensures var s := SplitBand(l, b, q - 1, v);
      var s1 := s[..q] + [l[q].(ymax := v)] + s[q..];
      s[2 * q - b] == l[q] && |s1| == |l| + (q + 1 - b) &&
      s1[2 * q - b + 1 := l[q].(ymin := v)] == SplitBand(l, b, q, v)
  {
    ExtendUpPieces(l, b, q, v);
    SetYBack(l, b, q, v);
  }

  /** Taking out one rectangle leaves an area that together with it is the
      whole. */
  lemma AreaAt(s: seq<ClipRect>, q: int)
    requires 0 <= q < |s|
    ensures Area(s) == Area(s[..q] + s[q + 1..]) + Pts(s[q])
  {
    AreaSplice(s, q, q + 1, []);
    assert s[..q] + [] + s[q + 1..] == s[..q] + s[q + 1..];
    assert s[q..q + 1] == [s[q]];
    AreaOne(s[q]);
    assert Area([]) == iset{};
  }

  /** Putting in one rectangle adds its pixels. */
  lemma AreaInsert(s: seq<ClipRect>, i: int, r: ClipRect)
    requires 0 <= i <= |s|
    ensures Area(s[..i] + [r] + s[i..]) == Area(s) + Pts(r)
  {
    AreaSplice(s, i, i, [r]);
    assert s[i..i] == [];
    AreaOne(r);
    assert Area([]) == iset{};
  }

  /** Two rectangles of a banded list that start at the same height are in the
      same band, the later one strictly to the right. */
  lemma SameBand(l: seq<ClipRect>, box: IntRect, q: int, p: int)
    requires Banded(l, box) && 1 <= q < p < |l| - 1 && l[q].ymin == l[p].ymin
    ensures l[q].ymax == l[p].ymax && l[q].xmax < l[p].xmin
  {
    ChainPairwise(l, box, q, p);
    RealAt(l, box, q);
  }

  /** The list the accumulator builds when it gives up its single rectangle. */
  lemma PromoteBanded(r: ClipRect, box: IntRect)
    requires BoxInRange(box) && NonEmpty(r) && InsideBox(r, box)
    ensures Banded([HeadRect, r, TailRect], box)
    ensures Area([HeadRect, r, TailRect]) == Area([r]) == Pts(r)
  {
    var l := [HeadRect, r, TailRect];
    assert l[1..|l| - 1] == [r];
    AreaInner(l);
    AreaOne(r);
  }

  /** A banded list stays banded inside a larger box. */
  lemma BandedWiden(l: seq<ClipRect>, b: IntRect, g: IntRect)
    requires Banded(l, b) && BoxInRange(g)
    requires g.px <= b.px && g.py <= b.py && b.qx <= g.qx && b.qy <= g.qy
    ensures Banded(l, g)
  {
  }

  /** Where the next rectangle starts higher than list[p], it starts at or
      above the end of list[p]'s band. */
  lemma BandEnd(l: seq<ClipRect>, box: IntRect, p: int)
    requires Banded(l, box) && 0 <= p < |l| - 1 && l[p + 1].ymin > l[p].ymin
    ensures l[p + 1].ymin >= l[p].ymax
  {
    assert Follows(l[p], l[p + 1]);
  }

  /** Replacing the last rectangle by `c`, which still follows its
      predecessor, keeps the list banded and trades that rectangle's pixels for
      those of `c`. */
  lemma ReplaceLast(l: seq<ClipRect>, box: IntRect, c: ClipRect)
    requires Banded(l, box) && |l| >= 3
    requires NonEmpty(c) && InsideBox(c, box) && Follows(l[|l| - 3], c)
    ensures var n := |l|;
      var s := l[n - 2 := c];
      var rest := l[..n - 2] + l[n - 1..];
      Banded(s, box) && |s| == n && Area(s) == Area(rest) + Pts(c) && Area(l) == Area(rest) + Pts(l[n - 2])
  {
    var n := |l|;
    var s := l[n - 2 := c];
    assert l[n - 1] == TailRect && Follows(c, l[n - 1]);
    assert Chain([c]) && RealsIn([c], box);
    SpliceBanded(l, box, n - 2, n - 1, [c]);
    assert s == l[..n - 2] + [c] + l[n - 1..];
    ReplaceArea(l, n - 2, c);
  }

  /** Replacing one rectangle trades its pixels for those of the new one. */
  lemma ReplaceArea(l: seq<ClipRect>, i: int, c: ClipRect)
    requires 0 <= i < |l|
    ensures var rest := l[..i] + l[i + 1..];
      Area(l[i := c]) == Area(rest) + Pts(c) && Area(l) == Area(rest) + Pts(l[i])
  {
    var s := l[i := c];
    AreaAt(l, i);
    AreaAt(s, i);
    assert s[..i] == l[..i] && s[i + 1..] == l[i + 1..];
    assert s[i] == c;
  }

  /** The fast path that lets the last rectangle grow upwards by `r`, which
      sits right on top of it with the same x range; the last rectangle must
      be alone in its band. */
  lemma LastExtendY(l: seq<ClipRect>, box: IntRect, r: ClipRect)
    requires Banded(l, box) && |l| >= 3
    requires r.ymin == l[|l| - 2].ymax && r.xmin == l[|l| - 2].xmin && r.xmax == l[|l| - 2].xmax
    requires r.ymin != l[|l| - 3].ymax
    requires NonEmpty(r) && InsideBox(r, box)
    ensures var n := |l|;
      var s := l[n - 2 := l[n - 2].(ymax := r.ymax)];
      Banded(s, box) && |s| == |l| && Area(s) == Area(l) + Pts(r)
  {
    var n := |l|;
    var last := l[n - 2];
    var last' := last.(ymax := r.ymax);
    RealAt(l, box, n - 2);
    assert Follows(l[n - 3], last);
    ReplaceLast(l, box, last');
    PtsMergeY(last, r);
    assert Pts(last') == Pts(last) + Pts(r);
  }

  /** The fast path that lets `r`, in the band of the last rectangle and
      starting inside it, merge into it by widening it to the right. */
  lemma LastWidenX(l: seq<ClipRect>, box: IntRect, r: ClipRect)
    requires Banded(l, box) && |l| >= 3
    requires r.ymin == l[|l| - 2].ymin && r.ymax == l[|l| - 2].ymax
    requires l[|l| - 2].xmin <= r.xmin <= l[|l| - 2].xmax
    requires NonEmpty(r) && InsideBox(r, box)
    ensures r.xmax <= l[|l| - 2].xmax ==> Pts(r) <= Area(l)
    ensures var n := |l|;
      var s := l[n - 2 := l[n - 2].(xmax := r.xmax)];
      r.xmax > l[n - 2].xmax ==> Banded(s, box) && |s| == |l| && Area(s) == Area(l) + Pts(r)
  {
    var n := |l|;
    var last := l[n - 2];
    RealAt(l, box, n - 2);
    PtsMergeX(last, r);
    if r.xmax > last.xmax {
      var last' := last.(xmax := r.xmax);
      assert Follows(l[n - 3], last);
      ReplaceLast(l, box, last');
      assert Pts(last') == Pts(last) + Pts(r);
    } else {
      AreaAt(l, n - 2);
      assert Pts(last) == Pts(last) + Pts(r);
    }
  }

  /** The successor test the accumulator keeps is stricter than the one the
      debug validation applies. */
  lemma BandedValidates(l: seq<ClipRect>, box: IntRect)
    requires Banded(l, box)
    ensures forall i :: 0 < i < |l| ==> ValidateStep(l[i - 1], l[i])
  {
    forall i | 0 < i < |l|
      ensures ValidateStep(l[i - 1], l[i])
    {
      OrderedAt(l, box, i);
    }
  }

  function Min(a: int, b: int): int { if a <= b then a else b }
  function Max(a: int, b: int): int { if a >= b then a else b }
}
