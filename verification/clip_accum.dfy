/** The clip-path accumulator device (gx_device_cpath_accum): it receives
    filled rectangles, clips them to its clip box and merges them into a
    banded list of disjoint rectangles, in the accumulator's own coordinates
    (x and y swapped when it is transposed). Memory is a budget of
    allocations; an allocation that the budget cannot cover fails. */
module ClipAccum {
  import opened FixedPoint
  import opened ClipList
  import opened AccumBoxes

  /** A null `insert` pointer. */
  const NullLink: int := -1

  const VMError: int := -25
  const FatalError: int := -100

  /** The allocations accum_alloc_rect makes once the count has been bumped to
      `newCount`: one, or four when the accumulator switches from its single
      rectangle to a list (the new rectangle, head, tail and a copy of the
      single rectangle). */
  function AllocCost(newCount: int): nat {
    if newCount == 2 then 4 else 1
  }

  /** clip_list_validate's verdict on a list of `count` rectangles: with at
      most one rectangle there is no list; otherwise walking from the head,
      every rectangle is ordered and follows its predecessor (touching in x is
      allowed). */
  predicate ValidLinks(count: int, l: seq<ClipRect>) {
    if count <= 1 then l == []
    else |l| >= 1 && forall i :: 0 < i < |l| ==> ValidateStep(l[i - 1], l[i])
  }

  /** clip_list_validate: walks the list from the head once. */
  method ClipListValidate(count: int, l: seq<ClipRect>) returns (ok: bool)
    requires count > 1 ==> |l| >= 1
    ensures ok == ValidLinks(count, l)
  {
    if count <= 1 {
      return l == [];
    }
    ok := true;
    var i := 1;
    while i < |l|
      invariant 1 <= i <= |l|
      invariant ok == forall k :: 0 < k < i ==> ValidateStep(l[k - 1], l[k])
    {
      if !ValidateStep(l[i - 1], l[i]) {
        ok := false;
      }
      i := i + 1;
    }
  }

  /** Pixel-extent of an area: every edge of `b` is reached by some pixel. */
  ghost predicate Tight(b: IntRect, a: iset<(int, int)>) {
    && (exists pt :: pt in a && pt.0 == b.px)
    && (exists pt :: pt in a && pt.1 == b.py)
    && (exists pt :: pt in a && pt.0 == b.qx - 1)
    && (exists pt :: pt in a && pt.1 == b.qy - 1)
  }

  /** Tightness is about the pixels, not how they were computed. */
  lemma TightArea(b: IntRect, a: iset<(int, int)>, a': iset<(int, int)>)
    requires Tight(b, a) && a == a'
    ensures Tight(b, a')
  {
  }

  /** Growing the bounding box by a rectangle keeps it the tight hull of the
      area, starting from the empty box of an empty area. */
  lemma GrowTight(b: IntRect, a: iset<(int, int)>, r: ClipRect)
    requires NonEmpty(r) && InsideBox(r, FullClipBox)
    requires (a == iset{} && b == EmptyBbox) || Tight(b, a)
    ensures Tight(GrowBox(b, r), a + Pts(r))
  {
    var g := GrowBox(b, r);
    var lo, hi := (r.xmin, r.ymin), (r.xmax - 1, r.ymax - 1);
    assert lo in Pts(r) && hi in Pts(r);
    if a == iset{} && b == EmptyBbox {
      assert g == IntRect(r.xmin, r.ymin, r.xmax, r.ymax);
    } else {
      if g.px == b.px {
        var pt :| pt in a && pt.0 == b.px;
        assert pt in a + Pts(r);
      } else {
        assert lo in a + Pts(r);
      }
      if g.py == b.py {
        var pt :| pt in a && pt.1 == b.py;
        assert pt in a + Pts(r);
      } else {
        assert lo in a + Pts(r);
      }
      if g.qx == b.qx {
        var pt :| pt in a && pt.0 == b.qx - 1;
        assert pt in a + Pts(r);
      } else {
        assert hi in a + Pts(r);
      }
      if g.qy == b.qy {
        var pt :| pt in a && pt.1 == b.qy - 1;
        assert pt in a + Pts(r);
      } else {
        assert hi in a + Pts(r);
      }
    }
  }

  /** The y merge of accum_fill_rectangle: `r` has the single rectangle's x
      range and overlaps or touches it in y. */
  predicate MergesWithSingle(s: ClipRect, r: ClipRect) {
    r.xmin == s.xmin && r.xmax == s.xmax && r.ymin <= s.ymax && r.ymax >= s.ymin
  }

  /** The single rectangle after that merge: its y range grows to cover `r`. */
  function MergedSingle(s: ClipRect, r: ClipRect): ClipRect {
    ClipRect(Min(s.ymin, r.ymin), Max(s.ymax, r.ymax), s.xmin, s.xmax)
  }

  // ------------------------------------------------------ band split steps

  /** The top split of the band ending at L[p] has done L[k+1..p]: the list
      is L with those rectangles cut at `ye`; all of them had height ymax,
      which the head sentinel does not. */
  ghost predicate TopSplit(L: seq<ClipRect>, k: int, p: int, ymax: int, ye: int, l: seq<ClipRect>) {
    && 0 <= k <= p < |L| - 1 && L[0].ymax != ymax
    && (forall j :: k < j <= p ==> L[j].ymax == ymax)
    && l == SplitBand(L, k + 1, p, ye)
  }

  /** The bottom split of the band L[b..] has done L[b..q-1]. */
  ghost predicate BottomSplit(L: seq<ClipRect>, b: int, q: int, y: int, l: seq<ClipRect>) {
    1 <= b <= q < |L| - 1 && l == SplitBand(L, b, q - 1, y)
  }

  // ------------------------------------------------------ x merge steps

  /** What the x search in the band of L[p] starts from and keeps: a banded
      list in which that band ends at L[p]. */
  ghost predicate MergeBase(L: seq<ClipRect>, box: IntRect, p: int) {
    Banded(L, box) && 1 <= p < |L| - 1 && L[p + 1].ymin >= L[p].ymax
  }

  /** The state of the x search in the band of L[p]: the list is L without
      L[q+1..m], which the new rectangle `nr` has absorbed; `nr` spans the
      band from x to at least xe, and lies left of whatever follows. */
  ghost predicate MergeState(L: seq<ClipRect>, box: IntRect, p: int, q: int, m: int,
                             x: int, xe: int, nr: ClipRect)
  {
    && 0 <= q <= m && 1 <= p < |L| - 1 && m <= p
    && x < xe && box.px <= x
    && (forall j :: q < j <= p ==> L[j].ymin == L[p].ymin)
    && nr.ymin == L[p].ymin && nr.ymax == L[p].ymax && nr.xmin == x
    && xe <= nr.xmax <= box.qx
    && (q == m ==> nr.xmax == xe)
    && (m < p ==> nr.xmax < L[m + 1].xmin)
    && (q < m ==> L[q + 1].xmin <= xe)
  }

  /** The loop state of the x search over the list `l` of `n` + 1 entries:
      the search state, the list it stands for, and the pixels it keeps. */
  ghost predicate MergeInv(L: seq<ClipRect>, box: IntRect, p: int, q: int, m: int,
                           x: int, xe: int, nr: ClipRect, nr0: ClipRect, l: seq<ClipRect>, n: int)
  {
    && MergeBase(L, box, p) && MergeState(L, box, p, q, m, x, xe, nr)
    && l == L[..q + 1] + L[m + 1..] && |l| == n + 1
    && Area(l) + Pts(nr) == Area(L) + Pts(nr0)
  }

  /** The x search starts at L[p] with nothing absorbed. */
  lemma MergeStart(L: seq<ClipRect>, box: IntRect, p: int, x: int, xe: int)
    requires MergeBase(L, box, p)
    requires x < xe && box.px <= x && xe <= box.qx
    ensures MergeState(L, box, p, p, p, x, xe, AccumRect(x, L[p].ymin, xe, L[p].ymax))
  {
  }

  /** A rectangle wholly to the right of the new one is only ever met before
      any merge, and is stepped over. */
  lemma MergeSkip(L: seq<ClipRect>, box: IntRect, p: int, q: int, m: int,
                  x: int, xe: int, nr: ClipRect)
    requires MergeBase(L, box, p) && MergeState(L, box, p, q, m, x, xe, nr)
    requires L[q].ymin == L[p].ymin && xe < L[q].xmin
    ensures q == m && q >= 1
    ensures MergeState(L, box, p, q - 1, q - 1, x, xe, nr)
    ensures L[..q + 1] + L[m + 1..] == L[..q] + L[q..]
  {
    RealAt(L, box, p);
    if q < m {
      SameBand(L, box, q, q + 1);
    }
  }

  /** The new rectangle is absorbed by L[q], which reaches at least as far
      left: L[q] widens to the right as needed and the list stays banded. */
  lemma MergeOut(L: seq<ClipRect>, box: IntRect, p: int, q: int, m: int,
                 x: int, xe: int, nr: ClipRect)
    requires MergeBase(L, box, p) && MergeState(L, box, p, q, m, x, xe, nr)
    requires L[q].ymin == L[p].ymin && L[q].xmin <= xe && L[q].xmin <= x <= L[q].xmax
    ensures var r := if xe > L[q].xmax then L[q].(xmax := nr.xmax) else L[q];
      var s := L[..q] + [r] + L[m + 1..];
      && 1 <= q && (L[..q + 1] + L[m + 1..])[q := r] == s
      && Banded(s, box) && |s| == |L| - (m - q)
      && Area(s) == Area(L[..q + 1] + L[m + 1..]) + Pts(nr)
  {
    MergeOutBanded(L, box, p, q, m, x, xe, nr);
    var r := if xe > L[q].xmax then L[q].(xmax := nr.xmax) else L[q];
    PtsMergeX(L[q], nr);
    assert Pts(r) == Pts(L[q]) + Pts(nr);
    MergeOutArea(L, q, m, L[q], r, nr);
  }

  /** The list in which L[q] has absorbed the new rectangle is banded. */
  lemma MergeOutBanded(L: seq<ClipRect>, box: IntRect, p: int, q: int, m: int,
                       x: int, xe: int, nr: ClipRect)
    requires MergeBase(L, box, p) && MergeState(L, box, p, q, m, x, xe, nr)
    requires L[q].ymin == L[p].ymin && L[q].xmin <= xe && L[q].xmin <= x <= L[q].xmax
    ensures 1 <= q && L[q].ymax == L[p].ymax
    ensures var r := if xe > L[q].xmax then L[q].(xmax := nr.xmax) else L[q];
      Banded(L[..q] + [r] + L[m + 1..], box) && |L[..q] + [r] + L[m + 1..]| == |L| - (m - q)
  {
    RealAt(L, box, p);
    assert q >= 1;
    RealAt(L, box, q);
    if q < p {
      SameBand(L, box, q, p);
    }
    if q < m {
      SameBand(L, box, q, q + 1);
    }
    if m < p {
      SameBand(L, box, q, m + 1);
    }
    var r := if xe > L[q].xmax then L[q].(xmax := nr.xmax) else L[q];
    SpliceBanded(L, box, q, m + 1, [r]);
  }

  /** Replacing L[q] by its union with the new rectangle adds the new
      rectangle's pixels. */
  lemma MergeOutArea(L: seq<ClipRect>, q: int, m: int, lq: ClipRect, r: ClipRect, nr: ClipRect)
    requires 0 <= q <= m < |L| && L[q] == lq
    requires Pts(r) == Pts(lq) + Pts(nr)
    ensures var s := L[..q] + [r] + L[m + 1..];
      (L[..q + 1] + L[m + 1..])[q := r] == s &&
      Area(s) == Area(L[..q + 1] + L[m + 1..]) + Pts(nr)
  {
    var t := L[..q + 1] + L[m + 1..];
    var s := L[..q] + [r] + L[m + 1..];
    assert t[q := r] == s;
    assert t[q] == L[q];
    AreaAt(t, q);
    AreaAt(s, q);
    assert s[..q] + s[q + 1..] == t[..q] + t[q + 1..];
  }

  /** L[q] reaches further left than the new rectangle: the new rectangle
      absorbs it and the search goes on to its left. */
  lemma MergeOn(L: seq<ClipRect>, box: IntRect, p: int, q: int, m: int,
                x: int, xe: int, nr: ClipRect)
    requires MergeBase(L, box, p) && MergeState(L, box, p, q, m, x, xe, nr)
    requires L[q].ymin == L[p].ymin && L[q].xmin <= xe && x <= L[q].xmax && x < L[q].xmin
    ensures var r := if xe > L[q].xmax then L[q].(xmax := nr.xmax) else L[q];
      var t := L[..q + 1] + L[m + 1..];
      && 1 <= q && t[..q] + t[q + 1..] == L[..q - 1 + 1] + L[m + 1..]
      && MergeState(L, box, p, q - 1, m, x, xe, r.(xmin := x))
      && Area(t[..q] + t[q + 1..]) + Pts(r.(xmin := x)) == Area(t) + Pts(nr)
  {
    RealAt(L, box, p);
    assert q >= 1;
    RealAt(L, box, q);
    if q < p {
      SameBand(L, box, q, p);
    }
    if q < m {
      SameBand(L, box, q, q + 1);
    }
    if m < p {
      SameBand(L, box, q, m + 1);
    }
    var r := if xe > L[q].xmax then L[q].(xmax := nr.xmax) else L[q];
    PtsMergeX(L[q], nr);
    assert Pts(r.(xmin := x)) == Pts(L[q]) + Pts(nr);
    var t := L[..q + 1] + L[m + 1..];
    assert t[q] == L[q];
    AreaAt(t, q);
    assert t[..q] + t[q + 1..] == L[..q - 1 + 1] + L[m + 1..];
  }

  /** The search stopped below the band or at a rectangle wholly to the left:
      the new rectangle is linked in right after it. */
  lemma MergeLink(L: seq<ClipRect>, box: IntRect, p: int, q: int, m: int,
                  x: int, xe: int, nr: ClipRect)
    requires MergeBase(L, box, p) && MergeState(L, box, p, q, m, x, xe, nr)
    requires L[q].ymin != L[p].ymin || x > L[q].xmax
    ensures var t := L[..q + 1] + L[m + 1..];
      var s := t[..q + 1] + [nr] + t[q + 1..];
      && s == L[..q + 1] + [nr] + L[m + 1..]
      && Banded(s, box) && |s| == |t| + 1
      && Area(s) == Area(t) + Pts(nr)
  {
    MergeLinkBanded(L, box, p, q, m, x, xe, nr);
    var t := L[..q + 1] + L[m + 1..];
    assert t[..q + 1] == L[..q + 1] && t[q + 1..] == L[m + 1..];
    AreaInsert(t, q + 1, nr);
  }

  /** The list with the new rectangle linked in after L[q] is banded. */
  lemma MergeLinkBanded(L: seq<ClipRect>, box: IntRect, p: int, q: int, m: int,
                        x: int, xe: int, nr: ClipRect)
    requires MergeBase(L, box, p) && MergeState(L, box, p, q, m, x, xe, nr)
    requires L[q].ymin != L[p].ymin || x > L[q].xmax
    ensures Banded(L[..q + 1] + [nr] + L[m + 1..], box)
  {
    RealAt(L, box, p);
    if 1 <= q < p {
      OrderedAt(L, box, q);
      ChainPairwise(L, box, q, p);
    }
    assert Follows(L[q], nr);
    if m + 1 < p {
      SameBand(L, box, m + 1, p);
    }
    assert Follows(nr, L[m + 1]);
    assert Chain([nr]) && RealsIn([nr], box);
    SpliceBanded(L, box, q + 1, m + 1, [nr]);
  }

  class CpathAccum {
    var transpose: bool
    /** The number of rectangles. */
    var count: int
    /** The rectangle while count <= 1. */
    var single: ClipRect
    /** head, the rectangles and tail, in link order; empty while count <= 1. */
    var list: seq<ClipRect>
    /** Index of the last insertion point, NullLink while count <= 1. */
    var insert: int
    var xmin: int
    var xmax: int
    var bbox: IntRect
    var clipBox: IntRect
    /** The allocations the memory can still satisfy. */
    var avail: nat

    /** The shape of the rectangle storage: no list while there is at most one
        rectangle, otherwise a banded list inside the bounding box with one
        entry per rectangle between the sentinels. */
    ghost predicate Shape()
      reads this
    {
      && BoxInRange(clipBox)
      && BoxInRange(bbox)
      && 0 <= count
      && (count <= 1 ==> list == [] && insert == NullLink)
      && (count == 1 ==> NonEmpty(single) && InsideBox(single, bbox))
      && (count >= 2 ==> Banded(list, bbox) && |list| == count + 2 && 1 <= insert < |list|)
    }

    /** The accumulator's invariant between calls. */
    ghost predicate Valid()
      reads this
    {
      Shape() && (count == 0 ==> bbox == EmptyBbox)
    }

    /** The rectangles accumulated so far. */
    ghost function Region(): seq<ClipRect>
      reads this
    {
      if count == 0 then [] else if count == 1 then [single] else Inner(list)
    }

    /** The bounding box is the hull of the accumulated pixels. */
    ghost predicate Hull()
      reads this
    {
      count >= 1 ==> Tight(bbox, Area(Region()))
    }

    /** The state inside accum_fill_rectangle once the new rectangle has been
        allocated but not yet linked: a list of count - 1 rectangles. */
    ghost predicate Pending()
      reads this
    {
      && BoxInRange(clipBox)
      && count >= 2
      && Banded(list, bbox)
      && |list| == count + 1
      && 1 <= insert < |list|
    }

    /** gx_cpath_accum_begin: an open accumulator with the given memory. */
    constructor Begin(transpose: bool, avail: nat)
      ensures Valid() && Hull() && Region() == []
      ensures this.transpose == transpose && this.avail == avail
      ensures bbox == EmptyBbox && clipBox == FullClipBox
    {
      this.avail := avail;
      new;
      var code := Open();
      this.transpose := transpose;
    }

    /** accum_open_device: an empty list, an empty bounding box and the whole
        coordinate range as clip box. */
    method Open() returns (code: int)
      modifies this`count, this`list, this`insert, this`bbox, this`clipBox
      ensures code == 0 && Valid() && Hull() && Region() == []
      ensures bbox == EmptyBbox && clipBox == FullClipBox
    {
      count, list, insert := 0, [], NullLink;
      bbox := EmptyBbox;
      clipBox := FullClipBox;
      return 0;
    }

    /** gx_cpath_accum_set_cbox. */
    method SetCbox(pbox: FixedRect)
      requires Valid() && FixedBoxInRange(pbox)
      modifies this`clipBox
      ensures clipBox == ClipBoxFor(pbox, transpose)
      ensures Valid()
    {
      clipBox := ClipBoxFor(pbox, transpose);
    }

    /** accum_close with its debug-build validation; a valid accumulator always
        passes it. */
    method Close() returns (code: int)
      requires Valid()
      modifies this`xmin, this`xmax
      ensures Valid()
      ensures xmin == (if transpose then bbox.py else bbox.px)
      ensures xmax == (if transpose then bbox.qy else bbox.qx)
      ensures code == 0
    {
      if transpose {
        xmin, xmax := bbox.py, bbox.qy;
      } else {
        xmin, xmax := bbox.px, bbox.qx;
      }
      if count >= 2 {
        BandedValidates(list, bbox);
      }
      var ok := ClipListValidate(count, list);
      if !ok {
        return FatalError;
      }
      return 0;
    }

    /** gx_cpath_accum_end up to the hand-over of the finished path: the
        rectangles, and the bounding and inner boxes; the device bbox is
        swapped back to x/y order in place. */
    method End() returns (code: int, e: EndBoxes, rects: seq<ClipRect>)
      requires Valid()
      modifies this`xmin, this`xmax, this`bbox
      ensures code == 0
      ensures e == FinishBoxes(old(count), old(bbox), transpose)
      ensures bbox == e.devBbox
      ensures rects == old(Region())
    {
      code := Close();
      e := FinishBoxes(count, bbox, transpose);
      bbox := e.devBbox;
      rects := if count <= 1 then (if count == 0 then [] else [single]) else Inner(list);
    }

    /** With one rectangle left, the bounding box is that rectangle, so the
        inner box gx_cpath_accum_end reports is exact. */
    lemma SingleIsBbox()
      requires Valid() && Hull() && count == 1
      ensures bbox == IntRect(single.xmin, single.ymin, single.xmax, single.ymax)
    {
      AreaOne(single);
      var a := Area(Region());
      assert a == Pts(single);
      var p1 :| p1 in a && p1.0 == bbox.px;
      var p2 :| p2 in a && p2.1 == bbox.py;
      var p3 :| p3 in a && p3.0 == bbox.qx - 1;
      var p4 :| p4 in a && p4.1 == bbox.qy - 1;
      assert Covers(single, p1) && Covers(single, p2) && Covers(single, p3) && Covers(single, p4);
    }

    /** The pixels of the region, in terms of the storage. */
    lemma RegionArea()
      requires Shape()
      ensures count == 0 ==> Area(Region()) == iset{}
      ensures count == 1 ==> Area(Region()) == Pts(single)
      ensures count >= 2 ==> Area(Region()) == Area(list)
    {
      if count >= 2 {
        AreaInner(list);
      } else if count == 1 {
        AreaOne(single);
      }
    }

    /** The rectangles of the region are pairwise disjoint. */
    lemma RegionDisjoint(i: int, j: int)
      requires Valid() && 0 <= i < j < |Region()|
      ensures Pts(Region()[i]) * Pts(Region()[j]) == iset{}
    {
      assert count >= 2;
      assert Region()[i] == list[i + 1] && Region()[j] == list[j + 1];
      BandedDisjoint(list, bbox, i + 1, j + 1);
    }

    /** Every accumulated rectangle lies inside the bounding box. */
    lemma RegionInsideBbox(i: int)
      requires Valid() && 0 <= i < |Region()|
      ensures NonEmpty(Region()[i]) && InsideBox(Region()[i], bbox)
    {
      if count >= 2 {
        assert Region()[i] == list[i + 1];
        RealAt(list, bbox, i + 1);
      }
    }

    // ------------------------------------------------------ allocation

    /** The count bump of ACCUM_ALLOC followed by accum_alloc_rect; the switch
        to a list puts the single rectangle between fresh head and tail
        sentinels and points `insert` at the tail. A failure leaves the count
        bumped. */
    method AllocRect() returns (ok: bool)
      modifies this`count, this`avail, this`list, this`insert
      ensures count == old(count) + 1
      ensures ok == (old(avail) >= AllocCost(count))
      ensures avail == if ok then old(avail) - AllocCost(count) else old(avail)
      ensures ok && count == 2 ==> list == [HeadRect, single, TailRect] && insert == 2
      ensures !(ok && count == 2) ==> list == old(list) && insert == old(insert)
    {
      count := count + 1;
      if avail < 1 {
        return false;
      }
      if count == 2 {
        if avail < 4 {
          return false;
        }
        avail := avail - 4;
        list := [HeadRect, single, TailRect];
        insert := 2;
      } else {
        avail := avail - 1;
      }
      return true;
    }

    /** ACCUM_FREE: the count drops, and the memory comes back unless the count
        reached zero. */
    method FreeRect()
      modifies this`count, this`avail
      ensures count == old(count) - 1
      ensures avail == if count != 0 then old(avail) + 1 else old(avail)
    {
      count := count - 1;
      if count != 0 {
        avail := avail + 1;
      }
    }

    // ------------------------------------------------------ search

    /** The search for the last rectangle whose band starts below `ye`,
        starting next to the previous insertion point and walking backwards
        or forwards. The sentinels stop both walks. */
    method Locate(ye: int) returns (p: int)
      requires |list| >= 2 && list[0] == HeadRect && list[|list| - 1] == TailRect
      requires 1 <= insert < |list|
      requires MinInt < ye <= MaxInt
      ensures 0 <= p < |list| - 1
      ensures list[p].ymin < ye <= list[p + 1].ymin
    {
      p := insert - 1;
      if ye <= list[p].ymin {
        p := p - 1;
        while ye <= list[p].ymin
          invariant 0 <= p < |list| - 1 && ye <= list[p + 1].ymin
          decreases p
        {
          p := p - 1;
        }
      } else {
        p := p + 1;
        while ye > list[p].ymin
          invariant 1 <= p < |list| && list[p - 1].ymin < ye
          decreases |list| - p
        {
          p := p + 1;
        }
        p := p - 1;
      }
    }

    // ------------------------------------------------------ band splits

    /** Splits the band that ends at list[p] at height `ye`: walking down from
        list[p], each rectangle of the band keeps its part below `ye` and its
        part above goes in after list[p]. */
    method SplitTop(p: int, ye: int) returns (ok: bool, ghost b: int)
      requires Banded(list, bbox) && |list| == count + 1
      requires 1 <= p < |list| - 1 && list[p].ymin < ye < list[p].ymax
      modifies this`count, this`avail, this`list, this`insert
      ensures ok ==> 1 <= b <= p && count == old(count) + (p + 1 - b)
      ensures ok ==> IsBand(old(list)[b..p + 1], old(list)[p].ymin, old(list)[p].ymax)
      ensures ok ==> old(list)[b - 1].ymax <= old(list)[p].ymin
      ensures ok ==> list == SplitBand(old(list), b, p, ye)
      ensures !ok ==> avail == 0
    {
      ghost var L := list;
      b := p;
      RealAt(L, bbox, p);
      var ymax := list[p].ymax;
      var k := p;
      ok := true;
      SplitBandNone(L, p + 1, ye);
      while list[k].ymax == ymax
        invariant TopSplit(L, k, p, ymax, ye, list)
        invariant |list| == count + 1 && count == old(count) + (p - k)
        decreases k
      {
        ok := SplitOffAbove(L, k, p, ymax, ye);
        if !ok {
          return;
        }
        k := k - 1;
      }
      assert list[k] == L[k];
      b := k + 1;
      BandByYmax(L, bbox, k, p);
    }

    /** One turn of the top split: the part of list[k] above `ye` is allocated
        and goes in after list[p], and list[k] keeps its part below `ye`. */
    method SplitOffAbove(ghost L: seq<ClipRect>, k: int, p: int, ymax: int, ye: int) returns (ok: bool)
      requires TopSplit(L, k, p, ymax, ye, list) && |list| == count + 1 && count >= 2
      requires list[k].ymax == ymax
      modifies this`count, this`avail, this`list, this`insert
      ensures count == old(count) + 1
      ensures ok ==> 1 <= k && TopSplit(L, k - 1, p, ymax, ye, list) && |list| == count + 1
      ensures !ok ==> avail == 0
    {
      assert list[k] == L[k];
      ok := AllocRect();
      if !ok {
        return;
      }
      var rsplit := list[k];
      SplitBandExtendDown(L, k, p, ye);
      list := list[..p + 1] + [AccumRect(rsplit.xmin, ye, rsplit.xmax, ymax)] + list[p + 1..];
      list := list[k := rsplit.(ymax := ye)];
    }

    /** Splits the band that ends at list[p] at height `y`: from the band's
        first rectangle up to list[p], each rectangle's part below `y` goes in
        before the band and the rectangle keeps its part above. */
    method SplitBottom(p: int, y: int) returns (ok: bool, at: int, ghost b: int)
      requires Banded(list, bbox) && |list| == count + 1
      requires 1 <= p < |list| - 1 && list[p].ymin < y < list[p].ymax
      modifies this`count, this`avail, this`list, this`insert
      ensures ok ==> 1 <= b <= p && count == old(count) + (p + 1 - b)
      ensures ok ==> IsBand(old(list)[b..p + 1], old(list)[p].ymin, old(list)[p].ymax)
      ensures ok ==> old(list)[b - 1].ymax <= old(list)[p].ymin
      ensures ok ==> list == SplitBand(old(list), b, p, y)
      ensures ok ==> at == 2 * p - b + 1
      ensures !ok ==> avail == 0
    {
      at := p;
      ghost var L := list;
      var ymin := list[p].ymin;
      var rbot := BandStart(p);
      b := rbot;
      BandByYmin(L, bbox, b - 1, p);
      SplitBandNone(L, b, y);
      ok := SplitRun(L, rbot, p, ymin, y);
      if !ok {
        return;
      }
      at := 2 * p - rbot + 1;
    }

    /** The loop of the bottom split, from the band's first rectangle to
        list[p]. */
    method SplitRun(ghost L: seq<ClipRect>, b: int, p: int, ymin: int, y: int) returns (ok: bool)
      requires BottomSplit(L, b, b, y, list) && |list| == count + 1 && b <= p < |L| - 1
      requires forall j :: b <= j <= p ==> L[j].ymin == ymin
      modifies this`count, this`avail, this`list, this`insert
      ensures ok ==> list == SplitBand(L, b, p, y) && count == old(count) + (p + 1 - b)
      ensures !ok ==> avail == 0
    {
      var q := b;
      while true
        invariant b <= q <= p
        invariant BottomSplit(L, b, q, y, list)
        invariant |list| == count + 1 && count == old(count) + (q - b)
        decreases p - q
      {
        ok := SplitOffBelow(L, b, q, ymin, y);
        if !ok {
          return;
        }
        if q == p {
          break;
        }
        q := q + 1;
      }
    }

    /** One turn of the bottom split: the part of the band's q-th rectangle
        below `y` is allocated and goes in before the band (just after the parts
        already split off), and the rectangle keeps its part above `y`. */
    method SplitOffBelow(ghost L: seq<ClipRect>, b: int, q: int, ymin: int, y: int) returns (ok: bool)
      requires BottomSplit(L, b, q, y, list) && |list| == count + 1 && count >= 2
      requires L[q].ymin == ymin
      modifies this`count, this`avail, this`list, this`insert
      ensures count == old(count) + 1
      ensures ok ==> list == SplitBand(L, b, q, y) && |list| == count + 1
      ensures !ok ==> avail == 0
    {
      ok := AllocRect();
      if !ok {
        return;
      }
      SplitBandExtendUp(L, b, q, y);
      var rsplit := list[2 * q - b];
      assert rsplit == L[q];
      list := list[..q] + [AccumRect(rsplit.xmin, ymin, rsplit.xmax, y)] + list[q..];
      list := list[2 * q - b + 1 := rsplit.(ymin := y)];
    }

    /** The walk back from list[p] to the first rectangle of its band. */
    method BandStart(p: int) returns (rbot: int)
      requires Banded(list, bbox) && 1 <= p < |list| - 1
      ensures 1 <= rbot <= p && list[rbot - 1].ymin != list[p].ymin
      ensures forall j :: rbot <= j <= p ==> list[j].ymin == list[p].ymin
    {
      RealAt(list, bbox, p);
      var ymin := list[p].ymin;
      rbot := p;
      while list[rbot - 1].ymin == ymin
        invariant 1 <= rbot <= p
        invariant forall j :: rbot <= j <= p ==> list[j].ymin == ymin
        decreases rbot
      {
        rbot := rbot - 1;
      }
    }

    // ------------------------------------------------------ x merge

    /** The x search at the end of accum_fill_rectangle: the new rectangle,
        spanning the band of list[p] from x to xe, walks the band leftwards
        from list[p], absorbing each rectangle it overlaps or touches, and is
        linked in where it stops; when a rectangle that reaches at least as far
        left absorbs it, that rectangle becomes the insertion point instead. */
    method MergeBand(p: int, x: int, xe: int)
      requires Banded(list, bbox) && |list| == count + 1
      requires 1 <= p < |list| - 1 && list[p + 1].ymin >= list[p].ymax
      requires x < xe && bbox.px <= x && xe <= bbox.qx
      modifies this`list, this`count, this`avail, this`insert
      ensures Banded(list, bbox) && |list| == count + 2 && count >= 1
      ensures 1 <= insert < |list| - 1
      ensures Area(list) == old(Area(list)) + Pts(AccumRect(x, old(list)[p].ymin, xe, old(list)[p].ymax))
    {
      ghost var L := list;
      var ymin := list[p].ymin;
      var nr := AccumRect(x, ymin, xe, list[p].ymax);
      ghost var nr0 := nr;
      var q := p;
      ghost var m := p;
      MergeStart(L, bbox, p, x, xe);
      while list[q].ymin == ymin
        invariant MergeInv(L, bbox, p, q, m, x, xe, nr, nr0, list, count)
        decreases q
      {
        var stop, out;
        stop, out, m, nr := MergeStep(L, p, q, m, x, xe, nr, nr0);
        if out {
          return;
        }
        if stop {
          break;
        }
        q := q - 1;
      }
      LinkAfter(L, p, q, m, x, xe, nr, nr0);
    }

    /** The end of the x search: the new rectangle goes in after list[q], which
        is below the band or wholly to the left of it, and becomes the
        insertion point. */
    method LinkAfter(ghost L: seq<ClipRect>, p: int, q: int, ghost m: int, x: int, xe: int,
                     nr: ClipRect, ghost nr0: ClipRect)
      requires MergeInv(L, bbox, p, q, m, x, xe, nr, nr0, list, count)
      requires list[q].ymin != L[p].ymin || x > list[q].xmax
      modifies this`list, this`insert
      ensures Banded(list, bbox) && |list| == count + 2 && count >= 1
      ensures 1 <= insert < |list| - 1 && Area(list) == Area(L) + Pts(nr0)
    {
      assert list[q] == L[q];
      MergeLink(L, bbox, p, q, m, x, xe, nr);
      list := list[..q + 1] + [nr] + list[q + 1..];
      insert := q + 1;
    }

    /** One turn of the x search at list[q], a rectangle of the band: step
        over it when it lies wholly to the right of the new rectangle, stop
        when it lies wholly to the left, merge otherwise. */
    method MergeStep(ghost L: seq<ClipRect>, p: int, q: int, ghost m: int, x: int, xe: int,
                     nr: ClipRect, ghost nr0: ClipRect)
      returns (stop: bool, out: bool, ghost m': int, nr': ClipRect)
      requires MergeInv(L, bbox, p, q, m, x, xe, nr, nr0, list, count)
      requires list[q].ymin == L[p].ymin
      modifies this`list, this`count, this`avail, this`insert
      ensures out ==> stop
      ensures out ==> Banded(list, bbox) && |list| == count + 2 && count >= 1
      ensures out ==> 1 <= insert < |list| - 1 && Area(list) == Area(L) + Pts(nr0)
      ensures stop && !out ==> unchanged(this) && nr' == nr && m' == m
      ensures stop && !out ==> x > list[q].xmax
      ensures !stop ==> 1 <= q && MergeInv(L, bbox, p, q - 1, m', x, xe, nr', nr0, list, count)
    {
      var r := list[q];
      assert r == L[q];
      if xe < r.xmin {
        MergeSkip(L, bbox, p, q, m, x, xe, nr);
        return false, false, q - 1, nr;
      } else if x > r.xmax {
        return true, false, m, nr;
      }
      out, nr' := Absorb(L, p, q, m, x, xe, nr, nr0);
      return out, out, m, nr';
    }

    /** One merge of the x search: the new rectangle overlaps or touches
        list[q]. list[q] takes over the new rectangle's right end, the new
        rectangle is freed, and either list[q] already reaches x, and the
        search ends with list[q] as insertion point, or list[q] is widened to x,
        unlinked, and carried on leftwards as the new rectangle. */
    method Absorb(ghost L: seq<ClipRect>, p: int, q: int, ghost m: int, x: int, xe: int,
                  nr: ClipRect, ghost nr0: ClipRect) returns (out: bool, nr': ClipRect)
      requires MergeInv(L, bbox, p, q, m, x, xe, nr, nr0, list, count)
      requires list[q].ymin == L[p].ymin && list[q].xmin <= xe && x <= list[q].xmax
      modifies this`list, this`count, this`avail, this`insert
      ensures out ==> Banded(list, bbox) && |list| == count + 2 && count >= 1
      ensures out ==> 1 <= insert < |list| - 1 && Area(list) == Area(L) + Pts(nr0)
      ensures !out ==> 1 <= q && MergeInv(L, bbox, p, q - 1, m, x, xe, nr', nr0, list, count)
    {
      var r := list[q];
      assert r == L[q];
      if xe > r.xmax {
        r := r.(xmax := nr.xmax);
      }
      FreeRect();
      if x >= r.xmin {
        MergeOut(L, bbox, p, q, m, x, xe, nr);
        list := list[q := r];
        insert := q;
        return true, nr;
      }
      MergeOn(L, bbox, p, q, m, x, xe, nr);
      list := list[..q] + list[q + 1..];
      return false, r.(xmin := x);
    }

    // ------------------------------------------------------ insertion

    /** ACCUM_ADD_LAST: links `r` in just before the tail; an insertion point
        at the tail stays at the tail. */
    method AddLast(r: ClipRect)
      requires Banded(list, bbox) && 1 <= insert < |list|
      requires NonEmpty(r) && InsideBox(r, bbox) && Follows(list[|list| - 2], r)
      modifies this`list, this`insert
      ensures list == old(list)[..|old(list)| - 1] + [r] + old(list)[|old(list)| - 1..]
      ensures insert == if old(insert) == |old(list)| - 1 then old(insert) + 1 else old(insert)
      ensures Banded(list, bbox) && |list| == old(|list|) + 1 && 1 <= insert < |list|
      ensures Area(list) == old(Area(list)) + Pts(r)
    {
      var t := |list| - 1;
      SpliceBanded(list, bbox, t, t, [r]);
      AreaInsert(list, t, r);
      list := list[..t] + [r] + list[t..];
      if insert == t {
        insert := t + 1;
      }
    }

    /** The switch back from a list to the single rectangle once at most one
        is left: the rectangle after the head becomes the single one, and the
        head and tail are freed. */
    method Demote()
      requires |list| >= 2
      modifies this`list, this`insert, this`single, this`avail
      ensures list == [] && insert == NullLink
      ensures single == if |old(list)| > 2 then old(list)[1] else old(single)
      ensures avail == old(avail) + if |old(list)| > 2 then 3 else 2
    {
      var first := 1;
      if first != |list| - 1 {
        single := list[first];
        avail := avail + 1;
      }
      avail := avail + 2;
      list, insert := [], NullLink;
    }

    /** The `out` step of accum_fill_rectangle: with at most one rectangle
        left, the list is given up for the single rectangle. */
    method Settle()
      requires BoxInRange(clipBox) && Banded(list, bbox) && |list| == count + 2 && count >= 1
      requires 1 <= insert < |list|
      modifies this`list, this`insert, this`single, this`avail
      ensures Shape() && count == old(count)
      ensures Area(Region()) == old(Area(list))
    {
      ghost var L := list;
      AreaInner(L);
      if count <= 1 {
        RealAt(L, bbox, 1);
        Demote();
        assert Inner(L) == [single];
      }
      RegionArea();
    }

    /** The two band cuts of accum_fill_rectangle: the band ending at list[p]
        is cut at `ye` and at `y` where these fall strictly inside it, so that
        a band from max(y, its bottom) to `ye` ends at list[at]. */
    method CutBand(p: int, y: int, ye: int) returns (ok: bool, at: int)
      requires Banded(list, bbox) && |list| == count + 1
      requires 1 <= p < |list| - 1 && list[p].ymin < ye <= list[p].ymax && y < ye
      requires list[p + 1].ymin >= list[p].ymax
      modifies this`count, this`avail, this`list, this`insert
      ensures ok ==> Banded(list, bbox) && |list| == count + 1
      ensures ok ==> Area(list) == old(Area(list))
      ensures ok ==> 1 <= at < |list| - 1
      ensures ok ==> list[at].ymin == Max(y, old(list)[p].ymin) && list[at].ymax == ye
      ensures ok ==> list[at + 1].ymin >= ye
      ensures !ok ==> avail == 0
    {
      var ymin, ymax := list[p].ymin, list[p].ymax;
      ok, at := true, p;
      if ye < ymax {
        ok := CutTop(p, ye);
        if !ok {
          return;
        }
      }
      if y > ymin {
        ok, at := CutBottom(p, y);
      }
    }

    /** The top split of CutBand, with what it keeps: list[p] now ends at
        `ye`, and the upper halves follow it. */
    method CutTop(p: int, ye: int) returns (ok: bool)
      requires Banded(list, bbox) && |list| == count + 1
      requires 1 <= p < |list| - 1 && list[p].ymin < ye < list[p].ymax
      requires list[p + 1].ymin >= list[p].ymax
      modifies this`count, this`avail, this`list, this`insert
      ensures ok ==> Banded(list, bbox) && |list| == count + 1 && p < |list| - 1
      ensures ok ==> Area(list) == old(Area(list))
      ensures ok ==> list[p] == old(list)[p].(ymax := ye) && list[p + 1].ymin == ye
      ensures !ok ==> avail == 0
    {
      ghost var L := list;
      ghost var b;
      ok, b := SplitTop(p, ye);
      if !ok {
        return;
      }
      SplitBandKeeps(L, bbox, b, p, ye);
      SplitBandArea(L, b, p, ye);
      SplitBandAt(L, b, p, ye);
    }

    /** The bottom split of CutBand, with what it keeps: the upper half of
        list[p], now at `at`, starts at `y`, and the old list[p + 1] follows
        it. */
    method CutBottom(p: int, y: int) returns (ok: bool, at: int)
      requires Banded(list, bbox) && |list| == count + 1
      requires 1 <= p < |list| - 1 && list[p].ymin < y < list[p].ymax
      requires list[p + 1].ymin >= list[p].ymax
      modifies this`count, this`avail, this`list, this`insert
      ensures ok ==> Banded(list, bbox) && |list| == count + 1
      ensures ok ==> Area(list) == old(Area(list))
      ensures ok ==> 1 <= at < |list| - 1
      ensures ok ==> list[at] == old(list)[p].(ymin := y) && list[at + 1] == old(list)[p + 1]
      ensures !ok ==> avail == 0
    {
      ghost var L := list;
      ghost var b;
      ok, at, b := SplitBottom(p, y);
      if !ok {
        return;
      }
      SplitBandKeeps(L, bbox, b, p, y);
      SplitBandArea(L, b, p, y);
      SplitBandAt(L, b, p, y);
    }

    /** The general path of accum_fill_rectangle, after the new rectangle has
        been allocated: locate the band, link the part above every existing
        band, cut the existing band at the new rectangle's top and bottom, and
        merge in x. The part below the located band, if any, is returned as
        the rest still to insert. A failed allocation frees the new rectangle
        again. */
    method InsertGeneral(x: int, y: int, xe: int, ye: int) returns (code: int, more: bool, rest: int)
      requires Pending()
      requires NonEmpty(AccumRect(x, y, xe, ye)) && InsideBox(AccumRect(x, y, xe, ye), bbox)
      modifies this`count, this`avail, this`list, this`insert, this`single
      ensures code == 0 || code == VMError
      ensures code == VMError ==> avail <= 1
      ensures code == 0 ==> Shape() && count >= 1
      ensures code == 0 && more ==> y < rest < ye
      ensures code == 0 ==> Area(Region()) + (if more then Pts(AccumRect(x, y, xe, rest)) else iset{})
                            == old(Area(list)) + Pts(AccumRect(x, y, xe, ye))
    {
      ghost var R := AccumRect(x, y, xe, ye);
      var p := Locate(ye);
      var ymax := list[p].ymax;
      if p >= 1 {
        RealAt(list, bbox, p);
      }
      BandEnd(list, bbox, p);
      if ye > ymax {
        if y >= ymax {
          LinkBetween(p, AccumRect(x, y, xe, ye));
          return 0, false, 0;
        }
        var ok := AddAbove(p, x, y, xe, ye);
        if !ok {
          FreeRect();
          return VMError, false, 0;
        }
        code, more, rest := FitBand(p, x, y, xe, ymax);
      } else {
        code, more, rest := FitBand(p, x, y, xe, ye);
      }
    }

    /** The new rectangle lies between the bands of list[p] and list[p+1]: it
        is linked in between them and becomes the insertion point. */
    method LinkBetween(p: int, r: ClipRect)
      requires Pending() && 0 <= p < |list| - 1
      requires NonEmpty(r) && InsideBox(r, bbox)
      requires r.ymin >= list[p].ymax && r.ymax <= list[p + 1].ymin
      modifies this`list, this`insert
      ensures Shape() && count >= 1
      ensures Area(Region()) == old(Area(list)) + Pts(r)
    {
      SpliceBanded(list, bbox, p + 1, p + 1, [r]);
      AreaInsert(list, p + 1, r);
      list := list[..p + 1] + [r] + list[p + 1..];
      insert := p + 1;
      RegionArea();
    }

    /** The new rectangle reaches above the band of list[p], whose top is
        `ymax`, but starts inside it: its part above `ymax` is allocated and
        linked in after list[p], leaving the rest to fit into the band. */
    method AddAbove(p: int, x: int, y: int, xe: int, ye: int) returns (ok: bool)
      requires Pending() && 1 <= p < |list| - 1
      requires y < list[p].ymax < ye <= list[p + 1].ymin
      requires NonEmpty(AccumRect(x, y, xe, ye)) && InsideBox(AccumRect(x, y, xe, ye), bbox)
      modifies this`count, this`avail, this`list, this`insert
      ensures count == old(count) + 1
      ensures ok ==> Pending() && |list| == old(|list|) + 1
      ensures ok ==> list[p] == old(list)[p] && list[p + 1].ymin >= list[p].ymax
      ensures !ok ==> avail == 0
      ensures ok ==> Area(list) + Pts(AccumRect(x, y, xe, list[p].ymax)) == old(Area(list)) + Pts(AccumRect(x, y, xe, ye))
    {
      ghost var L := list;
      ok := AllocRect();
      if !ok {
        return;
      }
      var ar := AccumRect(x, list[p].ymax, xe, ye);
      RealAt(list, bbox, p);
      SpliceBanded(list, bbox, p + 1, p + 1, [ar]);
      AreaInsert(list, p + 1, ar);
      PtsCutY(AccumRect(x, y, xe, ye), list[p].ymax);
      list := list[..p + 1] + [ar] + list[p + 1..];
      assert list[p] == L[p];
    }

    /** The rest of the general path once the new rectangle's top is at most
        the top of the band ending at list[p]: cut that band, merge in x, give
        up the list if one rectangle is left, and hand back the part below the
        band. */
    method FitBand(p: int, x: int, y: int, xe: int, ye: int) returns (code: int, more: bool, rest: int)
      requires Pending()
      requires 1 <= p < |list| - 1 && list[p].ymin < ye <= list[p].ymax
      requires list[p + 1].ymin >= list[p].ymax
      requires NonEmpty(AccumRect(x, y, xe, ye)) && InsideBox(AccumRect(x, y, xe, ye), bbox)
      modifies this`count, this`avail, this`list, this`insert, this`single
      ensures code == 0 || code == VMError
      ensures code == VMError ==> avail <= 1
      ensures code == 0 ==> Shape() && count >= 1
      ensures code == 0 && more ==> y < rest < ye
      ensures code == 0 ==> Area(Region()) + (if more then Pts(AccumRect(x, y, xe, rest)) else iset{})
                            == old(Area(list)) + Pts(AccumRect(x, y, xe, ye))
    {
      ghost var R := AccumRect(x, y, xe, ye);
      ghost var ymin0 := list[p].ymin;
      var ok, at := CutBand(p, y, ye);
      if !ok {
        FreeRect();
        return VMError, false, 0;
      }
      var ymin := list[at].ymin;
      assert ymin == Max(y, ymin0) < ye;
      MergeBand(at, x, xe);
      Settle();
      if y < ymin {
        PtsCutY(R, ymin);
        more, rest := true, ymin;
      } else {
        assert AccumRect(x, ymin, xe, ye) == R;
        more, rest := false, 0;
      }
      code := 0;
    }

    /** ACCUM_ALLOC followed by ACCUM_ADD_LAST: a new rectangle after the last
        one, switching to a list first when there was a single rectangle. */
    method AppendLast(r: ClipRect) returns (code: int)
      requires Shape() && count >= 1
      requires NonEmpty(r) && InsideBox(r, bbox)
      requires Follows(if count == 1 then single else list[|list| - 2], r)
      modifies this`count, this`avail, this`list, this`insert
      ensures code == 0 || code == VMError
      ensures code == VMError ==> avail < AllocCost(2)
      ensures code == 0 ==> Shape() && count == old(count) + 1
      ensures code == 0 && old(count) == 1 ==> list == [HeadRect, old(single), r, TailRect]
      ensures code == 0 && old(count) >= 2 ==>
        list == old(list)[..|old(list)| - 1] + [r] + old(list)[|old(list)| - 1..]
      ensures code == 0 ==> Area(Region()) == old(Area(Region())) + Pts(r)
    {
      RegionArea();
      var ok := AllocRect();
      if !ok {
        return VMError;
      }
      if count == 2 {
        PromoteBanded(single, bbox);
      }
      AddLast(r);
      RegionArea();
      return 0;
    }

    /** The fast path that grows the last rectangle upwards by `r`, which sits
        right on top of it with the same x range, when the last rectangle is
        alone in its band. */
    method ExtendLast(r: ClipRect)
      requires Shape() && count >= 1
      requires NonEmpty(r) && InsideBox(r, bbox)
      requires var last := if count == 1 then single else list[|list| - 2];
        r.ymin == last.ymax && r.xmin == last.xmin && r.xmax == last.xmax &&
        (count == 1 || r.ymin != list[|list| - 3].ymax)
      modifies this`list, this`single
      ensures count == 1 ==> single == old(single).(ymax := r.ymax) && list == old(list)
      ensures count >= 2 ==>
        single == old(single) &&
        list == old(list)[|old(list)| - 2 := old(list)[|old(list)| - 2].(ymax := r.ymax)]
      ensures Shape() && count >= 1
      ensures Area(Region()) == old(Area(Region())) + Pts(r)
    {
      RegionArea();
      if count == 1 {
        PtsMergeY(single, r);
        single := single.(ymax := r.ymax);
      } else {
        LastExtendY(list, bbox, r);
        list := list[|list| - 2 := list[|list| - 2].(ymax := r.ymax)];
      }
      RegionArea();
    }

    /** The fast path that merges `r`, in the band of the last rectangle and
        starting inside it, by widening the last rectangle to the right. */
    method WidenLast(r: ClipRect)
      requires Shape() && count >= 1
      requires NonEmpty(r) && InsideBox(r, bbox)
      requires var last := if count == 1 then single else list[|list| - 2];
        r.ymin == last.ymin && r.ymax == last.ymax && last.xmin <= r.xmin <= last.xmax
      modifies this`list, this`single
      ensures count == 1 ==> single == old(single).(xmax := Max(old(single).xmax, r.xmax)) && list == old(list)
      ensures count >= 2 ==>
        single == old(single) &&
        list == old(list)[|old(list)| - 2 := old(list)[|old(list)| - 2].(xmax := Max(old(list)[|old(list)| - 2].xmax, r.xmax))]
      ensures Shape() && count >= 1
      ensures Area(Region()) == old(Area(Region())) + Pts(r)
    {
      RegionArea();
      if count == 1 {
        PtsMergeX(single, r);
        if r.xmax > single.xmax {
          single := single.(xmax := r.xmax);
        }
      } else {
        LastWidenX(list, bbox, r);
        if r.xmax > list[|list| - 2].xmax {
          list := list[|list| - 2 := list[|list| - 2].(xmax := r.xmax)];
        }
      }
      RegionArea();
    }

    /** One pass of accum_fill_rectangle from its `top` label: the first
        rectangle, the merge into the single rectangle, and otherwise the
        placement after the last rectangle or in the list. */
    method InsertPass(x: int, y: int, xe: int, ye: int) returns (code: int, more: bool, rest: int)
      requires Shape()
      requires NonEmpty(AccumRect(x, y, xe, ye)) && InsideBox(AccumRect(x, y, xe, ye), bbox)
      modifies this`count, this`avail, this`list, this`insert, this`single
      ensures code == 0 || code == VMError
      ensures code == VMError ==> avail < AllocCost(2)
      ensures code == 0 ==> Shape() && count >= 1
      ensures code == 0 && more ==> y < rest < ye
      ensures code == 0 ==> Area(Region()) + (if more then Pts(AccumRect(x, y, xe, rest)) else iset{})
                            == old(Area(Region())) + Pts(AccumRect(x, y, xe, ye))
      ensures old(count) == 0 ==> code == 0 && !more && count == 1 && single == AccumRect(x, y, xe, ye)
      ensures old(count) == 1 && MergesWithSingle(old(single), AccumRect(x, y, xe, ye)) ==>
        code == 0 && !more && count == 1 && single == MergedSingle(old(single), AccumRect(x, y, xe, ye))
    {
      var r := AccumRect(x, y, xe, ye);
      if count == 0 {
        count := 1;
        single := r;
        RegionArea();
        return 0, false, 0;
      }
      if count == 1 && x == single.xmin && xe == single.xmax && y <= single.ymax && ye >= single.ymin {
        MergeSingle(r);
        return 0, false, 0;
      }
      code, more, rest := PlaceRect(x, y, xe, ye);
    }

    /** The rest of a pass: the fast paths at the end of the list, and
        otherwise the general path. */
    method PlaceRect(x: int, y: int, xe: int, ye: int) returns (code: int, more: bool, rest: int)
      requires Shape() && count >= 1
      requires NonEmpty(AccumRect(x, y, xe, ye)) && InsideBox(AccumRect(x, y, xe, ye), bbox)
      modifies this`count, this`avail, this`list, this`insert, this`single
      ensures code == 0 || code == VMError
      ensures code == VMError ==> avail < AllocCost(2)
      ensures code == 0 ==> Shape() && count >= 1
      ensures code == 0 && more ==> y < rest < ye
      ensures code == 0 ==> Area(Region()) + (if more then Pts(AccumRect(x, y, xe, rest)) else iset{})
                            == old(Area(Region())) + Pts(AccumRect(x, y, xe, ye))
    {
      var r := AccumRect(x, y, xe, ye);
      var rptr: ClipRect;
      if count == 1 {
        rptr := single;
      } else {
        rptr := list[|list| - 2];
        RealAt(list, bbox, |list| - 2);
      }
      if y >= rptr.ymax {
        if y == rptr.ymax && x == rptr.xmin && xe == rptr.xmax &&
           (count == 1 || y != list[|list| - 3].ymax) {
          ExtendLast(r);
          return 0, false, 0;
        }
        code := AppendLast(r);
        return code, false, 0;
      } else if y == rptr.ymin && ye == rptr.ymax && x >= rptr.xmin {
        if x <= rptr.xmax {
          WidenLast(r);
          return 0, false, 0;
        }
        code := AppendLast(r);
        return code, false, 0;
      }
      code, more, rest := InsertNew(x, y, xe, ye);
    }

    /** The single rectangle takes in one that spans the same x range and
        touches or overlaps it in y. */
    method MergeSingle(r: ClipRect)
      requires Shape() && count == 1 && NonEmpty(r) && InsideBox(r, bbox)
      requires MergesWithSingle(single, r)
      modifies this`single
      ensures single == MergedSingle(old(single), r)
      ensures Shape() && count == 1
      ensures Area(Region()) == old(Area(Region())) + Pts(r)
    {
      var rptr := single;
      RegionArea();
      if r.ymin < rptr.ymin {
        single := single.(ymin := r.ymin);
      }
      if r.ymax > rptr.ymax {
        single := single.(ymax := r.ymax);
      }
      PtsMergeY(rptr, r);
      RegionArea();
    }

    /** The general path's prelude: allocate the rectangle (turning the
        single rectangle into a list when it is the second), then place it. */
    method InsertNew(x: int, y: int, xe: int, ye: int) returns (code: int, more: bool, rest: int)
      requires Shape() && count >= 1
      requires NonEmpty(AccumRect(x, y, xe, ye)) && InsideBox(AccumRect(x, y, xe, ye), bbox)
      modifies this`count, this`avail, this`list, this`insert, this`single
      ensures code == 0 || code == VMError
      ensures code == VMError ==> avail < AllocCost(2)
      ensures code == 0 ==> Shape() && count >= 1
      ensures code == 0 && more ==> y < rest < ye
      ensures code == 0 ==> Area(Region()) + (if more then Pts(AccumRect(x, y, xe, rest)) else iset{})
                            == old(Area(Region())) + Pts(AccumRect(x, y, xe, ye))
    {
      ghost var A := Area(Region());
      RegionArea();
      var ok := AllocRect();
      if !ok {
        return VMError, false, 0;
      }
      if count == 2 {
        PromoteBanded(single, bbox);
      }
      assert Area(list) == A;
      code, more, rest := InsertGeneral(x, y, xe, ye);
    }

    /** accum_fill_rectangle: clips the rectangle (x and y swapped when
        transposed) to the clip box, and adds what is left, if anything. */
    method FillRectangle(xi: int, yi: int, w: int, h: int) returns (code: int)
      requires Valid() && Hull()
      modifies this`count, this`avail, this`list, this`insert, this`single, this`bbox
      ensures code == 0 || code == VMError
      ensures code == VMError ==> avail < AllocCost(2)
      ensures code == 0 ==> Valid() && Hull()
      ensures ClipIncoming(xi, yi, w, h, transpose, clipBox).None? ==> code == 0 && unchanged(this)
      ensures code == 0 && ClipIncoming(xi, yi, w, h, transpose, clipBox).Some? ==>
        var r := ClipIncoming(xi, yi, w, h, transpose, clipBox).value;
        Area(Region()) == old(Area(Region())) + Pts(r) && bbox == GrowBox(old(bbox), r)
      ensures ClipIncoming(xi, yi, w, h, transpose, clipBox).Some? && old(count) == 0 ==>
        code == 0 && count == 1 && single == ClipIncoming(xi, yi, w, h, transpose, clipBox).value
      ensures ClipIncoming(xi, yi, w, h, transpose, clipBox).Some? && old(count) == 1 &&
              MergesWithSingle(old(single), ClipIncoming(xi, yi, w, h, transpose, clipBox).value) ==>
        code == 0 && count == 1 && single == MergedSingle(old(single), ClipIncoming(xi, yi, w, h, transpose, clipBox).value)
    {
      var c := ClipIncoming(xi, yi, w, h, transpose, clipBox);
      if c.None? {
        return 0;
      }
      code := AddClipped(c.value);
    }

    /** The rest of accum_fill_rectangle for a clipped, non-empty rectangle:
        grow the bounding box, then insert band by band (the `goto top` loop),
        each pass handing back the part below the band it reached. */
    method AddClipped(r: ClipRect) returns (code: int)
      requires Valid() && Hull()
      requires NonEmpty(r) && InsideBox(r, clipBox)
      modifies this`count, this`avail, this`list, this`insert, this`single, this`bbox
      ensures code == 0 || code == VMError
      ensures code == VMError ==> avail < AllocCost(2)
      ensures code == 0 ==> Valid() && Hull()
      ensures code == 0 ==> Area(Region()) == old(Area(Region())) + Pts(r) && bbox == GrowBox(old(bbox), r)
      ensures old(count) == 0 ==> code == 0 && count == 1 && single == r
      ensures old(count) == 1 && MergesWithSingle(old(single), r) ==>
        code == 0 && count == 1 && single == MergedSingle(old(single), r)
    {
      ghost var A0 := Area(Region());
      TightOrEmpty();
      GrowTight(bbox, A0, r);
      Grow(r);
      code := InsertAll(r);
      if code == 0 {
        TightArea(bbox, A0 + Pts(r), Area(Region()));
      }
    }

    /** The bounding-box update at the top of accum_fill_rectangle. */
    method Grow(r: ClipRect)
      requires Shape() && NonEmpty(r) && InsideBox(r, clipBox)
      modifies this`bbox
      ensures Shape() && bbox == GrowBox(old(bbox), r)
    {
      var g := GrowBox(bbox, r);
      if count >= 2 {
        BandedWiden(list, bbox, g);
      }
      bbox := g;
    }

    /** The passes of accum_fill_rectangle: each adds a bottom part of the
        rectangle and leaves the rest, until nothing is left. */
    method InsertAll(r: ClipRect) returns (code: int)
      requires Shape() && NonEmpty(r) && InsideBox(r, bbox)
      modifies this`count, this`avail, this`list, this`insert, this`single
      ensures code == 0 || code == VMError
      ensures code == VMError ==> avail < AllocCost(2)
      ensures code == 0 ==> Shape() && count >= 1 && Area(Region()) == old(Area(Region())) + Pts(r)
      ensures old(count) == 0 ==> code == 0 && count == 1 && single == r
      ensures old(count) == 1 && MergesWithSingle(old(single), r) ==>
        code == 0 && count == 1 && single == MergedSingle(old(single), r)
    {
      ghost var A0 := Area(Region());
      var x, y, xe, ye := r.xmin, r.ymin, r.xmax, r.ymax;
      code := 0;
      while true
        invariant Shape() && y < ye <= r.ymax
        invariant ye == r.ymax ==> count == old(count) && single == old(single)
        invariant old(count) == 0 || (old(count) == 1 && MergesWithSingle(old(single), r)) ==> ye == r.ymax
        invariant NonEmpty(AccumRect(x, y, xe, ye)) && InsideBox(AccumRect(x, y, xe, ye), bbox)
        invariant Area(Region()) + Pts(AccumRect(x, y, xe, ye)) == A0 + Pts(r)
        decreases ye - y
      {
        var more, rest;
        ghost var A := Area(Region());
        code, more, rest := InsertPass(x, y, xe, ye);
        if code != 0 {
          return;
        }
        if !more {
          assert Area(Region()) == A + Pts(AccumRect(x, y, xe, ye));
          return;
        }
        ye := rest;
      }
    }

    /** Before a rectangle is added the box is either the empty box of an
        empty accumulator or the tight hull of its pixels. */
    lemma TightOrEmpty()
      requires Valid() && Hull()
      ensures (Area(Region()) == iset{} && bbox == EmptyBbox) || Tight(bbox, Area(Region()))
    {
      if count == 0 {
        assert Region() == [];
      }
    }
  }
}
