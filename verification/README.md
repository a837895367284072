# Clip-path accumulator and known encodings, modelled in Dafny

This project models two parts of the Ghostscript graphics library.

**The clip-path accumulator device** (`gxacpath.c`). While a clipping path is
built, the path is filled onto a special device. That device receives
rectangles (`accum_fill_rectangle`), clips each to its clip box, grows its
bounding box, and merges the rectangle into a *banded list*: a doubly linked
list of disjoint rectangles between a head and a tail sentinel, ordered by
band (rectangles with the same `ymin`/`ymax`) and, within a band, by x. While
there is at most one rectangle the list is not built and the rectangle is
kept in the `single` slot. When the accumulation ends
(`gx_cpath_accum_end`), the bounding box is swapped back to x/y order
(the device may work transposed) and scaled to fixed point, and the inner box
is exact only if one rectangle is left.

The model keeps the accumulator as a class `ClipAccum.CpathAccum` whose fields
are the C structure's (`count`, `single`, the list, `insert`, `bbox`,
`clip_box`, `transpose`, `xmin`/`xmax`) plus the memory still available. The
linked list is a sequence from head to tail sentinel; `insert` is an index
into it. Every step of `accum_fill_rectangle` is a method (the two band
splits are loops, so is the x search and the `goto top` pass loop) proved to
keep the list *banded* (`ClipList.Banded`) and to add exactly the pixels of
the clipped rectangle to the region (`ClipList.Area`). The bounding box is
proved to stay the tight hull of those pixels.

**The known-encodings tables** (`gscencs.c`). A character of a built-in
encoding is encoded to a biased glyph number; a glyph is decoded back by a
binary search of a reverse index; a glyph name is found by a binary search of
fixed-width name records grouped by length, compared with `memcmp`. The
generated tables are a parameter (`KnownEncodings.Tables`) with the shape the
code relies on (`WellFormed`) and the orders the searches rely on
(`ReverseSorted`, `NamesSorted`).

Files: `fixed_point.dfy` (fixed-point constants and boxes),
`clip_list.dfy` (the banded list and its pixel semantics),
`accum_boxes.dfy` (clip box, bounding box and end-of-accumulation boxes),
`clip_accum.dfy` (the accumulator device), `known_encodings.dfy`.

## Model

| member | source | states |
|---|---|---|
| AccumBoxes.ClampUpper | scripts/install/ghostscript-10.01.2/base/gxacpath.c:99-104 | the clamped upper coordinate is at most max_fixed - fixed_scale - 1, so its ceiling conversion cannot overflow; values in range are unchanged |
| AccumBoxes.ClipBoxFor | scripts/install/ghostscript-10.01.2/base/gxacpath.c:91-116 | the clip box made from any fixed box in range has pixel coordinates in range |
| AccumBoxes.ClipBoxTransposed | scripts/install/ghostscript-10.01.2/base/gxacpath.c:105-115 | the transposed clip box is the untransposed one with x and y swapped |
| AccumBoxes.ClipBoxCovers | scripts/install/ghostscript-10.01.2/base/gxacpath.c:95-115 | the pixel clip box covers the fixed box: low corner floored, high corner ceiled unless clamped |
| AccumBoxes.ClippingBox | scripts/install/ghostscript-10.01.2/base/gxacpath.c:118-134 | the clipping box reported from a clip box is in the fixed range |
| AccumBoxes.ClippingBoxRoundTrip | scripts/install/ghostscript-10.01.2/base/gxacpath.c:118-134 | converting the reported clipping box back with fixed2int gives the clip box again (swapped back when transposed) |
| AccumBoxes.ClippingBoxWrapAgrees | scripts/install/ghostscript-10.01.2/base/gxacpath.c:126-132 | int2fixed(q + 1) - 1 computed with 32-bit wrap-around equals the exact value for every q in range |
| AccumBoxes.ClipIncoming | scripts/install/ghostscript-10.01.2/base/gxacpath.c:433-453 | after the transpose remap (see IncomingTransposed), a rectangle that survives clipping is non-empty and inside the clip box |
| AccumBoxes.IncomingTransposed | scripts/install/ghostscript-10.01.2/base/gxacpath.c:433-439 | the incoming rectangle spans x..x+w by y..y+h, with x and y (and w and h) swapped when the accumulator is transposed |
| AccumBoxes.ClipIncomingExact | scripts/install/ghostscript-10.01.2/base/gxacpath.c:433-453 | the clipped rectangle holds exactly the incoming pixels inside the clip box; when nothing survives, no incoming pixel is inside |
| AccumBoxes.GrowBox | scripts/install/ghostscript-10.01.2/base/gxacpath.c:455-463 | the grown box contains the rectangle and the old box, and each edge is either the old edge or the rectangle's |
| AccumBoxes.FinishBoxes | scripts/install/ghostscript-10.01.2/base/gxacpath.c:149-180 | no rectangles give an all-zero bbox; otherwise the bbox is the device box swapped back to x/y order and scaled to fixed; the inner box is the bbox iff at most one rectangle is left, all zero otherwise |
| ClipList.BandedValidates | scripts/install/ghostscript-10.01.2/base/gxacpath.c:244-251 | every banded list passes clip_list_validate's successor test |
| ClipList.ChainPairwise | scripts/install/ghostscript-10.01.2/base/gxacpath.c:244-251 | the successor order of a banded list holds between every pair of its rectangles, not just neighbours |
| ClipList.BandedDisjoint | scripts/install/ghostscript-10.01.2/base/gxacpath.c:410-421 | two distinct rectangles of a banded list share no pixel |
| ClipList.SameBand | scripts/install/ghostscript-10.01.2/base/gxacpath.c:588-609 | two rectangles starting at the same y are in the same band, the later strictly to the right |
| ClipList.BandEnd | scripts/install/ghostscript-10.01.2/base/gxacpath.c:512-529 | a successor that starts higher starts at or above the end of the predecessor's band |
| ClipList.BandByYmax | scripts/install/ghostscript-10.01.2/base/gxacpath.c:553-561 | the run of rectangles that end where list[p] ends is the band of list[p], and the rectangle before it ends below the band |
| ClipList.BandByYmin | scripts/install/ghostscript-10.01.2/base/gxacpath.c:567-570 | the run of rectangles that start where list[p] starts is its band, and the rectangle before it ends below the band |
| ClipList.PtsMergeX | scripts/install/ghostscript-10.01.2/base/gxacpath.c:593-605 | two rectangles of one band that overlap or touch in x cover exactly the rectangle spanning both |
| ClipList.PtsMergeY | scripts/install/ghostscript-10.01.2/base/gxacpath.c:471-481 | two rectangles of one x range that overlap or touch in y cover exactly the rectangle spanning both |
| ClipList.PtsCutY | scripts/install/ghostscript-10.01.2/base/gxacpath.c:550-584 | cutting a rectangle at a height inside it loses no pixel |
| ClipList.AreaCutBand | scripts/install/ghostscript-10.01.2/base/gxacpath.c:550-584 | the lower and upper halves of a band cut at v cover the band |
| ClipList.SplitBandKeeps | scripts/install/ghostscript-10.01.2/base/gxacpath.c:550-584 | cutting a whole band at a height strictly inside it keeps the list banded and adds one rectangle per band member |
| ClipList.SplitBandArea | scripts/install/ghostscript-10.01.2/base/gxacpath.c:550-584 | cutting a band covers the same pixels as before |
| ClipList.SplitBandExtendDown | scripts/install/ghostscript-10.01.2/base/gxacpath.c:553-562 | one more turn of the top-split loop, on the rectangle below the cut run, gives the cut of the longer run |
| ClipList.SplitBandExtendUp | scripts/install/ghostscript-10.01.2/base/gxacpath.c:571-582 | one more turn of the bottom-split loop, on the rectangle above the cut run, gives the cut of the longer run |
| ClipList.AreaInsert | scripts/install/ghostscript-10.01.2/base/gxacpath.c:394-401 | linking a rectangle in anywhere adds its pixels |
| ClipList.AreaAt | scripts/install/ghostscript-10.01.2/base/gxacpath.c:402-403 | unlinking a rectangle removes it and keeps the rest of the list's pixels |
| ClipList.PromoteBanded | scripts/install/ghostscript-10.01.2/base/gxacpath.c:352-381 | head, the former single rectangle and tail form a banded list covering that rectangle |
| ClipList.BandedWiden | scripts/install/ghostscript-10.01.2/base/gxacpath.c:455-463 | a banded list stays banded when the bounding box grows |
| ClipList.LastExtendY | scripts/install/ghostscript-10.01.2/base/gxacpath.c:485-491 | growing the last rectangle upwards, when it is alone in its band, keeps the list banded and adds the new rectangle's pixels |
| ClipList.LastWidenX | scripts/install/ghostscript-10.01.2/base/gxacpath.c:496-501 | widening the last rectangle rightwards by a rectangle of its band that starts inside it keeps the list banded and adds its pixels; when no widening is needed its pixels are already covered |
| ClipList.ReplaceLast | scripts/install/ghostscript-10.01.2/base/gxacpath.c:485-501 | replacing the last rectangle by one that still follows its predecessor keeps the list banded and trades their pixels |
| ClipAccum.ClipListValidate | scripts/install/ghostscript-10.01.2/base/gxacpath.c:233-259 | the walk's verdict is exactly: no list for at most one rectangle, else every rectangle ordered and following its predecessor |
| ClipAccum.GrowTight | scripts/install/ghostscript-10.01.2/base/gxacpath.c:455-463 | growing the box by a rectangle keeps it the tight hull of the pixels, starting from the empty box of an empty region |
| ClipAccum.TightOrEmpty | scripts/install/ghostscript-10.01.2/base/gxacpath.c:269-270 | between calls the bounding box is the empty box of the open device or the tight hull of the region |
| ClipAccum.MergeStart | scripts/install/ghostscript-10.01.2/base/gxacpath.c:585-588 | the x search starts at the band's last rectangle with the new rectangle spanning x to xe |
| ClipAccum.MergeSkip | scripts/install/ghostscript-10.01.2/base/gxacpath.c:589-590 | a rectangle wholly to the right is met only before any merge and is stepped over |
| ClipAccum.MergeOut | scripts/install/ghostscript-10.01.2/base/gxacpath.c:593-603 | when an existing rectangle reaches as far left, widening it absorbs the new one: the list stays banded and gains exactly the new pixels |
| ClipAccum.MergeOn | scripts/install/ghostscript-10.01.2/base/gxacpath.c:593-608 | when the existing rectangle starts further right, it is unlinked into the new one and the search goes on leftwards with the pixels kept |
| ClipAccum.MergeLink | scripts/install/ghostscript-10.01.2/base/gxacpath.c:591-592 | when the search stops, linking the new rectangle after the stopping point keeps the list banded and adds its pixels |
| ClipAccum.CpathAccum.Begin | scripts/install/ghostscript-10.01.2/base/gxacpath.c:263-274 | a fresh accumulator is valid, empty, with the empty bbox and the full clip box |
| ClipAccum.CpathAccum.Open | scripts/install/ghostscript-10.01.2/base/gxacpath.c:263-274 | opening empties the list, sets the inverted empty bbox and the full clip box, and succeeds |
| ClipAccum.CpathAccum.SetCbox | scripts/install/ghostscript-10.01.2/base/gxacpath.c:91-116 | the clip box becomes ClipBoxFor of the given box and the accumulator stays valid |
| ClipAccum.CpathAccum.Close | scripts/install/ghostscript-10.01.2/base/gxacpath.c:277-288 | xmin/xmax become the bbox's x range (its y range when transposed) and a valid accumulator closes with code 0 |
| ClipAccum.CpathAccum.End | scripts/install/ghostscript-10.01.2/base/gxacpath.c:138-187 | the handed-over rectangles are the region, the boxes are FinishBoxes of the count, bbox and transpose, and the device bbox is restored to x/y order |
| ClipAccum.CpathAccum.SingleIsBbox | scripts/install/ghostscript-10.01.2/base/gxacpath.c:170-175 | with one rectangle left, the bounding box is that rectangle, so the inner box is exact |
| ClipAccum.CpathAccum.RegionDisjoint | scripts/install/ghostscript-10.01.2/base/gxacpath.c:410-421 | the accumulated rectangles are pairwise disjoint |
| ClipAccum.CpathAccum.RegionInsideBbox | scripts/install/ghostscript-10.01.2/base/gxacpath.c:455-463 | every accumulated rectangle is non-empty and inside the bounding box |
| ClipAccum.CpathAccum.AllocRect | scripts/install/ghostscript-10.01.2/base/gxacpath.c:343-389 | the count is bumped; success iff the memory covers the allocations; at the second rectangle the list becomes head, single, tail with the insertion point at the tail |
| ClipAccum.CpathAccum.FreeRect | scripts/install/ghostscript-10.01.2/base/gxacpath.c:405-409 | the count drops and the memory comes back unless the count reached zero |
| ClipAccum.CpathAccum.Locate | scripts/install/ghostscript-10.01.2/base/gxacpath.c:509-527 | the search from the previous insertion point finds the rectangle nearest the tail that starts below ye |
| ClipAccum.CpathAccum.SplitTop | scripts/install/ghostscript-10.01.2/base/gxacpath.c:550-563 | on success the list is the old one with the whole band of list[p] cut at ye, one allocation per band member |
| ClipAccum.CpathAccum.SplitOffAbove | scripts/install/ghostscript-10.01.2/base/gxacpath.c:553-562 | one turn of the top split extends the cut run one rectangle downwards |
| ClipAccum.CpathAccum.SplitBottom | scripts/install/ghostscript-10.01.2/base/gxacpath.c:566-584 | on success the list is the old one with the whole band of list[p] cut at y, and the upper half of list[p] is at the returned index |
| ClipAccum.CpathAccum.SplitRun | scripts/install/ghostscript-10.01.2/base/gxacpath.c:571-582 | the bottom-split loop cuts every rectangle from the band's first to list[p] |
| ClipAccum.CpathAccum.SplitOffBelow | scripts/install/ghostscript-10.01.2/base/gxacpath.c:572-581 | one turn of the bottom split extends the cut run one rectangle upwards |
| ClipAccum.CpathAccum.BandStart | scripts/install/ghostscript-10.01.2/base/gxacpath.c:567-570 | the walk back stops at the first rectangle of list[p]'s band |
| ClipAccum.CpathAccum.CutBand | scripts/install/ghostscript-10.01.2/base/gxacpath.c:546-584 | after both cuts the list is banded with the same pixels and a band from max(y, ymin) to ye ends at the returned index |
| ClipAccum.CpathAccum.CutTop | scripts/install/ghostscript-10.01.2/base/gxacpath.c:550-563 | after the top cut list[p] ends at ye, the next band starts there, pixels unchanged |
| ClipAccum.CpathAccum.CutBottom | scripts/install/ghostscript-10.01.2/base/gxacpath.c:564-584 | after the bottom cut the upper half of list[p] sits at the returned index, pixels unchanged |
| ClipAccum.CpathAccum.MergeBand | scripts/install/ghostscript-10.01.2/base/gxacpath.c:585-611 | the x search leaves a banded list that gains exactly the new rectangle's pixels in that band |
| ClipAccum.CpathAccum.MergeStep | scripts/install/ghostscript-10.01.2/base/gxacpath.c:588-609 | one turn of the x search: skip, stop, or merge, keeping the search state |
| ClipAccum.CpathAccum.Absorb | scripts/install/ghostscript-10.01.2/base/gxacpath.c:593-608 | a merge either ends the search with the pixels added or unlinks the rectangle into the new one and goes on |
| ClipAccum.CpathAccum.LinkAfter | scripts/install/ghostscript-10.01.2/base/gxacpath.c:610-611 | linking the new rectangle after the stopping point gives a banded list with the new pixels added |
| ClipAccum.CpathAccum.AddLast | scripts/install/ghostscript-10.01.2/base/gxacpath.c:394-401 | `r` is linked in just before the tail with the rest of the list unchanged, an insertion point at the tail moves with the tail, and the list stays banded and gains exactly its pixels |
| ClipAccum.CpathAccum.Demote | scripts/install/ghostscript-10.01.2/base/gxacpath.c:613-630 | the list is dropped, the rectangle after the head (if any) becomes the single one, and the freed memory returns |
| ClipAccum.CpathAccum.Settle | scripts/install/ghostscript-10.01.2/base/gxacpath.c:612-630 | giving up the list when at most one rectangle is left keeps the pixels and the storage shape |
| ClipAccum.CpathAccum.LinkBetween | scripts/install/ghostscript-10.01.2/base/gxacpath.c:530-535 | a rectangle between two bands is linked between them, adding its pixels |
| ClipAccum.CpathAccum.AddAbove | scripts/install/ghostscript-10.01.2/base/gxacpath.c:536-545 | the part above the band is linked after it and only the part below the band top is left to place |
| ClipAccum.CpathAccum.FitBand | scripts/install/ghostscript-10.01.2/base/gxacpath.c:546-637 | cutting the band and merging leaves a valid shape whose pixels plus the part left below are the old pixels plus the new rectangle |
| ClipAccum.CpathAccum.InsertGeneral | scripts/install/ghostscript-10.01.2/base/gxacpath.c:512-637 | the general path keeps the shape and, with the part left below, adds exactly the new rectangle's pixels |
| ClipAccum.CpathAccum.AppendLast | scripts/install/ghostscript-10.01.2/base/gxacpath.c:492-505 | on success the count grows by one and the list is the old one (or head, the former single rectangle, tail) with `r` before the tail, adding exactly its pixels; a failure happens only with fewer than four allocations left |
| ClipAccum.CpathAccum.ExtendLast | scripts/install/ghostscript-10.01.2/base/gxacpath.c:485-491 | the last rectangle (single or before the tail), alone in its band, gets `r`'s top as its ymax and nothing else changes; exactly `r`'s pixels are added |
| ClipAccum.CpathAccum.WidenLast | scripts/install/ghostscript-10.01.2/base/gxacpath.c:496-501 | the last rectangle's xmax becomes max(xmax, r.xmax) and nothing else changes; exactly `r`'s pixels are added |
| ClipAccum.CpathAccum.MergeSingle | scripts/install/ghostscript-10.01.2/base/gxacpath.c:471-481 | the single rectangle's y range grows to cover one of the same x range that touches it in y, count stays 1, exactly its pixels are added |
| ClipAccum.CpathAccum.InsertNew | scripts/install/ghostscript-10.01.2/base/gxacpath.c:507-508 | allocation then the general path: shape kept, pixels added up to the part left below |
| ClipAccum.CpathAccum.InsertPass | scripts/install/ghostscript-10.01.2/base/gxacpath.c:465-637 | the first rectangle is stored as the single one (count 1), a y-mergeable one merges into it keeping count 1; otherwise the shape is kept and the new pixels are added except a bottom part handed back; a failure happens only with fewer than four allocations left |
| ClipAccum.CpathAccum.PlaceRect | scripts/install/ghostscript-10.01.2/base/gxacpath.c:481-508 | with at least one rectangle stored: the fast paths after the last rectangle or the general path keep the shape and add the new pixels except a bottom part handed back; a failure happens only with fewer than four allocations left |
| ClipAccum.CpathAccum.InsertAll | scripts/install/ghostscript-10.01.2/base/gxacpath.c:631-637 | repeating the pass on the part left below adds exactly the rectangle's pixels; a first or y-mergeable rectangle ends as the single one in one pass |
| ClipAccum.CpathAccum.Grow | scripts/install/ghostscript-10.01.2/base/gxacpath.c:455-463 | the bbox becomes GrowBox of the old one and the storage shape is kept |
| ClipAccum.CpathAccum.AddClipped | scripts/install/ghostscript-10.01.2/base/gxacpath.c:455-637 | on success the region gains exactly the clipped rectangle's pixels, stays valid, and the bbox stays its tight hull; a first or y-mergeable rectangle leaves count 1 with the stored or merged single rectangle |
| ClipAccum.CpathAccum.FillRectangle | scripts/install/ghostscript-10.01.2/base/gxacpath.c:422-639 | clipping to nothing returns 0 and changes nothing; otherwise on success the region gains exactly the clipped rectangle's pixels and the bbox grows to hold it, all invariants kept; the first rectangle is stored inline and a y-mergeable one keeps count 1; VMerror only with fewer than four allocations left |
| KnownEncodings.KnownEncode | scripts/install/ghostscript-10.01.2/base/gscencs.c:53-61 | a glyph comes back iff the encoding index and the character are in range |
| KnownEncodings.Decode | scripts/install/ghostscript-10.01.2/base/gscencs.c:66-86 | a returned character is listed in the reverse index with that glyph; on a sorted index no character means the glyph is not listed |
| KnownEncodings.DecodeEncode | scripts/install/ghostscript-10.01.2/base/gscencs.c:53-86 | a decoded character encodes back to the glyph it was decoded from |
| KnownEncodings.EncodeListed | scripts/install/ghostscript-10.01.2/base/gscencs.c:53-86 | every character of the reverse index encodes to a glyph the decoder can find |
| KnownEncodings.MemCmp | scripts/install/ghostscript-10.01.2/base/gscencs.c:144 | the comparison is 0 iff the strings are equal, negative iff the first is lexicographically smaller, positive iff greater |
| KnownEncodings.LexLessTrans | scripts/install/ghostscript-10.01.2/base/gscencs.c:139-151 | the order the name search relies on is irreflexive and transitive |
| KnownEncodings.Record | scripts/install/ghostscript-10.01.2/base/gscencs.c:133-143 | each probed name record has the searched length |
| KnownEncodings.RecordFits | scripts/install/ghostscript-10.01.2/base/gscencs.c:135-143 | every record below the count lies inside the span of names of its length |
| KnownEncodings.NameGlyph | scripts/install/ghostscript-10.01.2/base/gscencs.c:126-155 | empty or over-long names have no glyph; a found name is the record equal to the string; on sorted names, no glyph means no record equals it |
| KnownEncodings.SearchBelow | scripts/install/ghostscript-10.01.2/base/gscencs.c:147-148 | a probe below the name moves the low end past it and keeps the bracket |
| KnownEncodings.SearchAbove | scripts/install/ghostscript-10.01.2/base/gscencs.c:149-150 | a probe above the name moves the high end to it and keeps the bracket |
| KnownEncodings.NotListed | scripts/install/ghostscript-10.01.2/base/gscencs.c:139-154 | an empty bracket on sorted names means the name is absent |
| KnownEncodings.IsCGlyphName | scripts/install/ghostscript-10.01.2/base/gscencs.c:115-120 | true iff the address is the address of some character of the table |
| KnownEncodings.NameIsCGlyphName | scripts/install/ghostscript-10.01.2/base/gscencs.c:106-120 | the address of any name record is recognised as a table name |

## Left out

- Device and garbage-collector plumbing (`gxacpath.c` lines 43-89), `intersect_path_slow`, and the calls `gx_cpath_accum_end` makes into the clip-path module (`gx_cpath_init_local`, `gx_cpath_set_outer_box`, `gx_cpath_assign_free`, `gs_next_ids`): these are other modules; `End` returns the rectangles and boxes it would hand over.
- The debug printing in `accum_close`, `clip_rect_print`, and `accum_dev_spec_op`: output and device queries only.
- The `prev`/`next` pointers: the list is a sequence in link order, so a corrupt link cannot be expressed; the pointer test of `clip_list_validate` (`ptr->prev != prev`, `prev == clp->tail`) is implied by the representation.
- Memory is an allocation budget `avail`; `gs_alloc_struct` fails exactly when the budget is short.
- ClipAccum.CpathAccum.FillRectangle: a VMerror is tied only to low memory (fewer than the four allocations a switch to a list needs), not to the exact allocation that failed; after it only that bound is stated. The source leaves the count one higher than the number of listed rectangles (the failed allocation's bump stays), so the model claims nothing about the state after an error.
- ClipAccum.CpathAccum.AllocRect: the four allocations at the switch to a list succeed or fail together, which is what the source's check of all of them does.
- AccumBoxes.Incoming: `xi + w` and `yi + h` are unbounded integers; 32-bit overflow of these sums is not modelled.
- KnownEncodings.Decode: a not-found result is only proved final on a reverse index sorted by glyph, which the generated tables are meant to be.
- KnownEncodings.NameGlyph: returns the name's length and record index instead of the glyph number; the packing `N(len, offset)` and `gs_c_glyph_name` come from generated headers that are not part of this model. A not-found result is only proved final on sorted names.
- KnownEncodings.MemCmp: `memcmp` is modelled as returning -1, 0 or 1; callers only use the sign.
- KnownEncodings.IsCGlyphName: pointers are integer addresses; the length argument is unused, as in the source.
- The generated tables (`gscedata.c`/`gscedata.h`) are the `Tables` parameter; `GS_MIN_CID_GLYPH` is the field `minCidGlyph`, and `GS_NO_GLYPH`/`GS_NO_CHAR` are the constructors `NoGlyph`/`NoChar`.
