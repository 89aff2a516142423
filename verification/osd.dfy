/**
 * The hardware path of the draw filter: the boxes of a batch are snapped to the
 * 16-pixel grid, their bounding box becomes one OSD region, and a one-byte-per-pixel
 * palette bitmap of that region gets the outline of every box. The bitmap rectangles
 * are half-open: rows `top <= j < bottom`, columns `left <= k < right`.
 */
module Osd {
  import opened Wrappers
  import opened Raster
  import opened Geometry
  import opened ResultQueue

  /** The OSD region descriptor handed to the encoder's OSD-change control. */
  datatype OsdRegion = OsdRegion(
    regionId: int,
    enable: bool,
    posX: int,
    posY: int,
    width: int,
    height: int,
    buffer: seq<byte>)

  /** The region slot the filter always uses. */
  const RegionId := 7

  /** Palette index of a transparent pixel: the value the bitmap is filled with. */
  const BackgroundIndex: byte := 0xFF

  /** Palette index of an outline pixel. */
  const OutlineIndex: byte := 0x23

  // ---------------------------------------------------------------------------
  // hw_draw_rect
  // ---------------------------------------------------------------------------

  /**
   * The band test of the bitmap renderer. With the half-open bounds the left band is
   * `thick` columns wide but the right band only `thick - 1` (and likewise top/bottom).
   */
  predicate HwOutline(r: Rect, thick: int, j: int, k: int) {
    k < r.left + thick || k > r.right - thick || j < r.top + thick || j > r.bottom - thick
  }

  predicate HwBand(r: Rect, thick: int, j: int, k: int) {
    r.top <= j < r.bottom && r.left <= k < r.right && HwOutline(r, thick, j, k)
  }

  /** The first `w * h` bytes are the bitmap of a `w` x `h` region (when that region has any pixel). */
  predicate PlaneFits(n: int, w: int, h: int) {
    0 < w && 0 < h ==> w * h <= n
  }

  /**
   * Every bitmap pixel is `index` on the band of `r` and unchanged elsewhere. The offset
   * bound in the range holds for every pixel when the plane fits (`Raster.PlaneIndexBounds`).
   */
  ghost predicate BitmapDrawn(out: seq<byte>, data: seq<byte>, w: int, h: int, r: Rect, thick: int, index: byte)
    requires |out| == |data| && PlaneFits(|data|, w, h)
  {
    forall j, k | 0 <= j < h && 0 <= k < w && PlaneIndex(w, j, k) < |out| ::
      out[PlaneIndex(w, j, k)] == if HwBand(r, thick, j, k) then index else data[PlaneIndex(w, j, k)]
  }

  /** Bytes that are not pixels of the region never change. */
  ghost predicate OutsideKept(out: seq<byte>, data: seq<byte>, w: int, h: int)
    requires |out| == |data|
  {
    forall i | 0 <= i < |out| && (w <= 0 || h <= 0 || w * h <= i) :: out[i] == data[i]
  }

  /**
   * Draws the outline of `r` into a bitmap `w` bytes wide (the bitmap's height `h` is
   * only used to state the contract). A rectangle within the region keeps every write
   * below `w * h`; only band pixels change.
   */
  method HwDrawRect(data: seq<byte>, w: int, ghost h: int, r: Rect, thick: int, index: byte) returns (out: seq<byte>)
    requires 0 <= r.left && 0 <= r.top && r.right <= w && r.bottom <= h
    requires PlaneFits(|data|, w, h)
    ensures |out| == |data|
    ensures BitmapDrawn(out, data, w, h, r, thick, index)
    ensures OutsideKept(out, data, w, h)
  {
    out := data;
    var j := r.top;
    while j < r.bottom
      invariant r.top <= j && (j <= r.bottom || j == r.top)
      invariant |out| == |data|
      invariant BitmapProgress(out, data, w, h, r, thick, j, r.left, index)
      invariant OutsideKept(out, data, w, h)
    {
      var k := r.left;
      while k < r.right
        invariant r.left <= k && (k <= r.right || k == r.left)
        invariant |out| == |data|
        invariant BitmapProgress(out, data, w, h, r, thick, j, k, index)
        invariant OutsideKept(out, data, w, h)
      {
        if HwOutline(r, thick, j, k) {
          var offset := j * w + k;
          PlaneIndexBounds(w, h, j, k);
          ghost var prev := out;
          out := out[offset := index];
          BitmapPaintStep(prev, out, data, w, h, r, thick, j, k, index);
        } else {
          assert forall j', k' :: HwPainted(r, thick, j, k + 1, j', k') == HwPainted(r, thick, j, k, j', k');
        }
        k := k + 1;
      }
      assert forall j', k' :: HwPainted(r, thick, j + 1, r.left, j', k') == HwPainted(r, thick, j, k, j', k');
      j := j + 1;
    }
    assert forall j', k' :: HwPainted(r, thick, j, r.left, j', k') == HwBand(r, thick, j', k');
  }

  /** Bitmap pixels painted once the scan has reached row `j0`, column `k0`. */
  predicate HwPainted(r: Rect, thick: int, j0: int, k0: int, j: int, k: int) {
    HwBand(r, thick, j, k) && (j < j0 || (j == j0 && k < k0))
  }

  ghost predicate BitmapProgress(out: seq<byte>, data: seq<byte>, w: int, h: int, r: Rect, thick: int, j0: int, k0: int, index: byte)
    requires |out| == |data| && PlaneFits(|data|, w, h)
  {
    forall j, k | 0 <= j < h && 0 <= k < w ::
      PlaneIndexBounds(w, h, j, k);
      out[PlaneIndex(w, j, k)] == if HwPainted(r, thick, j0, k0, j, k) then index else data[PlaneIndex(w, j, k)]
  }

  lemma BitmapPaintStep(prev: seq<byte>, out: seq<byte>, data: seq<byte>, w: int, h: int, r: Rect, thick: int,
                        j: int, k: int, index: byte)
    requires 0 <= r.left && 0 <= r.top && r.right <= w && r.bottom <= h
    requires |prev| == |data| && PlaneFits(|data|, w, h)
    requires r.top <= j < r.bottom && r.left <= k < r.right && HwOutline(r, thick, j, k)
    requires BitmapProgress(prev, data, w, h, r, thick, j, k, index)
    requires OutsideKept(prev, data, w, h)
    requires (PlaneIndexBounds(w, h, j, k); out == prev[PlaneIndex(w, j, k) := index])
    ensures BitmapProgress(out, data, w, h, r, thick, j, k + 1, index)
    ensures OutsideKept(out, data, w, h)
  {
    PlaneIndexBounds(w, h, j, k);
    forall j', k' | 0 <= j' < h && 0 <= k' < w
      ensures (PlaneIndexBounds(w, h, j', k');
        out[PlaneIndex(w, j', k')] == if HwPainted(r, thick, j, k + 1, j', k') then index else data[PlaneIndex(w, j', k')])
    {
      PlaneIndexBounds(w, h, j', k');
      if (j', k') != (j, k) && PlaneIndex(w, j', k') == PlaneIndex(w, j, k) {
        PlaneIndexInjective(w, j', k', j, k);
      }
    }
  }

  /** The two band conventions differ: on a row away from top and bottom, the bitmap's right band is one column narrower than its left band. */
  lemma HwBandAsymmetry(r: Rect, thick: int, j: int)
    requires thick >= 1 && r.left + 2 * thick <= r.right
    requires r.top + thick <= j <= r.bottom - thick && j < r.bottom
    ensures HwBand(r, thick, j, r.left + thick - 1) && !HwBand(r, thick, j, r.left + thick)
    ensures HwBand(r, thick, j, r.right - thick + 1) == (thick >= 2) && !HwBand(r, thick, j, r.right - thick)
    ensures !HwBand(r, thick, j, r.right)
  {
  }

  // ---------------------------------------------------------------------------
  // Region layout (DoHwDraw)
  // ---------------------------------------------------------------------------

  /** The region's placement and the batch's boxes re-expressed inside it. */
  datatype Layout = Layout(box: Rect, rects: seq<Rect>) {
    function Width(): int { box.right - box.left }
    function Height(): int { box.bottom - box.top }
  }

  /** Every box of `boxes`, 16-aligned inward: each result is on the grid and inside its box. */
  function AlignAll(boxes: seq<Rect>): (a: seq<Rect>)
    ensures |a| == |boxes| && forall i :: 0 <= i < |boxes| ==> a[i] == AlignRect(boxes[i])
    ensures forall i :: 0 <= i < |a| ==> Aligned16(a[i])
    ensures forall i :: 0 <= i < |a| ==>
      && boxes[i].left <= a[i].left && boxes[i].top <= a[i].top
      && a[i].right <= boxes[i].right && a[i].bottom <= boxes[i].bottom
  {
    seq(|boxes|, i requires 0 <= i < |boxes| => AlignRect(boxes[i]))
  }

  /**
   * `l` is a region that `n` boxes fit: one translated box per input box, a width and
   * height that are multiples of 16, and every translated box starting at or after the
   * region's origin and ending within its width and height.
   */
  ghost predicate FitsRegion(l: Layout, n: int) {
    && |l.rects| == n
    && Multiple16(l.Width()) && Multiple16(l.Height())
    && (forall i :: 0 <= i < n ==>
          && 0 <= l.rects[i].left && 0 <= l.rects[i].top
          && l.rects[i].right <= l.Width() && l.rects[i].bottom <= l.Height())
  }

  /**
   * `l` is placed over `boxes`: its box is the bounding box of the aligned boxes (zero
   * for no boxes), and shifting a translated box back by the origin gives the aligned box.
   */
  ghost predicate PlacedOver(l: Layout, boxes: seq<Rect>)
    requires |l.rects| == |boxes|
  {
    && (|boxes| == 0 ==> l.box == ZeroRect)
    && (|boxes| > 0 ==> Encloses(l.box, AlignAll(boxes)) && EdgesAttained(l.box, AlignAll(boxes)))
    && (forall i :: 0 <= i < |boxes| ==>
          Rect(l.rects[i].left + l.box.left, l.rects[i].top + l.box.top,
               l.rects[i].right + l.box.left, l.rects[i].bottom + l.box.top) == AlignRect(boxes[i]))
  }

  /** Aligns the boxes, takes their bounding box and translates each aligned box into it. */
  function HwLayout(boxes: seq<Rect>): (l: Layout)
    ensures FitsRegion(l, |boxes|)
  {
    var aligned := AlignAll(boxes);
    var box := CombineRect(aligned);
    var rects := TranslateAll(aligned, box);
    LayoutFacts(boxes, aligned, box, rects);
    Layout(box, rects)
  }

  /** The region of a batch sits over its aligned boxes. */
  lemma HwLayoutPlacement(boxes: seq<Rect>)
    ensures PlacedOver(HwLayout(boxes), boxes)
  {
    var aligned := AlignAll(boxes);
    var box := CombineRect(aligned);
    var rects := TranslateAll(aligned, box);
    LayoutFacts(boxes, aligned, box, rects);
  }

  /** A region placed at a 16-aligned box is a whole number of 16 x 16 tiles. */
  lemma LayoutTiles(box: Rect, rects: seq<Rect>)
    requires Aligned16(box)
    ensures Multiple16(Layout(box, rects).Width()) && Multiple16(Layout(box, rects).Height())
  {
    AlignedTiles(box);
  }

  lemma LayoutFacts(boxes: seq<Rect>, aligned: seq<Rect>, box: Rect, rects: seq<Rect>)
    requires aligned == AlignAll(boxes) && box == CombineRect(aligned) && rects == TranslateAll(aligned, box)
    ensures FitsRegion(Layout(box, rects), |boxes|)
    ensures PlacedOver(Layout(box, rects), boxes)
  {
    var l := Layout(box, rects);
    CombineAligned(aligned, box);
    LayoutTiles(box, rects);
    TranslatedWithin(box, aligned);
    forall i | 0 <= i < |boxes|
      ensures 0 <= l.rects[i].left && 0 <= l.rects[i].top
      ensures l.rects[i].right <= l.Width() && l.rects[i].bottom <= l.Height()
    {
      assert l.rects[i] == Translate(aligned[i], box);
    }
    forall i | 0 <= i < |boxes|
      ensures Rect(l.rects[i].left + l.box.left, l.rects[i].top + l.box.top,
                   l.rects[i].right + l.box.left, l.rects[i].bottom + l.box.top) == AlignRect(boxes[i])
    {
      assert l.rects[i] == Translate(aligned[i], box) && aligned[i] == AlignRect(boxes[i]);
    }
  }

  /**
   * An unaligned box is snapped inward to a single 16 x 16 tile, so the region built from
   * it passes the size check.
   */
  lemma UnalignedBoxSnapped()
    ensures var l := HwLayout([Rect(10, 10, 40, 40)]);
      l.box == Rect(16, 16, 32, 32) && l.rects == [Rect(0, 0, 16, 16)]
  {
    var l := HwLayout([Rect(10, 10, 40, 40)]);
    assert AlignAll([Rect(10, 10, 40, 40)]) == [Rect(16, 16, 32, 32)];
  }

  /**
   * A box inside one 16-pixel tile is snapped past itself: its aligned box is inverted
   * in both axes, so the region is -16 x -16. Both sizes are multiples of 16, so the
   * size check lets it through, and the bitmap holds 256 transparent bytes.
   */
  lemma InvertedBoxRegion()
    ensures var l := HwLayout([Rect(20, 20, 30, 30)]);
      l.box == Rect(32, 32, 16, 16) && l.Width() == -16 && l.Height() == -16
  {
    var l := HwLayout([Rect(20, 20, 30, 30)]);
    assert AlignAll([Rect(20, 20, 30, 30)]) == [Rect(32, 32, 16, 16)];
  }

  // ---------------------------------------------------------------------------
  // DoHwDrawRect
  // ---------------------------------------------------------------------------

  /** The validation of DoHwDrawRect: an enabled region must be a whole number of 16 x 16 tiles. */
  predicate Misaligned(region: OsdRegion) {
    region.enable && !(Multiple16(region.width) && Multiple16(region.height))
  }

  /**
   * What the encoder's OSD-change control receives, or `None` when the region is
   * rejected. An enabling call sends the header with the `width * height` bitmap bytes;
   * a disabling call sends the header alone, marked disabled. The size check looks at
   * the region's own enable flag, before a disabling call clears it.
   */
  function DoHwDrawRect(region: OsdRegion, enable: bool): (sent: Option<OsdRegion>)
    requires enable && !Misaligned(region) ==> 0 <= region.width * region.height <= |region.buffer|
    ensures sent.None? <==> Misaligned(region)
    ensures sent.Some? ==> sent.value.regionId == region.regionId && sent.value.enable == (enable && region.enable)
    ensures sent.Some? ==> sent.value.posX == region.posX && sent.value.posY == region.posY
    ensures sent.Some? ==> sent.value.width == region.width && sent.value.height == region.height
    ensures sent.Some? && enable ==> sent.value.buffer == region.buffer[..region.width * region.height]
    ensures sent.Some? && !enable ==> sent.value.buffer == []
  {
    if Misaligned(region) then None
    else if enable then Some(region.(buffer := region.buffer[..region.width * region.height]))
    else Some(region.(enable := false, buffer := []))
  }

  // ---------------------------------------------------------------------------
  // DoHwDraw
  // ---------------------------------------------------------------------------

  /** Band of any of `rects`. */
  predicate HwCovered(rects: seq<Rect>, thick: int, j: int, k: int)
    decreases |rects|
  {
    |rects| > 0 && (HwCovered(rects[..|rects| - 1], thick, j, k) || HwBand(rects[|rects| - 1], thick, j, k))
  }

  /**
   * The region bitmap: outline index on the band of any box, transparent everywhere
   * else; no byte holds any other index. A region with a non-positive width or height
   * has no pixels, and its bitmap (which still has `width * height` bytes when both
   * are negative) stays wholly transparent.
   */
  ghost predicate OverlayBitmap(buf: seq<byte>, w: int, h: int, rects: seq<Rect>, thick: int)
    requires PlaneFits(|buf|, w, h)
  {
    && (forall j, k | 0 <= j < h && 0 <= k < w && PlaneIndex(w, j, k) < |buf| ::
          buf[PlaneIndex(w, j, k)] == if HwCovered(rects, thick, j, k) then OutlineIndex else BackgroundIndex)
    && (forall i | 0 <= i < |buf| :: buf[i] == BackgroundIndex || buf[i] == OutlineIndex)
    && (w <= 0 || h <= 0 ==> forall i | 0 <= i < |buf| :: buf[i] == BackgroundIndex)
  }

  /**
   * What DoHwDraw sends for `batch`: nothing when the bitmap cannot be allocated
   * (`allocOk` is the allocator's answer; a negative size never allocates), and
   * otherwise — the 16-multiple check never fails — region 7, enabled, placed at the
   * bounding box of the aligned boxes, carrying the outline bitmap.
   */
  ghost predicate HwDrawSends(sent: Option<OsdRegion>, batch: Batch, thick: int, allocOk: bool) {
    var l := HwLayout(Boxes(batch));
    && (sent.Some? <==> allocOk && l.Width() * l.Height() >= 0)
    && (sent.Some? ==>
          var d := sent.value;
          && d.regionId == RegionId && d.enable
          && d.posX == l.box.left && d.posY == l.box.top
          && d.width == l.Width() && d.height == l.Height()
          && |d.buffer| == d.width * d.height
          && OverlayBitmap(d.buffer, d.width, d.height, l.rects, thick))
  }

  method DoHwDraw(batch: Batch, thick: int, allocOk: bool) returns (sent: Option<OsdRegion>)
    ensures HwDrawSends(sent, batch, thick, allocOk)
  {
    var l := HwLayout(Boxes(batch));
    var width, height := l.Width(), l.Height();
    var bufferSize := width * height;
    if !allocOk || bufferSize < 0 {
      return None;
    }
    var buffer: seq<byte> := seq(bufferSize, _ => BackgroundIndex);
    BlankBitmap(buffer, width, height, l.rects, thick);
    var i := 0;
    while i < |l.rects|
      invariant 0 <= i <= |l.rects|
      invariant |buffer| == bufferSize
      invariant OverlayBitmap(buffer, width, height, l.rects[..i], thick)
    {
      ghost var prev := buffer;
      buffer := HwDrawRect(buffer, width, height, l.rects[i], thick, OutlineIndex);
      OverlayStep(prev, buffer, width, height, l.rects, i, thick);
      i := i + 1;
    }
    assert l.rects[..i] == l.rects;
    var region := OsdRegion(RegionId, true, l.box.left, l.box.top, width, height, buffer);
    assert buffer[..bufferSize] == buffer;
    sent := DoHwDrawRect(region, true);
  }

  lemma BlankBitmap(buf: seq<byte>, w: int, h: int, rects: seq<Rect>, thick: int)
    requires PlaneFits(|buf|, w, h)
    requires forall i | 0 <= i < |buf| :: buf[i] == BackgroundIndex
    ensures OverlayBitmap(buf, w, h, rects[..0], thick)
  {
    var none := rects[..0];
    assert |none| == 0;
    assert forall j, k :: !HwCovered(none, thick, j, k);
  }

  lemma OverlayStep(prev: seq<byte>, next: seq<byte>, w: int, h: int, rects: seq<Rect>, i: int, thick: int)
    requires 0 <= i < |rects| && |prev| == |next| && PlaneFits(|prev|, w, h)
    requires OverlayBitmap(prev, w, h, rects[..i], thick)
    requires BitmapDrawn(next, prev, w, h, rects[i], thick, OutlineIndex)
    requires OutsideKept(next, prev, w, h)
    ensures OverlayBitmap(next, w, h, rects[..i + 1], thick)
  {
    assert rects[..i + 1][..i] == rects[..i];
    forall j, k | 0 <= j < h && 0 <= k < w
      ensures HwCovered(rects[..i + 1], thick, j, k) == (HwCovered(rects[..i], thick, j, k) || HwBand(rects[i], thick, j, k))
    {
    }
    forall n | 0 <= n < |next|
      ensures next[n] == BackgroundIndex || next[n] == OutlineIndex
    {
      if 0 < w && 0 < h && n < w * h {
        var j, k := n / w, n % w;
        assert n == PlaneIndex(w, j, k);
        if j >= h {
          MulLeft(h, j, w);
        }
        assert 0 <= j < h && 0 <= k < w;
      }
    }
  }
}
