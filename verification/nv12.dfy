/**
 * The software renderer of the draw filter: a hollow rectangle burnt into an NV12
 * frame. The luma plane holds `w * h` bytes, one per pixel; the chroma plane that
 * follows it holds one interleaved (U, V) byte pair per 2 x 2 block of pixels, with
 * rows `w` bytes apart. The rectangle is inclusive on all four edges.
 */
module Nv12 {
  import opened Raster
  import opened Geometry

  // ---------------------------------------------------------------------------
  // Colour and layout
  // ---------------------------------------------------------------------------

  /** Bits 16..23 of a packed YUV colour. */
  function LumaOf(color: int): byte { (color / 0x1_0000 % 0x100) as byte }

  /** Bits 8..15 of a packed YUV colour. */
  function CbOf(color: int): byte { (color / 0x100 % 0x100) as byte }

  /** Bits 0..7 of a packed YUV colour. */
  function CrOf(color: int): byte { (color % 0x100) as byte }

  /**
   * The number of bytes the renderer can reach in a `w` x `h` frame: the luma plane,
   * (h + 1) / 2 chroma rows of `w` bytes, and, for an odd width, one byte more, because
   * the V byte of the last column then spills into the next chroma row.
   */
  function FrameLen(w: nat, h: nat): nat {
    w * h + (h + 1) / 2 * w + w % 2
  }

  /** Offset of the U byte of chroma pair `c` in chroma row `row`. */
  function UIndex(w: int, h: int, row: int, c: int): int {
    w * h + PlaneIndex(w, row, 2 * c)
  }

  /** Offset of the V byte of chroma pair `c` in chroma row `row`. */
  function VIndex(w: int, h: int, row: int, c: int): int {
    w * h + PlaneIndex(w, row, 2 * c + 1)
  }

  // ---------------------------------------------------------------------------
  // Which pixels are drawn
  // ---------------------------------------------------------------------------

  /** The band test of the renderer: within `thick` of an edge, edges included. */
  predicate Outline(r: Rect, thick: int, j: int, k: int) {
    k <= r.left + thick || k >= r.right - thick || j <= r.top + thick || j >= r.bottom - thick
  }

  /** Pixel (row j, column k) is painted: inside the inclusive rectangle and on its outline band. */
  predicate InBand(r: Rect, thick: int, j: int, k: int) {
    r.top <= j <= r.bottom && r.left <= k <= r.right && Outline(r, thick, j, k)
  }

  /** Some pixel of the 2 x 2 block that shares chroma pair (row, c) is painted. */
  predicate PairInBand(r: Rect, thick: int, row: int, c: int) {
    InBand(r, thick, 2 * row, 2 * c) || InBand(r, thick, 2 * row, 2 * c + 1)
    || InBand(r, thick, 2 * row + 1, 2 * c) || InBand(r, thick, 2 * row + 1, 2 * c + 1)
  }

  // ---------------------------------------------------------------------------
  // What a drawn frame looks like
  // ---------------------------------------------------------------------------

  /**
   * Every luma byte is `y` on the band and unchanged elsewhere. The offset bound in the
   * range holds for every pixel of a frame of at least `FrameLen(w, h)` bytes
   * (`PixelInFrame`); it is part of the range so that the predicate reads the bytes
   * without an arithmetic lemma.
   */
  ghost predicate LumaDrawn(out: seq<byte>, data: seq<byte>, w: nat, h: nat, r: Rect, thick: int, y: byte)
    requires |out| == |data| >= FrameLen(w, h)
  {
    forall j, k | 0 <= j < h && 0 <= k < w && PlaneIndex(w, j, k) < |out| ::
      out[PlaneIndex(w, j, k)] == if InBand(r, thick, j, k) then y else data[PlaneIndex(w, j, k)]
  }

  /**
   * For an even width: every chroma pair is (u, v) when one of its four pixels is on
   * the band and unchanged otherwise. As in `LumaDrawn`, the offset bounds in the range
   * hold for every pair (`ChromaBounds`).
   */
  ghost predicate ChromaDrawn(out: seq<byte>, data: seq<byte>, w: nat, h: nat, r: Rect, thick: int, u: byte, v: byte)
    requires |out| == |data| >= FrameLen(w, h) && w % 2 == 0
  {
    forall row, c | 0 <= row < (h + 1) / 2 && 0 <= c < w / 2 && 0 <= UIndex(w, h, row, c) && VIndex(w, h, row, c) < |out| ::
      && out[UIndex(w, h, row, c)] == (if PairInBand(r, thick, row, c) then u else data[UIndex(w, h, row, c)])
      && out[VIndex(w, h, row, c)] == (if PairInBand(r, thick, row, c) then v else data[VIndex(w, h, row, c)])
  }

  /** Every chroma-plane byte is unchanged or holds one of the two chroma values. */
  ghost predicate ChromaOnly(out: seq<byte>, data: seq<byte>, w: nat, h: nat, u: byte, v: byte)
    requires |out| == |data|
  {
    forall i | w * h <= i < |out| :: out[i] == data[i] || out[i] == u || out[i] == v
  }

  /** Nothing past the reachable frame changes. */
  ghost predicate TailKept(out: seq<byte>, data: seq<byte>, w: nat, h: nat)
    requires |out| == |data|
  {
    forall i | FrameLen(w, h) <= i < |out| :: out[i] == data[i]
  }

  // ---------------------------------------------------------------------------
  // The renderer
  // ---------------------------------------------------------------------------

  /**
   * Draws the outline of `r` with the packed colour `color`. Given a clamped rectangle
   * and a positive thickness every write is inside the frame; only band pixels and their
   * chroma pairs change; an empty rectangle changes nothing.
   */
  method DrawNv12Rect(data: seq<byte>, w: nat, h: nat, r: Rect, thick: int, color: int) returns (out: seq<byte>)
    requires thick >= 1 && Clamped(r, w, h, thick)
    requires |data| >= FrameLen(w, h)
    ensures |out| == |data|
    ensures LumaDrawn(out, data, w, h, r, thick, LumaOf(color))
    ensures w % 2 == 0 ==> ChromaDrawn(out, data, w, h, r, thick, CbOf(color), CrOf(color))
    ensures ChromaOnly(out, data, w, h, CbOf(color), CrOf(color))
    ensures TailKept(out, data, w, h)
    ensures r.left > r.right || r.top > r.bottom ==> out == data
  {
    FrameFits(w, h);
    var y, u, v := LumaOf(color), CbOf(color), CrOf(color);
    out := data;
    var j := r.top;
    while j <= r.bottom
      invariant r.top <= j && (j <= r.bottom + 1 || j == r.top)
      invariant |out| == |data|
      invariant LumaProgress(out, data, w, h, r, thick, j, r.left, y)
      invariant w % 2 == 0 ==> ChromaProgress(out, data, w, h, r, thick, j, r.left, u, v)
      invariant ChromaOnly(out, data, w, h, u, v)
      invariant TailKept(out, data, w, h)
      invariant r.left > r.right || r.top > r.bottom ==> out == data
    {
      var k := r.left;
      while k <= r.right
        invariant r.left <= k && (k <= r.right + 1 || k == r.left)
        invariant |out| == |data|
        invariant LumaProgress(out, data, w, h, r, thick, j, k, y)
        invariant w % 2 == 0 ==> ChromaProgress(out, data, w, h, r, thick, j, k, u, v)
        invariant ChromaOnly(out, data, w, h, u, v)
        invariant TailKept(out, data, w, h)
        invariant r.left > r.right ==> out == data
      {
        if Outline(r, thick, j, k) {
          out := PaintPixel(out, data, w, h, r, thick, j, k, y, u, v);
        } else {
          SkipStep(out, data, w, h, r, thick, j, k, y, u, v);
        }
        k := k + 1;
      }
      RowStep(out, data, w, h, r, thick, j, k, y, u, v);
      j := j + 1;
    }
    DoneStep(out, data, w, h, r, thick, j, y, u, v);
  }

  /**
   * The body of the renderer's inner loop for a band pixel: writes Y at the pixel and
   * U, V at its chroma pair, which extends the painted region by that pixel.
   */
  method PaintPixel(out: seq<byte>, data: seq<byte>, w: nat, h: nat, r: Rect, thick: int,
                    j: int, k: int, y: byte, u: byte, v: byte) returns (out': seq<byte>)
    requires thick >= 1 && Clamped(r, w, h, thick) && |data| >= FrameLen(w, h) && |out| == |data|
    requires r.top <= j <= r.bottom && r.left <= k <= r.right && Outline(r, thick, j, k)
    requires LumaProgress(out, data, w, h, r, thick, j, k, y)
    requires w % 2 == 0 ==> ChromaProgress(out, data, w, h, r, thick, j, k, u, v)
    requires ChromaOnly(out, data, w, h, u, v) && TailKept(out, data, w, h)
    ensures |out'| == |data|
    ensures LumaProgress(out', data, w, h, r, thick, j, k + 1, y)
    ensures w % 2 == 0 ==> ChromaProgress(out', data, w, h, r, thick, j, k + 1, u, v)
    ensures ChromaOnly(out', data, w, h, u, v) && TailKept(out', data, w, h)
  {
    var uvOffset := w * h;
    var yOffset := j * w + k;
    var uOffset := j / 2 * w + k - k % 2 + uvOffset;
    var vOffset := uOffset + 1;
    WriteBounds(w, h, r, thick, j, k);
    assert yOffset == PlaneIndex(w, j, k);
    assert uOffset == UIndex(w, h, j / 2, k / 2) && vOffset == VIndex(w, h, j / 2, k / 2);
    out' := out[yOffset := y][uOffset := u][vOffset := v];
    LumaPaintStep(out, out', data, w, h, r, thick, j, k, y, u, v);
    if w % 2 == 0 {
      ChromaPaintStep(out, out', data, w, h, r, thick, j, k, y, u, v);
    }
  }

  // ---------------------------------------------------------------------------
  // Proof of the renderer
  // ---------------------------------------------------------------------------

  lemma FrameFits(w: nat, h: nat)
    ensures w * h <= FrameLen(w, h)
  {
    MulLeft(0, (h + 1) / 2, w);
  }

  /** Every pixel of the frame has its luma byte within the reachable frame. */
  lemma PixelInFrame(w: nat, h: nat, j: int, k: int)
    requires 0 <= j < h && 0 <= k < w
    ensures 0 <= PlaneIndex(w, j, k) < FrameLen(w, h)
  {
    PlaneIndexBounds(w, h, j, k);
    FrameFits(w, h);
  }

  /** Every chroma pair of an even-width frame lies in the chroma plane of the reachable frame. */
  lemma ChromaBounds(w: nat, h: nat, row: int, c: int)
    requires w % 2 == 0 && 0 <= row < (h + 1) / 2 && 0 <= c < w / 2
    ensures w * h <= UIndex(w, h, row, c) && VIndex(w, h, row, c) < FrameLen(w, h)
    ensures VIndex(w, h, row, c) == UIndex(w, h, row, c) + 1
  {
    PlaneIndexBounds(w, (h + 1) / 2, row, 2 * c + 1);
  }

  /** The three offsets written for a band pixel of a clamped rectangle. */
  lemma WriteBounds(w: nat, h: nat, r: Rect, thick: int, j: int, k: int)
    requires thick >= 1 && Clamped(r, w, h, thick)
    requires r.top <= j <= r.bottom && r.left <= k <= r.right
    ensures 0 <= j < h && 0 <= k < w
    ensures 0 <= PlaneIndex(w, j, k) < w * h
    ensures 0 <= j / 2 < (h + 1) / 2 && 2 * (k / 2) + 1 <= w - 1 + w % 2
    ensures w % 2 == 0 ==> k / 2 < w / 2
    ensures w * h <= UIndex(w, h, j / 2, k / 2)
    ensures VIndex(w, h, j / 2, k / 2) == UIndex(w, h, j / 2, k / 2) + 1
    ensures VIndex(w, h, j / 2, k / 2) < FrameLen(w, h)
  {
    PlaneIndexBounds(w, h, j, k);
    var row, c := j / 2, k / 2;
    ChromaRowFits(w, h, row);
    assert UIndex(w, h, row, c) == w * h + row * w + 2 * c;
    assert VIndex(w, h, row, c) == w * h + row * w + 2 * c + 1;
  }

  /** A chroma row of a frame with `h` luma rows ends within the (h + 1) / 2 chroma rows. */
  lemma ChromaRowFits(w: nat, h: nat, row: int)
    requires 0 <= row && 2 * row < h
    ensures 0 <= row * w && row * w + w <= (h + 1) / 2 * w
  {
    MulLeft(0, row, w);
    MulLeft(row + 1, (h + 1) / 2, w);
    assert (row + 1) * w == row * w + w;
  }

  /** Pixels painted once the scan has reached row `j0`, column `k0`. */
  predicate Painted(r: Rect, thick: int, j0: int, k0: int, j: int, k: int) {
    InBand(r, thick, j, k) && (j < j0 || (j == j0 && k < k0))
  }

  predicate PairPainted(r: Rect, thick: int, j0: int, k0: int, row: int, c: int) {
    Painted(r, thick, j0, k0, 2 * row, 2 * c) || Painted(r, thick, j0, k0, 2 * row, 2 * c + 1)
    || Painted(r, thick, j0, k0, 2 * row + 1, 2 * c) || Painted(r, thick, j0, k0, 2 * row + 1, 2 * c + 1)
  }

  ghost predicate LumaProgress(out: seq<byte>, data: seq<byte>, w: nat, h: nat, r: Rect, thick: int, j0: int, k0: int, y: byte)
    requires |out| == |data| >= FrameLen(w, h)
  {
    forall j, k | 0 <= j < h && 0 <= k < w ::
      FrameFits(w, h);
      PlaneIndexBounds(w, h, j, k);
      out[PlaneIndex(w, j, k)] == if Painted(r, thick, j0, k0, j, k) then y else data[PlaneIndex(w, j, k)]
  }

  ghost predicate ChromaProgress(out: seq<byte>, data: seq<byte>, w: nat, h: nat, r: Rect, thick: int, j0: int, k0: int, u: byte, v: byte)
    requires |out| == |data| >= FrameLen(w, h) && w % 2 == 0
  {
    forall row, c | 0 <= row < (h + 1) / 2 && 0 <= c < w / 2 ::
      ChromaBounds(w, h, row, c);
      && out[UIndex(w, h, row, c)] == (if PairPainted(r, thick, j0, k0, row, c) then u else data[UIndex(w, h, row, c)])
      && out[VIndex(w, h, row, c)] == (if PairPainted(r, thick, j0, k0, row, c) then v else data[VIndex(w, h, row, c)])
  }

  lemma LumaPaintStep(prev: seq<byte>, out: seq<byte>, data: seq<byte>, w: nat, h: nat, r: Rect, thick: int,
                      j: int, k: int, y: byte, u: byte, v: byte)
    requires thick >= 1 && Clamped(r, w, h, thick) && |data| >= FrameLen(w, h) && |prev| == |data|
    requires r.top <= j <= r.bottom && r.left <= k <= r.right && Outline(r, thick, j, k)
    requires LumaProgress(prev, data, w, h, r, thick, j, k, y)
    requires (WriteBounds(w, h, r, thick, j, k);
      out == prev[PlaneIndex(w, j, k) := y][UIndex(w, h, j / 2, k / 2) := u][VIndex(w, h, j / 2, k / 2) := v])
    ensures LumaProgress(out, data, w, h, r, thick, j, k + 1, y)
  {
    FrameFits(w, h);
    WriteBounds(w, h, r, thick, j, k);
    forall j', k' | 0 <= j' < h && 0 <= k' < w
      ensures (PlaneIndexBounds(w, h, j', k');
        out[PlaneIndex(w, j', k')] == if Painted(r, thick, j, k + 1, j', k') then y else data[PlaneIndex(w, j', k')])
    {
      PlaneIndexBounds(w, h, j', k');
      if (j', k') != (j, k) {
        if PlaneIndex(w, j', k') == PlaneIndex(w, j, k) {
          PlaneIndexInjective(w, j', k', j, k);
        }
      }
    }
  }

  lemma ChromaPaintStep(prev: seq<byte>, out: seq<byte>, data: seq<byte>, w: nat, h: nat, r: Rect, thick: int,
                        j: int, k: int, y: byte, u: byte, v: byte)
    requires thick >= 1 && Clamped(r, w, h, thick) && |data| >= FrameLen(w, h) && |prev| == |data| && w % 2 == 0
    requires r.top <= j <= r.bottom && r.left <= k <= r.right && Outline(r, thick, j, k)
    requires ChromaProgress(prev, data, w, h, r, thick, j, k, u, v)
    requires (WriteBounds(w, h, r, thick, j, k);
      out == prev[PlaneIndex(w, j, k) := y][UIndex(w, h, j / 2, k / 2) := u][VIndex(w, h, j / 2, k / 2) := v])
    ensures ChromaProgress(out, data, w, h, r, thick, j, k + 1, u, v)
  {
    WriteBounds(w, h, r, thick, j, k);
    forall row, c | 0 <= row < (h + 1) / 2 && 0 <= c < w / 2
      ensures (ChromaBounds(w, h, row, c);
        && out[UIndex(w, h, row, c)] == (if PairPainted(r, thick, j, k + 1, row, c) then u else data[UIndex(w, h, row, c)])
        && out[VIndex(w, h, row, c)] == (if PairPainted(r, thick, j, k + 1, row, c) then v else data[VIndex(w, h, row, c)]))
    {
      ChromaBounds(w, h, row, c);
      if row == j / 2 && c == k / 2 {
        assert Painted(r, thick, j, k + 1, j, k);
      } else {
        ChromaApart(w, h, row, c, j / 2, k / 2);
        assert PairPainted(r, thick, j, k + 1, row, c) == PairPainted(r, thick, j, k, row, c);
      }
    }
  }

  /** Different chroma pairs of an even-width frame occupy four different bytes. */
  lemma ChromaApart(w: nat, h: nat, row1: int, c1: int, row2: int, c2: int)
    requires w % 2 == 0 && 0 <= c1 < w / 2 && 0 <= c2 < w / 2
    requires row1 != row2 || c1 != c2
    ensures UIndex(w, h, row1, c1) != UIndex(w, h, row2, c2)
    ensures UIndex(w, h, row1, c1) != VIndex(w, h, row2, c2)
    ensures VIndex(w, h, row1, c1) != UIndex(w, h, row2, c2)
    ensures VIndex(w, h, row1, c1) != VIndex(w, h, row2, c2)
  {
    if UIndex(w, h, row1, c1) == UIndex(w, h, row2, c2) {
      PlaneIndexInjective(w, row1, 2 * c1, row2, 2 * c2);
    }
    if UIndex(w, h, row1, c1) == VIndex(w, h, row2, c2) {
      PlaneIndexInjective(w, row1, 2 * c1, row2, 2 * c2 + 1);
    }
    if VIndex(w, h, row1, c1) == UIndex(w, h, row2, c2) {
      PlaneIndexInjective(w, row1, 2 * c1 + 1, row2, 2 * c2);
    }
    if VIndex(w, h, row1, c1) == VIndex(w, h, row2, c2) {
      PlaneIndexInjective(w, row1, 2 * c1 + 1, row2, 2 * c2 + 1);
    }
  }

  lemma SkipStep(out: seq<byte>, data: seq<byte>, w: nat, h: nat, r: Rect, thick: int,
                 j: int, k: int, y: byte, u: byte, v: byte)
    requires |data| >= FrameLen(w, h) && |out| == |data|
    requires !Outline(r, thick, j, k)
    requires LumaProgress(out, data, w, h, r, thick, j, k, y)
    requires w % 2 == 0 ==> ChromaProgress(out, data, w, h, r, thick, j, k, u, v)
    ensures LumaProgress(out, data, w, h, r, thick, j, k + 1, y)
    ensures w % 2 == 0 ==> ChromaProgress(out, data, w, h, r, thick, j, k + 1, u, v)
  {
    FrameFits(w, h);
    assert forall j', k' :: Painted(r, thick, j, k + 1, j', k') == Painted(r, thick, j, k, j', k');
  }

  lemma RowStep(out: seq<byte>, data: seq<byte>, w: nat, h: nat, r: Rect, thick: int,
                j: int, k: int, y: byte, u: byte, v: byte)
    requires |data| >= FrameLen(w, h) && |out| == |data|
    requires k > r.right
    requires LumaProgress(out, data, w, h, r, thick, j, k, y)
    requires w % 2 == 0 ==> ChromaProgress(out, data, w, h, r, thick, j, k, u, v)
    ensures LumaProgress(out, data, w, h, r, thick, j + 1, r.left, y)
    ensures w % 2 == 0 ==> ChromaProgress(out, data, w, h, r, thick, j + 1, r.left, u, v)
  {
    FrameFits(w, h);
    assert forall j', k' :: Painted(r, thick, j + 1, r.left, j', k') == Painted(r, thick, j, k, j', k');
  }

  lemma DoneStep(out: seq<byte>, data: seq<byte>, w: nat, h: nat, r: Rect, thick: int,
                 j: int, y: byte, u: byte, v: byte)
    requires |data| >= FrameLen(w, h) && |out| == |data|
    requires j > r.bottom
    requires LumaProgress(out, data, w, h, r, thick, j, r.left, y)
    requires w % 2 == 0 ==> ChromaProgress(out, data, w, h, r, thick, j, r.left, u, v)
    ensures LumaDrawn(out, data, w, h, r, thick, y)
    ensures w % 2 == 0 ==> ChromaDrawn(out, data, w, h, r, thick, u, v)
  {
    FrameFits(w, h);
    assert forall j', k' :: Painted(r, thick, j, r.left, j', k') == InBand(r, thick, j', k');
  }
}
