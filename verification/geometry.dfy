/**
 * Rectangle geometry shared by the two renderers of the draw filter: clamping a
 * detection box to the frame, rounding edges to the 16-pixel grid the OSD hardware
 * needs, the bounding box of several boxes, and translation into that box.
 */
module Geometry {

  /** Four pixel edges. Whether `right`/`bottom` are inclusive depends on the renderer. */
  datatype Rect = Rect(left: int, top: int, right: int, bottom: int)

  /** What a zero-filled `Rect` holds. */
  const ZeroRect := Rect(0, 0, 0, 0)

  function Min(a: int, b: int): int { if a < b then a else b }

  function Max(a: int, b: int): int { if a > b then a else b }

  // ---------------------------------------------------------------------------
  // Clamping (draw_rect)
  // ---------------------------------------------------------------------------

  /** The edge limits that keep an outline of width `thick` inside a `w` x `h` frame. */
  predicate Clamped(r: Rect, w: int, h: int, thick: int) {
    0 <= r.left && 0 <= r.top && r.right <= w - thick && r.bottom <= h - thick
  }

  /**
   * The four independent corrections applied before software drawing, in the order
   * right, left, bottom, top. The result is within the limits, an edge already within
   * its limit is kept, and an edge that moves lands exactly on its limit.
   */
  function Clamp(r: Rect, w: int, h: int, thick: int): (c: Rect)
    ensures Clamped(c, w, h, thick)
    ensures r.left >= 0 ==> c.left == r.left
    ensures r.top >= 0 ==> c.top == r.top
    ensures r.right <= w - thick ==> c.right == r.right
    ensures r.bottom <= h - thick ==> c.bottom == r.bottom
    ensures c.left != r.left ==> c.left == 0
    ensures c.top != r.top ==> c.top == 0
    ensures c.right != r.right ==> c.right == w - thick
    ensures c.bottom != r.bottom ==> c.bottom == h - thick
  {
    var r1 := if r.right > w - thick then r.(right := w - thick) else r;
    var r2 := if r1.left < 0 then r1.(left := 0) else r1;
    var r3 := if r2.bottom > h - thick then r2.(bottom := h - thick) else r2;
    if r3.top < 0 then r3.(top := 0) else r3
  }

  /** A rectangle that is already within the limits is not touched, so clamping twice is clamping once. */
  lemma ClampIdempotent(r: Rect, w: int, h: int, thick: int)
    ensures Clamped(r, w, h, thick) ==> Clamp(r, w, h, thick) == r
    ensures Clamp(Clamp(r, w, h, thick), w, h, thick) == Clamp(r, w, h, thick)
  {
  }

  // ---------------------------------------------------------------------------
  // 16-pixel alignment (DoHwDraw)
  // ---------------------------------------------------------------------------

  predicate Multiple16(x: int) {
    x % 16 == 0
  }

  /** The least multiple of 16 that is at least `x`. */
  function AlignUp16(x: int): (r: int)
    ensures Multiple16(r)
    ensures x <= r < x + 16
  {
    (x + 15) / 16 * 16
  }

  /** The greatest multiple of 16 that is at most `x`. */
  function AlignDown16(x: int): (r: int)
    ensures Multiple16(r)
    ensures x - 16 < r <= x
  {
    x / 16 * 16
  }

  predicate Aligned16(r: Rect) {
    Multiple16(r.left) && Multiple16(r.top) && Multiple16(r.right) && Multiple16(r.bottom)
  }

  /** Rounds the top-left corner up and the bottom-right corner down, so the box only shrinks. */
  function AlignRect(r: Rect): (a: Rect)
    ensures Aligned16(a)
    ensures r.left <= a.left < r.left + 16 && r.top <= a.top < r.top + 16
    ensures r.right - 16 < a.right <= r.right && r.bottom - 16 < a.bottom <= r.bottom
  {
    Rect(AlignUp16(r.left), AlignUp16(r.top), AlignDown16(r.right), AlignDown16(r.bottom))
  }

  // ---------------------------------------------------------------------------
  // Bounding box (combine_rect)
  // ---------------------------------------------------------------------------

  /** Edge-wise min of the top-left corners and max of the bottom-right corners. */
  function Union(a: Rect, b: Rect): Rect {
    Rect(Min(a.left, b.left), Min(a.top, b.top), Max(a.right, b.right), Max(a.bottom, b.bottom))
  }

  /** `c` encloses every rectangle of `rs`, edge by edge. */
  ghost predicate Encloses(c: Rect, rs: seq<Rect>) {
    forall i :: 0 <= i < |rs| ==>
      c.left <= rs[i].left && c.top <= rs[i].top && rs[i].right <= c.right && rs[i].bottom <= c.bottom
  }

  /** Every edge of `c` is the same edge of some rectangle of `rs`. */
  ghost predicate EdgesAttained(c: Rect, rs: seq<Rect>) {
    && (exists i :: 0 <= i < |rs| && rs[i].left == c.left)
    && (exists i :: 0 <= i < |rs| && rs[i].top == c.top)
    && (exists i :: 0 <= i < |rs| && rs[i].right == c.right)
    && (exists i :: 0 <= i < |rs| && rs[i].bottom == c.bottom)
  }

  /**
   * The bounding box of `rs`, folded left to right from the first rectangle. An empty
   * input yields the zero rectangle; otherwise the result is the tightest enclosing box.
   */
  function CombineRect(rs: seq<Rect>): (c: Rect)
    ensures |rs| == 0 ==> c == ZeroRect
    ensures |rs| > 0 ==> Encloses(c, rs) && EdgesAttained(c, rs)
    decreases |rs|
  {
    if |rs| <= 1 then
      if |rs| == 0 then ZeroRect else rs[0]
    else
      var prefix := rs[..|rs| - 1];
      var last := rs[|rs| - 1];
      var c0 := CombineRect(prefix);
      assert forall i :: 0 <= i < |prefix| ==> prefix[i] == rs[i];
      Union(c0, last)
  }

  /** A single rectangle is its own bounding box. */
  lemma CombineSingleton(r: Rect)
    ensures CombineRect([r]) == r
  {
  }

  /** Two aligned boxes side by side: the bounding box takes the outer edge of each side. */
  lemma CombineTwoBoxes()
    ensures CombineRect([Rect(16, 16, 48, 48), Rect(64, 32, 96, 64)]) == Rect(16, 16, 96, 64)
  {
    var rs := [Rect(16, 16, 48, 48), Rect(64, 32, 96, 64)];
    assert rs[..1] == [Rect(16, 16, 48, 48)];
  }

  /** The difference of two multiples of 16 is a multiple of 16. */
  lemma DiffAligned(a: int, b: int)
    requires Multiple16(a) && Multiple16(b)
    ensures Multiple16(a - b)
  {
    assert a - b == (a / 16 - b / 16) * 16;
  }

  /** The bounding box of 16-aligned rectangles is 16-aligned, so its width and height are multiples of 16. */
  lemma CombineAligned(rs: seq<Rect>, c: Rect)
    requires forall i :: 0 <= i < |rs| ==> Aligned16(rs[i])
    requires c == CombineRect(rs)
    ensures Aligned16(c)
    ensures Multiple16(c.right - c.left) && Multiple16(c.bottom - c.top)
  {
    if |rs| > 0 {
      AttainedAligned(c, rs);
    }
    AlignedTiles(c);
  }

  /** A 16-aligned box has a width and height that are multiples of 16. */
  lemma AlignedTiles(c: Rect)
    requires Aligned16(c)
    ensures Multiple16(c.right - c.left) && Multiple16(c.bottom - c.top)
  {
    DiffAligned(c.right, c.left);
    DiffAligned(c.bottom, c.top);
  }

  /** A box whose every edge is an edge of some 16-aligned rectangle is itself 16-aligned. */
  lemma AttainedAligned(c: Rect, rs: seq<Rect>)
    requires forall i :: 0 <= i < |rs| ==> Aligned16(rs[i])
    requires EdgesAttained(c, rs)
    ensures Aligned16(c)
  {
    var a :| 0 <= a < |rs| && rs[a].left == c.left;
    var b :| 0 <= b < |rs| && rs[b].top == c.top;
    var d :| 0 <= d < |rs| && rs[d].right == c.right;
    var e :| 0 <= e < |rs| && rs[e].bottom == c.bottom;
    assert Aligned16(rs[a]) && Aligned16(rs[b]) && Aligned16(rs[d]) && Aligned16(rs[e]);
  }

  // ---------------------------------------------------------------------------
  // Translation into the bounding box (DoHwDraw)
  // ---------------------------------------------------------------------------

  /** Re-expresses `r` relative to the top-left corner of `origin`. */
  function Translate(r: Rect, origin: Rect): (t: Rect)
    ensures t.right - t.left == r.right - r.left && t.bottom - t.top == r.bottom - r.top
    ensures Rect(t.left + origin.left, t.top + origin.top, t.right + origin.left, t.bottom + origin.top) == r
  {
    Rect(r.left - origin.left, r.top - origin.top, r.right - origin.left, r.bottom - origin.top)
  }

  /** Every rectangle of `rs` re-expressed relative to `origin`, in order. */
  function TranslateAll(rs: seq<Rect>, origin: Rect): (ts: seq<Rect>)
    ensures |ts| == |rs| && forall i :: 0 <= i < |rs| ==> ts[i] == Translate(rs[i], origin)
  {
    seq(|rs|, i requires 0 <= i < |rs| => Translate(rs[i], origin))
  }

  /** Rectangles enclosed by `box` land, once translated into it, within its width and height. */
  lemma TranslatedWithin(box: Rect, rs: seq<Rect>)
    requires Encloses(box, rs)
    ensures forall i :: 0 <= i < |rs| ==>
      && 0 <= Translate(rs[i], box).left && 0 <= Translate(rs[i], box).top
      && Translate(rs[i], box).right <= box.right - box.left
      && Translate(rs[i], box).bottom <= box.bottom - box.top
  {
  }
}
