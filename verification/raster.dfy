/**
 * Byte planes addressed row by row: pixel (j, k) of a plane `w` bytes wide lives at
 * offset `j * w + k`. Both renderers use this addressing; the lemmas here are the
 * arithmetic facts about it that the verifier does not find on its own.
 */
module Raster {

  newtype byte = x: int | 0 <= x < 256

  /** Offset of row `j`, column `k` in a plane of `w` bytes per row. */
  function PlaneIndex(w: int, j: int, k: int): int {
    j * w + k
  }

  lemma MulLeft(a: int, b: int, c: int)
    requires a <= b && 0 <= c
    ensures a * c <= b * c
  {
    assert b * c - a * c == (b - a) * c;
  }

  /** A pixel inside an `h`-row plane has its offset inside the first `w * h` bytes. */
  lemma PlaneIndexBounds(w: int, h: int, j: int, k: int)
    requires 0 <= j < h && 0 <= k < w
    ensures 0 <= PlaneIndex(w, j, k) < w * h
  {
    MulLeft(0, j, w);
    MulLeft(j + 1, h, w);
    assert (j + 1) * w == j * w + w;
    assert h * w == w * h;
  }

  /** Distinct columns of a row-major plane never share an offset. */
  lemma PlaneIndexInjective(w: int, j1: int, k1: int, j2: int, k2: int)
    requires 0 <= k1 < w && 0 <= k2 < w
    requires PlaneIndex(w, j1, k1) == PlaneIndex(w, j2, k2)
    ensures j1 == j2 && k1 == k2
  {
    if j1 < j2 {
      MulLeft(j1 + 1, j2, w);
    } else if j2 < j1 {
      MulLeft(j2 + 1, j1, w);
    }
  }
}
