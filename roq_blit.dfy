/**
 * The fixed-size block copies of the decoder (blit8_32, blit4_32,
 * blit2_32, move8_32, move4_32) over a frame buffer of 32-bit words. A
 * w x w copy writes its words row by row, left to right, the rows `dspl`
 * words apart, exactly in the order the unrolled statements of the
 * source do.
 */
module RoqBlit {
  /** The block sides the decoder copies: 8, 4 and 2 words. */
  predicate Side(w: int) {
    w == 2 || w == 4 || w == 8
  }

  /**
   * The first word of row `r` of a block at `base`, rows `dspl` words apart,
   * counted out row by row (RowStartIs gives its closed form).
   */
  function RowStart(base: int, dspl: int, r: nat): int {
    if r == 0 then base else RowStart(base, dspl, r - 1) + dspl
  }

  lemma {:induction false} RowStartIs(base: int, dspl: int, r: nat)
    ensures RowStart(base, dspl, r) == base + r * dspl
  {
    if r > 0 {
      RowStartIs(base, dspl, r - 1);
      assert (r - 1) * dspl + dspl == r * dspl;
    }
  }

  /** The number of words of a w x w block. */
  function Area(w: int): int
    requires Side(w)
  {
    if w == 2 then 4 else if w == 4 then 16 else 64
  }

  /** The end of the stretch of words a w x w block at `base` touches. */
  function BlockEnd(base: int, dspl: int, w: int): int {
    base + (w - 1) * dspl + w
  }

  /**
   * A w x w block at `base`, rows `dspl` words apart, lies inside an image of
   * `n` words and its rows do not overlap.
   */
  predicate InImage(n: int, base: int, dspl: int, w: int) {
    Side(w) && dspl >= w && 0 <= base && BlockEnd(base, dspl, w) <= n
  }

  lemma MulLe(a: int, b: int, c: int)
    requires 0 <= a <= b && c >= 0
    ensures a * c <= b * c
  {
  }

  lemma MulLt(a: int, b: int, c: int)
    requires 0 <= a < b && c >= 0
    ensures a * c + c <= b * c
  {
    MulLe(a + 1, b, c);
    assert (a + 1) * c == a * c + c;
  }

  /** The word written at step `j` of a w x w copy: row j / w, column j % w, inside the block's stretch. */
  function Cell(base: int, dspl: int, w: int, j: nat): (c: int)
    requires Side(w) && dspl >= w && j < Area(w)
    ensures base <= c < BlockEnd(base, dspl, w)
  {
    var r := j / w;
    RowStartIs(base, dspl, r);
    MulLe(r, w - 1, dspl);
    RowStart(base, dspl, r) + j % w
  }

  /** Two steps of one copy never write the same word: rows are at least w words apart. */
  lemma CellInjective(base: int, dspl: int, w: int, i: nat, j: nat)
    requires Side(w) && dspl >= w && i < j < Area(w)
    ensures Cell(base, dspl, w, i) < Cell(base, dspl, w, j)
  {
    var ri, rj := i / w, j / w;
    assert ri <= rj;
    RowStartIs(base, dspl, ri);
    RowStartIs(base, dspl, rj);
    if ri < rj {
      MulLt(ri, rj, dspl);
    }
  }

  /**
   * The image after the first `k` words of a blit of the w x w entry `src`.
   * (The image in the measure keeps the verifier from unrolling the whole
   * copy when `k` is a literal.)
   */
  function BlitSpec(img: seq<int>, base: int, dspl: int, w: int, src: seq<int>, k: nat): (r: seq<int>)
    requires InImage(|img|, base, dspl, w) && k <= Area(w) && |src| == Area(w)
    ensures |r| == |img|
    decreases k, img
  {
    if k == 0 then img
    else
      BlitSpec(img, base, dspl, w, src, k - 1)[Cell(base, dspl, w, k - 1) := src[k - 1]]
  }

  /**
   * The image after the first `k` words of a move of the w x w block at
   * `from` onto the one at `base`; each word is read after the words before
   * it were written, as in the source, so overlapping blocks smear.
   */
  function MoveSpec(img: seq<int>, from: int, base: int, dspl: int, w: int, k: nat): (r: seq<int>)
    requires InImage(|img|, base, dspl, w) && InImage(|img|, from, dspl, w) && k <= Area(w)
    ensures |r| == |img|
    decreases k, img
  {
    if k == 0 then img
    else
      var prev := MoveSpec(img, from, base, dspl, w, k - 1);
      prev[Cell(base, dspl, w, k - 1) := prev[Cell(from, dspl, w, k - 1)]]
  }

  /** A word no step of the first `k` writes. */
  predicate Untouched(p: int, base: int, dspl: int, w: int, k: nat)
    requires Side(w) && dspl >= w && k <= Area(w)
  {
    forall j: nat :: j < k ==> p != Cell(base, dspl, w, j)
  }

  /**
   * A blit puts entry word j at row j / w, column j % w of the block, and
   * leaves every other word of the image as it was.
   */
  lemma {:induction false} BlitWrites(img: seq<int>, base: int, dspl: int, w: int, src: seq<int>, k: nat)
    requires InImage(|img|, base, dspl, w) && k <= Area(w) && |src| == Area(w)
    ensures forall j: nat :: j < k ==> BlitSpec(img, base, dspl, w, src, k)[Cell(base, dspl, w, j)] == src[j]
    ensures forall p :: 0 <= p < |img| && Untouched(p, base, dspl, w, k) ==>
      BlitSpec(img, base, dspl, w, src, k)[p] == img[p]
  {
    if k > 0 {
      BlitWrites(img, base, dspl, w, src, k - 1);
      var prev, last := BlitSpec(img, base, dspl, w, src, k - 1), Cell(base, dspl, w, k - 1);
      assert BlitSpec(img, base, dspl, w, src, k) == prev[last := src[k - 1]];
      forall j: nat | j < k
        ensures BlitSpec(img, base, dspl, w, src, k)[Cell(base, dspl, w, j)] == src[j]
      {
        if j < k - 1 {
          CellInjective(base, dspl, w, j, k - 1);
        }
      }
    }
  }

  /**
   * A move between two blocks whose stretches do not overlap copies word j
   * of the source block to word j of the destination block, and leaves
   * every other word of the image as it was.
   */
  lemma {:induction false} MoveCopies(img: seq<int>, from: int, base: int, dspl: int, w: int, k: nat)
    requires InImage(|img|, base, dspl, w) && InImage(|img|, from, dspl, w) && k <= Area(w)
    requires BlockEnd(from, dspl, w) <= base || BlockEnd(base, dspl, w) <= from
    ensures forall j: nat :: j < k ==>
      MoveSpec(img, from, base, dspl, w, k)[Cell(base, dspl, w, j)] == img[Cell(from, dspl, w, j)]
    ensures forall p :: 0 <= p < |img| && Untouched(p, base, dspl, w, k) ==>
      MoveSpec(img, from, base, dspl, w, k)[p] == img[p]
  {
    if k > 0 {
      MoveCopies(img, from, base, dspl, w, k - 1);
      var prev, last := MoveSpec(img, from, base, dspl, w, k - 1), Cell(base, dspl, w, k - 1);
      var read := Cell(from, dspl, w, k - 1);
      assert prev[read] == img[read];
      assert MoveSpec(img, from, base, dspl, w, k) == prev[last := prev[read]];
      forall j: nat | j < k
        ensures MoveSpec(img, from, base, dspl, w, k)[Cell(base, dspl, w, j)] == img[Cell(from, dspl, w, j)]
      {
        if j < k - 1 {
          CellInjective(base, dspl, w, j, k - 1);
        }
      }
    }
  }
}
