/**
 * The quad list of setupQuad and recurseQuad: the frame is cut into 16x16
 * blocks, row by row; each block is split into 8x8 and then 4x4 quads, and
 * every 8x8 or 4x4 quad that lies inside the picture is listed, a quad
 * before its four children. The list is what blitVQQuad32fs walks.
 */
module RoqQuad {
  import opened RoqFormat

  datatype Quad = Quad(x: int, y: int, size: int)

  /** What recurseQuad reads of the decoder: the picture size, the buffer size and the byte strides. */
  datatype Layout = Layout(xsize: int, ysize: int, cinWidth: int, cinHeight: int,
                           samplesPerLine: int, samplesPerPixel: int)

  /** The picture, cut to the buffer: bigx and bigy. */
  function BigX(l: Layout): int {
    if l.xsize > l.cinWidth then l.cinWidth else l.xsize
  }

  function BigY(l: Layout): int {
    if l.ysize > l.cinHeight then l.cinHeight else l.ysize
  }

  /** The sizes recurseQuad is called with: 16 from setupQuad, halved down to MINSIZE. */
  predicate QuadSize(size: int) {
    size == 16 || size == 8 || size == MINSIZE
  }

  /** recurseQuad records a quad when it lies inside the picture and is no larger than MAXSIZE. */
  predicate Recorded(l: Layout, q: Quad) {
    q.x >= 0 && q.x + q.size <= BigX(l) && q.y + q.size <= BigY(l) && q.y >= 0 && q.size <= MAXSIZE
  }

  /** The byte offset of a quad's top left pixel in the first frame buffer (scroff). */
  function QuadOffset(l: Layout, q: Quad, xOff: int, yOff: int): int {
    (q.y + (l.cinHeight - BigY(l)) / 2 + yOff) * l.samplesPerLine + (q.x + xOff) * l.samplesPerPixel
  }

  /** A quad as recurseQuad lists it: itself when recorded, nothing otherwise. */
  function Here(l: Layout, q: Quad): (r: seq<Quad>)
    ensures |r| == if Recorded(l, q) then 1 else 0
    ensures forall p :: p in r <==> p == q && Recorded(l, q)
  {
    if Recorded(l, q) then [q] else []
  }

  /**
   * The quads recurseQuad(x, y, size) records, in the order it records them:
   * the quad itself, then, above MINSIZE, the quarters top left, top right,
   * bottom left, bottom right. (The layout in the measure only keeps the
   * verifier from unrolling the whole tree whenever `size` is a literal.)
   */
  function QuadsOf(l: Layout, x: int, y: int, size: int): seq<Quad>
    requires QuadSize(size)
    decreases size, l
  {
    if size == MINSIZE then Here(l, Quad(x, y, size))
    else
      var h := size / 2;
      Here(l, Quad(x, y, size)) + QuadsOf(l, x, y, h) + QuadsOf(l, x + h, y, h)
      + QuadsOf(l, x, y + h, h) + QuadsOf(l, x + h, y + h, h)
  }

  /** A square above MINSIZE lists itself, when recorded, and then its four quarters. */
  lemma QuadsOfParts(l: Layout, x: int, y: int, size: int)
    requires size == 16 || size == 8
    ensures var h := size / 2;
      var here, q1, q2 := Here(l, Quad(x, y, size)), QuadsOf(l, x, y, h), QuadsOf(l, x + h, y, h);
      var q3, q4 := QuadsOf(l, x, y + h, h), QuadsOf(l, x + h, y + h, h);
      && QuadsOf(l, x, y, size) == here + q1 + q2 + q3 + q4
      && |QuadsOf(l, x, y, size)| == |here| + |q1| + |q2| + |q3| + |q4|
  {
  }

  /** The quads of the four quarters of a square above MINSIZE, in recurseQuad's order. */
  function QuartersOf(l: Layout, x: int, y: int, size: int): seq<Quad>
    requires size == 16 || size == 8
  {
    var h := size / 2;
    QuadsOf(l, x, y, h) + QuadsOf(l, x + h, y, h) + QuadsOf(l, x, y + h, h) + QuadsOf(l, x + h, y + h, h)
  }

  /** A square above MINSIZE lists itself, when recorded, and then its quarters. */
  lemma QuadsOfSplit(l: Layout, x: int, y: int, size: int)
    requires size == 16 || size == 8
    ensures QuadsOf(l, x, y, size) == Here(l, Quad(x, y, size)) + QuartersOf(l, x, y, size)
  {
    var h := size / 2;
    var here, q1, q2 := Here(l, Quad(x, y, size)), QuadsOf(l, x, y, h), QuadsOf(l, x + h, y, h);
    var q3, q4 := QuadsOf(l, x, y + h, h), QuadsOf(l, x + h, y + h, h);
    QuadsOfParts(l, x, y, size);
    Assoc5(here, q1, q2, q3, q4);
  }

  lemma Assoc5(a: seq<Quad>, b: seq<Quad>, c: seq<Quad>, d: seq<Quad>, e: seq<Quad>)
    ensures a + b + c + d + e == a + (b + c + d + e)
  {
  }

  /** The number of 16-pixel steps setupQuad's loops take to cover `s` pixels. */
  function Blocks(s: int): int {
    if s <= 0 then 0 else (s + 15) / 16
  }

  /** The quads of the first `n` blocks of the block row at `y`. */
  function RowQuads(l: Layout, y: int, n: nat): seq<Quad>
  {
    if n == 0 then [] else RowQuads(l, y, n - 1) + QuadsOf(l, 16 * (n - 1), y, 16)
  }

  /** The quads of the first `m` block rows. */
  function FrameQuads(l: Layout, m: nat): seq<Quad>
  {
    if m == 0 then [] else FrameQuads(l, m - 1) + RowQuads(l, 16 * (m - 1), Blocks(l.xsize))
  }

  /** setupQuad's list: every block row of the picture. */
  function SetupQuads(l: Layout): seq<Quad> {
    FrameQuads(l, Blocks(l.ysize))
  }

  /** The offsets of a list of quads in the first buffer. */
  function Offsets(l: Layout, qs: seq<Quad>, xOff: int, yOff: int): (r: seq<int>)
    ensures |r| == |qs|
  {
    seq(|qs|, k requires 0 <= k < |qs| => QuadOffset(l, qs[k], xOff, yOff))
  }

  /** The same list in the second buffer, `delta` bytes further on. */
  function Shifted(s: seq<int>, delta: int): (r: seq<int>)
    ensures |r| == |s|
  {
    seq(|s|, k requires 0 <= k < |s| => s[k] + delta)
  }

  /** Entry k of a list of offsets is the offset of quad k. */
  lemma OffsetsAt(l: Layout, qs: seq<Quad>, xOff: int, yOff: int, k: int)
    requires 0 <= k < |qs|
    ensures Offsets(l, qs, xOff, yOff)[k] == QuadOffset(l, qs[k], xOff, yOff)
  {
  }

  /** Entry k of a shifted list is entry k of the list, delta further on. */
  lemma ShiftedAt(s: seq<int>, delta: int, k: int)
    requires 0 <= k < |s|
    ensures Shifted(s, delta)[k] == s[k] + delta
  {
  }

  /** numQuadCels: the list length setupQuad expects, plus 64 entries for the end marker. */
  function NumQuadCels(xsize: int, ysize: int): int {
    var n := (xsize * ysize) / 16;
    n + n / 4 + 64
  }

  /** Every quad in a list is recorded, 8x8 or 4x4, and inside the square it was split from. */
  ghost predicate AllRecordedIn(l: Layout, qs: seq<Quad>, x: int, y: int, size: int) {
    forall q :: q in qs ==>
      && Recorded(l, q) && (q.size == MAXSIZE || q.size == MINSIZE)
      && x <= q.x && q.x + q.size <= x + size && y <= q.y && q.y + q.size <= y + size
  }

  lemma Quads4Recorded(l: Layout, x: int, y: int)
    ensures AllRecordedIn(l, QuadsOf(l, x, y, 4), x, y, 4)
  {
    assert QuadsOf(l, x, y, 4) == Here(l, Quad(x, y, 4));
  }

  lemma Quads8Recorded(l: Layout, x: int, y: int)
    ensures AllRecordedIn(l, QuadsOf(l, x, y, 8), x, y, 8)
  {
    Quads4Recorded(l, x, y);
    Quads4Recorded(l, x + 4, y);
    Quads4Recorded(l, x, y + 4);
    Quads4Recorded(l, x + 4, y + 4);
    InsideQuarters(l, Here(l, Quad(x, y, 8)), QuadsOf(l, x, y, 4), QuadsOf(l, x + 4, y, 4),
                   QuadsOf(l, x, y + 4, 4), QuadsOf(l, x + 4, y + 4, 4), x, y, 4);
  }

  lemma Quads16Recorded(l: Layout, x: int, y: int)
    ensures AllRecordedIn(l, QuadsOf(l, x, y, 16), x, y, 16)
  {
    Quads8Recorded(l, x, y);
    Quads8Recorded(l, x + 8, y);
    Quads8Recorded(l, x, y + 8);
    Quads8Recorded(l, x + 8, y + 8);
    assert QuadsOf(l, x, y, 16) == Here(l, Quad(x, y, 16)) + QuadsOf(l, x, y, 8) + QuadsOf(l, x + 8, y, 8)
                                   + QuadsOf(l, x, y + 8, 8) + QuadsOf(l, x + 8, y + 8, 8);
    InsideQuarters(l, Here(l, Quad(x, y, 16)), QuadsOf(l, x, y, 8), QuadsOf(l, x + 8, y, 8),
                   QuadsOf(l, x, y + 8, 8), QuadsOf(l, x + 8, y + 8, 8), x, y, 8);
  }

  /** What lies inside the four quarters of a square, and the square itself when recorded, lies inside the square. */
  lemma InsideQuarters(l: Layout, here: seq<Quad>, a: seq<Quad>, b: seq<Quad>, c: seq<Quad>, d: seq<Quad>, x: int, y: int, h: int)
    requires forall q :: q in here ==> Recorded(l, q) && q == Quad(x, y, 2 * h)
    requires AllRecordedIn(l, a, x, y, h) && AllRecordedIn(l, b, x + h, y, h)
    requires AllRecordedIn(l, c, x, y + h, h) && AllRecordedIn(l, d, x + h, y + h, h)
    requires 2 * h == MAXSIZE || here == []
    ensures AllRecordedIn(l, here + a + b + c + d, x, y, 2 * h)
  {
  }

  /**
   * recurseQuad lists only quads inside the picture, of size 8 or 4, inside
   * the square it was called on; so a 16x16 block itself is never listed.
   */
  lemma QuadsRecorded(l: Layout, x: int, y: int, size: int)
    requires QuadSize(size)
    ensures AllRecordedIn(l, QuadsOf(l, x, y, size), x, y, size)
  {
    if size == 16 {
      Quads16Recorded(l, x, y);
    } else if size == 8 {
      Quads8Recorded(l, x, y);
    } else {
      Quads4Recorded(l, x, y);
    }
  }

  /** Every quad of the frame list is recorded and 8x8 or 4x4. */
  ghost predicate AllRecorded(l: Layout, qs: seq<Quad>) {
    forall q :: q in qs ==> Recorded(l, q) && (q.size == MAXSIZE || q.size == MINSIZE)
  }

  lemma {:induction false} RowRecorded(l: Layout, y: int, n: nat)
    ensures AllRecorded(l, RowQuads(l, y, n))
  {
    if n > 0 {
      RowRecorded(l, y, n - 1);
      QuadsRecorded(l, 16 * (n - 1), y, 16);
    }
  }

  lemma {:induction false} FrameRecorded(l: Layout, m: nat)
    ensures AllRecorded(l, FrameQuads(l, m))
  {
    if m > 0 {
      FrameRecorded(l, m - 1);
      RowRecorded(l, 16 * (m - 1), Blocks(l.xsize));
    }
  }

  /**
   * How many of the `k` cells of `s` pixels starting at x, x + s, ...
   * end by `b`.
   */
  function Fit(b: int, x: int, s: int, k: nat): (r: nat)
    requires s > 0
    ensures r <= k
  {
    var c := (b - x) / s;
    if c < 0 then 0 else if c > k then k else c
  }

  /** Cells k .. 2k-1 are the cells of the run that starts k cells further on. */
  lemma FitSplit(b: int, x: int, s: int, k: nat)
    requires s == 4 || s == 8
    ensures Fit(b, x, s, 2 * k) == Fit(b, x, s, k) + Fit(b, x + s * k, s, k)
  {
  }

  lemma FitExtend(b: int, s: int, k: nat, j: nat)
    requires s == 4 || s == 8
    ensures Fit(b, 0, s, k + j) == Fit(b, 0, s, k) + Fit(b, s * k, s, j)
  {
  }

  /** A quad of the picture: recorded exactly when it fits both ways. */
  lemma IndFit(l: Layout, x: int, y: int, s: int)
    requires x >= 0 && y >= 0 && (s == 4 || s == 8)
    ensures Ind(l, Quad(x, y, s)) == Fit(BigX(l), x, s, 1) * Fit(BigY(l), y, s, 1)
  {
  }

  /** Four cells in a two by two square: the row counts times the column counts. */
  lemma Square(t: int, a0: int, a1: int, b0: int, b1: int, a: int, b: int)
    requires t == a0 * b0 + a1 * b0 + a0 * b1 + a1 * b1
    requires a == a0 + a1 && b == b0 + b1
    ensures t == a * b
  {
  }

  /** 1 for a recorded quad, 0 otherwise. */
  function Ind(l: Layout, q: Quad): nat {
    if Recorded(l, q) then 1 else 0
  }

  /** How many quads recurseQuad(x, y, size) records. */
  function Count(l: Layout, x: int, y: int, size: int): nat
    requires QuadSize(size)
    decreases size, l
  {
    var here := Ind(l, Quad(x, y, size));
    if size == MINSIZE then here
    else
      var h := size / 2;
      here + Count(l, x, y, h) + Count(l, x + h, y, h) + Count(l, x, y + h, h) + Count(l, x + h, y + h, h)
  }

  lemma {:induction false} CountIsLength(l: Layout, x: int, y: int, size: int)
    requires QuadSize(size)
    ensures |QuadsOf(l, x, y, size)| == Count(l, x, y, size)
    decreases size
  {
    if size != MINSIZE {
      var h := size / 2;
      CountIsLength(l, x, y, h);
      CountIsLength(l, x + h, y, h);
      CountIsLength(l, x, y + h, h);
      CountIsLength(l, x + h, y + h, h);
    }
  }

  /** An 8x8 quad counts itself when recorded and the 4x4 quads of it that lie in the picture. */
  lemma Count8(l: Layout, x: int, y: int)
    requires x >= 0 && y >= 0
    ensures Count(l, x, y, 8) == Fit(BigX(l), x, 8, 1) * Fit(BigY(l), y, 8, 1) + Fit(BigX(l), x, 4, 2) * Fit(BigY(l), y, 4, 2)
  {
    var bx, bY := BigX(l), BigY(l);
    IndFit(l, x, y, 8);
    IndFit(l, x, y, 4);
    IndFit(l, x + 4, y, 4);
    IndFit(l, x, y + 4, 4);
    IndFit(l, x + 4, y + 4, 4);
    FitSplit(bx, x, 4, 1);
    FitSplit(bY, y, 4, 1);
    Square(Count(l, x, y, 4) + Count(l, x + 4, y, 4) + Count(l, x, y + 4, 4) + Count(l, x + 4, y + 4, 4),
           Fit(bx, x, 4, 1), Fit(bx, x + 4, 4, 1), Fit(bY, y, 4, 1), Fit(bY, y + 4, 4, 1), Fit(bx, x, 4, 2), Fit(bY, y, 4, 2));
  }

  /** Four squares of two counts each add up to the product of the sums. */
  lemma Squares(t: int, p00: int, p10: int, p01: int, p11: int, a0: int, a1: int, b0: int, b1: int,
                c0: int, c1: int, d0: int, d1: int, a: int, b: int, c: int, d: int)
    requires t == p00 + p10 + p01 + p11
    requires p00 == a0 * b0 + c0 * d0 && p10 == a1 * b0 + c1 * d0
    requires p01 == a0 * b1 + c0 * d1 && p11 == a1 * b1 + c1 * d1
    requires a == a0 + a1 && b == b0 + b1 && c == c0 + c1 && d == d0 + d1
    ensures t == a * b + c * d
  {
    Square(a0 * b0 + a1 * b0 + a0 * b1 + a1 * b1, a0, a1, b0, b1, a, b);
    Square(c0 * d0 + c1 * d0 + c0 * d1 + c1 * d1, c0, c1, d0, d1, c, d);
  }

  /** The four 8x8 counts of a block add up to its 8x8 and 4x4 counts. */
  lemma BlockSum(l: Layout, x: int, y: int, t: int, p00: int, p10: int, p01: int, p11: int)
    requires t == p00 + p10 + p01 + p11
    requires p00 == Fit(BigX(l), x, 8, 1) * Fit(BigY(l), y, 8, 1) + Fit(BigX(l), x, 4, 2) * Fit(BigY(l), y, 4, 2)
    requires p10 == Fit(BigX(l), x + 8, 8, 1) * Fit(BigY(l), y, 8, 1) + Fit(BigX(l), x + 8, 4, 2) * Fit(BigY(l), y, 4, 2)
    requires p01 == Fit(BigX(l), x, 8, 1) * Fit(BigY(l), y + 8, 8, 1) + Fit(BigX(l), x, 4, 2) * Fit(BigY(l), y + 8, 4, 2)
    requires p11 == Fit(BigX(l), x + 8, 8, 1) * Fit(BigY(l), y + 8, 8, 1) + Fit(BigX(l), x + 8, 4, 2) * Fit(BigY(l), y + 8, 4, 2)
    ensures t == Fit(BigX(l), x, 8, 2) * Fit(BigY(l), y, 8, 2) + Fit(BigX(l), x, 4, 4) * Fit(BigY(l), y, 4, 4)
  {
    var bx, bY := BigX(l), BigY(l);
    FitSplit(bx, x, 8, 1);
    FitSplit(bY, y, 8, 1);
    FitSplit(bx, x, 4, 2);
    FitSplit(bY, y, 4, 2);
    Squares(t, p00, p10, p01, p11,
            Fit(bx, x, 8, 1), Fit(bx, x + 8, 8, 1), Fit(bY, y, 8, 1), Fit(bY, y + 8, 8, 1),
            Fit(bx, x, 4, 2), Fit(bx, x + 8, 4, 2), Fit(bY, y, 4, 2), Fit(bY, y + 8, 4, 2),
            Fit(bx, x, 8, 2), Fit(bY, y, 8, 2), Fit(bx, x, 4, 4), Fit(bY, y, 4, 4));
  }

  /** A 16x16 block counts its 8x8 quads and its 4x4 quads that lie in the picture. */
  lemma Count16(l: Layout, x: int, y: int)
    requires x >= 0 && y >= 0
    ensures Count(l, x, y, 16) == Fit(BigX(l), x, 8, 2) * Fit(BigY(l), y, 8, 2) + Fit(BigX(l), x, 4, 4) * Fit(BigY(l), y, 4, 4)
  {
    Count8(l, x, y);
    Count8(l, x + 8, y);
    Count8(l, x, y + 8);
    Count8(l, x + 8, y + 8);
    BlockSum(l, x, y, Count(l, x, y, 16), Count(l, x, y, 8), Count(l, x + 8, y, 8),
             Count(l, x, y + 8, 8), Count(l, x + 8, y + 8, 8));
  }

  /** One more column or row of a rectangle: the counts grow by that line times the other side. */
  lemma Grow(t: int, t0: int, t1: int, a0: int, a1: int, a: int, b: int, c0: int, c1: int, c: int, d: int)
    requires t == t0 + t1 && a == a0 + a1 && c == c0 + c1
    requires t0 == a0 * b + c0 * d && t1 == a1 * b + c1 * d
    ensures t == a * b + c * d
  {
  }

  /** A block row counts, per block, the quads of its columns in the picture times those of the row. */
  lemma {:induction false} RowCount(l: Layout, y: int, n: nat)
    requires y >= 0
    ensures |RowQuads(l, y, n)| == Fit(BigX(l), 0, 8, 2 * n) * Fit(BigY(l), y, 8, 2) + Fit(BigX(l), 0, 4, 4 * n) * Fit(BigY(l), y, 4, 4)
  {
    if n > 0 {
      var bx := BigX(l);
      RowCount(l, y, n - 1);
      Count16(l, 16 * (n - 1), y);
      CountIsLength(l, 16 * (n - 1), y, 16);
      FitExtend(bx, 8, 2 * (n - 1), 2);
      FitExtend(bx, 4, 4 * (n - 1), 4);
      Grow(|RowQuads(l, y, n)|, |RowQuads(l, y, n - 1)|, Count(l, 16 * (n - 1), y, 16),
           Fit(bx, 0, 8, 2 * (n - 1)), Fit(bx, 16 * (n - 1), 8, 2), Fit(bx, 0, 8, 2 * n), Fit(BigY(l), y, 8, 2),
           Fit(bx, 0, 4, 4 * (n - 1)), Fit(bx, 16 * (n - 1), 4, 4), Fit(bx, 0, 4, 4 * n), Fit(BigY(l), y, 4, 4));
    }
  }

  lemma Grow2(t: int, t0: int, t1: int, b0: int, b1: int, a: int, b: int, d0: int, d1: int, c: int, d: int)
    requires t == t0 + t1 && b == b0 + b1 && d == d0 + d1
    requires t0 == a * b0 + c * d0 && t1 == a * b1 + c * d1
    ensures t == a * b + c * d
  {
  }

  lemma {:induction false} FrameCount(l: Layout, m: nat)
    ensures var n := Blocks(l.xsize);
      |FrameQuads(l, m)| == Fit(BigX(l), 0, 8, 2 * n) * Fit(BigY(l), 0, 8, 2 * m) + Fit(BigX(l), 0, 4, 4 * n) * Fit(BigY(l), 0, 4, 4 * m)
  {
    if m > 0 {
      var n, bY := Blocks(l.xsize), BigY(l);
      FrameCount(l, m - 1);
      RowCount(l, 16 * (m - 1), n);
      FitExtend(bY, 8, 2 * (m - 1), 2);
      FitExtend(bY, 4, 4 * (m - 1), 4);
      Grow2(|FrameQuads(l, m)|, |FrameQuads(l, m - 1)|, |RowQuads(l, 16 * (m - 1), n)|,
            Fit(bY, 0, 8, 2 * (m - 1)), Fit(bY, 16 * (m - 1), 8, 2), Fit(BigX(l), 0, 8, 2 * n), Fit(bY, 0, 8, 2 * m),
            Fit(bY, 0, 4, 4 * (m - 1)), Fit(bY, 16 * (m - 1), 4, 4), Fit(BigX(l), 0, 4, 4 * n), Fit(bY, 0, 4, 4 * m));
    }
  }

  /** Enough blocks cover the whole side: as many cells fit as the side holds. */
  lemma FitAll(b: int, s: int, n: nat)
    requires b >= 0 && (s == 8 || s == 4) && n == Blocks(b)
    ensures Fit(b, 0, s, (16 / s) * n) == b / s
  {
  }

  lemma MulMono(a: int, b: int, c: int, d: int)
    requires 0 <= a <= b && 0 <= c <= d
    ensures a * c <= b * d
  {
    assert a * c <= b * c;
    assert b * c <= b * d;
  }

  /** Whole cells of side k in an a by b rectangle cover no more than its area. */
  lemma WholeCells(a: int, b: int, k: int, p: int, q: int)
    requires a >= 0 && b >= 0 && k > 0 && p == a / k && q == b / k
    ensures (k * k) * (p * q) <= a * b
  {
    MulMono(k * p, a, k * q, b);
    assert (k * p) * (k * q) == (k * k) * (p * q);
  }

  lemma UnderQuotient(m: int, v: int, d: int)
    requires d == 16 || d == 64
    requires d * m <= v
    ensures m <= v / d
  {
  }

  /** Whole 4x4 cells and whole 8x8 cells of a picture, against the counts numQuadCels is made of. */
  lemma CellsUnder(xs: int, ys: int)
    requires xs >= 0 && ys >= 0
    ensures (xs / 4) * (ys / 4) <= (xs * ys) / 16
    ensures (xs / 8) * (ys / 8) <= ((xs * ys) / 16) / 4
  {
    var v := xs * ys;
    WholeCells(xs, ys, 4, xs / 4, ys / 4);
    UnderQuotient((xs / 4) * (ys / 4), v, 16);
    WholeCells(xs, ys, 8, xs / 8, ys / 8);
    UnderQuotient((xs / 8) * (ys / 8), v, 64);
    assert (v / 16) / 4 == v / 64;
  }

  lemma CellsExact(r: int, t: int)
    requires r >= 0 && t >= 0
    ensures var xs, ys := 8 * r, 8 * t;
      (xs / 8) * (ys / 8) + (xs / 4) * (ys / 4) == NumQuadCels(xs, ys) - 64
  {
    var xs, ys := 8 * r, 8 * t;
    assert xs / 8 == r && ys / 8 == t && xs / 4 == 2 * r && ys / 4 == 2 * t;
    assert xs * ys == 64 * (r * t);
    assert (2 * r) * (2 * t) == 4 * (r * t);
    assert (xs * ys) / 16 == 4 * (r * t);
  }

  /**
   * The 8x8 and 4x4 cells of a picture never outnumber numQuadCels - 64, and
   * meet it exactly when both sides are multiples of 8.
   */
  lemma CellsBound(xs: int, ys: int)
    requires xs >= 0 && ys >= 0
    ensures (xs / 8) * (ys / 8) + (xs / 4) * (ys / 4) <= NumQuadCels(xs, ys) - 64
    ensures xs % 8 == 0 && ys % 8 == 0 ==> (xs / 8) * (ys / 8) + (xs / 4) * (ys / 4) == NumQuadCels(xs, ys) - 64
  {
    CellsUnder(xs, ys);
    if xs % 8 == 0 && ys % 8 == 0 {
      CellsExact(xs / 8, ys / 8);
    }
  }

  /**
   * setupQuad lists the 8x8 and 4x4 quads of the picture; their number
   * never passes numQuadCels - 64, where the end marker starts, and meets it
   * exactly when both sides are multiples of 8.
   */
  lemma SetupCount(l: Layout)
    requires Fitted(l)
    ensures |SetupQuads(l)| == (l.xsize / 8) * (l.ysize / 8) + (l.xsize / 4) * (l.ysize / 4)
    ensures |SetupQuads(l)| <= NumQuadCels(l.xsize, l.ysize) - 64
    ensures l.xsize % 8 == 0 && l.ysize % 8 == 0 ==> |SetupQuads(l)| == NumQuadCels(l.xsize, l.ysize) - 64
  {
    var xs, ys := l.xsize, l.ysize;
    FrameCount(l, Blocks(ys));
    FitAll(xs, 8, Blocks(xs));
    FitAll(xs, 4, Blocks(xs));
    FitAll(ys, 8, Blocks(ys));
    FitAll(ys, 4, Blocks(ys));
    CellsBound(xs, ys);
  }

  /** An 8x8 quad and its quarters in blitVQQuad32fs's order: the five entries one top-level code covers. */
  function Group(x: int, y: int): seq<Quad> {
    [Quad(x, y, 8), Quad(x, y, 4), Quad(x + 4, y, 4), Quad(x, y + 4, 4), Quad(x + 4, y + 4, 4)]
  }

  /** A list made of such groups, one after the other. */
  predicate Grouped(qs: seq<Quad>)
    decreases |qs|
  {
    |qs| == 0 || (|qs| >= 5 && qs[..5] == Group(qs[0].x, qs[0].y) && Grouped(qs[5..]))
  }

  lemma {:induction false} GroupedConcat(a: seq<Quad>, b: seq<Quad>)
    requires Grouped(a) && Grouped(b)
    ensures Grouped(a + b)
    decreases |a|
  {
    if |a| > 0 {
      assert (a + b)[0] == a[0];
      assert (a + b)[..5] == a[..5];
      assert (a + b)[5..] == a[5..] + b;
      GroupedConcat(a[5..], b);
    } else {
      assert a + b == b;
    }
  }

  /** Group k of a grouped list sits at entries 5k .. 5k+4. */
  lemma {:induction false} GroupedAt(qs: seq<Quad>, k: int)
    requires Grouped(qs) && 0 <= k && 5 * k < |qs|
    ensures 5 * k + 5 <= |qs| && qs[5 * k .. 5 * k + 5] == Group(qs[5 * k].x, qs[5 * k].y)
    decreases k
  {
    if k > 0 {
      GroupedAt(qs[5..], k - 1);
      assert qs[5..][5 * (k - 1) .. 5 * (k - 1) + 5] == qs[5 * k .. 5 * k + 5];
    }
  }

  /** Alignment to 8 pixels of a quad's corner and of the picture's far sides. */
  predicate Aligned8(l: Layout, x: int, y: int) {
    x >= 0 && y >= 0 && x % 8 == 0 && y % 8 == 0 && BigX(l) % 8 == 0 && BigY(l) % 8 == 0
  }

  /** On an aligned picture an 8x8 quad is recorded together with all four quarters, or none of them is. */
  lemma Group8(l: Layout, x: int, y: int)
    requires Aligned8(l, x, y)
    ensures QuadsOf(l, x, y, 8) == GroupIf(Recorded(l, Quad(x, y, 8)), x, y)
  {
    var q := Quad(x, y, 8);
    if Recorded(l, q) {
      assert Here(l, q) == [q];
      assert Here(l, Quad(x, y, 4)) == [Quad(x, y, 4)];
      assert Here(l, Quad(x + 4, y, 4)) == [Quad(x + 4, y, 4)];
      assert Here(l, Quad(x, y + 4, 4)) == [Quad(x, y + 4, 4)];
      assert Here(l, Quad(x + 4, y + 4, 4)) == [Quad(x + 4, y + 4, 4)];
    } else {
      assert x + 8 > BigX(l) || y + 8 > BigY(l);
      assert x >= BigX(l) || y >= BigY(l);
      assert Here(l, Quad(x, y, 4)) == [];
      assert Here(l, Quad(x + 4, y, 4)) == [];
      assert Here(l, Quad(x, y + 4, 4)) == [];
      assert Here(l, Quad(x + 4, y + 4, 4)) == [];
    }
  }

  /** The group of an 8x8 quad when it is recorded. */
  function GroupIf(r: bool, x: int, y: int): seq<Quad> {
    if r then Group(x, y) else []
  }

  lemma GroupIfGrouped(r: bool, x: int, y: int)
    ensures Grouped(GroupIf(r, x, y))
  {
    if r {
      assert Group(x, y)[5..] == [];
    }
  }

  lemma GroupsGrouped(r0: bool, r1: bool, r2: bool, r3: bool, x: int, y: int)
    ensures Grouped(GroupIf(r0, x, y) + GroupIf(r1, x + 8, y) + GroupIf(r2, x, y + 8) + GroupIf(r3, x + 8, y + 8))
  {
    GroupIfGrouped(r0, x, y);
    GroupIfGrouped(r1, x + 8, y);
    GroupIfGrouped(r2, x, y + 8);
    GroupIfGrouped(r3, x + 8, y + 8);
    GroupedConcat4(GroupIf(r0, x, y), GroupIf(r1, x + 8, y), GroupIf(r2, x, y + 8), GroupIf(r3, x + 8, y + 8));
  }

  lemma Grouped16(l: Layout, x: int, y: int)
    requires Aligned8(l, x, y)
    ensures Grouped(QuadsOf(l, x, y, 16))
  {
    Split16(l, x, y);
    Aligned8Next(l, x, y);
    Group8(l, x, y);
    Group8(l, x + 8, y);
    Group8(l, x, y + 8);
    Group8(l, x + 8, y + 8);
    GroupsGrouped(Recorded(l, Quad(x, y, 8)), Recorded(l, Quad(x + 8, y, 8)), Recorded(l, Quad(x, y + 8, 8)),
                  Recorded(l, Quad(x + 8, y + 8, 8)), x, y);
  }

  /** The other three quarters of an aligned 16x16 block are aligned too. */
  lemma Aligned8Next(l: Layout, x: int, y: int)
    requires Aligned8(l, x, y)
    ensures Aligned8(l, x + 8, y) && Aligned8(l, x, y + 8) && Aligned8(l, x + 8, y + 8)
  {
    assert (x + 8) % 8 == x % 8 && (y + 8) % 8 == y % 8;
  }

  /** A 16x16 block is never recorded itself: its list is its quarters' lists. */
  lemma Split16(l: Layout, x: int, y: int)
    ensures QuadsOf(l, x, y, 16) == QuadsOf(l, x, y, 8) + QuadsOf(l, x + 8, y, 8) + QuadsOf(l, x, y + 8, 8) + QuadsOf(l, x + 8, y + 8, 8)
  {
    QuadsOfSplit(l, x, y, 16);
    assert Here(l, Quad(x, y, 16)) == [];
    assert [] + QuartersOf(l, x, y, 16) == QuartersOf(l, x, y, 16);
  }

  lemma GroupedConcat4(a: seq<Quad>, b: seq<Quad>, c: seq<Quad>, d: seq<Quad>)
    requires Grouped(a) && Grouped(b) && Grouped(c) && Grouped(d)
    ensures Grouped(a + b + c + d)
  {
    GroupedConcat(a, b);
    GroupedConcat(a + b, c);
    GroupedConcat(a + b + c, d);
  }

  lemma {:induction false} RowGrouped(l: Layout, y: int, n: nat)
    requires Aligned8(l, 0, y)
    ensures Grouped(RowQuads(l, y, n))
  {
    if n > 0 {
      RowGrouped(l, y, n - 1);
      Grouped16(l, 16 * (n - 1), y);
      GroupedConcat(RowQuads(l, y, n - 1), QuadsOf(l, 16 * (n - 1), y, 16));
    }
  }

  lemma {:induction false} FrameGrouped(l: Layout, m: nat)
    requires Aligned8(l, 0, 0)
    ensures Grouped(FrameQuads(l, m))
  {
    if m > 0 {
      FrameGrouped(l, m - 1);
      RowGrouped(l, 16 * (m - 1), Blocks(l.xsize));
      GroupedConcat(FrameQuads(l, m - 1), RowQuads(l, 16 * (m - 1), Blocks(l.xsize)));
    }
  }

  /**
   * With both sides multiples of 8, setupQuad's list is made of groups of
   * five, an 8x8 quad and then its four quarters, which is how
   * blitVQQuad32fs's index moves through it: five entries for every
   * top-level code. The list is as long as numQuadCels - 64.
   */
  lemma SetupGrouped(l: Layout)
    requires Fitted(l) && l.xsize % 8 == 0 && l.ysize % 8 == 0
    ensures var qs := SetupQuads(l);
      && |qs| == NumQuadCels(l.xsize, l.ysize) - 64 && |qs| % 5 == 0
      && forall k :: 0 <= k < |qs| / 5 ==> qs[5 * k .. 5 * k + 5] == Group(qs[5 * k].x, qs[5 * k].y)
  {
    var qs := SetupQuads(l);
    FrameGrouped(l, Blocks(l.ysize));
    SetupCount(l);
    GroupedLength(qs);
    forall k | 0 <= k < |qs| / 5
      ensures qs[5 * k .. 5 * k + 5] == Group(qs[5 * k].x, qs[5 * k].y)
    {
      GroupedAt(qs, k);
    }
  }

  lemma {:induction false} GroupedLength(qs: seq<Quad>)
    requires Grouped(qs)
    ensures |qs| % 5 == 0
    decreases |qs|
  {
    if |qs| > 0 {
      GroupedLength(qs[5..]);
    }
  }

  /** The layout readQuadInfo leaves: the buffer is the picture, 4 bytes a pixel. */
  predicate Fitted(l: Layout) {
    && l.cinWidth == l.xsize && l.cinHeight == l.ysize && l.xsize >= 0 && l.ysize >= 0
    && l.samplesPerPixel == 4 && l.samplesPerLine == l.xsize * 4
  }

  /** A block of `size` rows of `size` pixels at byte offset `off` lies inside a frame buffer. */
  predicate BlockInFrame(l: Layout, off: int, size: int) {
    0 <= off && off + (size - 1) * l.samplesPerLine + size * l.samplesPerPixel <= l.ysize * l.samplesPerLine
  }

  lemma MulLeft(a: int, b: int, c: int)
    requires a <= b && c >= 0
    ensures a * c <= b * c
  {
  }

  /**
   * On the fitted layout with no shift, a recorded quad's pixels all lie in
   * the first frame buffer, and so its twin, screenDelta further on, lies
   * in the second one.
   */
  lemma RecordedInFrame(l: Layout, q: Quad)
    requires Fitted(l) && Recorded(l, q)
    ensures BlockInFrame(l, QuadOffset(l, q, 0, 0), q.size)
  {
    var spl := l.samplesPerLine;
    assert QuadOffset(l, q, 0, 0) == q.y * spl + q.x * 4;
    assert q.y * spl >= 0;
    MulLeft(q.y + q.size - 1, l.ysize - 1, spl);
    assert (q.y + q.size - 1) * spl == q.y * spl + (q.size - 1) * spl;
    assert (l.ysize - 1) * spl + spl == l.ysize * spl;
  }

  /** Every offset setupQuad lists touches only the first frame buffer. */
  lemma SetupInFrame(l: Layout)
    requires Fitted(l)
    ensures var qs := SetupQuads(l);
      forall k :: 0 <= k < |qs| ==> BlockInFrame(l, Offsets(l, qs, 0, 0)[k], qs[k].size)
  {
    var qs := SetupQuads(l);
    FrameRecorded(l, Blocks(l.ysize));
    forall k | 0 <= k < |qs|
      ensures BlockInFrame(l, Offsets(l, qs, 0, 0)[k], qs[k].size)
    {
      RecordedInFrame(l, qs[k]);
      OffsetsAt(l, qs, 0, 0, k);
    }
  }

  /** The offsets of two lists one after the other are the offsets of each, one after the other. */
  lemma OffsetsConcat(l: Layout, a: seq<Quad>, b: seq<Quad>, xOff: int, yOff: int, delta: int)
    ensures Offsets(l, a + b, xOff, yOff) == Offsets(l, a, xOff, yOff) + Offsets(l, b, xOff, yOff)
    ensures Shifted(Offsets(l, a + b, xOff, yOff), delta)
         == Shifted(Offsets(l, a, xOff, yOff), delta) + Shifted(Offsets(l, b, xOff, yOff), delta)
  {
    var oa, ob := Offsets(l, a, xOff, yOff), Offsets(l, b, xOff, yOff);
    forall k | 0 <= k < |a + b|
      ensures Offsets(l, a + b, xOff, yOff)[k] == (oa + ob)[k]
    {
      OffsetsAt(l, a + b, xOff, yOff, k);
      if k < |a| {
        OffsetsAt(l, a, xOff, yOff, k);
      } else {
        OffsetsAt(l, b, xOff, yOff, k - |a|);
      }
    }
    ShiftedConcat(oa, ob, delta);
  }

  /** Shifting two lists one after the other shifts each. */
  lemma ShiftedConcat(s: seq<int>, t: seq<int>, delta: int)
    ensures Shifted(s + t, delta) == Shifted(s, delta) + Shifted(t, delta)
  {
    var ss, st := Shifted(s, delta), Shifted(t, delta);
    forall k | 0 <= k < |s + t|
      ensures Shifted(s + t, delta)[k] == (ss + st)[k]
    {
      ShiftedAt(s + t, delta, k);
      if k < |s| {
        ShiftedAt(s, delta, k);
      } else {
        ShiftedAt(t, delta, k - |s|);
      }
    }
  }

  /** setupQuad's loops: a block row starts every 16 rows while the rows last. */
  lemma BlocksStep(s: int, m: nat)
    requires 16 * m <= s || m <= Blocks(s)
    ensures 16 * m < s <==> m < Blocks(s)
  {
  }

  /** Later block rows and blocks only add to the list. */
  lemma {:induction false} RowGrows(l: Layout, y: int, n: nat, n2: nat)
    requires n <= n2
    ensures |RowQuads(l, y, n)| <= |RowQuads(l, y, n2)|
    decreases n2
  {
    if n < n2 {
      RowGrows(l, y, n, n2 - 1);
    }
  }

  lemma {:induction false} FrameGrows(l: Layout, m: nat, m2: nat)
    requires m <= m2
    ensures |FrameQuads(l, m)| <= |FrameQuads(l, m2)|
    decreases m2
  {
    if m < m2 {
      FrameGrows(l, m, m2 - 1);
    }
  }
}
