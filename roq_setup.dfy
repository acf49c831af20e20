/**
 * setupQuad and recurseQuad on the two quad lists: each 16x16 block of the
 * picture is split into its 8x8 and 4x4 quads, and every quad that lies in
 * the picture gets its offset in the first frame buffer in list 0 and the
 * offset `delta` bytes on, in the second buffer, in list 1.
 */
module RoqSetup {
  import opened RoqFormat
  import opened RoqQuad
  import opened RoqVq

  /** The number of entries of each quad list. */
  const QSTATUS_SIZE: int := 32768

  /** The two quad lists: their size, and two different arrays. */
  predicate ListsOk(q0: array<int>, q1: array<int>) {
    q0.Length == QSTATUS_SIZE && q1.Length == QSTATUS_SIZE && q0 != q1
  }

  /** A list whose entries from `on` on are `vals`, the others as in `s`. */
  function Written(s: seq<int>, on: int, vals: seq<int>): (r: seq<int>)
    requires 0 <= on && on + |vals| <= |s|
    ensures |r| == |s|
  {
    s[..on] + vals + s[on + |vals|..]
  }

  /** Entry k of a written list: from `vals` inside the stretch written, from `s` elsewhere. */
  lemma WrittenAt(s: seq<int>, on: int, vals: seq<int>, k: int)
    requires 0 <= on && on + |vals| <= |s| && 0 <= k < |s|
    ensures Written(s, on, vals)[k] == if on <= k < on + |vals| then vals[k - on] else s[k]
  {
  }

  /** Writing `a` and then `b` right after it is writing `a + b`. */
  lemma WrittenConcat(s: seq<int>, on: int, a: seq<int>, b: seq<int>)
    requires 0 <= on && on + |a| + |b| <= |s|
    ensures Written(Written(s, on, a), on + |a|, b) == Written(s, on, a + b)
  {
    var l, r := Written(Written(s, on, a), on + |a|, b), Written(s, on, a + b);
    forall k | 0 <= k < |s|
      ensures l[k] == r[k]
    {
      WrittenAt(Written(s, on, a), on + |a|, b, k);
      WrittenAt(s, on, a, k);
      WrittenAt(s, on, a + b, k);
    }
  }

  /** Entries lo .. hi of a list set to NULL, setupQuad's end marker. */
  function Nulled(s: seq<int>, lo: int, hi: int): (r: seq<int>)
    requires 0 <= lo <= hi <= |s|
    ensures |r| == |s|
    ensures forall k :: 0 <= k < |s| ==> r[k] == if lo <= k < hi then NULL else s[k]
  {
    s[..lo] + seq(hi - lo, _ => NULL) + s[hi..]
  }

  /**
   * recurseQuad: the quads of the square of `size` pixels at (x, y) that
   * lie inside the picture go into both quad lists from entry `on` on, a
   * quad before its quarters: their offsets in the first buffer, and the
   * same offsets delta bytes on in the second. The rest of the lists
   * is left alone; `on1` is onQuad afterwards.
   */
  method RecurseQuad(q0: array<int>, q1: array<int>, l: Layout, delta: int, x: int, y: int, size: int, xOff: int, yOff: int, on: int) returns (on1: int)
    requires ListsOk(q0, q1) && QuadSize(size) && 0 <= on && on + |QuadsOf(l, x, y, size)| <= QSTATUS_SIZE
    modifies q0, q1
    ensures on1 == on + |QuadsOf(l, x, y, size)|
    ensures q0[..] == Written(old(q0[..]), on, Offsets(l, QuadsOf(l, x, y, size), xOff, yOff))
    ensures q1[..] == Written(old(q1[..]), on, Shifted(Offsets(l, QuadsOf(l, x, y, size), xOff, yOff), delta))
    decreases size, 2
  {
    ghost var s0, s1 := q0[..], q1[..];
    ghost var here := Here(l, Quad(x, y, size));
    ghost var rest := if size == MINSIZE then [] else QuartersOf(l, x, y, size);
    if size != MINSIZE {
      QuadsOfSplit(l, x, y, size);
    } else {
      assert QuadsOf(l, x, y, size) == here + rest;
    }
    on1 := RecordQuad(q0, q1, l, delta, x, y, size, xOff, yOff, on);
    ghost var mid, m0, m1 := on1, q0[..], q1[..];
    if size != MINSIZE {
      on1 := RecurseQuarters(q0, q1, l, delta, x, y, size, xOff, yOff, on1);
    }
    OffsetsConcat(l, here, rest, xOff, yOff, delta);
    WrittenTwice(s0, m0, q0[..], on, mid, Offsets(l, here, xOff, yOff), Offsets(l, rest, xOff, yOff),
                 Offsets(l, QuadsOf(l, x, y, size), xOff, yOff));
    WrittenTwice(s1, m1, q1[..], on, mid, Shifted(Offsets(l, here, xOff, yOff), delta), Shifted(Offsets(l, rest, xOff, yOff), delta),
                 Shifted(Offsets(l, QuadsOf(l, x, y, size), xOff, yOff), delta));
  }

  /** recurseQuad's four calls on the quarters of a square above MINSIZE, after the square's own entry. */
  method RecurseQuarters(q0: array<int>, q1: array<int>, l: Layout, delta: int, x: int, y: int, size: int, xOff: int, yOff: int, mid: int) returns (on1: int)
    requires ListsOk(q0, q1) && (size == 16 || size == 8) && 0 <= mid && mid + |QuartersOf(l, x, y, size)| <= QSTATUS_SIZE
    modifies q0, q1
    ensures on1 == mid + |QuartersOf(l, x, y, size)|
    ensures q0[..] == Written(old(q0[..]), mid, Offsets(l, QuartersOf(l, x, y, size), xOff, yOff))
    ensures q1[..] == Written(old(q1[..]), mid, Shifted(Offsets(l, QuartersOf(l, x, y, size), xOff, yOff), delta))
    decreases size, 1
  {
    var h := size / 2;
    ghost var top := QuadsOf(l, x, y, h) + QuadsOf(l, x + h, y, h);
    ghost var bottom := QuadsOf(l, x, y + h, h) + QuadsOf(l, x + h, y + h, h);
    Assoc4(QuadsOf(l, x, y, h), QuadsOf(l, x + h, y, h), QuadsOf(l, x, y + h, h), QuadsOf(l, x + h, y + h, h));
    assert QuartersOf(l, x, y, size) == top + bottom;
    ghost var s0, s1 := q0[..], q1[..];
    var o2 := TwoQuarters(q0, q1, l, delta, x, y, x + h, y, h, xOff, yOff, mid);
    ghost var m0, m1 := q0[..], q1[..];
    on1 := TwoQuarters(q0, q1, l, delta, x, y + h, x + h, y + h, h, xOff, yOff, o2);
    OffsetsConcat(l, top, bottom, xOff, yOff, delta);
    WrittenTwice(s0, m0, q0[..], mid, o2, Offsets(l, top, xOff, yOff), Offsets(l, bottom, xOff, yOff),
                 Offsets(l, QuartersOf(l, x, y, size), xOff, yOff));
    WrittenTwice(s1, m1, q1[..], mid, o2, Shifted(Offsets(l, top, xOff, yOff), delta), Shifted(Offsets(l, bottom, xOff, yOff), delta),
                 Shifted(Offsets(l, QuartersOf(l, x, y, size), xOff, yOff), delta));
  }

  /** Two writes, the second right after the first, are one write of both. */
  lemma WrittenTwice(s: seq<int>, m: seq<int>, r: seq<int>, on: int, mid: int, a: seq<int>, b: seq<int>, ab: seq<int>)
    requires 0 <= on && mid == on + |a| && mid + |b| <= |s| && ab == a + b
    requires m == Written(s, on, a) && r == Written(m, mid, b)
    ensures r == Written(s, on, ab)
  {
    WrittenConcat(s, on, a, b);
  }

  lemma Assoc4(a: seq<Quad>, b: seq<Quad>, c: seq<Quad>, d: seq<Quad>)
    ensures a + b + c + d == (a + b) + (c + d)
  {
  }

  /** Two of recurseQuad's calls on quarters of side `h`, at (x0, y0) and then at (x1, y1). */
  method TwoQuarters(q0: array<int>, q1: array<int>, l: Layout, delta: int, x0: int, y0: int, x1: int, y1: int, h: int,
                     xOff: int, yOff: int, on: int) returns (on1: int)
    requires ListsOk(q0, q1) && (h == 8 || h == MINSIZE) && 0 <= on
    requires on + |QuadsOf(l, x0, y0, h)| + |QuadsOf(l, x1, y1, h)| <= QSTATUS_SIZE
    modifies q0, q1
    ensures on1 == on + |QuadsOf(l, x0, y0, h) + QuadsOf(l, x1, y1, h)|
    ensures q0[..] == Written(old(q0[..]), on, Offsets(l, QuadsOf(l, x0, y0, h) + QuadsOf(l, x1, y1, h), xOff, yOff))
    ensures q1[..] == Written(old(q1[..]), on, Shifted(Offsets(l, QuadsOf(l, x0, y0, h) + QuadsOf(l, x1, y1, h), xOff, yOff), delta))
    decreases h, 3
  {
    ghost var a, b := QuadsOf(l, x0, y0, h), QuadsOf(l, x1, y1, h);
    ghost var s0, s1 := q0[..], q1[..];
    var o := RecurseQuad(q0, q1, l, delta, x0, y0, h, xOff, yOff, on);
    ghost var m0, m1 := q0[..], q1[..];
    on1 := RecurseQuad(q0, q1, l, delta, x1, y1, h, xOff, yOff, o);
    OffsetsConcat(l, a, b, xOff, yOff, delta);
    WrittenTwice(s0, m0, q0[..], on, o, Offsets(l, a, xOff, yOff), Offsets(l, b, xOff, yOff), Offsets(l, a + b, xOff, yOff));
    WrittenTwice(s1, m1, q1[..], on, o, Shifted(Offsets(l, a, xOff, yOff), delta), Shifted(Offsets(l, b, xOff, yOff), delta),
                 Shifted(Offsets(l, a + b, xOff, yOff), delta));
  }

  /** recurseQuad's test and record: the quad itself, when it lies inside the picture and is at most MAXSIZE. */
  method RecordQuad(q0: array<int>, q1: array<int>, l: Layout, delta: int, x: int, y: int, size: int, xOff: int, yOff: int, on: int) returns (on1: int)
    requires ListsOk(q0, q1) && 0 <= on && on + |Here(l, Quad(x, y, size))| <= QSTATUS_SIZE
    modifies q0, q1
    ensures on1 == on + |Here(l, Quad(x, y, size))|
    ensures q0[..] == Written(old(q0[..]), on, Offsets(l, Here(l, Quad(x, y, size)), xOff, yOff))
    ensures q1[..] == Written(old(q1[..]), on, Shifted(Offsets(l, Here(l, Quad(x, y, size)), xOff, yOff), delta))
  {
    var bigx, bigy := l.xsize, l.ysize;
    if bigx > l.cinWidth {
      bigx := l.cinWidth;
    }
    if bigy > l.cinHeight {
      bigy := l.cinHeight;
    }
    on1 := on;
    if x >= 0 && x + size <= bigx && y + size <= bigy && y >= 0 && size <= MAXSIZE {
      var scroff := (y + (l.cinHeight - bigy) / 2 + yOff) * l.samplesPerLine + (x + xOff) * l.samplesPerPixel;
      q0[on1] := scroff;
      q1[on1] := scroff + delta;
      on1 := on1 + 1;
    }
  }

  /**
   * setupQuad: recurseQuad on every 16x16 block, row by row, from entry 0
   * on; then the 64 entries from numQuadCels - 64 on are set to NULL in
   * both lists, the end marker. Entries between the last quad and the
   * marker keep what they held. `onQuad` is the number of quads listed.
   */
  method SetupQuad(q0: array<int>, q1: array<int>, l: Layout, delta: int, xOff: int, yOff: int) returns (onQuad: int)
    requires ListsOk(q0, q1) && Fitted(l) && NumQuadCels(l.xsize, l.ysize) <= QSTATUS_SIZE
    modifies q0, q1
    ensures var n := NumQuadCels(l.xsize, l.ysize);
      && onQuad == |SetupQuads(l)| <= n - 64
      && q0[..] == Nulled(Written(old(q0[..]), 0, Offsets(l, SetupQuads(l), xOff, yOff)), n - 64, n)
      && q1[..] == Nulled(Written(old(q1[..]), 0, Shifted(Offsets(l, SetupQuads(l), xOff, yOff), delta)), n - 64, n)
  {
    ghost var s0, s1 := q0[..], q1[..];
    ghost var rows, cols := Blocks(l.ysize), Blocks(l.xsize);
    SetupCount(l);
    FrameGrows(l, 0, rows);
    assert Written(s0, 0, Offsets(l, [], xOff, yOff)) == s0;
    assert Written(s1, 0, Shifted(Offsets(l, [], xOff, yOff), delta)) == s1;
    onQuad := 0;
    var y := 0;
    ghost var m := 0;
    while y < l.ysize
      invariant 0 <= m <= rows && y == 16 * m && (m < rows <==> y < l.ysize)
      invariant onQuad == |FrameQuads(l, m)| <= |SetupQuads(l)|
      invariant q0[..] == Written(s0, 0, Offsets(l, FrameQuads(l, m), xOff, yOff))
      invariant q1[..] == Written(s1, 0, Shifted(Offsets(l, FrameQuads(l, m), xOff, yOff), delta))
      decreases rows - m
    {
      BlocksStep(l.ysize, m);
      FrameGrows(l, m + 1, rows);
      onQuad := SetupRow(q0, q1, l, delta, y, xOff, yOff, onQuad, s0, s1, m);
      y := y + 16;
      m := m + 1;
      BlocksStep(l.ysize, m);
    }
    var numQuadCels := (l.xsize * l.ysize) / 16;
    numQuadCels := numQuadCels + numQuadCels / 4;
    numQuadCels := numQuadCels + 64;
    EndMarker(q0, q1, numQuadCels - 64, numQuadCels);
  }

  /** setupQuad's last loop: entries lo .. hi - 1 of both lists become NULL. */
  method EndMarker(q0: array<int>, q1: array<int>, lo: int, hi: int)
    requires ListsOk(q0, q1) && 0 <= lo <= hi <= QSTATUS_SIZE
    modifies q0, q1
    ensures q0[..] == Nulled(old(q0[..]), lo, hi) && q1[..] == Nulled(old(q1[..]), lo, hi)
  {
    var i := lo;
    while i < hi
      invariant lo <= i <= hi
      invariant q0[..] == Nulled(old(q0[..]), lo, i) && q1[..] == Nulled(old(q1[..]), lo, i)
    {
      q0[i] := NULL;
      q1[i] := NULL;
      i := i + 1;
    }
  }

  /** setupQuad's inner loop: the blocks of the block row `m`, at y = 16m, after the rows above it. */
  method SetupRow(q0: array<int>, q1: array<int>, l: Layout, delta: int, y: int, xOff: int, yOff: int, on: int,
                  ghost s0: seq<int>, ghost s1: seq<int>, ghost m: nat) returns (on1: int)
    requires ListsOk(q0, q1) && |s0| == |s1| == QSTATUS_SIZE && y == 16 * m
    requires on == |FrameQuads(l, m)| && |FrameQuads(l, m + 1)| <= QSTATUS_SIZE
    requires q0[..] == Written(s0, 0, Offsets(l, FrameQuads(l, m), xOff, yOff))
    requires q1[..] == Written(s1, 0, Shifted(Offsets(l, FrameQuads(l, m), xOff, yOff), delta))
    modifies q0, q1
    ensures on1 == |FrameQuads(l, m + 1)|
    ensures q0[..] == Written(s0, 0, Offsets(l, FrameQuads(l, m + 1), xOff, yOff))
    ensures q1[..] == Written(s1, 0, Shifted(Offsets(l, FrameQuads(l, m + 1), xOff, yOff), delta))
  {
    ghost var cols := Blocks(l.xsize);
    ghost var above := FrameQuads(l, m);
    assert FrameQuads(l, m + 1) == above + RowQuads(l, y, cols);
    RowGrows(l, y, 0, cols);
    assert above + RowQuads(l, y, 0) == above;
    on1 := on;
    var x := 0;
    ghost var n := 0;
    while x < l.xsize
      invariant 0 <= n <= cols && x == 16 * n && (n < cols <==> x < l.xsize)
      invariant on1 == |above + RowQuads(l, y, n)| && |RowQuads(l, y, n)| <= |RowQuads(l, y, cols)|
      invariant q0[..] == Written(s0, 0, Offsets(l, above + RowQuads(l, y, n), xOff, yOff))
      invariant q1[..] == Written(s1, 0, Shifted(Offsets(l, above + RowQuads(l, y, n), xOff, yOff), delta))
      decreases cols - n
    {
      BlocksStep(l.xsize, n);
      RowGrows(l, y, n + 1, cols);
      on1 := SetupBlock(q0, q1, l, delta, x, y, xOff, yOff, on1, s0, s1, above, n);
      x := x + 16;
      n := n + 1;
      BlocksStep(l.xsize, n);
    }
  }

  /** One pass of setupQuad's inner loop: recurseQuad on the block at (16n, y), listed after `above` and the row's first `n` blocks. */
  method SetupBlock(q0: array<int>, q1: array<int>, l: Layout, delta: int, x: int, y: int, xOff: int, yOff: int, on: int,
                    ghost s0: seq<int>, ghost s1: seq<int>, ghost above: seq<Quad>, ghost n: nat) returns (on1: int)
    requires ListsOk(q0, q1) && |s0| == |s1| == QSTATUS_SIZE && x == 16 * n
    requires on == |above + RowQuads(l, y, n)| && |above + RowQuads(l, y, n + 1)| <= QSTATUS_SIZE
    requires q0[..] == Written(s0, 0, Offsets(l, above + RowQuads(l, y, n), xOff, yOff))
    requires q1[..] == Written(s1, 0, Shifted(Offsets(l, above + RowQuads(l, y, n), xOff, yOff), delta))
    modifies q0, q1
    ensures on1 == |above + RowQuads(l, y, n + 1)|
    ensures q0[..] == Written(s0, 0, Offsets(l, above + RowQuads(l, y, n + 1), xOff, yOff))
    ensures q1[..] == Written(s1, 0, Shifted(Offsets(l, above + RowQuads(l, y, n + 1), xOff, yOff), delta))
  {
    ghost var done := above + RowQuads(l, y, n);
    ghost var block := QuadsOf(l, x, y, 16);
    assert RowQuads(l, y, n + 1) == RowQuads(l, y, n) + block;
    assert above + RowQuads(l, y, n + 1) == done + block;
    ghost var m0, m1 := q0[..], q1[..];
    on1 := RecurseQuad(q0, q1, l, delta, x, y, 16, xOff, yOff, on);
    OffsetsConcat(l, done, block, xOff, yOff, delta);
    WrittenTwice(s0, m0, q0[..], 0, on, Offsets(l, done, xOff, yOff), Offsets(l, block, xOff, yOff),
                 Offsets(l, done + block, xOff, yOff));
    WrittenTwice(s1, m1, q1[..], 0, on, Shifted(Offsets(l, done, xOff, yOff), delta), Shifted(Offsets(l, block, xOff, yOff), delta),
                 Shifted(Offsets(l, done + block, xOff, yOff), delta));
  }
}
