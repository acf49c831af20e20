/**
 * The codebook decodeCodeBook builds, in 32-bit words: 2x2 entries of four
 * colours converted from Y Y Y Y Cr Cb bytes, 4x4 entries made of four 2x2
 * entries, and 8x8 entries that are the 4x4 ones with every pixel
 * doubled. Entries are stored row by row.
 */
module RoqCodebook {
  import opened RoqBytes
  import opened RoqColor

  /** Word (r, c) of entry `e` of the 2x2, 4x4 and 8x8 tables. */
  function At2(e: int, r: int, c: int): int {
    4 * e + 2 * r + c
  }

  function At4(e: int, r: int, c: int): int {
    16 * e + 4 * r + c
  }

  function At8(e: int, r: int, c: int): int {
    64 * e + 8 * r + c
  }

  /** The 2x2 entry converted from six bytes Y Y Y Y Cr Cb: each luma byte with the two chroma bytes. */
  function Entry2(t: ChromaTables, six: seq<Byte>): (e: seq<int>)
    requires TablesOk(t) && |six| == 6
    ensures |e| == 4
  {
    seq(4, k requires 0 <= k < 4 => YuvToRgb24(t, six[k], six[4], six[5]))
  }

  /**
   * The first `n` entries of the 2x2 table are converted from the input:
   * entry i, its four words from At2(i, 0, 0) on, from the i-th six bytes.
   */
  predicate Vq2Filled(t: ChromaTables, input: seq<Byte>, vq2: seq<int>, n: nat)
    requires TablesOk(t)
  {
    && 4 * n <= |vq2| && 6 * n <= |input|
    && forall i :: 0 <= i < n ==> vq2[4 * i .. 4 * i + 4] == Entry2(t, input[6 * i .. 6 * i + 6])
  }

  /** In a filled table, pixel (r, c) of entry i is luma byte 2r + c of its six with the entry's chroma bytes. */
  lemma Vq2Pixel(t: ChromaTables, input: seq<Byte>, vq2: seq<int>, n: nat, i: nat, r: nat, c: nat)
    requires TablesOk(t) && Vq2Filled(t, input, vq2, n) && i < n && r < 2 && c < 2
    ensures vq2[At2(i, r, c)] == YuvToRgb24(t, input[6 * i + 2 * r + c], input[6 * i + 4], input[6 * i + 5])
  {
    var six, k := input[6 * i .. 6 * i + 6], 2 * r + c;
    var y, u, v := input[6 * i + k], input[6 * i + 4], input[6 * i + 5];
    assert six[k] == y && six[4] == u && six[5] == v;
    assert vq2[4 * i .. 4 * i + 4] == Entry2(t, six);
    assert At2(i, r, c) == 4 * i + k;
    WordOfSlice(vq2, 4 * i, 4, k);
    assert Entry2(t, six)[k] == YuvToRgb24(t, y, u, v);
  }

  /** Word k of the n words from `a` on is word a + k. */
  lemma WordOfSlice(s: seq<int>, a: int, n: int, k: int)
    requires 0 <= a && a + n <= |s| && 0 <= k < n
    ensures s[a .. a + n][k] == s[a + k]
  {
  }

  /** The 2x2 entry `k` (0 left, 1 right) of 4x4 half-entry `i` names: the input bytes after the 2x2 entries. */
  function Named(input: seq<Byte>, two: nat, i: nat, k: nat): Byte
    requires 6 * two + 2 * i + k < |input|
  {
    input[6 * two + 2 * i + k]
  }

  /** Row `j` of the 2x2 entries `a` and `b` side by side: the four words one VQ2TO4 pass puts in the 4x4 table. */
  function Row4(vq2: seq<int>, a: Byte, b: Byte, j: int): (r: seq<int>)
    requires |vq2| >= 1024 && 0 <= j < 2
    ensures |r| == 4
  {
    [vq2[At2(a, j, 0)], vq2[At2(a, j, 1)], vq2[At2(b, j, 0)], vq2[At2(b, j, 1)]]
  }

  /** Every word of `s` twice over. */
  function Doubled(s: seq<int>): (r: seq<int>)
    ensures |r| == 2 * |s|
    ensures forall k :: 0 <= k < |r| ==> r[k] == s[k / 2]
  {
    if s == [] then [] else [s[0], s[0]] + Doubled(s[1..])
  }

  /**
   * The first `n` half-entries of the 4x4 table are built by VQ2TO4: half
   * i is row 0 and then row 1 of the two 2x2 entries it names, side by side.
   */
  predicate Vq4Built(input: seq<Byte>, two: nat, vq2: seq<int>, vq4: seq<int>, n: nat) {
    && 8 * n <= |vq4| && 6 * two + 2 * n <= |input| && |vq2| >= 1024
    && forall i :: 0 <= i < n ==>
         vq4[8 * i .. 8 * i + 8] == Row4(vq2, Named(input, two, i, 0), Named(input, two, i, 1), 0)
                                   + Row4(vq2, Named(input, two, i, 0), Named(input, two, i, 1), 1)
  }

  /**
   * The first `n` half-entries of the 8x8 table are built by VQ2TO4: half
   * i is the same two rows with every word doubled, each row twice.
   */
  predicate Vq8Built(input: seq<Byte>, two: nat, vq2: seq<int>, vq8: seq<int>, n: nat) {
    && 32 * n <= |vq8| && 6 * two + 2 * n <= |input| && |vq2| >= 1024
    && forall i :: 0 <= i < n ==>
         var r0 := Row4(vq2, Named(input, two, i, 0), Named(input, two, i, 1), 0);
         var r1 := Row4(vq2, Named(input, two, i, 0), Named(input, two, i, 1), 1);
         vq8[32 * i .. 32 * i + 32] == Doubled(r0) + Doubled(r0) + Doubled(r1) + Doubled(r1)
  }

  /**
   * The 4x4 entry `e` is a 2x2 grid of 2x2 entries: its quarter
   * (r / 2, c / 2) is the 2x2 entry named by input byte
   * 6 * two + 4e + 2(r / 2) + c / 2, the bytes after the 2x2 entries' own.
   */
  lemma FourFromTwos(input: seq<Byte>, two: nat, vq2: seq<int>, vq4: seq<int>, n4: nat, e: nat, r: nat, c: nat)
    requires Vq4Built(input, two, vq2, vq4, 2 * n4)
    requires e < n4 && r < 4 && c < 4
    ensures 6 * two + 4 * e + 2 * (r / 2) + c / 2 < |input| && At4(e, r, c) < |vq4|
    ensures 0 <= At2(input[6 * two + 4 * e + 2 * (r / 2) + c / 2], r % 2, c % 2) < |vq2|
    ensures vq4[At4(e, r, c)] == vq2[At2(input[6 * two + 4 * e + 2 * (r / 2) + c / 2], r % 2, c % 2)]
  {
    var h, rr := if r < 2 then 0 else 1, if r < 2 then r else r - 2;
    var hc, cc := if c < 2 then 0 else 1, if c < 2 then c else c - 2;
    assert r / 2 == h && r % 2 == rr && c / 2 == hc && c % 2 == cc;
    var i := 2 * e + h;
    var a, b := Named(input, two, i, 0), Named(input, two, i, 1);
    assert vq4[8 * i .. 8 * i + 8] == Row4(vq2, a, b, 0) + Row4(vq2, a, b, 1);
    FourAtHalf(vq2, vq4, a, b, e, h, rr, c);
    assert (if c < 2 then a else b) == input[6 * two + 4 * e + 2 * h + hc];
  }

  /** The same, for the tables' words, given half-entry 2e + h of the 4x4 table built from a and b. */
  lemma FourAtHalf(vq2: seq<int>, vq4: seq<int>, a: Byte, b: Byte, e: nat, h: nat, rr: nat, c: nat)
    requires |vq2| >= 1024 && h < 2 && rr < 2 && c < 4 && 8 * (2 * e + h) + 8 <= |vq4|
    requires vq4[8 * (2 * e + h) .. 8 * (2 * e + h) + 8] == Row4(vq2, a, b, 0) + Row4(vq2, a, b, 1)
    ensures vq4[At4(e, 2 * h + rr, c)] == if c < 2 then vq2[At2(a, rr, c)] else vq2[At2(b, rr, c - 2)]
  {
    var i := 2 * e + h;
    assert At4(e, 2 * h + rr, c) == 8 * i + (4 * rr + c);
    WordOfSlice(vq4, 8 * i, 8, 4 * rr + c);
    RowOfFour(Row4(vq2, a, b, 0), Row4(vq2, a, b, 1), rr, c);
    Row4At(vq2, a, b, rr, c);
  }

  /** Word c of row j of the 2x2 entries a and b side by side: a's for c < 2, b's after. */
  lemma Row4At(vq2: seq<int>, a: Byte, b: Byte, j: int, c: int)
    requires |vq2| >= 1024 && 0 <= j < 2 && 0 <= c < 4
    ensures Row4(vq2, a, b, j)[c] == if c < 2 then vq2[At2(a, j, c)] else vq2[At2(b, j, c - 2)]
  {
  }

  /**
   * The 8x8 entry `e` is the 4x4 entry `e` with every pixel doubled across
   * and down: pixel (r, c) of the 4x4 entry fills pixels 2r .. 2r + 1 by
   * 2c .. 2c + 1 of the 8x8 one.
   */
  lemma EightIsFourDoubled(input: seq<Byte>, two: nat, vq2: seq<int>, vq4: seq<int>, vq8: seq<int>,
                           n4: nat, e: nat, r: nat, dr: nat, c: nat, dc: nat)
    requires Vq4Built(input, two, vq2, vq4, 2 * n4) && Vq8Built(input, two, vq2, vq8, 2 * n4)
    requires e < n4 && r < 4 && dr < 2 && c < 4 && dc < 2
    ensures At8(e, 2 * r + dr, 2 * c + dc) < |vq8| && At4(e, r, c) < |vq4|
    ensures vq8[At8(e, 2 * r + dr, 2 * c + dc)] == vq4[At4(e, r, c)]
  {
    var h := if r < 2 then 0 else 1;
    var rr := r - 2 * h;
    var i := 2 * e + h;
    var a, b := Named(input, two, i, 0), Named(input, two, i, 1);
    var r0, r1 := Row4(vq2, a, b, 0), Row4(vq2, a, b, 1);
    assert vq8[32 * i .. 32 * i + 32] == Doubled(r0) + Doubled(r0) + Doubled(r1) + Doubled(r1);
    assert vq4[8 * i .. 8 * i + 8] == r0 + r1;
    EightAtHalf(vq8, vq4, r0, r1, e, h, rr, dr, c, dc);
  }

  /** The same, for the tables' words, given half-entry 2e + h of each table. */
  lemma EightAtHalf(vq8: seq<int>, vq4: seq<int>, r0: seq<int>, r1: seq<int>, e: nat, h: nat, rr: nat, dr: nat, c: nat, dc: nat)
    requires |r0| == 4 && |r1| == 4 && h < 2 && rr < 2 && dr < 2 && c < 4 && dc < 2
    requires 32 * (2 * e + h) + 32 <= |vq8| && 8 * (2 * e + h) + 8 <= |vq4|
    requires vq8[32 * (2 * e + h) .. 32 * (2 * e + h) + 32] == Doubled(r0) + Doubled(r0) + Doubled(r1) + Doubled(r1)
    requires vq4[8 * (2 * e + h) .. 8 * (2 * e + h) + 8] == r0 + r1
    ensures vq8[At8(e, 2 * (2 * h + rr) + dr, 2 * c + dc)] == vq4[At4(e, 2 * h + rr, c)]
  {
    var i := 2 * e + h;
    var x, y := 16 * rr + 8 * dr + 2 * c + dc, 4 * rr + c;
    assert At8(e, 2 * (2 * h + rr) + dr, 2 * c + dc) == 32 * i + x;
    assert At4(e, 2 * h + rr, c) == 8 * i + y;
    WordOfSlice(vq8, 32 * i, 32, x);
    WordOfSlice(vq4, 8 * i, 8, y);
    EightFromHalf(vq8[32 * i .. 32 * i + 32], vq4[8 * i .. 8 * i + 8], r0, r1, rr, dr, c, dc);
  }

  /** In one half-entry: word (2 rr + dr, 2c + dc) of the 8x8 half is word (rr, c) of the 4x4 half. */
  lemma EightFromHalf(h8: seq<int>, h4: seq<int>, r0: seq<int>, r1: seq<int>, rr: nat, dr: nat, c: nat, dc: nat)
    requires |r0| == 4 && |r1| == 4 && rr < 2 && dr < 2 && c < 4 && dc < 2
    requires h8 == Doubled(r0) + Doubled(r0) + Doubled(r1) + Doubled(r1) && h4 == r0 + r1
    ensures h8[16 * rr + 8 * dr + 2 * c + dc] == h4[4 * rr + c]
  {
    var row := if rr == 0 then r0 else r1;
    RowOfEight(Doubled(r0), Doubled(r1), rr, dr, 2 * c + dc);
    DoubledAt(row, c, dc);
    RowOfFour(r0, r1, rr, c);
  }

  /** Words 2c and 2c + 1 of a doubled row are word c of the row. */
  lemma DoubledAt(s: seq<int>, c: int, dc: int)
    requires 0 <= c < |s| && 0 <= dc < 2
    ensures Doubled(s)[2 * c + dc] == s[c]
  {
    assert (2 * c + dc) / 2 == c;
  }

  /** Word c of row rr of a half-entry of the 4x4 table. */
  lemma RowOfFour(r0: seq<int>, r1: seq<int>, rr: int, c: int)
    requires |r0| == 4 && |r1| == 4 && 0 <= rr < 2 && 0 <= c < 4
    ensures (r0 + r1)[4 * rr + c] == (if rr == 0 then r0 else r1)[c]
  {
  }

  /** Word k of row 2 rr + dr of a half-entry of the 8x8 table. */
  lemma RowOfEight(d0: seq<int>, d1: seq<int>, rr: int, dr: int, k: int)
    requires |d0| == 8 && |d1| == 8 && 0 <= rr < 2 && 0 <= dr < 2 && 0 <= k < 8
    ensures (d0 + d0 + d1 + d1)[16 * rr + 8 * dr + k] == (if rr == 0 then d0 else d1)[k]
  {
    if rr == 0 {
      if dr == 0 {
        assert (d0 + d0 + d1 + d1)[k] == d0[k];
      } else {
        assert (d0 + d0 + d1 + d1)[8 + k] == d0[k];
      }
    } else {
      if dr == 0 {
        assert (d0 + d0 + d1 + d1)[16 + k] == d1[k];
      } else {
        assert (d0 + d0 + d1 + d1)[24 + k] == d1[k];
      }
    }
  }
}
