/**
 * The control stream of a QUAD_VQ chunk as blitVQQuad32fs reads it: 16-bit
 * little-endian control words, each giving eight 2-bit codes from the most
 * significant bits down, interleaved with the codebook indices and motion
 * bytes the codes consume. Each code paints one 8x8 quad of the quad list,
 * or splits it into its four 4x4 quads with a code each; the walk stops at
 * the first NULL entry of the list at the start of an 8x8 quad.
 */
module RoqVq {
  import opened Wrappers
  import opened RoqBytes
  import opened RoqBlit

  /** An empty slot of a quad list: the NULL entry setupQuad writes. */
  const NULL: int := -1

  /** The codes, the top two bits of the control word as `celdata & 0xc000` leaves them. */
  const CODE_SKIP: bv16 := 0x0000
  const CODE_MOTION: bv16 := 0x4000
  const CODE_VQ: bv16 := 0x8000
  const CODE_SPLIT: bv16 := 0xc000

  /**
   * The reader: the quad list index, the next data byte, how many codes of
   * the current control word are left (newd) and the word as shifted so
   * far (celdata, an unsigned short).
   */
  datatype Cursor = Cursor(index: int, pos: int, newd: bv16, cel: bv16)

  predicate CursorOk(c: Cursor) {
    c.newd <= 7
  }

  /** The decoder's start: no codes left, so the first code loads a word. */
  function Start(pos: int): Cursor {
    Cursor(0, pos, 0, 0)
  }

  /**
   * What a frame decode reads and never writes: the quad list (byte offsets
   * into the image), the chunk bytes, the bytes per row, the motion table and
   * the three codebooks, in words.
   */
  datatype Frame = Frame(status: seq<int>, data: seq<Byte>, spl: int, mcomp: seq<int>,
                         vq2: seq<int>, vq4: seq<int>, vq8: seq<int>)

  /** The row stride in words, `spl >> 2`. */
  function Dspl(f: Frame): int {
    f.spl / 4
  }

  /**
   * The next code: when no code of the current word is left, the next two
   * data bytes become the word and seven codes are left after this one;
   * the code is the word's top two bits, then the word shifts left by two.
   */
  function NextCode(f: Frame, c: Cursor): (r: Option<(bv16, Cursor)>)
    requires CursorOk(c)
    ensures r.Some? ==> r.value.0 & 0x3fff == 0 && CursorOk(r.value.1) && r.value.1.index == c.index
  {
    if c.newd == 0 then
      if 0 <= c.pos && c.pos + 1 < |f.data| then
        var w := LE16(f.data[c.pos], f.data[c.pos + 1]) as bv16;
        Some((w & 0xc000, Cursor(c.index, c.pos + 2, 7, w << 2)))
      else None
    else Some((c.cel & 0xc000, c.(newd := c.newd - 1, cel := c.cel << 2)))
  }

  /** The k-th 2-bit field of a 16-bit word, counted from the most significant end. */
  function Field(w: bv16, k: bv16): bv16
    requires k < 8
  {
    (w >> (14 - 2 * k)) & 3
  }

  /** The reader's state after `k` of the codes of word `w` were read. */
  predicate Reading(c: Cursor, w: bv16, k: bv16) {
    1 <= k <= 8 && c.newd == 8 - k && c.cel == w << (2 * k)
  }

  /**
   * The codes come out as the fields of the control words, most significant
   * first: a fresh word at `pos` gives its field 0 and moves `pos` past its
   * two bytes; after k codes of a word the next code is its field k, and no
   * byte is read.
   */
  lemma CodesMsbFirst(f: Frame, c: Cursor, w: bv16, k: bv16)
    requires CursorOk(c) && k < 8
    requires k == 0 ==> c.newd == 0 && 0 <= c.pos && c.pos + 1 < |f.data|
                        && w == LE16(f.data[c.pos], f.data[c.pos + 1]) as bv16
    requires k > 0 ==> Reading(c, w, k)
    ensures NextCode(f, c).Some?
    ensures NextCode(f, c).value.0 >> 14 == Field(w, k)
    ensures Reading(NextCode(f, c).value.1, w, k + 1)
    ensures NextCode(f, c).value.1.pos == (if k == 0 then c.pos + 2 else c.pos)
  {
  }

  /** After the eighth code of a word, none of it is left, so the next code loads a new one. */
  lemma WordSpent(c: Cursor, w: bv16)
    requires Reading(c, w, 8)
    ensures c.newd == 0
  {
  }

  /** A w x w blit of the codebook entry at word `entry` of `book` to the block at byte offset `dst`. */
  function BlitAt(img: seq<int>, f: Frame, dst: int, w: int, book: seq<int>, entry: int): (r: Option<seq<int>>)
    requires Side(w)
    ensures r.Some? ==> |r.value| == |img|
  {
    if dst % 4 == 0 && InImage(|img|, dst / 4, Dspl(f), w) && 0 <= entry && entry + Area(w) <= |book| then
      Some(BlitSpec(img, dst / 4, Dspl(f), w, book[entry..entry + Area(w)], Area(w)))
    else None
  }

  /** A w x w move of the block at byte offset `src` onto the one at `dst`. */
  function MoveAt(img: seq<int>, f: Frame, src: int, dst: int, w: int): (r: Option<seq<int>>)
    requires Side(w)
    ensures r.Some? ==> |r.value| == |img|
  {
    if dst % 4 == 0 && src % 4 == 0 && InImage(|img|, dst / 4, Dspl(f), w) && InImage(|img|, src / 4, Dspl(f), w) then
      Some(MoveSpec(img, src / 4, dst / 4, Dspl(f), w, Area(w)))
    else None
  }

  /** The four 2x2 blits of a 4x4 quad at `dst`, from the 2x2 entries named by the bytes at `pos`. */
  function Blit2x4(img: seq<int>, f: Frame, dst: int, pos: int): (r: Option<seq<int>>)
    ensures r.Some? ==> |r.value| == |img|
  {
    if !(0 <= pos && pos + 3 < |f.data|) then None
    else
      match BlitAt(img, f, dst, 2, f.vq2, (f.data[pos] as int) * 4)
      case None => None
      case Some(i1) =>
        match BlitAt(i1, f, dst + 8, 2, f.vq2, (f.data[pos + 1] as int) * 4)
        case None => None
        case Some(i2) =>
          match BlitAt(i2, f, dst + f.spl * 2, 2, f.vq2, (f.data[pos + 2] as int) * 4)
          case None => None
          case Some(i3) => BlitAt(i3, f, dst + f.spl * 2 + 8, 2, f.vq2, (f.data[pos + 3] as int) * 4)
  }

  /**
   * A vq or motion code for a w x w quad at `dst`, with the byte `b` after
   * it: a blit of codebook entry `b` of the w x w table, or a move from the
   * block `mcomp[b]` bytes away.
   */
  function Paint(img: seq<int>, f: Frame, code: bv16, dst: int, b: Byte, w: int): (r: Option<seq<int>>)
    requires w == 4 || w == 8
    ensures r.Some? ==> |r.value| == |img|
  {
    if code == CODE_VQ then BlitAt(img, f, dst, w, if w == 4 then f.vq4 else f.vq8, (b as int) * Area(w))
    else if b < |f.mcomp| then MoveAt(img, f, dst + f.mcomp[b], dst, w)
    else None
  }

  /** What a sub-code does to the 4x4 quad at `c.index`, the code already read. */
  function SubAction(img: seq<int>, f: Frame, code: bv16, c: Cursor): (r: Option<(seq<int>, Cursor)>)
    requires CursorOk(c)
    ensures r.Some? ==> |r.value.0| == |img| && CursorOk(r.value.1) && r.value.1.index == c.index + 1
  {
    if code == CODE_SKIP then Some((img, c.(index := c.index + 1)))
    else if !(0 <= c.index < |f.status|) then None
    else
      var dst := f.status[c.index];
      if code == CODE_SPLIT then
        match Blit2x4(img, f, dst, c.pos)
        case None => None
        case Some(i1) => Some((i1, c.(index := c.index + 1, pos := c.pos + 4)))
      else if !(0 <= c.pos < |f.data|) then None
      else
        match Paint(img, f, code, dst, f.data[c.pos], 4)
        case None => None
        case Some(i1) => Some((i1, c.(index := c.index + 1, pos := c.pos + 1)))
  }

  /**
   * One sub-code of a split 8x8 quad, for the 4x4 quad at `index`: a 4x4
   * codebook blit, four 2x2 blits, a 4x4 motion move or nothing; then the
   * next quad.
   */
  function SubStep(img: seq<int>, f: Frame, c: Cursor): (r: Option<(seq<int>, Cursor)>)
    requires CursorOk(c)
    ensures r.Some? ==> |r.value.0| == |img| && CursorOk(r.value.1) && r.value.1.index == c.index + 1
  {
    match NextCode(f, c)
    case None => None
    case Some((code, c1)) => SubAction(img, f, code, c1)
  }

  /** The first `n` sub-codes of a split quad. */
  function SubSteps(img: seq<int>, f: Frame, c: Cursor, n: nat): (r: Option<(seq<int>, Cursor)>)
    requires CursorOk(c)
    ensures r.Some? ==> |r.value.0| == |img| && CursorOk(r.value.1) && r.value.1.index == c.index + n
  {
    if n == 0 then Some((img, c))
    else
      match SubSteps(img, f, c, n - 1)
      case None => None
      case Some((i1, c1)) => SubStep(i1, f, c1)
  }

  /** Once a sub-code fails, so do the codes after it. */
  lemma {:induction false} SubStepsFailed(img: seq<int>, f: Frame, c: Cursor, i: nat, n: nat)
    requires CursorOk(c) && i <= n && SubSteps(img, f, c, i).None?
    ensures SubSteps(img, f, c, n).None?
    decreases n - i
  {
    if i < n {
      SubStepsFailed(img, f, c, i, n - 1);
    }
  }

  /**
   * One top-level code, for the 8x8 quad at `index`: an 8x8 codebook blit,
   * an 8x8 motion move, nothing, or a split into the four 4x4 quads that
   * follow it in the list.
   */
  function TopStep(img: seq<int>, f: Frame, c: Cursor): (r: Option<(seq<int>, Cursor)>)
    requires CursorOk(c)
    ensures r.Some? ==> |r.value.0| == |img| && CursorOk(r.value.1)
  {
    match NextCode(f, c)
    case None => None
    case Some((code, c1)) => TopAction(img, f, code, c1)
  }

  /** What a top-level code does to the 8x8 quad at `c.index`, the code already read. */
  function TopAction(img: seq<int>, f: Frame, code: bv16, c: Cursor): (r: Option<(seq<int>, Cursor)>)
    requires CursorOk(c)
    ensures r.Some? ==> |r.value.0| == |img| && CursorOk(r.value.1) && r.value.1.index == c.index + 5
  {
    if code == CODE_SKIP then Some((img, c.(index := c.index + 5)))
    else if code == CODE_SPLIT then SubSteps(img, f, c.(index := c.index + 1), 4)
    else if !(0 <= c.index < |f.status| && 0 <= c.pos < |f.data|) then None
    else
      match Paint(img, f, code, f.status[c.index], f.data[c.pos], 8)
      case None => None
      case Some(i1) => Some((i1, c.(index := c.index + 5, pos := c.pos + 1)))
  }

  /**
   * Every top-level code moves on by exactly one 8x8 quad and its four
   * 4x4 quads: by 5 directly, or by 1 and then 1 per sub-code.
   */
  lemma TopStepAdvances(img: seq<int>, f: Frame, c: Cursor)
    requires CursorOk(c) && TopStep(img, f, c).Some?
    ensures TopStep(img, f, c).value.1.index == c.index + 5
  {
  }

  /**
   * The do-while of blitVQQuad32fs from `c` on: one top-level code, then
   * stop when the list entry now reached is NULL; None when the stream,
   * the list or a copy runs out of its buffer.
   */
  function RunFrom(img: seq<int>, f: Frame, c: Cursor): (r: Option<seq<int>>)
    requires CursorOk(c)
    ensures r.Some? ==> |r.value| == |img|
    decreases |f.status| - c.index
  {
    match TopStep(img, f, c)
    case None => None
    case Some((i1, c1)) =>
      TopStepAdvances(img, f, c);
      if !(0 <= c1.index < |f.status|) then None
      else if f.status[c1.index] == NULL then Some(i1)
      else RunFrom(i1, f, c1)
  }

  /**
   * A finished walk took one top-level step, to a cursor five entries on,
   * and then stopped at NULL or finished from there, from the image `i1`.
   */
  lemma RunFromSteps(img: seq<int>, f: Frame, c: Cursor) returns (i1: seq<int>, c1: Cursor)
    requires CursorOk(c) && RunFrom(img, f, c).Some?
    ensures CursorOk(c1)
    ensures c1.index == c.index + 5 && 0 <= c1.index < |f.status|
    ensures f.status[c1.index] != NULL ==> RunFrom(i1, f, c1).Some?
  {
    TopStepAdvances(img, f, c);
    i1, c1 := TopStep(img, f, c).value.0, TopStep(img, f, c).value.1;
  }

  /** No 8x8 quad start strictly between `i` and `i + 5m` is NULL. */
  predicate NoNullBefore(status: seq<int>, i: int, m: int) {
    forall k :: 1 <= k < m && 0 <= i + 5 * k < |status| ==> status[i + 5 * k] != NULL
  }

  lemma NoNullShift(status: seq<int>, i: int, m: int)
    requires 0 <= i + 5 < |status| && status[i + 5] != NULL && NoNullBefore(status, i + 5, m)
    ensures NoNullBefore(status, i, m + 1)
  {
    forall k | 1 <= k < m + 1 && 0 <= i + 5 * k < |status|
      ensures status[i + 5 * k] != NULL
    {
      if k > 1 {
        assert i + 5 * k == (i + 5) + 5 * (k - 1);
      }
    }
  }

  /** Some 8x8 quad start 5, 10, ... entries past `i` is NULL, and all the ones before it lie in the list. */
  predicate ReachesNull(status: seq<int>, i: int)
    decreases |status| - i
  {
    0 <= i + 5 < |status| && (status[i + 5] == NULL || ReachesNull(status, i + 5))
  }

  /**
   * A finished walk stopped at the first NULL it met at the start of an
   * 8x8 quad: the entries 5, 10, ... past the start are not NULL up to the
   * one at 5m, which is.
   */
  lemma RunStopsAtNull(img: seq<int>, f: Frame, c: Cursor)
    requires CursorOk(c) && RunFrom(img, f, c).Some?
    ensures exists m :: m >= 1 && 0 <= c.index + 5 * m < |f.status| && f.status[c.index + 5 * m] == NULL
                        && NoNullBefore(f.status, c.index, m)
  {
    RunReachesNull(img, f, c);
    FirstNull(f.status, c.index);
  }

  /** A finished walk reaches a NULL quad start. */
  lemma {:induction false} RunReachesNull(img: seq<int>, f: Frame, c: Cursor)
    requires CursorOk(c) && RunFrom(img, f, c).Some?
    ensures ReachesNull(f.status, c.index)
    decreases |f.status| - c.index
  {
    var i1, c1 := RunFromSteps(img, f, c);
    if f.status[c1.index] != NULL {
      RunReachesNull(i1, f, c1);
    }
  }

  /** The first NULL quad start reached: its distance `5m`, with none before it. */
  lemma {:induction false} FirstNull(status: seq<int>, i: int)
    requires ReachesNull(status, i)
    ensures exists m :: m >= 1 && 0 <= i + 5 * m < |status| && status[i + 5 * m] == NULL && NoNullBefore(status, i, m)
    decreases |status| - i
  {
    if status[i + 5] == NULL {
      assert NoNullBefore(status, i, 1);
      NullAfter(status, i, 1);
    } else {
      FirstNull(status, i + 5);
      var m :| m >= 1 && 0 <= i + 5 + 5 * m < |status| && status[i + 5 + 5 * m] == NULL && NoNullBefore(status, i + 5, m);
      NoNullShift(status, i, m);
      assert i + 5 * (m + 1) == i + 5 + 5 * m;
      NullAfter(status, i, m + 1);
    }
  }

  /** The witness `m` for RunStopsAtNull's conclusion. */
  lemma NullAfter(status: seq<int>, i: int, m: int)
    requires m >= 1 && 0 <= i + 5 * m < |status| && status[i + 5 * m] == NULL && NoNullBefore(status, i, m)
    ensures exists m :: m >= 1 && 0 <= i + 5 * m < |status| && status[i + 5 * m] == NULL && NoNullBefore(status, i, m)
  {
  }
}
