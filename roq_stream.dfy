/**
 * The chunk stream of RoQInterrupt: the guard on the header of the chunk
 * to be read next, whether a picture's quad lists fit the lists
 * InitCinematic allocates, and the frame count ImageForTime derives from
 * the clock.
 */
module RoqStream {
  import opened RoqBytes
  import opened RoqFormat
  import opened RoqQuad
  import opened RoqSetup

  /**
   * The guard of RoQInterrupt as written: the stream stops at a chunk
   * larger than 65536 bytes or at the file's own id.
   */
  predicate StopsAsWritten(h: ChunkHeader) {
    h.size > 65536 || h.id == ROQ_FILE
  }

  /**
   * A chunk of 65536 bytes passes the guard as written, yet the next
   * RoQInterrupt reads it with its 8-byte header: 65544 bytes into the
   * 65536-byte chunk buffer.
   */
  lemma AsWrittenLetsOverrunThrough()
    ensures var h := ParseChunk(EncodeChunk(ROQ_QUAD_VQ, 65536, 0));
      !StopsAsWritten(h) && h.size + 8 > FILE_BUFFER
  {
    ChunkRoundTrip(ROQ_QUAD_VQ, 65536, 0);
  }

  /**
   * The guard as intended: the stream stops unless the chunk and the
   * header after it fit the chunk buffer. A header that passes leaves the
   * next read inside the buffer.
   */
  predicate Stops(h: ChunkHeader): (r: bool)
    ensures !r ==> h.id != ROQ_FILE && h.size + 8 <= FILE_BUFFER
  {
    h.size > FILE_BUFFER - 8 || h.id == ROQ_FILE
  }

  /** The two guards part only for the chunks of 65529 to 65536 bytes, which the corrected one stops. */
  lemma GuardsDiffer(h: ChunkHeader)
    ensures StopsAsWritten(h) ==> Stops(h)
    ensures Stops(h) && !StopsAsWritten(h) <==> h.id != ROQ_FILE && FILE_BUFFER - 8 < h.size <= 65536
  {
  }

  /** The layout readQuadInfo leaves for a picture. */
  function LayoutOf(q: QuadInfo): (l: Layout)
    requires q.xsize >= 0 && q.ysize >= 0
    ensures Fitted(l) && l.xsize == q.xsize && l.ysize == q.ysize
  {
    Layout(q.xsize, q.ysize, q.xsize, q.ysize, q.xsize * 4, 4)
  }

  /**
   * A 1024 x 512 picture: setupQuad lists 40960 quads, and the end marker
   * reaches entry 41023, both past the 32768 entries of each quad list.
   */
  lemma LargePictureOverrunsLists()
    ensures var l := LayoutOf(QuadInfo(1024, 512, 8, 4));
      |SetupQuads(l)| == 40960 && NumQuadCels(l.xsize, l.ysize) == 41024 > QSTATUS_SIZE
  {
    SetupCount(LayoutOf(QuadInfo(1024, 512, 8, 4)));
  }

  /** The pictures whose quad lists, end marker included, fit the lists. */
  predicate PictureFits(q: QuadInfo) {
    NumQuadCels(q.xsize, q.ysize) <= QSTATUS_SIZE
  }

  /**
   * For a picture that fits, every quad setupQuad lists and the whole end
   * marker after them lie inside the lists.
   */
  lemma {:induction false} FittingPictureStaysInLists(q: QuadInfo)
    requires PictureFits(q) && q.xsize >= 0 && q.ysize >= 0
    ensures |SetupQuads(LayoutOf(q))| + 64 <= NumQuadCels(q.xsize, q.ysize) <= QSTATUS_SIZE
  {
    SetupCount(LayoutOf(q));
  }

  /**
   * The frames due `ms` milliseconds into playback, for the rate byte of the
   * file header (32 standing for 1000 / 32 frames a second), as a whole
   * number: none before the start, then every frame whose time has come.
   */
  function FramesDue(ms: int, rate: Byte): (n: int)
    ensures n >= 0
    ensures ms <= 0 ==> n == 0
    ensures ms >= 0 ==> 4000 * n <= ms * Rate4(rate) < 4000 * (n + 1)
  {
    if ms <= 0 then 0 else ms * Rate4(rate) / 4000
  }

  /** Four times the frame rate: 125 for the rate byte 32, four times the byte otherwise. */
  function Rate4(rate: Byte): int {
    if rate == 32 then 125 else 4 * rate
  }

  /** Later times are never fewer frames in. */
  lemma FramesDueMonotone(ms: int, ms2: int, rate: Byte)
    requires ms <= ms2
    ensures FramesDue(ms, rate) <= FramesDue(ms2, rate)
  {
    if ms > 0 {
      assert ms * Rate4(rate) <= ms2 * Rate4(rate);
    }
  }
}
