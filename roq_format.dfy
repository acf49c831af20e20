/**
 * The RoQ container: chunk identifiers, the 16-byte file header read by
 * RoQ_init, the 8-byte chunk header read at the end of RoQInterrupt, the
 * quad info chunk read by readQuadInfo, and the codebook entry counts of
 * decodeCodeBook.
 */
module RoqFormat {
  import opened RoqBytes

  const ROQ_FILE: int := 0x1084
  const ROQ_QUAD: int := 0x1000
  const ROQ_QUAD_INFO: int := 0x1001
  const ROQ_CODEBOOK: int := 0x1002
  const ROQ_QUAD_VQ: int := 0x1011
  const ROQ_QUAD_JPEG: int := 0x1012
  const ROQ_QUAD_HANG: int := 0x1013
  const ROQ_PACKET: int := 0x1030
  const ZA_SOUND_MONO: int := 0x1020
  const ZA_SOUND_STEREO: int := 0x1021

  /** The largest and smallest quad the frame is cut into. */
  const MAXSIZE: int := 8
  const MINSIZE: int := 4

  /** The size of the shared chunk buffer `file`. */
  const FILE_BUFFER: int := 65536

  /** The frame rate RoQ_init falls back to when the header gives none. */
  const DEFAULT_FPS: int := 30

  /** The states of a cinematic that the decoder sets (cinStatus_t). */
  datatype CinStatus = FmvIdle | FmvPlay | FmvEof | FmvLooped

  /** A chunk header: id, 24-bit size, 16-bit argument and its two bytes as signed chars. */
  datatype ChunkHeader = ChunkHeader(id: int, size: int, flags: int, f0: int, f1: int)

  /** The header at the start of `h`: id in bytes 0-1, size in 2-4, argument in 6-7. */
  function ParseChunk(h: seq<Byte>): (c: ChunkHeader)
    requires |h| >= 8
    ensures 0 <= c.id < 0x1_0000 && 0 <= c.size < 0x100_0000 && 0 <= c.flags < 0x1_0000
    ensures c.f0 == SignedChar(h[7]) && c.f1 == SignedChar(h[6])
  {
    ChunkHeader(LE16(h[0], h[1]), LE24(h[2], h[3], h[4]), LE16(h[6], h[7]), SignedChar(h[7]), SignedChar(h[6]))
  }

  /** The bytes a writer puts down for a chunk header, byte 5 clear. */
  function EncodeChunk(id: int, size: int, flags: int): (h: seq<Byte>)
    requires 0 <= id < 0x1_0000 && 0 <= size < 0x100_0000 && 0 <= flags < 0x1_0000
    ensures |h| == 8
  {
    Bytes16(id) + Bytes24(size) + [0] + Bytes16(flags)
  }

  /**
   * Reading a written chunk header gives back its id, size and argument;
   * the two motion offsets are the argument's high and low byte read as
   * signed chars.
   */
  lemma ChunkRoundTrip(id: int, size: int, flags: int)
    requires 0 <= id < 0x1_0000 && 0 <= size < 0x100_0000 && 0 <= flags < 0x1_0000
    ensures var c := ParseChunk(EncodeChunk(id, size, flags));
      && c.id == id && c.size == size && c.flags == flags
      && c.f0 == SignedChar(flags / 256) && c.f1 == SignedChar(flags % 256)
  {
    var h := EncodeChunk(id, size, flags);
    assert h[0..2] == Bytes16(id) && h[2..5] == Bytes24(size) && h[6..8] == Bytes16(flags);
    LittleEndianRoundTrip(id, size);
    LittleEndianRoundTrip(flags, size);
  }

  /** What RoQ_init takes from the 16 header bytes. */
  datatype FileHeader = FileHeader(fps: int, id: int, size: int, flags: int)

  /**
   * RoQ_init: the frame rate from bytes 6-7 (30 when zero), and the first
   * chunk's id, size and argument from bytes 8-9, 10-12 and 14-15.
   */
  function ParseFileHeader(file: seq<Byte>): (f: FileHeader)
    requires |file| >= 16
    ensures f.fps == (if LE16(file[6], file[7]) == 0 then DEFAULT_FPS else LE16(file[6], file[7]))
    ensures f.id == LE16(file[8], file[9]) && f.size == LE24(file[10], file[11], file[12])
    ensures f.flags == LE16(file[14], file[15])
  {
    var fps := LE16(file[6], file[7]);
    var c := ParseChunk(file[8..16]);
    FileHeader(if fps == 0 then DEFAULT_FPS else fps, c.id, c.size, c.flags)
  }

  /**
   * The first chunk's fields in the file header sit where a chunk header
   * would: the 8 bytes after the file's own id, size and rate are read as a
   * chunk header, motion offsets aside.
   */
  lemma FileHeaderHoldsChunk(file: seq<Byte>)
    requires |file| >= 16
    ensures var f, c := ParseFileHeader(file), ParseChunk(file[8..16]);
      f.id == c.id && f.size == c.size && f.flags == c.flags
    ensures 1 <= ParseFileHeader(file).fps < 0x1_0000
  {
  }

  /** The quad info chunk: frame width, height, and the two block sizes. */
  datatype QuadInfo = QuadInfo(xsize: int, ysize: int, maxsize: int, minsize: int)

  function ParseQuadInfo(q: seq<Byte>): (i: QuadInfo)
    requires |q| >= 8
    ensures 0 <= i.xsize < 0x1_0000 && 0 <= i.ysize < 0x1_0000
  {
    QuadInfo(LE16(q[0], q[1]), LE16(q[2], q[3]), LE16(q[4], q[5]), LE16(q[6], q[7]))
  }

  /** readQuadInfo's derived sizes, in bytes, for `samplesPerPixel` bytes per pixel. */
  function SamplesPerLine(info: QuadInfo, samplesPerPixel: int): int {
    info.xsize * samplesPerPixel
  }

  function ScreenDelta(info: QuadInfo, samplesPerPixel: int): int {
    info.ysize * SamplesPerLine(info, samplesPerPixel)
  }

  /** One frame buffer holds ysize rows of SamplesPerLine bytes; the image holds two. */
  lemma ScreenDeltaIsFrame(info: QuadInfo, samplesPerPixel: int)
    requires samplesPerPixel == 4
    ensures ScreenDelta(info, samplesPerPixel) == info.xsize * info.ysize * samplesPerPixel
    ensures 2 * ScreenDelta(info, samplesPerPixel) == info.xsize * info.ysize * samplesPerPixel * 2
  {
  }

  /**
   * decodeCodeBook's entry counts: an argument of 0 means a full codebook
   * of 256 2x2 and 256 4x4 entries; otherwise the high byte counts the 2x2
   * entries (0 standing for 256) and the low byte the 4x4 ones. The second
   * count is doubled, as each 4x4 entry is built in two halves.
   */
  function CodebookCounts(flags: int): (counts: (int, int))
    requires 0 <= flags < 0x1_0000
    ensures 1 <= counts.0 <= 256 && 0 <= counts.1 <= 512 && counts.1 % 2 == 0
  {
    var two := if flags == 0 then 256 else if flags / 256 == 0 then 256 else flags / 256;
    var four := if flags == 0 then 256 else flags % 256;
    (two, four * 2)
  }

  /** The argument a writer gives a codebook of `n2` 2x2 and `n4` 4x4 entries. */
  function CodebookFlags(n2: int, n4: int): (flags: int)
    requires 1 <= n2 <= 256 && 0 <= n4 <= 256
    ensures 0 <= flags < 0x1_0000
  {
    (n2 % 256) * 256 + n4 % 256
  }

  /**
   * The counts come back from the argument for every codebook except those
   * with 256 2x2 and no 4x4 entries, which read back as full ones; a full
   * codebook is written as 0.
   */
  lemma CodebookCountsRoundTrip(n2: int, n4: int)
    requires 1 <= n2 <= 256 && 0 <= n4 <= 256
    ensures n4 < 256 ==>
      (CodebookCounts(CodebookFlags(n2, n4)) == (n2, 2 * n4) <==> !(n2 == 256 && n4 == 0))
    ensures CodebookFlags(256, 256) == 0 && CodebookCounts(0) == (256, 512)
  {
  }

  /**
   * The counts keep decodeCodeBook inside its tables and its input: at most
   * 1024 words of 2x2 entries, 4096 of 4x4 and 16384 of 8x8, read from at
   * most 2560 bytes.
   */
  lemma CodebookFits(flags: int)
    requires 0 <= flags < 0x1_0000
    ensures var (two, four) := CodebookCounts(flags);
      && two * 4 <= 1024 && four * 8 <= 4096 && four * 32 <= 16384
      && 6 * two + 2 * four <= 2560
  {
  }
}
