/**
 * idCinematicLocal: a RoQ cinematic being played. The decoder keeps two
 * frame buffers in `image`, draws each new frame into one of them from the
 * codebooks and the previous frame, and hands out the one just drawn.
 * Offsets into `image`, into the quad lists and into the chunk buffer are
 * byte offsets as in the source; `image` itself holds 32-bit words.
 */
module Cinematic {
  import opened Wrappers
  import opened RoqBytes
  import opened RoqColor
  import opened RoqFormat
  import opened RoqQuad
  import opened RoqBlit
  import opened RoqCodebook
  import opened RoqVq
  import opened RoqSetup
  import opened RoqStream

  const DEFAULT_CIN_WIDTH: int := 512
  const DEFAULT_CIN_HEIGHT: int := 512

  /** The sizes of the quad lists, the codebooks (in words) and the motion table. */
  const VQ2_WORDS: int := 8192
  const VQ4_WORDS: int := 32768
  const VQ8_WORDS: int := 131072
  const MCOMP_SIZE: int := 256

  /** What ImageForTime hands out: the picture size, the status and the buffer (a byte offset into `image`, or NULL). */
  datatype CinData = CinData(imageWidth: int, imageHeight: int, status: CinStatus, image: int)

  /** The cinData_t ImageForTime clears before it fills it in: FMV_IDLE is 0. */
  const NO_DATA: CinData := CinData(0, 0, FmvIdle, NULL)

  /** An open file (idFile) of the file system: its bytes and the read position. */
  class FileStream {
    const data: seq<Byte>
    var pos: int

    predicate Valid()
      reads this
    {
      0 <= pos <= |data|
    }

    constructor(d: seq<Byte>)
      ensures Valid() && data == d && pos == 0
    {
      data := d;
      pos := 0;
    }

    /** Length(): the size of the file in bytes. */
    function Length(): (n: int)
      ensures n == |data| && n >= 0
    {
      |data|
    }

    /** Seek(0, FS_SEEK_SET). */
    method Rewind()
      modifies this
      ensures Valid() && pos == 0
    {
      pos := 0;
    }

    /**
     * Read(dst, n): the next bytes of the file, as many as are left up to
     * n, go to the start of `dst`; the rest of `dst` keeps what it held.
     */
    method Read(dst: array<Byte>, n: int) returns (k: int)
      requires Valid() && 0 <= n <= dst.Length
      modifies this, dst
      ensures Valid()
      ensures k == (if n < |data| - old(pos) then n else |data| - old(pos)) && pos == old(pos) + k
      ensures dst[..k] == data[old(pos) .. pos] && dst[k..] == old(dst[k..])
    {
      k := if n < |data| - pos then n else |data| - pos;
      var i := 0;
      while i < k
        invariant 0 <= i <= k && pos == old(pos)
        invariant dst[..i] == data[pos .. pos + i]
        invariant dst[k..] == old(dst[k..])
      {
        dst[i] := data[pos + i];
        i := i + 1;
      }
      pos := pos + k;
    }
  }

  class CinematicLocal {
    /** The chroma tables of InitCinematic. */
    const tables: ChromaTables

    /** The buffers allocated once for all frames: the quad lists, the codebooks, the motion table and the chunk buffer. */
    const qStatus0: array<int>
    const qStatus1: array<int>
    const vq2: array<int>
    const vq4: array<int>
    const vq8: array<int>
    const mcomp: array<int>
    const file: array<Byte>

    /** The two frame buffers, allocated by readQuadInfo; `hasImage` is `image != NULL`. */
    var image: array<int>
    var hasImage: bool

    /** The open file; `fileOpen` is `iFile != NULL`. */
    var iFile: FileStream
    var fileOpen: bool
    var fileName: string

    var status: CinStatus
    var looping: bool
    var inMemory: bool
    var animationLength: int
    var startTime: int
    /** frameRate: byte 6 of the file header; 32 stands for 1000 / 32 frames a second. */
    var frameRate: Byte
    var tfps: int

    var roqPlayed: int
    var roqSize: int
    /** The header of the chunk to be read next: roq_id, RoQFrameSize, roq_flags, roqF0, roqF1. */
    var chunk: ChunkHeader
    var roqFPS: int
    var numQuads: int

    /** xsize, ysize, CIN_WIDTH, CIN_HEIGHT, samplesPerLine and samplesPerPixel. */
    var layout: Layout
    var maxsize: int
    var minsize: int
    var screenDelta: int
    var t0: int
    var t1: int
    var normalBuffer0: int
    var drawX: int
    var drawY: int
    var onQuad: int
    /** The frame last drawn: a byte offset into `image`, or NULL. */
    var buf: int

    /** The buffers allocated once: their sizes, and all different arrays. */
    predicate Buffers() {
      && ListsOk(qStatus0, qStatus1)
      && vq2.Length == VQ2_WORDS && vq4.Length == VQ4_WORDS && vq8.Length == VQ8_WORDS
      && mcomp.Length == MCOMP_SIZE && file.Length == FILE_BUFFER
      && vq2 != vq4 && vq2 != vq8 && vq4 != vq8
      && mcomp != qStatus0 && mcomp != qStatus1 && mcomp != vq2 && mcomp != vq4 && mcomp != vq8
      && qStatus0 != vq2 && qStatus0 != vq4 && qStatus0 != vq8
      && qStatus1 != vq2 && qStatus1 != vq4 && qStatus1 != vq8
      && TablesOk(tables)
    }

    predicate Valid()
      reads this, iFile
    {
      && Buffers()
      && image != qStatus0 && image != qStatus1 && image != vq2 && image != vq4 && image != vq8 && image != mcomp
      && iFile.Valid() && layout.samplesPerPixel == 4
      && (hasImage ==> Fitted(layout) && screenDelta == layout.ysize * layout.samplesPerLine)
      && 0 <= chunk.size < 0x100_0000 && 0 <= chunk.flags < 0x1_0000
    }

    /** InitCinematic's buffers and the constructor: no image, no file, no frame, at end of file. */
    constructor(t: ChromaTables)
      requires TablesOk(t)
      ensures Valid() && fresh(image) && fresh(file) && fresh(iFile)
      ensures status == FmvEof && buf == NULL && !hasImage && !fileOpen
    {
      tables := t;
      qStatus0 := new int[QSTATUS_SIZE];
      qStatus1 := new int[QSTATUS_SIZE];
      vq2 := new int[VQ2_WORDS];
      vq4 := new int[VQ4_WORDS];
      vq8 := new int[VQ8_WORDS];
      mcomp := new int[MCOMP_SIZE];
      file := new Byte[FILE_BUFFER];
      image := new int[0];
      hasImage := false;
      layout := Layout(0, 0, DEFAULT_CIN_WIDTH, DEFAULT_CIN_HEIGHT, DEFAULT_CIN_WIDTH * 4, 4);
      iFile := new FileStream([]);
      fileOpen := false;
      fileName := "";
      chunk := ChunkHeader(0, 0, 0, 0, 0);
      status := FmvEof;
      buf := NULL;
    }

    /** AnimationLength: the length InitFromFile sets. */
    function AnimationLength(): (n: int)
      reads this
      ensures n == animationLength
    {
      animationLength
    }

    /**
     * ResetTime: playback restarts from the view's time in milliseconds, or
     * from -1 (ImageForTime then rewinds the file) when there is no view.
     */
    method ResetTime(viewTime: Option<int>)
      modifies this`startTime, this`status
      ensures startTime == (if viewTime.Some? then viewTime.value else -1) && status == FmvPlay
    {
      startTime := if viewTime.Some? then viewTime.value else -1;
      status := FmvPlay;
    }

    /**
     * RoQ_init on the 16 header bytes at the start of the chunk buffer: 24
     * bytes consumed (the file header and the first chunk header), the
     * frame rate, no quad info seen yet, and the first chunk's id, size and
     * argument; the motion offsets are left as they were.
     */
    method RoQInit()
      requires Valid()
      modifies this`roqPlayed, this`roqFPS, this`numQuads, this`chunk
      ensures var h := ParseFileHeader(file[..16]);
        && roqPlayed == 24 && roqFPS == h.fps && numQuads == -1
        && chunk == ChunkHeader(h.id, h.size, h.flags, old(chunk.f0), old(chunk.f1))
    {
      roqPlayed := 24;
      roqFPS := LE16(file[6], file[7]);
      if roqFPS == 0 {
        roqFPS := DEFAULT_FPS;
      }
      numQuads := -1;
      chunk := chunk.(id := LE16(file[8], file[9]), size := LE24(file[10], file[11], file[12]),
                      flags := LE16(file[14], file[15]));
    }

    /**
     * readQuadInfo on the quad info chunk at byte `fd`: the picture size
     * becomes the buffer size, four bytes a pixel; the two frame buffers
     * are allocated unless there already are some; t[0] and t[1] lead from
     * each buffer to the other.
     */
    method ReadQuadInfo(fd: int)
      requires Valid() && 0 <= fd && fd + 8 <= FILE_BUFFER
      modifies this`layout, this`maxsize, this`minsize, this`screenDelta, this`image, this`hasImage,
               this`t0, this`t1, this`drawX, this`drawY
      ensures Valid() && Fitted(layout) && hasImage
      ensures var q := ParseQuadInfo(file[fd .. fd + 8]);
        && layout == Layout(q.xsize, q.ysize, q.xsize, q.ysize, q.xsize * 4, 4)
        && maxsize == q.maxsize && minsize == q.minsize
        && screenDelta == ScreenDelta(q, 4) && t0 == screenDelta && t1 == -screenDelta
        && drawX == q.xsize && drawY == q.ysize
      ensures old(hasImage) ==> image == old(image)
      ensures !old(hasImage) ==> fresh(image) && image.Length == 2 * layout.xsize * layout.ysize
    {
      var q := ParseQuadInfo(file[fd .. fd + 8]);
      Sizes(q);
      AllocImage();
      t0 := screenDelta;
      t1 := -screenDelta;
      drawX, drawY := layout.cinWidth, layout.cinHeight;
    }

    /** readQuadInfo's sizes: the picture and the buffer both `q`'s size, and the frame buffers' size in bytes. */
    method Sizes(q: QuadInfo)
      requires Valid() && q.xsize >= 0 && q.ysize >= 0
      modifies this`layout, this`maxsize, this`minsize, this`screenDelta
      ensures Valid() && Fitted(layout)
      ensures layout == Layout(q.xsize, q.ysize, q.xsize, q.ysize, q.xsize * 4, 4)
      ensures maxsize == q.maxsize && minsize == q.minsize && screenDelta == ScreenDelta(q, 4)
    {
      var spp := layout.samplesPerPixel;
      var spl := q.xsize * spp;
      layout := Layout(q.xsize, q.ysize, q.xsize, q.ysize, spl, spp);
      maxsize, minsize := q.maxsize, q.minsize;
      screenDelta := q.ysize * spl;
    }

    /** readQuadInfo's allocation: two frame buffers of the picture's size, unless there are some already. */
    method AllocImage()
      requires Valid() && Fitted(layout)
      modifies this`image, this`hasImage
      ensures hasImage && (old(hasImage) ==> image == old(image))
      ensures !old(hasImage) ==> fresh(image) && image.Length == 2 * layout.xsize * layout.ysize
      ensures image != qStatus0 && image != qStatus1 && image != vq2 && image != vq4 && image != vq8 && image != mcomp
    {
      if !hasImage {
        image := new int[2 * layout.xsize * layout.ysize];
        hasImage := true;
      }
    }

    /**
     * RoQShutdown: a cinematic already idle is left alone; otherwise it
     * becomes idle and its file is closed.
     */
    method RoQShutdown()
      modifies this`status, this`fileOpen, this`fileName
      ensures status == FmvIdle && fileOpen == (old(fileOpen) && old(status) == FmvIdle)
      ensures fileName == (if old(status) == FmvIdle then old(fileName) else "")
    {
      if status == FmvIdle {
        return;
      }
      status := FmvIdle;
      fileOpen := false;
      fileName := "";
    }

    /**
     * RoQReset: back to the start of the file, the 16 header bytes read
     * again (as many as the file has), RoQ_init, and the status LOOPED.
     */
    method RoQReset()
      requires Valid()
      modifies iFile, file, this`roqPlayed, this`roqFPS, this`numQuads, this`chunk, this`status
      ensures Valid() && status == FmvLooped
      ensures var k := if |iFile.data| < 16 then |iFile.data| else 16;
        iFile.pos == k && file[..k] == iFile.data[..k] && file[k..] == old(file[k..])
      ensures var h := ParseFileHeader(file[..16]);
        && roqPlayed == 24 && roqFPS == h.fps && numQuads == -1
        && chunk == ChunkHeader(h.id, h.size, h.flags, old(chunk.f0), old(chunk.f1))
    {
      iFile.Rewind();
      var k := iFile.Read(file, 16);
      RoQInit();
      status := FmvLooped;
    }

    /** RoQReset where only its phase matters: the stream back at its first chunk. */
    method Restart()
      requires Valid()
      modifies iFile, file, this`roqPlayed, this`roqFPS, this`numQuads, this`chunk, this`status
      ensures Valid() && JustReset()
    {
      RoQReset();
    }

    /**
     * Close: the frame buffers are freed, with no frame and the status EOF,
     * when there are any; then RoQShutdown.
     */
    method Close()
      modifies this`hasImage, this`buf, this`status, this`fileOpen, this`fileName
      ensures !hasImage && status == FmvIdle
      ensures old(hasImage) ==> buf == NULL && !fileOpen
      ensures !old(hasImage) ==> buf == old(buf) && fileOpen == (old(fileOpen) && old(status) == FmvIdle)
    {
      if hasImage {
        hasImage := false;
        buf := NULL;
        status := FmvEof;
      }
      RoQShutdown();
    }

    /**
     * setupQuad: the quad lists of the picture, from entry 0 on, the entries
     * of the second list `screenDelta` bytes on from those of the first,
     * then the end marker.
     */
    method SetupQuad(xOff: int, yOff: int)
      requires Valid() && hasImage && NumQuadCels(layout.xsize, layout.ysize) <= QSTATUS_SIZE
      modifies qStatus0, qStatus1, this`onQuad
      ensures var n, qs := NumQuadCels(layout.xsize, layout.ysize), Offsets(layout, SetupQuads(layout), xOff, yOff);
        && onQuad == |SetupQuads(layout)| <= n - 64
        && qStatus0[..] == Nulled(Written(old(qStatus0[..]), 0, qs), n - 64, n)
        && qStatus1[..] == Nulled(Written(old(qStatus1[..]), 0, Shifted(qs, screenDelta)), n - 64, n)
    {
      onQuad := RoqSetup.SetupQuad(qStatus0, qStatus1, layout, screenDelta, xOff, yOff);
    }

    /** The frame a QUAD_VQ chunk at byte `fd` is drawn from, over the quad list `list`. */
    function VqFrame(list: array<int>, fd: int): Frame
      requires 0 <= fd <= file.Length
      reads this, list, file, mcomp, vq2, vq4, vq8
    {
      Frame(list[..], file[fd..], layout.samplesPerLine, mcomp[..], vq2[..], vq4[..], vq8[..])
    }

    /** The words of one frame buffer. */
    function FrameWords(): int
      reads this
    {
      layout.samplesPerLine * layout.ysize / 4
    }

    /**
     * A QUAD_VQ chunk at byte `fd`: an odd frame is drawn into the second
     * buffer over the second list, from the first buffer, an even one the
     * other way round; the very first frame is then copied into the second
     * buffer. False, when the stream, a list or a copy would leave its buffer.
     */
    method QuadVqChunk(fd: int) returns (ok: bool)
      requires Valid() && 0 <= fd <= FILE_BUFFER
      modifies this`normalBuffer0, this`buf, this`numQuads, mcomp, image
      ensures var odd := old(numQuads) % 2 == 1;
        && normalBuffer0 == (if odd then t1 else t0)
        && mcomp[..] == McompTable(normalBuffer0, layout, chunk.f0, chunk.f1)
        && var r := RunFrom(old(image[..]), VqFrame(if odd then qStatus1 else qStatus0, fd), Start(0));
           var n := FrameWords();
           && ok == (r.Some? && (old(numQuads) == 0 ==> 0 <= n && 2 * n <= |r.value|))
           && (ok ==> numQuads == old(numQuads) + 1 && buf == (if odd then screenDelta else 0))
           && (ok && old(numQuads) != 0 ==> image[..] == r.value)
           && (ok && old(numQuads) == 0 ==> image[..] == r.value[..n] + r.value[..n] + r.value[2 * n..])
    {
      var odd := numQuads % 2 == 1;
      normalBuffer0 := if odd then t1 else t0;
      PrepMcomp(chunk.f0, chunk.f1);
      ok := BlitVQQuad32fs(VqFrame(if odd then qStatus1 else qStatus0, fd));
      if !ok {
        return;
      }
      buf := if odd then screenDelta else 0;
      if numQuads == 0 {
        ok := CopyFirstFrame();
        if !ok {
          return;
        }
      }
      numQuads := numQuads + 1;
    }

    /**
     * A QUAD_INFO chunk at byte `fd`: before the first frame the picture
     * size is read and the quad lists set up; the frame count restarts at 0
     * unless one frame has been drawn. False, when the quad info would
     * leave the chunk buffer or the picture's quad lists the lists.
     */
    method QuadInfoChunk(fd: int) returns (ok: bool)
      requires Valid() && 0 <= fd <= FILE_BUFFER
      modifies this`layout, this`maxsize, this`minsize, this`screenDelta, this`image, this`hasImage,
               this`t0, this`t1, this`drawX, this`drawY, qStatus0, qStatus1, this`onQuad, this`numQuads
      ensures Valid() && (image == old(image) || fresh(image))
      ensures old(numQuads) == -1 ==>
        ok == (fd + 8 <= FILE_BUFFER && PictureFits(ParseQuadInfo(file[fd .. fd + 8])))
      ensures old(numQuads) == -1 && ok ==> var q := ParseQuadInfo(file[fd .. fd + 8]);
        && layout == LayoutOf(q) && hasImage && onQuad == |SetupQuads(layout)|
        && screenDelta == ScreenDelta(q, 4) && t0 == screenDelta && t1 == -screenDelta
      ensures old(numQuads) != -1 ==> ok && layout == old(layout) && image == old(image) && onQuad == old(onQuad)
      ensures ok ==> numQuads == (if old(numQuads) == 1 then 1 else 0)
    {
      if numQuads == -1 {
        if !(fd + 8 <= FILE_BUFFER && PictureFits(ParseQuadInfo(file[fd .. fd + 8]))) {
          return false;
        }
        ReadQuadInfo(fd);
        SetupQuad(0, 0);
      }
      if numQuads != 1 {
        numQuads := 0;
      }
      ok := true;
    }

    /**
     * The chunk in hand, at byte `fd`, by its id: a frame, a codebook, the
     * quad info, a packet (whose argument says whether the chunks in it
     * follow in the same read) or a hang, both with no data; sound chunks
     * are passed over, and any other id ends the stream. In a JPEG chunk
     * the first frame is copied to the second buffer. False when a buffer
     * would be left.
     */
    method DispatchChunk(fd: int) returns (ok: bool)
      requires Valid() && 0 <= fd <= FILE_BUFFER
      modifies this`normalBuffer0, this`buf, this`numQuads, this`inMemory, this`chunk, this`status,
               this`layout, this`maxsize, this`minsize, this`screenDelta, this`image, this`hasImage,
               this`t0, this`t1, this`drawX, this`drawY, this`onQuad,
               mcomp, image, vq2, vq4, vq8, qStatus0, qStatus1
      ensures Valid() && (image == old(image) || fresh(image))
      ensures var id := old(chunk.id);
        && (id == ROQ_QUAD_VQ ==> numQuads == old(numQuads) + 1 || !ok)
        && (id == ROQ_CODEBOOK ==> ok == CodebookFitsFrom(fd, old(chunk.flags)) && numQuads == old(numQuads))
        && (id == ROQ_QUAD_INFO && ok ==> numQuads == (if old(numQuads) == 1 then 1 else 0))
        && (id == ROQ_PACKET ==> ok && inMemory == (old(chunk.flags) != 0) && chunk == old(chunk).(size := 0))
        && (id == ROQ_QUAD_HANG ==> ok && chunk == old(chunk).(size := 0) && inMemory == old(inMemory))
        && (id == ROQ_QUAD_JPEG && ok ==> numQuads == (if old(numQuads) == 0 then 1 else old(numQuads)))
        && (id == ZA_SOUND_MONO || id == ZA_SOUND_STEREO ==> ok && numQuads == old(numQuads) && status == old(status))
        && (!KnownChunk(id) ==> ok && status == FmvEof && numQuads == old(numQuads))
        && (id != ROQ_PACKET && id != ROQ_QUAD_HANG ==> chunk == old(chunk) && inMemory == old(inMemory))
        && (KnownChunk(id) ==> status == old(status))
    {
      ok := true;
      var id := chunk.id;
      if id == ROQ_QUAD_VQ {
        ok := QuadVqChunk(fd);
      } else if id == ROQ_CODEBOOK {
        ok := DecodeCodeBook(fd, chunk.flags);
      } else if id == ZA_SOUND_MONO || id == ZA_SOUND_STEREO {
      } else if id == ROQ_QUAD_INFO {
        ok := QuadInfoChunk(fd);
      } else if id == ROQ_PACKET {
        inMemory := chunk.flags != 0;
        chunk := chunk.(size := 0);
      } else if id == ROQ_QUAD_HANG {
        chunk := chunk.(size := 0);
      } else if id == ROQ_QUAD_JPEG {
        if numQuads == 0 {
          normalBuffer0 := t0;
          ok := CopyFirstFrame();
          if ok {
            numQuads := numQuads + 1;
          }
        }
      } else {
        status := FmvEof;
      }
    }

    /** What RoQReset leaves of the stream: the status LOOPED, the header read again, no quad info yet. */
    predicate JustReset()
      reads this
    {
      status == FmvLooped && roqPlayed == 24 && numQuads == -1
    }

    /**
     * RoQInterrupt: the chunk whose header is in hand is read with the next
     * header after it, unless the file has all been played (then the stream
     * starts over when looping, or ends). The chunk is dispatched, and the
     * header after it parsed: one the guard stops ends the stream (and
     * starts it over when looping); otherwise, after a packet that holds
     * its chunks, the chunk after the header is dispatched from the same
     * read. Each chunk read counts its size and header into roqPlayed.
     * `next` is the last header parsed, if any. A chunk too large for the
     * chunk buffer, or one whose data or next header would leave it, ends
     * the stream.
     */
    method RoQInterrupt() returns (ghost next: Option<ChunkHeader>)
      requires Valid()
      modifies this`normalBuffer0, this`buf, this`numQuads, this`inMemory, this`chunk, this`status,
               this`layout, this`maxsize, this`minsize, this`screenDelta, this`image, this`hasImage,
               this`t0, this`t1, this`drawX, this`drawY, this`onQuad, this`roqPlayed, this`roqFPS,
               iFile, file, image, mcomp, vq2, vq4, vq8, qStatus0, qStatus1
      ensures Valid() && (image == old(image) || fresh(image))
      ensures old(chunk.size) + 8 > FILE_BUFFER ==>
        next.None? && status == FmvEof && roqPlayed == old(roqPlayed) && iFile.pos == old(iFile.pos)
      ensures old(chunk.size) + 8 <= FILE_BUFFER && old(roqPlayed) >= roqSize ==>
        next.None? && (if looping then JustReset() else status == FmvEof && roqPlayed == old(roqPlayed))
      ensures next.Some? ==> old(chunk.size) + 8 <= FILE_BUFFER && old(roqPlayed) < roqSize
      ensures next.Some? && Stops(next.value) ==>
        if looping then JustReset() else status == FmvEof && roqPlayed == old(roqPlayed)
      ensures next.Some? && !Stops(next.value) ==>
        chunk == next.value && roqPlayed == old(roqPlayed) + chunk.size + 8 && (!inMemory || status == FmvEof)
      ensures next.None? ==> JustReset() || (status == FmvEof && roqPlayed == old(roqPlayed))
    {
      next := None;
      if chunk.size + 8 > FILE_BUFFER {
        status := FmvEof;
        return;
      }
      var k := iFile.Read(file, chunk.size + 8);
      if roqPlayed >= roqSize {
        if looping {
          Restart();
        } else {
          status := FmvEof;
        }
        return;
      }
      var last := DispatchFrom();
      next := last;
      if last.Some? && !Stops(last.value) {
        roqPlayed := roqPlayed + chunk.size + 8;
      }
    }

    /**
     * RoQInterrupt once the chunk is read: its dispatch, the next header, the
     * guard, and the chunks of a packet that holds them. `next` is the last
     * header parsed, and None when a buffer would be left.
     */
    method DispatchFrom() returns (next: Option<ChunkHeader>)
      requires Valid()
      modifies this`normalBuffer0, this`buf, this`numQuads, this`inMemory, this`chunk, this`status,
               this`layout, this`maxsize, this`minsize, this`screenDelta, this`image, this`hasImage,
               this`t0, this`t1, this`drawX, this`drawY, this`onQuad, this`roqPlayed, this`roqFPS,
               iFile, file, image, mcomp, vq2, vq4, vq8, qStatus0, qStatus1
      ensures Valid() && (image == old(image) || fresh(image))
      ensures next.Some? && Stops(next.value) ==>
        if looping then JustReset() else status == FmvEof && roqPlayed == old(roqPlayed)
      ensures next.Some? && !Stops(next.value) ==>
        chunk == next.value && roqPlayed == old(roqPlayed) && (!inMemory || status == FmvEof)
      ensures next.None? ==> status == FmvEof && roqPlayed == old(roqPlayed)
    {
      var fd := 0;
      while true
        invariant Valid() && 0 <= fd <= FILE_BUFFER && (image == old(image) || fresh(image))
        invariant roqPlayed == old(roqPlayed)
        decreases FILE_BUFFER - fd
      {
        var more, fd1;
        next, more, fd1 := DispatchAt(fd);
        if !more {
          return;
        }
        fd := fd1;
      }
    }

    /**
     * One pass of RoQInterrupt's dispatch, for the chunk at byte `fd`: when
     * `more`, the packet in hand holds the chunk whose data starts at `fd1`,
     * after the header just parsed, and that chunk is dispatched next.
     */
    method DispatchAt(fd: int) returns (next: Option<ChunkHeader>, more: bool, fd1: int)
      requires Valid() && 0 <= fd <= FILE_BUFFER
      modifies this`normalBuffer0, this`buf, this`numQuads, this`inMemory, this`chunk, this`status,
               this`layout, this`maxsize, this`minsize, this`screenDelta, this`image, this`hasImage,
               this`t0, this`t1, this`drawX, this`drawY, this`onQuad, this`roqPlayed, this`roqFPS,
               iFile, file, image, mcomp, vq2, vq4, vq8, qStatus0, qStatus1
      ensures Valid() && (image == old(image) || fresh(image))
      ensures more ==> fd < fd1 <= FILE_BUFFER && roqPlayed == old(roqPlayed)
      ensures !more && next.Some? && Stops(next.value) ==>
        if looping then JustReset() else status == FmvEof && roqPlayed == old(roqPlayed)
      ensures !more && next.Some? && !Stops(next.value) ==>
        chunk == next.value && roqPlayed == old(roqPlayed) && (!inMemory || status == FmvEof)
      ensures !more && next.None? ==> status == FmvEof && roqPlayed == old(roqPlayed)
    {
      // The source tests roqPlayed against the file size once more after the
      // dispatch; no chunk changes either, so that test never succeeds.
      more, fd1 := false, fd;
      next := None;
      var ok := DispatchChunk(fd);
      if !ok {
        status := FmvEof;
        return;
      }
      next, more, fd1 := NextHeader(fd + chunk.size);
    }

    /**
     * The header after a dispatched chunk, at byte `at`: none, and the end
     * of the stream, when it would leave the chunk buffer; the end (and a
     * start over when looping) when the guard stops it; otherwise, after a
     * packet that holds its chunks, the chunk after it is to be dispatched
     * from `fd1`.
     */
    method NextHeader(at: int) returns (next: Option<ChunkHeader>, more: bool, fd1: int)
      requires Valid() && 0 <= at
      modifies iFile, file, this`roqPlayed, this`roqFPS, this`numQuads, this`chunk, this`status, this`inMemory
      ensures Valid()
      ensures more ==> at + 8 == fd1 <= FILE_BUFFER && roqPlayed == old(roqPlayed)
      ensures next.None? ==> !more && status == FmvEof && roqPlayed == old(roqPlayed)
      ensures next.Some? ==> at + 8 <= FILE_BUFFER && next.value == ParseChunk(old(file[at .. at + 8]))
      ensures !more && next.Some? && Stops(next.value) ==>
        if looping then JustReset() else status == FmvEof && roqPlayed == old(roqPlayed)
      ensures next.Some? && !Stops(next.value) ==>
        && chunk == next.value && roqPlayed == old(roqPlayed) && status == old(status)
        && (more <==> old(inMemory) && old(status) != FmvEof) && inMemory == (old(inMemory) && !more)
    {
      more, fd1 := false, at;
      if at + 8 > FILE_BUFFER {
        status := FmvEof;
        return None, more, fd1;
      }
      chunk := ParseChunk(file[at .. at + 8]);
      next := Some(chunk);
      if Stops(chunk) {
        status := FmvEof;
        if looping {
          Restart();
        }
        return;
      }
      if inMemory && status != FmvEof {
        inMemory := false;
        more, fd1 := true, at + 8;
      }
    }

    /** What one of ImageForTime's loops waits for, still to come. */
    predicate Pumping(w: Wait)
      reads this
    {
      match w
      case AnyFrame => buf == NULL
      case FrameWhilePlaying => buf == NULL && status == FmvPlay
      case FrameCount => tfps != numQuads && status == FmvPlay
    }

    /**
     * One of ImageForTime's loops: RoQInterrupt until what it waits for has
     * come, at most `fuel` times. Unless the fuel ran out, it has come.
     */
    method Pump(w: Wait, fuel: nat) returns (steps: nat)
      requires Valid()
      modifies this`normalBuffer0, this`buf, this`numQuads, this`inMemory, this`chunk, this`status,
               this`layout, this`maxsize, this`minsize, this`screenDelta, this`image, this`hasImage,
               this`t0, this`t1, this`drawX, this`drawY, this`onQuad, this`roqPlayed, this`roqFPS,
               iFile, file, image, mcomp, vq2, vq4, vq8, qStatus0, qStatus1
      ensures Valid() && (image == old(image) || fresh(image))
      ensures steps <= fuel && (steps < fuel ==> !Pumping(w))
    {
      steps := 0;
      while steps < fuel && Pumping(w)
        invariant Valid() && steps <= fuel && (image == old(image) || fresh(image))
      {
        ghost var next := RoQInterrupt();
        steps := steps + 1;
      }
    }

    /**
     * ImageForTime: nothing, and nothing changes, when cinematics are
     * skipped or this one is at its end or idle. Otherwise playback
     * (re)starts when there is no frame yet or the clock was reset, the
     * frames due by `time` (clamped at 0) are decoded, in a new pass from
     * the start when fewer are due than drawn, a loop back to the start or
     * an end of file in a looping cinematic restarts the clock, and an end
     * of file in any other makes it idle, its file left open. The result
     * gives the buffer size, the status and the frame. Each loop runs
     * RoQInterrupt at most `fuel` times.
     */
    method ImageForTime(time: int, skip: bool, fuel: nat) returns (data: CinData)
      requires Valid()
      modifies this`normalBuffer0, this`buf, this`numQuads, this`inMemory, this`chunk, this`status,
               this`layout, this`maxsize, this`minsize, this`screenDelta, this`image, this`hasImage,
               this`t0, this`t1, this`drawX, this`drawY, this`onQuad, this`roqPlayed, this`roqFPS,
               iFile, file, image, mcomp, vq2, vq4, vq8, qStatus0, qStatus1, this`startTime, this`tfps, this`fileName, this`fileOpen
      ensures Valid() && (image == old(image) || fresh(image))
      ensures skip || old(status) == FmvEof || old(status) == FmvIdle ==> data == NO_DATA && unchanged(this)
      ensures !(skip || old(status) == FmvEof || old(status) == FmvIdle) ==>
        && data == CinData(layout.cinWidth, layout.cinHeight, status, buf)
        && (!looping ==> status != FmvEof)
        && fileOpen == old(fileOpen) && fileName == old(fileName)
    {
      var thisTime := if time < 0 then 0 else time;
      if skip || status == FmvEof || status == FmvIdle {
        return NO_DATA;
      }
      Play(thisTime, fuel);
      data := CinData(layout.cinWidth, layout.cinHeight, status, buf);
    }

    /** ImageForTime on a cinematic that plays: the clock, the frame count, the decoding, a loop back and an end of file. */
    method Play(thisTime: int, fuel: nat)
      requires Valid()
      modifies this`normalBuffer0, this`buf, this`numQuads, this`inMemory, this`chunk, this`status,
               this`layout, this`maxsize, this`minsize, this`screenDelta, this`image, this`hasImage,
               this`t0, this`t1, this`drawX, this`drawY, this`onQuad, this`roqPlayed, this`roqFPS,
               iFile, file, image, mcomp, vq2, vq4, vq8, qStatus0, qStatus1, this`startTime, this`tfps, this`fileName, this`fileOpen
      ensures Valid() && (image == old(image) || fresh(image))
      ensures (!looping ==> status != FmvEof) && fileOpen == old(fileOpen) && fileName == old(fileName)
    {
      ClockStart(thisTime);
      Recount(thisTime);
      Decode(thisTime, fuel);
    }

    /** ImageForTime once the frame count is known: the decoding, then a loop back and an end of file. */
    method Decode(thisTime: int, fuel: nat)
      requires Valid()
      modifies this`normalBuffer0, this`buf, this`numQuads, this`inMemory, this`chunk, this`status,
               this`layout, this`maxsize, this`minsize, this`screenDelta, this`image, this`hasImage,
               this`t0, this`t1, this`drawX, this`drawY, this`onQuad, this`roqPlayed, this`roqFPS,
               iFile, file, image, mcomp, vq2, vq4, vq8, qStatus0, qStatus1, this`startTime, this`fileName, this`fileOpen
      ensures Valid() && (image == old(image) || fresh(image))
      ensures (!looping ==> status != FmvEof) && fileOpen == old(fileOpen) && fileName == old(fileName)
    {
      var steps := CatchUp(fuel);
      steps := LoopedBack(thisTime, fuel);
      steps := EndOfFile(thisTime, fuel);
    }

    /**
     * ImageForTime's start: the file is rewound when the clock was reset,
     * and the clock starts at `thisTime` when there is no frame yet or it
     * was reset.
     */
    method ClockStart(thisTime: int)
      requires Valid()
      modifies iFile, file, this`roqPlayed, this`roqFPS, this`numQuads, this`chunk, this`status, this`startTime
      ensures Valid()
      ensures startTime == (if old(buf) == NULL || old(startTime) == -1 then thisTime else old(startTime))
      ensures old(startTime) == -1 ==> JustReset()
      ensures old(startTime) != -1 ==> numQuads == old(numQuads) && status == old(status)
    {
      if buf == NULL || startTime == -1 {
        if startTime == -1 {
          Restart();
        }
        startTime := thisTime;
      }
    }

    /**
     * tfps is the frames due by `thisTime`; fewer frames due than drawn
     * start a new pass from the beginning, playing, with no frame. Either
     * way no more frames are drawn than are due.
     */
    method Recount(thisTime: int)
      requires Valid()
      modifies iFile, file, this`roqPlayed, this`roqFPS, this`numQuads, this`chunk, this`status, this`tfps, this`buf
      ensures Valid()
      ensures tfps == FramesDue(thisTime - startTime, frameRate) >= numQuads
      ensures tfps >= old(numQuads) ==> buf == old(buf) && numQuads == old(numQuads) && status == old(status)
      ensures tfps < old(numQuads) ==> buf == NULL && status == FmvPlay && numQuads == -1
    {
      tfps := FramesDue(thisTime - startTime, frameRate);
      if tfps < numQuads {
        Rewound();
      }
    }

    /** The clock went back: the stream starts over from its first chunk, with no frame in hand. */
    method Rewound()
      requires Valid()
      modifies iFile, file, this`roqPlayed, this`roqFPS, this`numQuads, this`chunk, this`status, this`buf
      ensures Valid() && buf == NULL && status == FmvPlay && numQuads == -1
    {
      Restart();
      buf := NULL;
      status := FmvPlay;
    }

    /** ImageForTime's decoding: up to a first frame when there is none, else up to the frames due while playing. */
    method CatchUp(fuel: nat) returns (steps: nat)
      requires Valid()
      modifies this`normalBuffer0, this`buf, this`numQuads, this`inMemory, this`chunk, this`status,
               this`layout, this`maxsize, this`minsize, this`screenDelta, this`image, this`hasImage,
               this`t0, this`t1, this`drawX, this`drawY, this`onQuad, this`roqPlayed, this`roqFPS,
               iFile, file, image, mcomp, vq2, vq4, vq8, qStatus0, qStatus1
      ensures Valid() && (image == old(image) || fresh(image))
      ensures steps <= fuel && (steps < fuel ==> !Pumping(if old(buf) == NULL then AnyFrame else FrameCount))
    {
      steps := 0;
      if buf == NULL {
        steps := Pump(AnyFrame, fuel);
      } else {
        steps := Pump(FrameCount, fuel);
      }
    }

    /** A loop back to the start: playing again, up to a first frame while playing, the clock restarted. */
    method LoopedBack(thisTime: int, fuel: nat) returns (steps: nat)
      requires Valid()
      modifies this`normalBuffer0, this`buf, this`numQuads, this`inMemory, this`chunk, this`status,
               this`layout, this`maxsize, this`minsize, this`screenDelta, this`image, this`hasImage,
               this`t0, this`t1, this`drawX, this`drawY, this`onQuad, this`roqPlayed, this`roqFPS,
               iFile, file, image, mcomp, vq2, vq4, vq8, qStatus0, qStatus1, this`startTime
      ensures Valid() && (image == old(image) || fresh(image))
      ensures old(status) == FmvLooped ==> startTime == thisTime && steps <= fuel && (steps < fuel ==> !Pumping(FrameWhilePlaying))
      ensures old(status) != FmvLooped ==> status == old(status) && startTime == old(startTime) && buf == old(buf)
    {
      steps := 0;
      if status == FmvLooped {
        status := FmvPlay;
        steps := Pump(FrameWhilePlaying, fuel);
        startTime := thisTime;
      }
    }

    /**
     * An end of file: a looping cinematic starts over (see StartOver); any
     * other becomes idle, and RoQShutdown, finding it idle, leaves its file
     * open.
     */
    method EndOfFile(thisTime: int, fuel: nat) returns (steps: nat)
      requires Valid()
      modifies this`normalBuffer0, this`buf, this`numQuads, this`inMemory, this`chunk, this`status,
               this`layout, this`maxsize, this`minsize, this`screenDelta, this`image, this`hasImage,
               this`t0, this`t1, this`drawX, this`drawY, this`onQuad, this`roqPlayed, this`roqFPS,
               iFile, file, image, mcomp, vq2, vq4, vq8, qStatus0, qStatus1, this`startTime, this`fileName, this`fileOpen
      ensures Valid() && (image == old(image) || fresh(image)) && fileOpen == old(fileOpen) && fileName == old(fileName)
      ensures old(status) == FmvEof && !looping ==> status == FmvIdle
      ensures old(status) == FmvEof && looping ==>
        startTime == thisTime && steps <= fuel && (steps < fuel ==> !Pumping(FrameWhilePlaying))
      ensures old(status) != FmvEof ==> status == old(status) && buf == old(buf) && startTime == old(startTime)
    {
      steps := 0;
      if status == FmvEof {
        if looping {
          steps := StartOver(thisTime, fuel);
        } else {
          status := FmvIdle;
          RoQShutdown();
        }
      }
    }

    /** A looping cinematic at its end: back to the start, playing, up to a first frame, the clock restarted. */
    method StartOver(thisTime: int, fuel: nat) returns (steps: nat)
      requires Valid()
      modifies this`normalBuffer0, this`buf, this`numQuads, this`inMemory, this`chunk, this`status,
               this`layout, this`maxsize, this`minsize, this`screenDelta, this`image, this`hasImage,
               this`t0, this`t1, this`drawX, this`drawY, this`onQuad, this`roqPlayed, this`roqFPS,
               iFile, file, image, mcomp, vq2, vq4, vq8, qStatus0, qStatus1, this`startTime
      ensures Valid() && (image == old(image) || fresh(image))
      ensures startTime == thisTime && steps <= fuel && (steps < fuel ==> !Pumping(FrameWhilePlaying))
    {
      Restart();
      buf := NULL;
      if status == FmvLooped {
        status := FmvPlay;
      }
      steps := Pump(FrameWhilePlaying, fuel);
      startTime := thisTime;
    }

    /**
     * InitFromFile: the cinematic closes, then opens the file at
     * VideoPath(qpath) among `files`; false when there is none. A RoQ file
     * starts playing (see OpenRoQ); any other is shut down and refused.
     */
    method InitFromFile(qpath: string, amilooping: bool, files: map<string, seq<Byte>>, skip: bool, fuel: nat)
      returns (ok: bool, ghost header: seq<Byte>)
      requires Valid()
      modifies this`normalBuffer0, this`buf, this`numQuads, this`inMemory, this`chunk, this`status,
               this`layout, this`maxsize, this`minsize, this`screenDelta, this`image, this`hasImage,
               this`t0, this`t1, this`drawX, this`drawY, this`onQuad, this`roqPlayed, this`roqFPS,
               iFile, file, image, mcomp, vq2, vq4, vq8, qStatus0, qStatus1, this`startTime, this`tfps, this`fileName, this`fileOpen,
               this`iFile, this`animationLength, this`roqSize, this`looping, this`frameRate
      ensures Valid() && animationLength == 100000
      ensures fileName == VideoPath(qpath) && fileOpen == (VideoPath(qpath) in files)
      ensures VideoPath(qpath) !in files ==> !ok
      ensures VideoPath(qpath) in files ==>
        var d := files[VideoPath(qpath)];
        var k := if |d| < 16 then |d| else 16;
        && |header| == 16 && header[..k] == d[..k]
        && (ok <==> LE16(header[0], header[1]) == ROQ_FILE)
        && roqSize == |d| && looping == amilooping && frameRate == header[6]
      ensures status == (if ok && amilooping then FmvPlay else FmvIdle)
    {
      Close();
      inMemory := false;
      animationLength := 100000;
      fileName := VideoPath(qpath);
      header := [];
      if fileName !in files {
        fileOpen := false;
        return false, header;
      }
      ok, header := OpenFile(files[fileName], amilooping, skip, fuel);
    }

    /** InitFromFile once the file is found: it is opened, its size taken, the looping flag set, then OpenRoQ. */
    method OpenFile(d: seq<Byte>, amilooping: bool, skip: bool, fuel: nat) returns (ok: bool, ghost header: seq<Byte>)
      requires Valid() && status == FmvIdle && !hasImage
      modifies this`normalBuffer0, this`buf, this`numQuads, this`inMemory, this`chunk, this`status,
               this`layout, this`maxsize, this`minsize, this`screenDelta, this`image, this`hasImage,
               this`t0, this`t1, this`drawX, this`drawY, this`onQuad, this`roqPlayed, this`roqFPS,
               iFile, file, image, mcomp, vq2, vq4, vq8, qStatus0, qStatus1, this`startTime, this`tfps, this`fileName, this`fileOpen,
               this`iFile, this`roqSize, this`looping, this`frameRate
      ensures Valid() && fileName == old(fileName) && fileOpen
      ensures var k := if |d| < 16 then |d| else 16;
        && |header| == 16 && header[..k] == d[..k]
        && (ok <==> LE16(header[0], header[1]) == ROQ_FILE)
        && roqSize == |d| && looping == amilooping && frameRate == header[6]
      ensures status == (if ok && amilooping then FmvPlay else FmvIdle)
    {
      Attach(d, amilooping);
      ok, header := OpenRoQ(skip, fuel);
    }

    /** The file opened on `d`: open, unread, its size taken, and the looping flag set. */
    method Attach(d: seq<Byte>, amilooping: bool)
      requires Valid()
      modifies this`iFile, this`fileOpen, this`roqSize, this`looping
      ensures Valid() && fresh(iFile) && iFile.data == d && iFile.pos == 0
      ensures fileOpen && roqSize == |d| && looping == amilooping
    {
      iFile := new FileStream(d);
      fileOpen := true;
      roqSize := iFile.Length();
      looping := amilooping;
    }

    /**
     * InitFromFile on the file just opened: the default buffer size, four
     * bytes a pixel, the clock at 0 and no frame; the first 16 bytes are
     * read (`header` is the buffer after the read) and the frame rate taken
     * from byte 6. A RoQ file runs RoQ_init and ImageForTime at time 0, and
     * is left playing when looping and idle otherwise; any other file is
     * shut down and refused.
     */
    method OpenRoQ(skip: bool, fuel: nat) returns (ok: bool, ghost header: seq<Byte>)
      requires Valid() && iFile.pos == 0 && fileOpen && status == FmvIdle && !hasImage
      modifies this`normalBuffer0, this`buf, this`numQuads, this`inMemory, this`chunk, this`status,
               this`layout, this`maxsize, this`minsize, this`screenDelta, this`image, this`hasImage,
               this`t0, this`t1, this`drawX, this`drawY, this`onQuad, this`roqPlayed, this`roqFPS,
               iFile, file, image, mcomp, vq2, vq4, vq8, qStatus0, qStatus1, this`startTime, this`tfps, this`fileName, this`fileOpen, this`frameRate
      ensures Valid()
      ensures var k := if |iFile.data| < 16 then |iFile.data| else 16;
        && |header| == 16 && header[..k] == iFile.data[..k]
        && (ok <==> LE16(header[0], header[1]) == ROQ_FILE) && frameRate == header[6]
      ensures status == (if ok && looping then FmvPlay else FmvIdle) && fileOpen && fileName == old(fileName)
    {
      var roqId;
      roqId, header := ReadHeader();
      if roqId == ROQ_FILE {
        FirstFrame(skip, fuel);
        return true, header;
      }
      RoQShutdown();
      return false, header;
    }

    /** The default buffer size, four bytes a pixel, the clock at 0, no frame, and the first 16 bytes of the file read. */
    method ReadHeader() returns (roqId: int, ghost header: seq<Byte>)
      requires Valid() && iFile.pos == 0 && !hasImage
      modifies this`layout, this`startTime, this`buf, this`frameRate, iFile, file
      ensures Valid() && !hasImage
      ensures var k := if |iFile.data| < 16 then |iFile.data| else 16;
        && header == file[..16] && header[..k] == iFile.data[..k]
        && roqId == LE16(header[0], header[1]) && frameRate == header[6]
      ensures layout.cinWidth == DEFAULT_CIN_WIDTH && layout.cinHeight == DEFAULT_CIN_HEIGHT
      ensures startTime == 0 && buf == NULL
    {
      layout := layout.(cinWidth := DEFAULT_CIN_WIDTH, cinHeight := DEFAULT_CIN_HEIGHT, samplesPerPixel := 4);
      startTime := 0;
      buf := NULL;
      var k := iFile.Read(file, 16);
      header := file[..16];
      roqId := LE16(file[0], file[1]);
      frameRate := file[6];
    }

    /** A RoQ file: RoQ_init, ImageForTime at time 0 while playing, then the status PLAY when looping and IDLE otherwise. */
    method FirstFrame(skip: bool, fuel: nat)
      requires Valid()
      modifies this`normalBuffer0, this`buf, this`numQuads, this`inMemory, this`chunk, this`status,
               this`layout, this`maxsize, this`minsize, this`screenDelta, this`image, this`hasImage,
               this`t0, this`t1, this`drawX, this`drawY, this`onQuad, this`roqPlayed, this`roqFPS,
               iFile, file, image, mcomp, vq2, vq4, vq8, qStatus0, qStatus1, this`startTime, this`tfps, this`fileName, this`fileOpen
      ensures Valid() && status == (if looping then FmvPlay else FmvIdle)
      ensures fileOpen == old(fileOpen) && fileName == old(fileName)
    {
      RoQInit();
      status := FmvPlay;
      var data := ImageForTime(0, skip, fuel);
      status := if looping then FmvPlay else FmvIdle;
    }

    /** The codebook of a CODEBOOK chunk at byte `fd` ends inside the chunk buffer. */
    static predicate CodebookFitsFrom(fd: int, flags: int)
      requires 0 <= flags < 0x1_0000
    {
      6 * CodebookCounts(flags).0 + 2 * CodebookCounts(flags).1 <= FILE_BUFFER - fd
    }

    /**
     * RoQPrepMcomp: the motion table of the frame to come. Byte b of a
     * motion code moves (b >> 4) - 8 + xoff pixels across and (b & 15) - 8 +
     * yoff rows down, counted back from the other buffer, twice as far on
     * pictures four times wider than high.
     */
    method PrepMcomp(xoff: int, yoff: int)
      requires Valid()
      modifies mcomp
      ensures mcomp[..] == McompTable(normalBuffer0, layout, xoff, yoff)
    {
      var i, j := layout.samplesPerLine, layout.samplesPerPixel;
      if layout.xsize == layout.ysize * 4 {
        j := j + j;
        i := i + i;
      }
      var y := 0;
      while y < 16
        invariant 0 <= y <= 16
        invariant forall b :: 0 <= b < 256 && b % 16 < y ==> mcomp[b] == Motion(normalBuffer0, i, j, xoff, yoff, b)
      {
        var temp2 := (y + yoff - 8) * i;
        var x := 0;
        while x < 16
          invariant 0 <= x <= 16
          invariant forall b :: 0 <= b < 256 && (b % 16 < y || (b % 16 == y && b / 16 < x)) ==>
            mcomp[b] == Motion(normalBuffer0, i, j, xoff, yoff, b)
        {
          var temp := (x + xoff - 8) * j;
          assert (x * 16 + y) % 16 == y && (x * 16 + y) / 16 == x;
          mcomp[x * 16 + y] := normalBuffer0 - (temp2 + temp);
          x := x + 1;
        }
        y := y + 1;
      }
    }

    /** The first frame drawn is copied into the second buffer (false when the buffers are not that large). */
    method CopyFirstFrame() returns (ok: bool)
      modifies image
      ensures var n := layout.samplesPerLine * layout.ysize / 4;
        && ok == (0 <= n && 2 * n <= image.Length)
        && (ok ==> image[..] == old(image[..n]) + old(image[..n]) + old(image[2 * n..]))
        && (!ok ==> image[..] == old(image[..]))
    {
      var n := layout.samplesPerLine * layout.ysize / 4;
      if !(0 <= n && 2 * n <= image.Length) {
        return false;
      }
      ghost var before := image[..];
      Put(image, n, image[..n]);
      assert image[..] == image[..n] + image[n .. 2 * n] + image[2 * n..];
      return true;
    }

    /**
     * blit8_32, blit4_32 and blit2_32: the w x w codebook entry at word
     * `entry` of `book` goes, word by word in the order of the unrolled
     * statements, to the block at byte offset `dst`, rows `spl >> 2` words
     * apart. False, with the image as it was, when this would leave a buffer.
     */
    method Blit(f: Frame, dst: int, w: int, book: seq<int>, entry: int) returns (ok: bool)
      requires Side(w)
      modifies image
      ensures var r := BlitAt(old(image[..]), f, dst, w, book, entry);
        ok == r.Some? && (ok ==> image[..] == r.value) && (!ok ==> image[..] == old(image[..]))
    {
      var dspl := Dspl(f);
      if !(dst % 4 == 0 && InImage(image.Length, dst / 4, dspl, w) && 0 <= entry && entry + Area(w) <= |book|) {
        return false;
      }
      var base := dst / 4;
      ghost var src := book[entry .. entry + Area(w)];
      var j := 0;
      while j < Area(w)
        invariant 0 <= j <= Area(w)
        invariant image[..] == BlitSpec(old(image[..]), base, dspl, w, src, j)
      {
        image[Cell(base, dspl, w, j)] := book[entry + j];
        j := j + 1;
      }
      return true;
    }

    /**
     * move8_32 and move4_32: the w x w block at byte offset `src` is copied
     * onto the one at `dst`, word by word in the order of the unrolled
     * statements, each word read from the image as it stands.
     */
    method Move(f: Frame, src: int, dst: int, w: int) returns (ok: bool)
      requires Side(w)
      modifies image
      ensures var r := MoveAt(old(image[..]), f, src, dst, w);
        ok == r.Some? && (ok ==> image[..] == r.value) && (!ok ==> image[..] == old(image[..]))
    {
      var dspl := Dspl(f);
      if !(dst % 4 == 0 && src % 4 == 0 && InImage(image.Length, dst / 4, dspl, w) && InImage(image.Length, src / 4, dspl, w)) {
        return false;
      }
      var base, from := dst / 4, src / 4;
      var j := 0;
      while j < Area(w)
        invariant 0 <= j <= Area(w)
        invariant image[..] == MoveSpec(old(image[..]), from, base, dspl, w, j)
      {
        image[Cell(base, dspl, w, j)] := image[Cell(from, dspl, w, j)];
        j := j + 1;
      }
      return true;
    }

    /** The 2x2 vq code of a 4x4 quad: four blit2_32 calls from the entries the next four bytes name. */
    method Blit2x4(f: Frame, dst: int, pos: int) returns (ok: bool)
      modifies image
      ensures var r := RoqVq.Blit2x4(old(image[..]), f, dst, pos);
        ok == r.Some? && (ok ==> image[..] == r.value)
    {
      if !(0 <= pos && pos + 3 < |f.data|) {
        return false;
      }
      ok := Blit(f, dst, 2, f.vq2, (f.data[pos] as int) * 4);
      if !ok { return; }
      ok := Blit(f, dst + 8, 2, f.vq2, (f.data[pos + 1] as int) * 4);
      if !ok { return; }
      ok := Blit(f, dst + f.spl * 2, 2, f.vq2, (f.data[pos + 2] as int) * 4);
      if !ok { return; }
      ok := Blit(f, dst + f.spl * 2 + 8, 2, f.vq2, (f.data[pos + 3] as int) * 4);
    }

    /** The vq or motion code of a w x w quad: blit8_32 / blit4_32 of a codebook entry, or move8_32 / move4_32. */
    method PaintQuad(f: Frame, code: bv16, dst: int, b: Byte, w: int) returns (ok: bool)
      requires w == 4 || w == 8
      modifies image
      ensures var r := Paint(old(image[..]), f, code, dst, b, w);
        ok == r.Some? && (ok ==> image[..] == r.value)
    {
      if code == CODE_VQ {
        ok := Blit(f, dst, w, if w == 4 then f.vq4 else f.vq8, (b as int) * Area(w));
      } else if b < |f.mcomp| {
        ok := Move(f, dst + f.mcomp[b], dst, w);
      } else {
        ok := false;
      }
    }

    /** What a sub-code does to the 4x4 quad at list entry `d.index`, the code already read. */
    method SubQuad(f: Frame, code: bv16, d: Cursor) returns (ok: bool, c1: Cursor)
      requires CursorOk(d)
      modifies image
      ensures var r := SubAction(old(image[..]), f, code, d);
        ok == r.Some? && (ok ==> image[..] == r.value.0 && c1 == r.value.1)
    {
      if code == CODE_SKIP {
        return true, d.(index := d.index + 1);
      }
      if !(0 <= d.index < |f.status|) {
        return false, d;
      }
      var dst := f.status[d.index];
      if code == CODE_SPLIT {
        ok := Blit2x4(f, dst, d.pos);
        return ok, d.(index := d.index + 1, pos := d.pos + 4);
      }
      if !(0 <= d.pos < |f.data|) {
        return false, d;
      }
      ok := PaintQuad(f, code, dst, f.data[d.pos], 4);
      c1 := d.(index := d.index + 1, pos := d.pos + 1);
    }

    /** One code of a split 8x8 quad, for the 4x4 quad at list entry `c.index`. */
    method SubCode(f: Frame, c: Cursor) returns (ok: bool, c1: Cursor)
      requires CursorOk(c)
      modifies image
      ensures var r := SubStep(old(image[..]), f, c);
        ok == r.Some? && (ok ==> image[..] == r.value.0 && c1 == r.value.1)
    {
      var next := NextCode(f, c);
      if next.None? {
        return false, c;
      }
      ok, c1 := SubQuad(f, next.value.0, next.value.1);
    }

    /** The four codes of the 4x4 quads of a split 8x8 quad, the first at list entry `d.index`. */
    method SplitQuad(f: Frame, d: Cursor) returns (ok: bool, c1: Cursor)
      requires CursorOk(d)
      modifies image
      ensures var r := SubSteps(old(image[..]), f, d, 4);
        ok == r.Some? && (ok ==> image[..] == r.value.0 && c1 == r.value.1)
    {
      c1 := d;
      var i := 0;
      while i < 4
        invariant 0 <= i <= 4 && CursorOk(c1)
        invariant SubSteps(old(image[..]), f, d, i) == Some((image[..], c1))
      {
        ok, c1 := SubCode(f, c1);
        if !ok {
          SubStepsFailed(old(image[..]), f, d, i + 1, 4);
          return;
        }
        i := i + 1;
      }
      return true, c1;
    }

    /** What a top-level code does to the 8x8 quad at list entry `d.index`, the code already read. */
    method TopQuad(f: Frame, code: bv16, d: Cursor) returns (ok: bool, c1: Cursor)
      requires CursorOk(d)
      modifies image
      ensures var r := TopAction(old(image[..]), f, code, d);
        ok == r.Some? && (ok ==> image[..] == r.value.0 && c1 == r.value.1)
    {
      if code == CODE_SKIP {
        return true, d.(index := d.index + 5);
      }
      if code == CODE_SPLIT {
        ok, c1 := SplitQuad(f, d.(index := d.index + 1));
        return;
      }
      if !(0 <= d.index < |f.status| && 0 <= d.pos < |f.data|) {
        return false, d;
      }
      ok := PaintQuad(f, code, f.status[d.index], f.data[d.pos], 8);
      c1 := d.(index := d.index + 5, pos := d.pos + 1);
    }

    /**
     * One top-level code of blitVQQuad32fs, for the 8x8 quad at list entry
     * `c.index`; a split runs the four codes of its 4x4 quads in turn.
     */
    method TopCode(f: Frame, c: Cursor) returns (ok: bool, c1: Cursor)
      requires CursorOk(c)
      modifies image
      ensures var r := TopStep(old(image[..]), f, c);
        ok == r.Some? && (ok ==> image[..] == r.value.0 && c1 == r.value.1)
    {
      var next := NextCode(f, c);
      if next.None? {
        return false, c;
      }
      ok, c1 := TopQuad(f, next.value.0, next.value.1);
    }

    /**
     * blitVQQuad32fs: the codes of a QUAD_VQ chunk drawn over the quads of
     * the list, until the list entry reached is NULL. False when the stream,
     * the list or a copy would run out of its buffer.
     */
    method BlitVQQuad32fs(f: Frame) returns (ok: bool)
      modifies image
      ensures var r := RunFrom(old(image[..]), f, Start(0));
        ok == r.Some? && (ok ==> image[..] == r.value)
    {
      var c := Start(0);
      while true
        invariant CursorOk(c)
        invariant RunFrom(image[..], f, c) == RunFrom(old(image[..]), f, Start(0))
        decreases |f.status| - c.index
      {
        ghost var before := image[..];
        var c1;
        ok, c1 := TopCode(f, c);
        if !ok {
          return;
        }
        TopStepAdvances(before, f, c);
        if !(0 <= c1.index < |f.status|) {
          return false;
        }
        if f.status[c1.index] == NULL {
          return true;
        }
        c := c1;
      }
    }

    /**
     * decodeCodeBook on the chunk at byte `fd` of the chunk buffer, on the
     * four-bytes-a-pixel, normal-height path: the 2x2 entries converted from
     * their Y Y Y Y Cr Cb bytes, then each 4x4 and 8x8 half-entry built by two
     * VQ2TO4 passes from the two 2x2 entries its next two bytes name. False,
     * the tables as they were, when the entries would run past the buffer.
     */
    method DecodeCodeBook(fd: int, flags: int) returns (ok: bool)
      requires Valid() && 0 <= fd <= FILE_BUFFER && 0 <= flags < 0x1_0000
      modifies vq2, vq4, vq8
      ensures ok == (6 * CodebookCounts(flags).0 + 2 * CodebookCounts(flags).1 <= FILE_BUFFER - fd)
      ensures ok ==>
        && Vq2Filled(tables, file[fd..], vq2[..], CodebookCounts(flags).0)
        && Vq4Built(file[fd..], CodebookCounts(flags).0, vq2[..], vq4[..], CodebookCounts(flags).1)
        && Vq8Built(file[fd..], CodebookCounts(flags).0, vq2[..], vq8[..], CodebookCounts(flags).1)
      ensures !ok ==> vq2[..] == old(vq2[..]) && vq4[..] == old(vq4[..]) && vq8[..] == old(vq8[..])
    {
      var counts := CodebookCounts(flags);
      var two, four := counts.0, counts.1;
      CodebookFits(flags);
      if 6 * two + 2 * four > FILE_BUFFER - fd {
        return false;
      }
      ConvertTwos(fd, two);
      BuildFours(fd, two, four);
      ok := true;
    }

    /** decodeCodeBook's first loop: `two` 2x2 entries from six bytes each, from byte `fd` on. */
    method ConvertTwos(fd: int, two: int)
      requires Buffers() && 0 <= fd && 0 <= two <= 256 && fd + 6 * two <= FILE_BUFFER
      modifies vq2
      ensures Vq2Filled(tables, file[fd..], vq2[..], two)
    {
      var p := fd;
      var i := 0;
      while i < two
        invariant 0 <= i <= two && p == fd + 6 * i
        invariant Vq2Filled(tables, file[fd..], vq2[..], i)
      {
        ConvertTwo(fd, p, i);
        p := p + 6;
        i := i + 1;
      }
    }

    /**
     * One 2x2 entry: the four luma bytes at `p`, each with the Cr and Cb
     * bytes after them, become entry `i`, the entries before it kept.
     */
    method ConvertTwo(fd: int, p: int, i: int)
      requires Buffers() && 0 <= fd && p == fd + 6 * i && p + 6 <= FILE_BUFFER && 0 <= i < 256
      requires Vq2Filled(tables, file[fd..], vq2[..], i)
      modifies vq2
      ensures Vq2Filled(tables, file[fd..], vq2[..], i + 1)
    {
      ghost var before := vq2[..];
      Put(vq2, 4 * i, Entry2(tables, file[p .. p + 6]));
      assert file[p .. p + 6] == file[fd..][6 * i .. 6 * i + 6];
      Vq2Extend(tables, file[fd..], before, vq2[..], i);
    }

    /** decodeCodeBook's second loop: `four` half-entries of the 4x4 and 8x8 tables, two bytes each, after the 2x2 entries. */
    method BuildFours(fd: int, two: int, four: int)
      requires Buffers() && 0 <= fd && 0 <= two <= 256 && 0 <= four <= 512 && fd + 6 * two + 2 * four <= FILE_BUFFER
      modifies vq4, vq8
      ensures Vq4Built(file[fd..], two, vq2[..], vq4[..], four) && Vq8Built(file[fd..], two, vq2[..], vq8[..], four)
    {
      ghost var input := file[fd..];
      var p := fd + 6 * two;
      var i := 0;
      while i < four
        invariant 0 <= i <= four && p == fd + 6 * two + 2 * i
        invariant Vq4Built(input, two, vq2[..], vq4[..], i) && Vq8Built(input, two, vq2[..], vq8[..], i)
      {
        var a, b := file[p], file[p + 1];
        assert a == Named(input, two, i, 0) && b == Named(input, two, i, 1);
        ghost var o4, o8 := vq4[..], vq8[..];
        Vq2To4(a, b, i, 0);
        ghost var m4, m8 := vq4[..], vq8[..];
        Vq2To4(a, b, i, 1);
        Vq4Extend(input, two, vq2[..], o4, m4, vq4[..], i);
        Vq8Extend(input, two, vq2[..], o8, m8, vq8[..], i);
        p := p + 2;
        i := i + 1;
      }
    }

    /**
     * One VQ2TO4 pass: row `j` of the 2x2 entries `a` and `b` side by side
     * becomes row `j` of 4x4 half-entry `i`, and, every word doubled, rows
     * 2j and 2j + 1 of 8x8 half-entry `i`. Nothing else changes.
     */
    method Vq2To4(a: Byte, b: Byte, i: int, j: int)
      requires Buffers() && 0 <= i < 512 && 0 <= j < 2
      modifies vq4, vq8
      ensures vq4[8 * i + 4 * j .. 8 * i + 4 * j + 4] == Row4(vq2[..], a, b, j)
      ensures vq8[32 * i + 16 * j .. 32 * i + 16 * j + 16] == Doubled(Row4(vq2[..], a, b, j)) + Doubled(Row4(vq2[..], a, b, j))
      ensures forall p :: 0 <= p < vq4.Length && !(8 * i + 4 * j <= p < 8 * i + 4 * j + 4) ==> vq4[p] == old(vq4[p])
      ensures forall p :: 0 <= p < vq8.Length && !(32 * i + 16 * j <= p < 32 * i + 16 * j + 16) ==> vq8[p] == old(vq8[p])
    {
      var row := [vq2[At2(a, j, 0)], vq2[At2(a, j, 1)], vq2[At2(b, j, 0)], vq2[At2(b, j, 1)]];
      assert row == Row4(vq2[..], a, b, j);
      Put(vq4, 8 * i + 4 * j, row);
      Put(vq8, 32 * i + 16 * j, Doubled(row) + Doubled(row));
    }
  }

  /** What the loops of ImageForTime wait for: a frame; a frame while playing; the frame count due. */
  datatype Wait = AnyFrame | FrameWhilePlaying | FrameCount

  /** The file InitFromFile opens: a bare name is looked for under video/, a path as it stands. */
  function VideoPath(qpath: string): string {
    if '/' in qpath || '\\' in qpath then qpath else "video/" + qpath
  }

  /**
   * Either way the name ends the path and the path names a directory; the
   * path is the name exactly when the name already names one.
   */
  lemma VideoPathNamesFile(qpath: string)
    ensures var p := VideoPath(qpath);
      && |p| >= |qpath| && p[|p| - |qpath|..] == qpath
      && ('/' in p || '\\' in p)
      && (('/' in qpath || '\\' in qpath) <==> p == qpath)
  {
    var p := VideoPath(qpath);
    if !('/' in qpath || '\\' in qpath) {
      assert p[5] == '/';
      assert p[|p| - |qpath|..] == qpath;
      assert p != qpath by {
        assert |p| == |qpath| + 6;
      }
    }
  }

  /** The chunk ids RoQInterrupt dispatches on; any other id ends the stream. */
  predicate KnownChunk(id: int) {
    id == ROQ_QUAD_VQ || id == ROQ_CODEBOOK || id == ZA_SOUND_MONO || id == ZA_SOUND_STEREO
    || id == ROQ_QUAD_INFO || id == ROQ_PACKET || id == ROQ_QUAD_HANG || id == ROQ_QUAD_JPEG
  }

  /** Where move8_32 / move4_32 reads for motion byte b: `nb` on to the other buffer, back by the displacement. */
  function Motion(nb: int, i: int, j: int, xoff: int, yoff: int, b: int): int {
    nb - ((b % 16 + yoff - 8) * i + (b / 16 + xoff - 8) * j)
  }

  /** The row and pixel strides RoQPrepMcomp uses: doubled on pictures four times wider than high. */
  function McompStrides(l: Layout): (int, int) {
    if l.xsize == l.ysize * 4 then (2 * l.samplesPerLine, 2 * l.samplesPerPixel) else (l.samplesPerLine, l.samplesPerPixel)
  }

  /** The motion table RoQPrepMcomp fills. */
  function McompTable(nb: int, l: Layout, xoff: int, yoff: int): (r: seq<int>)
    ensures |r| == 256
  {
    seq(256, b => Motion(nb, McompStrides(l).0, McompStrides(l).1, xoff, yoff, b))
  }

  /**
   * A motion byte holds the displacement (dx, dy), each in -8 .. 7, as its
   * high and low nibble biased by 8: the block read is dx + xoff pixels and
   * dy + yoff rows back from `nb`.
   */
  lemma MotionNibbles(nb: int, l: Layout, xoff: int, yoff: int, dx: int, dy: int)
    requires -8 <= dx < 8 && -8 <= dy < 8
    ensures var (i, j) := McompStrides(l);
      McompTable(nb, l, xoff, yoff)[(dx + 8) * 16 + dy + 8] == nb - ((dy + yoff) * i + (dx + xoff) * j)
  {
    var b := (dx + 8) * 16 + dy + 8;
    assert b % 16 == dy + 8 && b / 16 == dx + 8;
  }

  /** The 2x2 table keeps its first `i` entries when entry `i` is converted after them. */
  lemma Vq2Extend(t: ChromaTables, input: seq<Byte>, v: seq<int>, w: seq<int>, i: nat)
    requires TablesOk(t) && Vq2Filled(t, input, v, i) && 4 * i + 4 <= |v| == |w| && 6 * i + 6 <= |input|
    requires forall p :: 0 <= p < |v| && !(4 * i <= p < 4 * i + 4) ==> w[p] == v[p]
    requires w[4 * i .. 4 * i + 4] == Entry2(t, input[6 * i .. 6 * i + 6])
    ensures Vq2Filled(t, input, w, i + 1)
  {
    forall e | 0 <= e < i
      ensures w[4 * e .. 4 * e + 4] == Entry2(t, input[6 * e .. 6 * e + 6])
    {
      assert w[4 * e .. 4 * e + 4] == v[4 * e .. 4 * e + 4];
    }
  }

  /** The 4x4 table keeps its first `i` half-entries when half-entry `i` is written after them by two passes. */
  lemma Vq4Extend(input: seq<Byte>, two: nat, vq2: seq<int>, o: seq<int>, m: seq<int>, w: seq<int>, i: nat)
    requires Vq4Built(input, two, vq2, o, i) && 8 * i + 8 <= |o| == |m| == |w| && 6 * two + 2 * i + 2 <= |input|
    requires forall p :: 0 <= p < |o| && !(8 * i <= p < 8 * i + 4) ==> m[p] == o[p]
    requires forall p :: 0 <= p < |o| && !(8 * i + 4 <= p < 8 * i + 8) ==> w[p] == m[p]
    requires m[8 * i .. 8 * i + 4] == Row4(vq2, Named(input, two, i, 0), Named(input, two, i, 1), 0)
    requires w[8 * i + 4 .. 8 * i + 8] == Row4(vq2, Named(input, two, i, 0), Named(input, two, i, 1), 1)
    ensures Vq4Built(input, two, vq2, w, i + 1)
  {
    var a, b := Named(input, two, i, 0), Named(input, two, i, 1);
    assert w[8 * i .. 8 * i + 8] == Row4(vq2, a, b, 0) + Row4(vq2, a, b, 1) by {
      assert w[8 * i .. 8 * i + 4] == m[8 * i .. 8 * i + 4];
      assert w[8 * i .. 8 * i + 8] == w[8 * i .. 8 * i + 4] + w[8 * i + 4 .. 8 * i + 8];
    }
    forall e | 0 <= e < i
      ensures w[8 * e .. 8 * e + 8] == o[8 * e .. 8 * e + 8]
    {
      assert forall p :: 8 * e <= p < 8 * e + 8 ==> w[p] == o[p];
    }
  }

  /** The 8x8 table keeps its first `i` half-entries when half-entry `i` is written after them by two passes. */
  lemma Vq8Extend(input: seq<Byte>, two: nat, vq2: seq<int>, o: seq<int>, m: seq<int>, w: seq<int>, i: nat)
    requires Vq8Built(input, two, vq2, o, i) && 32 * i + 32 <= |o| == |m| == |w| && 6 * two + 2 * i + 2 <= |input|
    requires forall p :: 0 <= p < |o| && !(32 * i <= p < 32 * i + 16) ==> m[p] == o[p]
    requires forall p :: 0 <= p < |o| && !(32 * i + 16 <= p < 32 * i + 32) ==> w[p] == m[p]
    requires var r0 := Row4(vq2, Named(input, two, i, 0), Named(input, two, i, 1), 0);
      m[32 * i .. 32 * i + 16] == Doubled(r0) + Doubled(r0)
    requires var r1 := Row4(vq2, Named(input, two, i, 0), Named(input, two, i, 1), 1);
      w[32 * i + 16 .. 32 * i + 32] == Doubled(r1) + Doubled(r1)
    ensures Vq8Built(input, two, vq2, w, i + 1)
  {
    var a, b := Named(input, two, i, 0), Named(input, two, i, 1);
    var r0, r1 := Row4(vq2, a, b, 0), Row4(vq2, a, b, 1);
    assert w[32 * i .. 32 * i + 32] == Doubled(r0) + Doubled(r0) + Doubled(r1) + Doubled(r1) by {
      assert w[32 * i .. 32 * i + 16] == m[32 * i .. 32 * i + 16];
      assert w[32 * i .. 32 * i + 32] == w[32 * i .. 32 * i + 16] + w[32 * i + 16 .. 32 * i + 32];
    }
    forall e | 0 <= e < i
      ensures w[32 * e .. 32 * e + 32] == o[32 * e .. 32 * e + 32]
    {
      assert forall p :: 32 * e <= p < 32 * e + 32 ==> w[p] == o[p];
    }
  }

  /** Words start .. start + |s| of `arr` become `s`, one after the other; the rest stay. */
  method Put(arr: array<int>, start: int, s: seq<int>)
    requires 0 <= start && start + |s| <= arr.Length
    modifies arr
    ensures arr[start .. start + |s|] == s
    ensures forall p :: 0 <= p < arr.Length && !(start <= p < start + |s|) ==> arr[p] == old(arr[p])
  {
    var k := 0;
    while k < |s|
      invariant 0 <= k <= |s|
      invariant arr[start .. start + k] == s[..k]
      invariant forall p :: 0 <= p < arr.Length && !(start <= p < start + k) ==> arr[p] == old(arr[p])
    {
      arr[start + k] := s[k];
      k := k + 1;
    }
  }
}
