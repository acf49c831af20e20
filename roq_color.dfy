/**
 * The YCbCr to RGB conversion of the codebook (yuv_to_rgb and
 * yuv_to_rgb24): a luma table and four chroma tables, an arithmetic shift,
 * a clamp to the channel's range, and the packing of the channels into one
 * word.
 */
module RoqColor {
  import opened RoqBytes

  /**
   * The four chroma tables. InitCinematic fills them from the JFIF
   * (ITU-R BT.601) coefficients in floating point, so they are inputs here.
   */
  datatype ChromaTables = ChromaTables(ub: seq<int>, ug: seq<int>, vg: seq<int>, vr: seq<int>)

  predicate TablesOk(t: ChromaTables) {
    |t.ub| == 256 && |t.ug| == 256 && |t.vg| == 256 && |t.vr| == 256
  }

  /** ROQ_YY_tab[i], `(i << 6) | (i >> 2)`: the luma byte stretched to 14 bits. */
  function YY(i: Byte): (y: int)
    ensures 0 <= y < 0x4000
  {
    i * 64 + i / 4
  }

  /**
   * The two shifted parts of ROQ_YY_tab's entry do not overlap, so the `|`
   * is a sum: the entry is `i * 64 + i / 4`, as YY computes it.
   */
  lemma YYIsOr(b: bv16)
    requires b < 256
    ensures (b << 6) | (b >> 2) == b * 64 + b / 4
  {
  }

  /** The luma table is increasing, and runs from 0 to 0x3fff. */
  lemma YYIncreasing(i: Byte, j: Byte)
    requires i < j
    ensures YY(i) < YY(j) && YY(0) == 0 && YY(255) == 0x3fff
  {
  }

  /** Limiting a channel to 0 .. hi, as the if-chains of the conversions do. */
  function Clamp(x: int, hi: nat): (c: int)
    ensures 0 <= c <= hi
    ensures 0 <= x <= hi ==> c == x
    ensures x < 0 ==> c == 0
    ensures x > hi ==> c == hi
  {
    if x < 0 then 0 else if x > hi then hi else x
  }

  datatype Rgb = Rgb(r: int, g: int, b: int)

  /** The RGB565 channels: `>> 9` for red and blue (5 bits), `>> 8` for green (6 bits). */
  function Channels565(t: ChromaTables, y: Byte, u: Byte, v: Byte): Rgb
    requires TablesOk(t)
  {
    var yy := YY(y);
    Rgb(Clamp((yy + t.vr[v]) / 512, 31), Clamp((yy + t.ug[u] + t.vg[v]) / 256, 63), Clamp((yy + t.ub[u]) / 512, 31))
  }

  function Pack565(c: Rgb): int {
    c.r * 2048 + c.g * 32 + c.b
  }

  function Unpack565(w: int): Rgb {
    Rgb(w / 2048, (w / 32) % 64, w % 32)
  }

  predicate In565(c: Rgb) {
    0 <= c.r < 32 && 0 <= c.g < 64 && 0 <= c.b < 32
  }

  /** Packing the three channels into 16 bits is a bijection: each side undoes the other. */
  lemma Pack565RoundTrip(c: Rgb, w: int)
    requires In565(c) && 0 <= w < 0x1_0000
    ensures 0 <= Pack565(c) < 0x1_0000 && Unpack565(Pack565(c)) == c
    ensures In565(Unpack565(w)) && Pack565(Unpack565(w)) == w
  {
  }

  /**
   * yuv_to_rgb: the result fits an unsigned short, and its fields are the
   * clamped channels.
   */
  function YuvToRgb(t: ChromaTables, y: Byte, u: Byte, v: Byte): (w: int)
    requires TablesOk(t)
    ensures 0 <= w < 0x1_0000
    ensures Unpack565(w) == Channels565(t, y, u, v)
  {
    var c := Channels565(t, y, u, v);
    Pack565RoundTrip(c, 0);
    Pack565(c)
  }

  /** The RGB888 channels: `>> 6` each, clamped to a byte. */
  function Channels888(t: ChromaTables, y: Byte, u: Byte, v: Byte): Rgb
    requires TablesOk(t)
  {
    var yy := YY(y);
    Rgb(Clamp((yy + t.vr[v]) / 64, 255), Clamp((yy + t.ug[u] + t.vg[v]) / 64, 255), Clamp((yy + t.ub[u]) / 64, 255))
  }

  function Pack888(c: Rgb): int {
    c.r + c.g * 256 + c.b * 0x1_0000
  }

  function Unpack888(w: int): Rgb {
    Rgb(w % 256, (w / 256) % 256, w / 0x1_0000)
  }

  predicate In888(c: Rgb) {
    0 <= c.r < 256 && 0 <= c.g < 256 && 0 <= c.b < 256
  }

  /** Packing three bytes into 24 bits is a bijection: each side undoes the other. */
  lemma Pack888RoundTrip(c: Rgb, w: int)
    requires In888(c) && 0 <= w < 0x100_0000
    ensures 0 <= Pack888(c) < 0x100_0000 && Unpack888(Pack888(c)) == c
    ensures In888(Unpack888(w)) && Pack888(Unpack888(w)) == w
  {
  }

  /**
   * yuv_to_rgb24: red in the low byte, then green, then blue, the top byte
   * clear. LittleLong leaves the word as it is on a little-endian machine.
   */
  function YuvToRgb24(t: ChromaTables, y: Byte, u: Byte, v: Byte): (w: int)
    requires TablesOk(t)
    ensures 0 <= w < 0x100_0000
    ensures Unpack888(w) == Channels888(t, y, u, v)
  {
    var c := Channels888(t, y, u, v);
    Pack888RoundTrip(c, 0);
    Pack888(c)
  }

  /** A shift by 6, 8 or 9 bits followed by a clamp never turns a larger sum into a smaller channel. */
  lemma ShiftClampMonotone(x1: int, x2: int, d: int, hi: nat)
    requires x1 <= x2 && (d == 64 || d == 256 || d == 512)
    ensures Clamp(x1 / d, hi) <= Clamp(x2 / d, hi)
  {
    if d == 64 {
      assert x1 / 64 <= x2 / 64;
    } else if d == 256 {
      assert x1 / 256 <= x2 / 256;
    } else {
      assert x1 / 512 <= x2 / 512;
    }
  }

  /** A higher luma byte, with the same chroma, never darkens any channel of yuv_to_rgb24. */
  lemma BrighterLuma(t: ChromaTables, y1: Byte, y2: Byte, u: Byte, v: Byte)
    requires TablesOk(t) && y1 <= y2
    ensures Channels888(t, y1, u, v).r <= Channels888(t, y2, u, v).r
    ensures Channels888(t, y1, u, v).g <= Channels888(t, y2, u, v).g
    ensures Channels888(t, y1, u, v).b <= Channels888(t, y2, u, v).b
  {
    var a, b := YY(y1), YY(y2);
    assert a <= b by {
      if y1 < y2 {
        YYIncreasing(y1, y2);
      }
    }
    assert Channels888(t, y1, u, v).r <= Channels888(t, y2, u, v).r by {
      ShiftClampMonotone(a + t.vr[v], b + t.vr[v], 64, 255);
    }
    assert Channels888(t, y1, u, v).g <= Channels888(t, y2, u, v).g by {
      ShiftClampMonotone(a + t.ug[u] + t.vg[v], b + t.ug[u] + t.vg[v], 64, 255);
    }
    assert Channels888(t, y1, u, v).b <= Channels888(t, y2, u, v).b by {
      ShiftClampMonotone(a + t.ub[u], b + t.ub[u], 64, 255);
    }
  }

  /** A higher luma byte, with the same chroma, never darkens any channel of yuv_to_rgb. */
  lemma BrighterLuma565(t: ChromaTables, y1: Byte, y2: Byte, u: Byte, v: Byte)
    requires TablesOk(t) && y1 <= y2
    ensures Channels565(t, y1, u, v).r <= Channels565(t, y2, u, v).r
    ensures Channels565(t, y1, u, v).g <= Channels565(t, y2, u, v).g
    ensures Channels565(t, y1, u, v).b <= Channels565(t, y2, u, v).b
  {
    var a, b := YY(y1), YY(y2);
    assert a <= b by {
      if y1 < y2 {
        YYIncreasing(y1, y2);
      }
    }
    assert Channels565(t, y1, u, v).r <= Channels565(t, y2, u, v).r by {
      ShiftClampMonotone(a + t.vr[v], b + t.vr[v], 512, 31);
    }
    assert Channels565(t, y1, u, v).g <= Channels565(t, y2, u, v).g by {
      ShiftClampMonotone(a + t.ug[u] + t.vg[v], b + t.ug[u] + t.vg[v], 256, 63);
    }
    assert Channels565(t, y1, u, v).b <= Channels565(t, y2, u, v).b by {
      ShiftClampMonotone(a + t.ub[u], b + t.ub[u], 512, 31);
    }
  }
}
