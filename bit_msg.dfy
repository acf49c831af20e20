/**
 * A bit stream as the snapshot writer and reader use it: each field is
 * written as |numBits| bits, least significant bit first; a negative width
 * means a signed field, read back with sign extension.
 */
module BitMsg {
  import opened Wrappers

  function Pow2(n: nat): (p: int)
    ensures p >= 1
  {
    if n == 0 then 1 else 2 * Pow2(n - 1)
  }

  /** The powers the message fields use. */
  lemma Pow2Widths()
    ensures Pow2(0) == 1 && Pow2(1) == 2 && Pow2(7) == 128 && Pow2(8) == 256
    ensures Pow2(10) == 1024 && Pow2(15) == 32768 && Pow2(16) == 65536
  {
    assert Pow2(7) == 128;
    assert Pow2(15) == 32768;
  }

  /** The bits of a field sit at offset |a| of `a + f + c`. */
  lemma SliceOfConcat(a: seq<bool>, f: seq<bool>, c: seq<bool>)
    ensures (a + f + c)[|a|..|a| + |f|] == f
  {
  }

  /** The five parts of a five-field record sit one after another. */
  lemma SliceOfConcat5(a0: seq<bool>, a1: seq<bool>, a2: seq<bool>, a3: seq<bool>, a4: seq<bool>)
    ensures var b, o1, o2, o3 := a0 + a1 + a2 + a3 + a4, |a0| + |a1|, |a0| + |a1| + |a2|, |a0| + |a1| + |a2| + |a3|;
      && b[..|a0|] == a0 && b[|a0|..o1] == a1 && b[o1..o2] == a2 && b[o2..o3] == a3 && b[o3..] == a4
  {
    var b := a0 + a1 + a2 + a3 + a4;
    SliceOfConcat(a0 + a1 + a2, a3, a4);
    SliceOfConcat(a0 + a1, a2, a3 + a4);
    assert a0 + a1 + a2 + (a3 + a4) == b;
    SliceOfConcat(a0, a1, a2 + a3 + a4);
    assert a0 + a1 + (a2 + a3 + a4) == b;
  }

  /** The three header fields and the body of a message sit one after another. */
  lemma SliceOfConcat4(a0: seq<bool>, a1: seq<bool>, a2: seq<bool>, a3: seq<bool>)
    ensures var b, o1, o2 := a0 + a1 + a2 + a3, |a0| + |a1|, |a0| + |a1| + |a2|;
      && b[..|a0|] == a0 && b[|a0|..o1] == a1 && b[o1..o2] == a2 && b[o2..] == a3
  {
    var b := a0 + a1 + a2 + a3;
    SliceOfConcat(a0 + a1, a2, a3);
    SliceOfConcat(a0, a1, a2 + a3);
    assert a0 + a1 + (a2 + a3) == b;
  }

  /** A slice that ends inside `a` is a slice of `a` alone. */
  lemma SliceOfFront(a: seq<bool>, c: seq<bool>, lo: nat, hi: nat)
    requires lo <= hi <= |a|
    ensures (a + c)[lo..hi] == a[lo..hi]
  {
    assert (a + c)[..hi] == a[..hi];
  }

  /** Slices of a suffix are slices of the whole, shifted by the suffix's start. */
  lemma SlicesOfSuffix(msg: seq<bool>, k: nat, body: seq<bool>)
    requires k <= |msg| && msg[k..] == body
    ensures forall x, y :: 0 <= x <= y <= |body| ==> msg[k + x .. k + y] == body[x..y]
  {
    forall x, y | 0 <= x <= y <= |body| ensures msg[k + x .. k + y] == body[x..y] {
      var s1, s2 := msg[k + x .. k + y], body[x..y];
      forall j | 0 <= j < |s1| ensures s1[j] == s2[j] {
        assert s1[j] == msg[k + x + j] == msg[k..][x + j];
      }
    }
  }

  /** The low `w` bits of `v`, least significant first. */
  function UBits(v: nat, w: nat): (b: seq<bool>)
    ensures |b| == w
  {
    if w == 0 then [] else [v % 2 == 1] + UBits(v / 2, w - 1)
  }

  /** The unsigned value of a run of bits, least significant first. */
  function UVal(b: seq<bool>): (v: nat)
    ensures v < Pow2(|b|)
  {
    if |b| == 0 then 0 else (if b[0] then 1 else 0) + 2 * UVal(b[1..])
  }

  /** A field width a message accepts: 1 to 32 bits, negative for signed. */
  predicate ValidWidth(numBits: int) {
    numBits != 0 && -32 <= numBits <= 32
  }

  function Width(numBits: int): nat {
    if numBits < 0 then -numBits else numBits
  }

  /** WriteBits: the field's bits, the value taken modulo 2^|numBits| (two's complement). */
  function WriteBits(value: int, numBits: int): (b: seq<bool>)
    requires ValidWidth(numBits)
    ensures |b| == Width(numBits)
  {
    UBits(value % Pow2(Width(numBits)), Width(numBits))
  }

  /** ReadBits on exactly the field's bits: sign-extended when the width is negative. */
  function ValueOf(b: seq<bool>, numBits: int): int
    requires ValidWidth(numBits) && |b| == Width(numBits)
  {
    var u := UVal(b);
    if numBits < 0 && u >= Pow2(|b| - 1) then u - Pow2(|b|) else u
  }

  /** The range of values a field of this width carries unchanged. */
  predicate Fits(value: int, numBits: int)
    requires ValidWidth(numBits)
  {
    if numBits < 0 then -Pow2(Width(numBits) - 1) <= value < Pow2(Width(numBits) - 1)
    else 0 <= value < Pow2(numBits)
  }

  /** Reading the field at bit offset `pos`, or None when the message is too short. */
  function ReadBits(msg: seq<bool>, pos: nat, numBits: int): (r: Option<int>)
    requires ValidWidth(numBits)
    ensures r.Some? <==> pos + Width(numBits) <= |msg|
  {
    if pos + Width(numBits) <= |msg| then Some(ValueOf(msg[pos..pos + Width(numBits)], numBits))
    else None
  }

  lemma {:induction false} UValBits(v: nat, w: nat)
    requires v < Pow2(w)
    ensures UVal(UBits(v, w)) == v
  {
    if w > 0 {
      UValBits(v / 2, w - 1);
      assert UBits(v, w)[1..] == UBits(v / 2, w - 1);
    }
  }

  lemma ModInRange(x: int, m: int)
    requires 0 <= x < m
    ensures x % m == x
  {
  }

  lemma ModBelowZero(x: int, m: int)
    requires -m <= x < 0
    ensures x % m == x + m
  {
  }

  /** Every value in range reads back as written. */
  lemma WriteReadBits(value: int, numBits: int)
    requires ValidWidth(numBits) && Fits(value, numBits)
    ensures ValueOf(WriteBits(value, numBits), numBits) == value
  {
    var w := Width(numBits);
    var p := Pow2(w);
    if numBits < 0 {
      assert p == 2 * Pow2(w - 1);
      if value < 0 {
        ModBelowZero(value, p);
      } else {
        ModInRange(value, p);
      }
    } else {
      ModInRange(value, p);
    }
    UValBits(value % p, w);
  }

  /** A field written after `prefix` reads back at offset |prefix|, whatever follows. */
  lemma ReadBitsAfter(prefix: seq<bool>, value: int, numBits: int, suffix: seq<bool>)
    requires ValidWidth(numBits) && Fits(value, numBits)
    ensures ReadBits(prefix + WriteBits(value, numBits) + suffix, |prefix|, numBits) == Some(value)
  {
    var f := WriteBits(value, numBits);
    var msg := prefix + f + suffix;
    assert msg[|prefix|..|prefix| + |f|] == f;
    WriteReadBits(value, numBits);
  }
}
