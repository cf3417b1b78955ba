/**
 * Reference encodings of the format's primitives. The system only decodes;
 * these functions say what bytes a value is written as, so that each
 * decoder can be stated as the inverse of its encoding.
 */
module Encoding {
  import opened Entity
  import opened ByteReader

  /**
   * `bytes` occurs in `data` at offset `pos`. Stated byte by byte, so that
   * the solver looks at one byte of a long encoding at a time.
   */
  ghost predicate At(data: seq<byte>, pos: nat, bytes: seq<byte>)
    decreases |bytes|
  {
    && pos + |bytes| <= |data|
    && (bytes == [] || (data[pos] == bytes[0] && At(data, pos + 1, bytes[1..])))
  }

  lemma {:induction false} AtByte(data: seq<byte>, pos: nat, bytes: seq<byte>, i: nat)
    requires At(data, pos, bytes) && i < |bytes|
    ensures data[pos + i] == bytes[i]
    decreases i
  {
    if i > 0 {
      AtByte(data, pos + 1, bytes[1..], i - 1);
    }
  }

  lemma {:induction false} AtSplit(data: seq<byte>, pos: nat, a: seq<byte>, b: seq<byte>)
    requires At(data, pos, a + b)
    ensures At(data, pos, a) && At(data, pos + |a|, b)
    decreases |a|
  {
    if a == [] {
      assert a + b == b;
    } else {
      assert (a + b)[1..] == a[1..] + b;
      AtSplit(data, pos + 1, a[1..], b);
    }
  }

  /** `AtSplit` with the position of the second part named by the caller. */
  lemma AtSplitAt(data: seq<byte>, pos: nat, a: seq<byte>, b: seq<byte>, mid: nat)
    requires At(data, pos, a + b) && mid == pos + |a|
    ensures At(data, pos, a) && At(data, mid, b)
  {
    AtSplit(data, pos, a, b);
  }

  /** A stream holds its own bytes from any position on. */
  lemma {:induction false} AtSuffix(data: seq<byte>, pos: nat)
    requires pos <= |data|
    ensures At(data, pos, data[pos..])
    decreases |data| - pos
  {
    if pos < |data| {
      AtSuffix(data, pos + 1);
      assert data[pos..][1..] == data[pos + 1..];
    }
  }

  lemma AtSlice(data: seq<byte>, pos: nat, bytes: seq<byte>)
    requires At(data, pos, bytes)
    ensures data[pos..pos + |bytes|] == bytes
  {
    forall i | 0 <= i < |bytes|
      ensures data[pos..pos + |bytes|][i] == bytes[i]
    {
      AtByte(data, pos, bytes, i);
    }
  }

  predicate InShort(v: int) { -0x8000 <= v < 0x8000 }

  predicate InMedium(v: int) { -0x80_0000 <= v < 0x80_0000 }

  /** The byte that reads back as the signed 8-bit value `v`. */
  function EncodeInt8(v: int): byte
    requires -0x80 <= v < 0x80
  {
    v % 0x100
  }

  function EncodeShort(v: int): (e: seq<byte>)
    requires InShort(v)
    ensures |e| == 2
  {
    var u := v % 0x1_0000;
    [u / 0x100, u % 0x100]
  }

  function EncodeMedium(v: int): (e: seq<byte>)
    requires InMedium(v)
    ensures |e| == 3
  {
    var u := v % 0x100_0000;
    [(u / 0x100) / 0x100, (u / 0x100) % 0x100, u % 0x100]
  }

  predicate InCoord(c: Vec) { InShort(c.x) && InMedium(c.y) }

  function EncodeCoord(c: Vec): (e: seq<byte>)
    requires InCoord(c)
    ensures |e| == 5
  {
    EncodeShort(c.x) + EncodeMedium(c.y)
  }

  /** On the wire alpha comes first. */
  function EncodeColor(c: Color): (e: seq<byte>)
    ensures |e| == 4
  {
    [c.a, c.r, c.g, c.b]
  }

  predicate InString(s: seq<byte>) { |s| < 0x8000 }

  function EncodeString(s: seq<byte>): (e: seq<byte>)
    requires InString(s)
    ensures |e| == 2 + |s|
  {
    EncodeShort(|s|) + s
  }

  /**
   * A URL written with a leading NUL, which counts towards its length; any
   * URL shorter than 0x7fff bytes can be written this way.
   */
  function EncodeUrlNul(s: seq<byte>): (e: seq<byte>)
    requires |s| < 0x7fff
    ensures |e| == 3 + |s|
  {
    EncodeShort(|s| + 1) + [0] + s
  }

  /** A URL written plainly; its first byte must not be NUL. */
  function EncodeUrlPlain(s: seq<byte>): (e: seq<byte>)
    requires InString(s) && s != [] && s[0] != 0
    ensures |e| == 2 + |s|
  {
    EncodeShort(|s|) + s
  }

  /** An image record: a positive 16-bit length and the payload. */
  function EncodeImage(payload: seq<byte>): (e: seq<byte>)
    requires 0 < |payload| < 0x8000
    ensures |e| == 2 + |payload|
  {
    EncodeShort(|payload|) + payload
  }
}
