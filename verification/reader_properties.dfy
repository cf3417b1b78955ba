/**
 * Properties of the primitive codec: each decoder inverts its reference
 * encoding, the position advances by exactly the field's width, and the
 * format's quirks (sign extension of a medium's first byte, the colour's
 * wire order, the URL's NUL peek) behave as the reader implements them.
 */
module ReaderProperties {
  import opened Entity
  import opened ByteReader
  import opened Encoding

  // ---------------------------------------------------------------------
  // Integers
  // ---------------------------------------------------------------------

  /** A signed integer read from bytes is their unsigned big-endian value modulo the width. */
  lemma TwosComplement(b0: byte, b1: byte, b2: byte)
    ensures Int8(b0) % 0x100 == b0
    ensures Short(b0, b1) % 0x1_0000 == b0 as int * 0x100 + b1
    ensures Medium(b0, b1, b2) % 0x100_0000 == b0 as int * 0x1_0000 + b1 as int * 0x100 + b2
  {
  }

  lemma Int8RoundTrip(v: int)
    requires -0x80 <= v < 0x80
    ensures Int8(EncodeInt8(v)) == v
  {
  }

  /** The two bytes that encode a short read back as that short. */
  lemma ShortBytes(v: int, b0: byte, b1: byte)
    requires InShort(v) && EncodeShort(v) == [b0, b1]
    ensures Short(b0, b1) == v
  {
    var u := v % 0x1_0000;
    assert u == (b0 as int) * 0x100 + b1;
  }

  lemma ShortRoundTrip(data: seq<byte>, pos: nat, v: int)
    requires InShort(v) && At(data, pos, EncodeShort(v))
    ensures ShortAt(data, pos) == Ok(Read(v, pos + 2))
  {
    var e := EncodeShort(v);
    AtByte(data, pos, e, 0);
    AtByte(data, pos, e, 1);
    assert e == [data[pos], data[pos + 1]];
    ShortBytes(v, data[pos], data[pos + 1]);
  }

  /** Every pair of bytes is the encoding of the short it reads as. */
  lemma ShortEncodeDecode(b0: byte, b1: byte)
    ensures EncodeShort(Short(b0, b1)) == [b0, b1]
  {
    TwosComplement(b0, b1, 0);
  }

  /** The three bytes that encode a medium read back as that medium. */
  lemma MediumBytes(v: int, b0: byte, b1: byte, b2: byte)
    requires InMedium(v) && EncodeMedium(v) == [b0, b1, b2]
    ensures Medium(b0, b1, b2) == v
  {
    var u := v % 0x100_0000;
    var q := u / 0x100;
    assert u == q * 0x100 + b2;
    assert q == b0 * 0x100 + b1;
  }

  lemma MediumRoundTrip(data: seq<byte>, pos: nat, v: int)
    requires InMedium(v) && At(data, pos, EncodeMedium(v))
    ensures MediumAt(data, pos) == Ok(Read(v, pos + 3))
  {
    var e := EncodeMedium(v);
    AtByte(data, pos, e, 0);
    AtByte(data, pos, e, 1);
    AtByte(data, pos, e, 2);
    assert e == [data[pos], data[pos + 1], data[pos + 2]];
    MediumBytes(v, data[pos], data[pos + 1], data[pos + 2]);
  }

  /** Splitting `q * m + r` back into quotient and remainder. */
  lemma DivMod(q: int, r: int, m: int)
    requires m == 0x100 || m == 0x1_0000
    requires 0 <= r < m
    ensures (q * m + r) / m == q && (q * m + r) % m == r
  {
  }

  /** Every three bytes are the encoding of the medium they read as. */
  lemma MediumEncodeDecode(b0: byte, b1: byte, b2: byte)
    ensures EncodeMedium(Medium(b0, b1, b2)) == [b0, b1, b2]
  {
    var hi := (b0 as int) * 0x100 + b1;
    var u := hi * 0x100 + b2;
    TwosComplement(b0, b1, b2);
    DivMod(hi, b2, 0x100);
    DivMod(b0, b1, 0x100);
    DivMod(b0, (b1 as int) * 0x100 + b2, 0x1_0000);
  }

  /**
   * The first byte of a medium is not masked: from 0x80 on, the medium is
   * 2^24 less than the unsigned big-endian value of its three bytes.
   */
  lemma MediumSignExtends(data: seq<byte>, pos: nat)
    requires pos + 3 <= |data| && data[pos] >= 0x80
    ensures MediumAt(data, pos).Ok?
    ensures MediumAt(data, pos).value.value
         == (data[pos] as int) * 0x1_0000 + (data[pos + 1] as int) * 0x100 + data[pos + 2] - 0x100_0000
  {
  }

  // ---------------------------------------------------------------------
  // Coordinates and colours
  // ---------------------------------------------------------------------

  lemma CoordRoundTrip(data: seq<byte>, pos: nat, c: Vec)
    requires InCoord(c) && At(data, pos, EncodeCoord(c))
    ensures CoordAt(data, pos) == Ok(Read(c, pos + 5))
  {
    AtSplit(data, pos, EncodeShort(c.x), EncodeMedium(c.y));
    ShortRoundTrip(data, pos, c.x);
    MediumRoundTrip(data, pos + 2, c.y);
  }

  lemma ColorRoundTrip(data: seq<byte>, pos: nat, c: Color)
    requires At(data, pos, EncodeColor(c))
    ensures ColorAt(data, pos) == Ok(Read(c, pos + 4))
  {
    var e := EncodeColor(c);
    AtByte(data, pos, e, 0);
    AtByte(data, pos, e, 1);
    AtByte(data, pos, e, 2);
    AtByte(data, pos, e, 3);
  }

  /** The wire bytes A, R, G, B become the colour (R, G, B, A). */
  lemma ColorExample()
    ensures ColorAt([0x80, 0x10, 0x20, 0x30], 0) == Ok(Read(Color(0x10, 0x20, 0x30, 0x80), 4))
  {
  }

  // ---------------------------------------------------------------------
  // Strings and URLs
  // ---------------------------------------------------------------------

  /** A string reads back, and the cursor ends at `next`, two bytes plus its length on. */
  lemma StringRoundTrip(data: seq<byte>, pos: nat, s: seq<byte>, next: nat)
    requires InString(s) && At(data, pos, EncodeString(s)) && next == pos + 2 + |s|
    ensures StringAt(data, pos) == Ok(Read(s, next))
  {
    AtSplit(data, pos, EncodeShort(|s|), s);
    ShortRoundTrip(data, pos, |s|);
    AtSlice(data, pos + 2, s);
  }

  /**
   * A length of zero or less gives the empty string after the two length
   * bytes; a positive length gives exactly the next `len` bytes.
   */
  lemma StringContent(data: seq<byte>, pos: nat)
    requires pos + 2 <= |data|
    ensures var len := Short(data[pos], data[pos + 1]);
            && (len <= 0 ==> StringAt(data, pos) == Ok(Read([], pos + 2)))
            && (0 < len && pos + 2 + len <= |data| ==>
                  StringAt(data, pos) == Ok(Read(data[pos + 2..pos + 2 + len], pos + 2 + len)))
            && (pos + 2 + len > |data| ==> StringAt(data, pos) == Fail(Eof))
  {
  }

  /**
   * Whichever way the peek goes, a URL takes two bytes plus its declared
   * length. The one negative length that reads is -0x8000 after a NUL, whose
   * decrement wraps; it takes 0x8000 bytes after the length, the NUL and
   * 0x7fff more.
   */
  lemma UrlAdvance(data: seq<byte>, pos: nat)
    requires UrlAt(data, pos).Ok?
    ensures pos + 2 <= |data|
    ensures UrlAt(data, pos).value.next == pos + 2 + Short(data[pos], data[pos + 1]) % 0x1_0000
  {
  }

  /**
   * The readings of a URL: a first byte other than NUL belongs to the URL,
   * which is the `len` bytes after the length; a NUL is consumed and the URL
   * is the `len - 1` bytes after it, where a length of -0x8000 wraps to
   * 0x7fff. Too few bytes is `Eof`; a length that stays negative is
   * `BadLength`.
   */
  lemma UrlContent(data: seq<byte>, pos: nat)
    requires pos + 3 <= |data|
    ensures var len := Short(data[pos], data[pos + 1]);
            && (data[pos + 2] != 0 && 0 <= len && pos + 2 + len <= |data| ==>
                  UrlAt(data, pos) == Ok(Read(data[pos + 2..pos + 2 + len], pos + 2 + len)))
            && (data[pos + 2] != 0 && 0 <= len && pos + 2 + len > |data| ==> UrlAt(data, pos) == Fail(Eof))
            && (data[pos + 2] == 0 && 1 <= len && pos + 2 + len <= |data| ==>
                  UrlAt(data, pos) == Ok(Read(data[pos + 3..pos + 2 + len], pos + 2 + len)))
            && (data[pos + 2] == 0 && 1 <= len && pos + 2 + len > |data| ==> UrlAt(data, pos) == Fail(Eof))
            && (data[pos + 2] == 0 && len == -0x8000 && pos + 3 + 0x7fff <= |data| ==>
                  UrlAt(data, pos) == Ok(Read(data[pos + 3..pos + 3 + 0x7fff], pos + 3 + 0x7fff)))
            && (data[pos + 2] == 0 && len == -0x8000 && pos + 3 + 0x7fff > |data| ==> UrlAt(data, pos) == Fail(Eof))
            && (data[pos + 2] != 0 && len < 0 ==> UrlAt(data, pos) == Fail(BadLength))
            && (data[pos + 2] == 0 && -0x8000 < len < 1 ==> UrlAt(data, pos) == Fail(BadLength))
  {
  }

  lemma UrlPlainRoundTrip(data: seq<byte>, pos: nat, s: seq<byte>)
    requires InString(s) && s != [] && s[0] != 0 && At(data, pos, EncodeUrlPlain(s))
    ensures UrlAt(data, pos) == Ok(Read(s, pos + 2 + |s|))
  {
    AtSplit(data, pos, EncodeShort(|s|), s);
    ShortRoundTrip(data, pos, |s|);
    AtSlice(data, pos + 2, s);
  }

  lemma UrlNulRoundTrip(data: seq<byte>, pos: nat, s: seq<byte>)
    requires |s| < 0x7fff && At(data, pos, EncodeUrlNul(s))
    ensures UrlAt(data, pos) == Ok(Read(s, pos + 3 + |s|))
  {
    AtSplit(data, pos, EncodeShort(|s| + 1) + [0], s);
    var nul: seq<byte> := [0];
    AtSplit(data, pos, EncodeShort(|s| + 1), nul);
    AtByte(data, pos + 2, nul, 0);
    ShortRoundTrip(data, pos, |s| + 1);
    AtSlice(data, pos + 3, s);
  }

  /** The two URL shapes with a declared length of 5. */
  lemma UrlExamples()
    ensures UrlAt([0, 5, 'A' as byte, 'B' as byte, 'C' as byte, 'D' as byte, 'E' as byte], 0)
         == Ok(Read(['A' as byte, 'B' as byte, 'C' as byte, 'D' as byte, 'E' as byte], 7))
    ensures UrlAt([0, 5, 0, 'A' as byte, 'B' as byte, 'C' as byte, 'D' as byte], 0)
         == Ok(Read(['A' as byte, 'B' as byte, 'C' as byte, 'D' as byte], 7))
  {
    var plain := [0, 5, 'A' as byte, 'B' as byte, 'C' as byte, 'D' as byte, 'E' as byte];
    assert plain[2..7] == ['A' as byte, 'B' as byte, 'C' as byte, 'D' as byte, 'E' as byte];
    var nul := [0, 5, 0, 'A' as byte, 'B' as byte, 'C' as byte, 'D' as byte];
    assert nul[3..7] == ['A' as byte, 'B' as byte, 'C' as byte, 'D' as byte];
  }

  // ---------------------------------------------------------------------
  // Skips and images
  // ---------------------------------------------------------------------

  /**
   * A blob takes its length prefix plus the length it declares, and nothing
   * is decoded; a negative length skips nothing after the prefix.
   */
  lemma BlobAdvance(data: seq<byte>, pos: nat)
    ensures BlobAt(data, pos).Ok? <==>
              pos + 2 <= |data|
              && (Short(data[pos], data[pos + 1]) < 0 || pos + 2 + Short(data[pos], data[pos + 1]) <= |data|)
    ensures BlobAt(data, pos).Ok? ==>
              var len := Short(data[pos], data[pos + 1]);
              BlobAt(data, pos).value == pos + 2 + (if len < 0 then 0 else len)
  {
  }

  lemma BlobAltAdvance(data: seq<byte>, pos: nat)
    ensures BlobAltAt(data, pos).Ok? <==>
              pos + 3 <= |data|
              && (Medium(data[pos], data[pos + 1], data[pos + 2]) < 0
                  || pos + 3 + Medium(data[pos], data[pos + 1], data[pos + 2]) <= |data|)
    ensures BlobAltAt(data, pos).Ok? ==>
              var len := Medium(data[pos], data[pos + 1], data[pos + 2]);
              BlobAltAt(data, pos).value == pos + 3 + (if len < 0 then 0 else len)
  {
  }

  /**
   * A copied-out blob takes its length prefix plus its length when that many
   * bytes remain; a negative length is `BadLength`.
   */
  lemma DumpAltAdvance(data: seq<byte>, pos: nat)
    ensures DumpAltAt(data, pos).Ok? <==>
              pos + 3 <= |data| && 0 <= Medium(data[pos], data[pos + 1], data[pos + 2])
              && pos + 3 + Medium(data[pos], data[pos + 1], data[pos + 2]) <= |data|
    ensures DumpAltAt(data, pos).Ok? ==>
              DumpAltAt(data, pos).value == pos + 3 + Medium(data[pos], data[pos + 1], data[pos + 2])
    ensures pos + 3 <= |data| && Medium(data[pos], data[pos + 1], data[pos + 2]) < 0 ==>
              DumpAltAt(data, pos) == Fail(BadLength)
  {
  }

  /** Negative lengths: skipped blobs skip nothing, a copied-out blob fails. */
  lemma NegativeLengthExamples()
    ensures BlobAt([0xff, 0xff, 1, 2, 3], 0) == Ok(2)
    ensures BlobAltAt([0x80, 0, 0, 1], 0) == Ok(3)
    ensures DumpAltAt([0x80, 0, 0, 1], 0) == Fail(BadLength)
  {
  }

  /**
   * No image comes out when the length is not positive or when fewer than
   * `len` bytes follow it; otherwise the record takes `2 + len` bytes and
   * the image is built from exactly those `len` bytes.
   */
  lemma ImageCases(data: seq<byte>, pos: nat)
    requires pos + 2 <= |data|
    ensures var len := Short(data[pos], data[pos + 1]);
            && (ImageAt(data, pos).None? <==> len <= 0 || pos + 2 + len > |data|)
            && (ImageAt(data, pos).Some? ==>
                  ImageAt(data, pos).value == Read(ImageHandle(data[pos + 2..pos + 2 + len]), pos + 2 + len))
  {
  }

  lemma ImageRoundTrip(data: seq<byte>, pos: nat, payload: seq<byte>)
    requires 0 < |payload| < 0x8000 && At(data, pos, EncodeImage(payload))
    ensures ImageAt(data, pos) == Some(Read(ImageHandle(payload), pos + 2 + |payload|))
  {
    AtSplit(data, pos, EncodeShort(|payload|), payload);
    ShortRoundTrip(data, pos, |payload|);
    AtSlice(data, pos + 2, payload);
  }
}
