/**
 * The byte cursor and the primitive codec of the format: big-endian
 * integers of one, two and three bytes, coordinates, colours,
 * length-prefixed strings and URLs, embedded images and skips.
 *
 * Every primitive is given twice: as a function of the stream and a
 * position, which says what is decoded and where the cursor ends up, and as
 * a method of the class `Reader`, which advances the cursor and is proved
 * to agree with that function.
 */
module ByteReader {
  import opened Entity

  /** Why a primitive read could not complete. */
  datatype Fault =
    | Eof        // fewer bytes remain than the read needs
    | BadLength  // a string or buffer would be built with a negative length

  datatype Option<+T> = None | Some(value: T)

  datatype Result<+T> = Ok(value: T) | Fail(fault: Fault) {
    predicate IsFailure() { Fail? }
    function PropagateFailure<U>(): Result<U> requires Fail? { Fail(fault) }
    function Extract(): T requires Ok? { value }
  }

  /** A decoded value together with the position just after it. */
  datatype Read<+T> = Read(value: T, next: nat)

  /** What a caller of a read sees: the value, or the fault. */
  function ValueOf<T>(r: Result<Read<T>>): Result<T> {
    match r
    case Ok(rd) => Ok(rd.value)
    case Fail(f) => Fail(f)
  }

  // ---------------------------------------------------------------------
  // Fixed-width integers
  // ---------------------------------------------------------------------

  /** A byte reinterpreted as a signed 8-bit integer (`int8_t`). */
  function Int8(b: byte): (v: int)
    ensures -0x80 <= v < 0x80
    ensures b < 0x80 <==> v == b
  {
    if b < 0x80 then b else b - 0x100
  }

  /** Two bytes, big-endian, reinterpreted as a signed 16-bit integer. */
  function Short(b0: byte, b1: byte): (v: int)
    ensures -0x8000 <= v < 0x8000
    ensures v < 0 <==> b0 >= 0x80
  {
    var u := b0 * 0x100 + b1;
    if u < 0x8000 then u else u - 0x1_0000
  }

  /**
   * Three bytes, big-endian. The low two bytes are masked, the first is not:
   * it is sign-extended before the shift, so a first byte of 0x80 or more
   * gives a negative result.
   */
  function Medium(b0: byte, b1: byte, b2: byte): (v: int)
    ensures -0x80_0000 <= v < 0x80_0000
    ensures v < 0 <==> b0 >= 0x80
    ensures b0 < 0x80 ==> v == b0 * 0x1_0000 + b1 * 0x100 + b2
  {
    Int8(b0) * 0x1_0000 + b1 * 0x100 + b2
  }

  // ---------------------------------------------------------------------
  // The primitives as functions of the stream and a position
  // ---------------------------------------------------------------------

  function ByteAt(data: seq<byte>, pos: nat): (r: Result<Read<int>>)
    ensures r.Ok? <==> pos < |data|
    ensures r.Ok? ==> r.value.next == pos + 1 && r.value.value == Int8(data[pos])
  {
    if pos < |data| then Ok(Read(Int8(data[pos]), pos + 1)) else Fail(Eof)
  }

  function ShortAt(data: seq<byte>, pos: nat): (r: Result<Read<int>>)
    ensures r.Ok? <==> pos + 2 <= |data|
    ensures r.Ok? ==> r.value.next == pos + 2
  {
    if pos + 2 <= |data| then Ok(Read(Short(data[pos], data[pos + 1]), pos + 2)) else Fail(Eof)
  }

  function MediumAt(data: seq<byte>, pos: nat): (r: Result<Read<int>>)
    ensures r.Ok? <==> pos + 3 <= |data|
    ensures r.Ok? ==> r.value.next == pos + 3
  {
    if pos + 3 <= |data| then
      Ok(Read(Medium(data[pos], data[pos + 1], data[pos + 2]), pos + 3))
    else
      Fail(Eof)
  }

  /** A coordinate: a short (x) followed by a medium (y). */
  function CoordAt(data: seq<byte>, pos: nat): (r: Result<Read<Vec>>)
    ensures r.Ok? <==> pos + 5 <= |data|
    ensures r.Ok? ==> r.value.next == pos + 5
  {
    var x :- ShortAt(data, pos);
    var y :- MediumAt(data, x.next);
    Ok(Read(Vec(x.value, y.value), y.next))
  }

  /** A colour: the wire order is alpha, red, green, blue. */
  function ColorAt(data: seq<byte>, pos: nat): (r: Result<Read<Color>>)
    ensures r.Ok? <==> pos + 4 <= |data|
    ensures r.Ok? ==> r.value.next == pos + 4
  {
    if pos + 4 <= |data| then
      Ok(Read(Color(data[pos + 1], data[pos + 2], data[pos + 3], data[pos]), pos + 4))
    else
      Fail(Eof)
  }

  /** `len` raw bytes. */
  function BytesAt(data: seq<byte>, pos: nat, len: nat): (r: Result<Read<seq<byte>>>)
    ensures r.Ok? <==> pos + len <= |data|
    ensures r.Ok? ==> r.value.next == pos + len && |r.value.value| == len
  {
    if pos + len <= |data| then Ok(Read(data[pos..pos + len], pos + len)) else Fail(Eof)
  }

  /** A string: a signed 16-bit length, then that many bytes; a length of zero or less reads nothing more. */
  function StringAt(data: seq<byte>, pos: nat): (r: Result<Read<seq<byte>>>)
    ensures r.Ok? ==> r.value.next == pos + 2 + |r.value.value| <= |data|
  {
    var n :- ShortAt(data, pos);
    if n.value <= 0 then Ok(Read([], n.next)) else BytesAt(data, n.next, n.value)
  }

  /**
   * A URL: a signed 16-bit length, then a peek at the next byte. A byte other
   * than NUL is put back and the URL is the `len` bytes from there; a NUL is
   * consumed and counts towards the length, so the URL is the `len - 1` bytes
   * after it, that decrement wrapping as a 16-bit integer does. A length that
   * ends up negative cannot be read.
   */
  function UrlAt(data: seq<byte>, pos: nat): (r: Result<Read<seq<byte>>>)
    ensures r.Ok? ==> pos + 2 <= r.value.next <= |data|
  {
    var n :- ShortAt(data, pos);
    var peek :- ByteAt(data, n.next);
    if peek.value != 0 then
      if n.value < 0 then Fail(BadLength) else BytesAt(data, n.next, n.value)
    else
      var len := if n.value == -0x8000 then 0x7fff else n.value - 1;  // a 16-bit decrement
      if len < 0 then Fail(BadLength) else BytesAt(data, peek.next, len)
  }

  /**
   * An embedded image: a signed 16-bit length, then the payload handed to the
   * image codec. No image results when the length is not positive, when the
   * length itself cannot be read, or when fewer than `len` bytes remain.
   */
  function ImageAt(data: seq<byte>, pos: nat): (r: Option<Read<ImageHandle>>)
    ensures r.Some? ==> pos + 2 < r.value.next <= |data|
  {
    match ShortAt(data, pos)
    case Fail(_) => None
    case Ok(n) =>
      if n.value <= 0 then None
      else match BytesAt(data, n.next, n.value)
        case Fail(_) => None
        case Ok(payload) => Some(Read(ImageHandle(payload.value), payload.next))
  }

  /**
   * Skipping `n` bytes. A negative count reaches the stream as a negative
   * number of characters to ignore, and nothing is skipped.
   */
  function SkipAt(data: seq<byte>, pos: nat, n: int): (r: Result<nat>)
    ensures r.Ok? <==> n < 0 || pos + n <= |data|
    ensures r.Ok? ==> r.value == if n < 0 then pos else pos + n
  {
    if n < 0 then Ok(pos)
    else if pos + n <= |data| then Ok(pos + n)
    else Fail(Eof)
  }

  /** Skipping a blob with a 16-bit length prefix. */
  function BlobAt(data: seq<byte>, pos: nat): (r: Result<nat>)
    ensures r.Ok? ==> pos + 2 <= r.value <= |data|
  {
    var n :- ShortAt(data, pos);
    SkipAt(data, n.next, n.value)
  }

  /** Skipping a blob with a 24-bit length prefix. */
  function BlobAltAt(data: seq<byte>, pos: nat): (r: Result<nat>)
    ensures r.Ok? ==> pos + 3 <= r.value <= |data|
  {
    var n :- MediumAt(data, pos);
    SkipAt(data, n.next, n.value)
  }

  /**
   * Copying out a blob with a 24-bit length prefix: a buffer of `len` bytes
   * is filled from the stream. A negative length, converted to an unsigned
   * size, is too large for any buffer.
   */
  function DumpAltAt(data: seq<byte>, pos: nat): (r: Result<nat>)
    ensures r.Ok? ==> pos + 3 <= r.value <= |data|
  {
    var n :- MediumAt(data, pos);
    if n.value < 0 then Fail(BadLength)
    else
      var bytes :- BytesAt(data, n.next, n.value);
      Ok(bytes.next)
  }

  // ---------------------------------------------------------------------
  // The cursor
  // ---------------------------------------------------------------------

  /**
   * A forward reader over an opened byte source. `data` is the whole source
   * and `pos` the offset of the next byte to be read.
   */
  class Reader {
    const isOpen: bool
    const data: seq<byte>
    var pos: nat

    ghost predicate Valid()
      reads this
    {
      pos <= |data|
    }

    /** Opens a source; `None` stands for a source that could not be opened. */
    constructor Open(src: Option<seq<byte>>)
      ensures Valid()
      ensures isOpen == src.Some?
      ensures data == (if src.Some? then src.value else [])
      ensures pos == 0
    {
      isOpen := src.Some?;
      data := if src.Some? then src.value else [];
      pos := 0;
    }

    /** The current offset, which never lies beyond the end of the source. */
    function Tell(): (p: nat)
      requires Valid()
      reads this
      ensures p <= |data|
    {
      pos
    }

    method ReadByte() returns (r: Result<int>)
      requires Valid()
      modifies this
      ensures Valid()
      ensures r == ValueOf(ByteAt(data, old(pos)))
      ensures r.Ok? ==> pos == old(pos) + 1
    {
      if pos >= |data| {
        return Fail(Eof);
      }
      r := Ok(Int8(data[pos]));
      pos := pos + 1;
    }

    method ReadShort() returns (r: Result<int>)
      requires Valid()
      modifies this
      ensures Valid()
      ensures r == ValueOf(ShortAt(data, old(pos)))
      ensures r.Ok? ==> pos == old(pos) + 2
    {
      if pos + 2 > |data| {
        return Fail(Eof);
      }
      r := Ok(Short(data[pos], data[pos + 1]));
      pos := pos + 2;
    }

    method ReadMedium() returns (r: Result<int>)
      requires Valid()
      modifies this
      ensures Valid()
      ensures r == ValueOf(MediumAt(data, old(pos)))
      ensures r.Ok? ==> pos == old(pos) + 3
    {
      if pos + 3 > |data| {
        return Fail(Eof);
      }
      r := Ok(Medium(data[pos], data[pos + 1], data[pos + 2]));
      pos := pos + 3;
    }

    method ReadCoord() returns (r: Result<Vec>)
      requires Valid()
      modifies this
      ensures Valid()
      ensures r == ValueOf(CoordAt(data, old(pos)))
      ensures r.Ok? ==> pos == old(pos) + 5
    {
      var x :- ReadShort();
      var y :- ReadMedium();
      return Ok(Vec(x, y));
    }

    method ReadColor() returns (r: Result<Color>)
      requires Valid()
      modifies this
      ensures Valid()
      ensures r == ValueOf(ColorAt(data, old(pos)))
      ensures r.Ok? ==> pos == old(pos) + 4
    {
      if pos + 4 > |data| {
        return Fail(Eof);
      }
      var a, red, green, blue := data[pos], data[pos + 1], data[pos + 2], data[pos + 3];
      r := Ok(Color(red, green, blue, a));
      pos := pos + 4;
    }

    /** Reads `len` raw bytes into a fresh buffer. */
    method ReadBytes(len: nat) returns (r: Result<seq<byte>>)
      requires Valid()
      modifies this
      ensures Valid()
      ensures r == ValueOf(BytesAt(data, old(pos), len))
      ensures r.Ok? ==> pos == old(pos) + len
    {
      if pos + len > |data| {
        return Fail(Eof);
      }
      r := Ok(data[pos..pos + len]);
      pos := pos + len;
    }

    method ReadUrl() returns (r: Result<seq<byte>>)
      requires Valid()
      modifies this
      ensures Valid()
      ensures r == ValueOf(UrlAt(data, old(pos)))
      ensures r.Ok? ==> pos == UrlAt(data, old(pos)).value.next
    {
      var len :- ReadShort();
      var peek :- ReadByte();
      if peek != 0 {
        pos := pos - 1;  // put the peeked byte back
      } else {
        len := if len == -0x8000 then 0x7fff else len - 1;  // a 16-bit decrement
      }
      if len < 0 {
        return Fail(BadLength);
      }
      r := ReadBytes(len);
    }

    method ReadString() returns (r: Result<seq<byte>>)
      requires Valid()
      modifies this
      ensures Valid()
      ensures r == ValueOf(StringAt(data, old(pos)))
      ensures r.Ok? ==> pos == StringAt(data, old(pos)).value.next
    {
      var len :- ReadShort();
      if len <= 0 {
        return Ok([]);
      }
      r := ReadBytes(len);
    }

    /**
     * Reads one image record. The payload goes to the image codec unseen; a
     * record that cannot be read in full consumes what is left of the source.
     */
    method ReadImage() returns (r: Option<ImageHandle>)
      requires Valid()
      modifies this
      ensures Valid()
      ensures r.Some? <==> ImageAt(data, old(pos)).Some?
      ensures r.Some? ==> r.value == ImageAt(data, old(pos)).value.value
                          && pos == ImageAt(data, old(pos)).value.next
    {
      var len := ReadShort();
      if len.Fail? || len.value <= 0 {
        return None;
      }
      var payload := ReadBytes(len.value);
      if payload.Fail? {
        pos := |data|;
        return None;
      }
      r := Some(ImageHandle(payload.value));
    }

    /** Skips `n` bytes and returns the new offset. */
    method Skip(n: int) returns (r: Result<nat>)
      requires Valid()
      modifies this
      ensures Valid()
      ensures r == SkipAt(data, old(pos), n)
      ensures r.Ok? ==> pos == r.value
    {
      if n < 0 {
        return Ok(pos);
      }
      if pos + n > |data| {
        pos := |data|;
        return Fail(Eof);
      }
      pos := pos + n;
      r := Ok(pos);
    }

    method SkipBlob() returns (r: Result<nat>)
      requires Valid()
      modifies this
      ensures Valid()
      ensures r == BlobAt(data, old(pos))
      ensures r.Ok? ==> pos == r.value
    {
      var len :- ReadShort();
      r := Skip(len);
    }

    /** Reads a blob with a 24-bit length prefix into a buffer and drops it. */
    method DumpBlobAlt() returns (r: Result<nat>)
      requires Valid()
      modifies this
      ensures Valid()
      ensures r == DumpAltAt(data, old(pos))
      ensures r.Ok? ==> pos == r.value
    {
      var len :- ReadMedium();
      if len < 0 {
        return Fail(BadLength);
      }
      var bytes :- ReadBytes(len);
      r := Ok(pos);
    }

    method SkipBlobAlt() returns (r: Result<nat>)
      requires Valid()
      modifies this
      ensures Valid()
      ensures r == BlobAltAt(data, old(pos))
      ensures r.Ok? ==> pos == r.value
    {
      var len :- ReadMedium();
      r := Skip(len);
    }
  }
}
