/**
 * The document model an OBML page decodes into: tiles (the drawable
 * records, in paint order), links (hit regions with a target), the page
 * header and the table of embedded images keyed by address.
 */
module Entity {

  /** One octet of the input stream. */
  type byte = b: int | 0 <= b < 0x100

  /** An axis-aligned rectangle: a position (left, top) and a size. */
  datatype Rect = Rect(left: int, top: int, width: int, height: int)

  /** A two-component integer vector, used for coordinates and the page size. */
  datatype Vec = Vec(x: int, y: int)

  /** An RGBA colour, one byte per channel. */
  datatype Color = Color(r: byte, g: byte, b: byte, a: byte)

  /**
   * The four tile shapes of the content section. Every shape has bounds and
   * a colour; `Base` is the plain rectangle, the other three add their own
   * fields. The order of the tile list is the paint order.
   */
  datatype Tile =
    | Base(bounds: Rect, color: Color)
    | Image(bounds: Rect, color: Color, addr: int)
    | Text(bounds: Rect, color: Color, font: int, data: seq<byte>)
    | Form(bounds: Rect, color: Color, control: int, id: seq<byte>, value: seq<byte>)

  /** A link target: its kind (`type` in the format) and its address. */
  datatype Url = Url(kind: seq<byte>, href: seq<byte>)

  /** A link: the regions that react to it, in file order, and its target. */
  datatype Link = Link(regions: seq<Rect>, target: Url)

  const EmptyUrl := Url([], [])

  /** The page header. `dataLen` is the offset at which the content section ends. */
  datatype Header = Header(
    dataLen: int,
    version: int,
    size: Vec,
    title: seq<byte>,
    baseUrl: seq<byte>,
    pageUrl: seq<byte>)

  const BlankHeader := Header(0, 0, Vec(0, 0), [], [], [])

  /**
   * An embedded image. Decoding pixels is left to an external codec, so the
   * handle keeps the record's payload bytes and nothing else.
   */
  datatype ImageHandle = ImageHandle(payload: seq<byte>)
}
