/**
 * Reference encodings of whole records and pages: rectangles, tiles, links
 * with a target, the version-6 header and a page made of a header, one
 * metadata record announcing the link section, the link section and the
 * content section. They are the partners against which the parser's
 * round trips are stated.
 */
module PageEncoding {
  import opened Entity
  import opened ByteReader
  import opened Encoding
  import opened ObmlParser

  // ---------------------------------------------------------------------
  // Rectangles
  // ---------------------------------------------------------------------

  predicate InRect(r: Rect) {
    InShort(r.left) && InMedium(r.top) && InShort(r.width) && InMedium(r.height)
  }

  predicate RectsFit(rs: seq<Rect>) {
    rs == [] || (InRect(rs[0]) && RectsFit(rs[1..]))
  }

  function EncodeRect(r: Rect): (e: seq<byte>)
    requires InRect(r)
    ensures |e| == 10
  {
    EncodeCoord(Vec(r.left, r.top)) + EncodeCoord(Vec(r.width, r.height))
  }

  function EncodeRects(rs: seq<Rect>): (e: seq<byte>)
    requires RectsFit(rs)
    ensures |e| == 10 * |rs|
  {
    if rs == [] then [] else EncodeRect(rs[0]) + EncodeRects(rs[1..])
  }

  // ---------------------------------------------------------------------
  // Tiles
  // ---------------------------------------------------------------------

  /** The tag byte that introduces a tile of each variant. */
  function TileTag(t: Tile): (tag: byte)
    ensures IsTileTag(tag)
  {
    match t
    case Base(_, _) => 'B' as byte
    case Image(_, _, _) => 'I' as byte
    case Form(_, _, _, _, _) => 'F' as byte
    case Text(_, _, _, _) => 'T' as byte
  }

  /** A tile whose fields fit their wire widths. */
  predicate EncodableTile(t: Tile) {
    && InRect(t.bounds)
    && match t
       case Base(_, _) => true
       case Image(_, _, addr) => 0 <= addr < 0x80_0000
       case Form(_, _, control, id, value) => InShort(control) && InString(id) && InString(value)
       case Text(_, _, font, text) => -0x80 <= font < 0x80 && InString(text)
  }

  /** What follows the bounds and colour; skipped bytes are written as zero. */
  function TileTail(t: Tile): seq<byte>
    requires EncodableTile(t)
  {
    match t
    case Base(_, _) => []
    case Image(_, _, addr) => [0, 0, 0] + EncodeMedium(addr)
    case Form(_, _, control, id, value) =>
      EncodeShort(control) + EncodeString(id) + EncodeString(value) + [0, 0, 0]
    case Text(_, _, font, text) => [EncodeInt8(font)] + EncodeString(text)
  }

  /** A tile record without its tag byte. */
  function EncodeTileBody(t: Tile): (e: seq<byte>)
    requires EncodableTile(t)
    ensures |e| >= 14
  {
    EncodeRect(t.bounds) + EncodeColor(t.color) + TileTail(t)
  }

  function EncodeTile(t: Tile): (e: seq<byte>)
    requires EncodableTile(t)
    ensures |e| >= 15
  {
    [TileTag(t)] + EncodeTileBody(t)
  }

  predicate TilesFit(ts: seq<Tile>) {
    ts == [] || (EncodableTile(ts[0]) && TilesFit(ts[1..]))
  }

  function EncodeTiles(ts: seq<Tile>): (e: seq<byte>)
    requires TilesFit(ts)
  {
    if ts == [] then [] else EncodeTile(ts[0]) + EncodeTiles(ts[1..])
  }

  // ---------------------------------------------------------------------
  // Links
  // ---------------------------------------------------------------------

  /**
   * A link that a record with a target can carry: between 1 and 127
   * regions (a count of zero means no link), and a kind and href that fit
   * their length fields.
   */
  predicate EncodableLink(l: Link) {
    && 0 < |l.regions| < 0x80
    && RectsFit(l.regions)
    && InString(l.target.kind)
    && |l.target.href| < 0x7fff
  }

  /** A link record with a target, its href written with a leading NUL. */
  function EncodeLink(tag: byte, l: Link): (e: seq<byte>)
    requires IsTargetTag(tag) && EncodableLink(l)
    ensures |e| >= 2
  {
    ([tag, |l.regions| as byte] + EncodeRects(l.regions))
      + (EncodeString(l.target.kind) + EncodeUrlNul(l.target.href))
  }

  predicate LinksFit(ls: seq<Link>) {
    ls == [] || (EncodableLink(ls[0]) && LinksFit(ls[1..]))
  }

  function EncodeLinks(tag: byte, ls: seq<Link>): (e: seq<byte>)
    requires IsTargetTag(tag)
    requires LinksFit(ls)
  {
    if ls == [] then [] else EncodeLink(tag, ls[0]) + EncodeLinks(tag, ls[1..])
  }

  // ---------------------------------------------------------------------
  // Header and page
  // ---------------------------------------------------------------------

  predicate EncodableHeader(h: Header) {
    InCoord(h.size) && InString(h.title) && InString(h.baseUrl) && InString(h.pageUrl)
  }

  /**
   * The version-6 header fields after the version byte: the page size,
   * five skipped bytes, the title, an empty blob, the base and page URLs
   * and one skipped byte.
   */
  function EncodeHeaderFields(h: Header): (e: seq<byte>)
    requires EncodableHeader(h)
  {
    (EncodeCoord(h.size) + [0, 0, 0, 0, 0])
      + (EncodeString(h.title) + [0, 0])
      + (EncodeString(h.baseUrl) + EncodeString(h.pageUrl) + [0])
  }

  /** Everything a page holds after its three-byte length. */
  function EncodeBody(h: Header, tag: byte, ls: seq<Link>, ts: seq<Tile>, declared: int): seq<byte>
    requires EncodableHeader(h) && IsTargetTag(tag) && InMedium(declared)
    requires LinksFit(ls)
    requires TilesFit(ts)
  {
    ([V6 as byte] + EncodeHeaderFields(h)) + (['S' as byte] + EncodeMedium(declared))
      + EncodeLinks(tag, ls) + EncodeTiles(ts)
  }

  /**
   * A page whose links all use the record tag `tag` and whose metadata
   * announces a link section of `declared` bytes.
   */
  function EncodePage(h: Header, tag: byte, ls: seq<Link>, ts: seq<Tile>, declared: int): (e: seq<byte>)
    requires EncodableHeader(h) && IsTargetTag(tag) && InMedium(declared)
    requires LinksFit(ls)
    requires TilesFit(ts)
    requires |EncodeBody(h, tag, ls, ts, declared)| < 0x80_0000
    ensures |e| == 3 + |EncodeBody(h, tag, ls, ts, declared)|
  {
    var body := EncodeBody(h, tag, ls, ts, declared);
    EncodeMedium(|body|) + body
  }
}
