/**
 * The four decoding stages of an OBML page and the parser that runs them
 * over one cursor: header, metadata (up to the announcement of the link
 * section's length), the link section and the content section. Each stage
 * is specified by a function of the byte stream, a start position and the
 * page state it starts from; the `Parser` methods are proved to agree with
 * those functions.
 */
module ObmlParser {
  import opened Entity
  import opened ByteReader
  import opened Document

  /** The only supported format version. */
  const V6 := 6

  /** Storing into an unsigned 32-bit field. */
  function UInt32(x: int): (r: nat)
    ensures r < 0x1_0000_0000
    ensures 0 <= x < 0x1_0000_0000 ==> r == x
  {
    x % 0x1_0000_0000
  }

  /** Storing into, or comparing as, an unsigned 64-bit size. */
  function SizeT(x: int): (r: nat)
    ensures r < 0x1_0000_0000_0000_0000
    ensures 0 <= x < 0x1_0000_0000_0000_0000 ==> r == x
  {
    x % 0x1_0000_0000_0000_0000
  }

  /**
   * The result of a stage: its status, the state it leaves behind (kept on
   * failure too) and, when the status is `NoError`, the position it stopped at.
   */
  datatype Scan<+S> = Scan(status: Err, state: S, next: nat)

  /** The outcome of a whole decode: its status and the page content. */
  datatype Outcome = Outcome(status: Err, doc: Doc)

  /** A rectangle: a coordinate for its position, then one for its size. */
  function RectAt(data: seq<byte>, pos: nat): (r: Result<Read<Rect>>)
    ensures r.Ok? <==> pos + 10 <= |data|
    ensures r.Ok? ==> r.value.next == pos + 10
  {
    var position :- CoordAt(data, pos);
    var size :- CoordAt(data, position.next);
    Ok(Read(Rect(position.value.x, position.value.y, size.value.x, size.value.y), size.next))
  }

  // ---------------------------------------------------------------------
  // Header
  // ---------------------------------------------------------------------

  /**
   * The header: content length, version, then (version 6 only) page size,
   * five skipped bytes, title, an unknown blob, base and page URLs and one
   * trailing byte. Fields are stored into `h` as they are read, so a failure
   * leaves the ones read before it.
   */
  function HeaderAt(data: seq<byte>, pos: nat, h: Header): (r: Scan<Header>)
    ensures r.status == NoError ==> pos < r.next <= |data|
  {
    match MediumAt(data, pos)
    case Fail(f) => Scan(Io(f), h, pos)
    case Ok(len) =>
      var h := h.(dataLen := UInt32(len.value + 3));
      match ByteAt(data, len.next)
      case Fail(f) => Scan(Io(f), h, pos)
      case Ok(version) =>
        var h := h.(version := version.value % 0x100);
        if h.version != V6 then Scan(Version, h, pos)
        else HeaderFieldsAt(data, version.next, h)
  }

  /** The version-6 part of the header. */
  function HeaderFieldsAt(data: seq<byte>, pos: nat, h: Header): (r: Scan<Header>)
    ensures r.status == NoError ==> pos < r.next <= |data|
  {
    match CoordAt(data, pos)
    case Fail(f) => Scan(Io(f), h, pos)
    case Ok(size) =>
      var h := h.(size := size.value);
      match SkipAt(data, size.next, 5)
      case Fail(f) => Scan(Io(f), h, pos)
      case Ok(p) =>
        match StringAt(data, p)
        case Fail(f) => Scan(Io(f), h, pos)
        case Ok(title) =>
          var h := h.(title := title.value);
          match BlobAt(data, title.next)
          case Fail(f) => Scan(Io(f), h, pos)
          case Ok(p) =>
            match StringAt(data, p)
            case Fail(f) => Scan(Io(f), h, pos)
            case Ok(baseUrl) =>
              var h := h.(baseUrl := baseUrl.value);
              match StringAt(data, baseUrl.next)
              case Fail(f) => Scan(Io(f), h, pos)
              case Ok(pageUrl) =>
                var h := h.(pageUrl := pageUrl.value);
                match SkipAt(data, pageUrl.next, 1)
                case Fail(f) => Scan(Io(f), h, pos)
                case Ok(p) => Scan(NoError, h, p)
  }

  // ---------------------------------------------------------------------
  // Metadata
  // ---------------------------------------------------------------------

  /**
   * Scans metadata records while the link-section size is still zero and
   * returns that size with the position after it. `M` introduces a sub-tag
   * (`C`: a blob with a 24-bit length copied out, `S`: such a blob skipped,
   * `u`: seven bytes, anything else: nothing more); `S` carries the size;
   * any other byte is passed over.
   */
  function MetadataAt(data: seq<byte>, pos: nat, size: int): (r: Result<Read<int>>)
    requires pos <= |data|
    decreases |data| - pos
    ensures r.Ok? ==> r.value.value != 0 && pos <= r.value.next <= |data|
  {
    if size != 0 then Ok(Read(size, pos))
    else
      var tag :- ByteAt(data, pos);
      if tag.value == 'M' as int then
        var sub :- ByteAt(data, tag.next);
        if sub.value == 'C' as int then
          var p :- DumpAltAt(data, sub.next);
          MetadataAt(data, p, 0)
        else if sub.value == 'S' as int then
          var p :- BlobAltAt(data, sub.next);
          MetadataAt(data, p, 0)
        else if sub.value == 'u' as int then
          var p :- SkipAt(data, sub.next, 7);
          MetadataAt(data, p, 0)
        else
          MetadataAt(data, sub.next, 0)
      else if tag.value == 'S' as int then
        var n :- MediumAt(data, tag.next);
        MetadataAt(data, n.next, n.value)
      else
        MetadataAt(data, tag.next, 0)
  }

  // ---------------------------------------------------------------------
  // Link section
  // ---------------------------------------------------------------------

  /** `count` rectangles, appended to `acc` in file order. */
  function RegionsAt(data: seq<byte>, pos: nat, count: int, acc: seq<Rect>): (r: Result<Read<seq<Rect>>>)
    requires pos <= |data|
    decreases count
    ensures r.Ok? ==> pos <= r.value.next <= |data|
  {
    if count <= 0 then Ok(Read(acc, pos))
    else
      var rect :- RectAt(data, pos);
      RegionsAt(data, rect.next, count - 1, acc + [rect.value])
  }

  /** One drop-down entry: a signed 16-bit count and that many bytes, then a blob. */
  function DropDownEntryAt(data: seq<byte>, pos: nat): (r: Result<nat>)
    ensures r.Ok? ==> pos + 4 <= r.value <= |data|
  {
    var n :- ShortAt(data, pos);
    var p :- SkipAt(data, n.next, n.value);
    BlobAt(data, p)
  }

  /** `count` drop-down entries, one after the other. */
  function DropDownEntriesAt(data: seq<byte>, pos: nat, count: int): (r: Result<nat>)
    requires pos <= |data|
    decreases count
    ensures r.Ok? ==> pos <= r.value <= |data|
  {
    if count <= 0 then Ok(pos)
    else
      var q :- DropDownEntryAt(data, pos);
      DropDownEntriesAt(data, q, count - 1)
  }

  /** Tag NUL: drop-down list data; one byte, a count, the entries. */
  function DropDownAt(data: seq<byte>, pos: nat): (r: Result<nat>)
    ensures r.Ok? ==> pos + 2 <= r.value <= |data|
  {
    var p :- SkipAt(data, pos, 1);
    var count :- ByteAt(data, p);
    DropDownEntriesAt(data, count.next, count.value)
  }

  predicate IsTargetTag(t: int) {
    t == 'i' as int || t == 'w' as int || t == 'W' as int || t == 'L' as int || t == 'P' as int
  }

  predicate IsLinkTag(t: int) {
    t == 0 || IsTargetTag(t) || t == 'C' as int || t == 'I' as int || t == 'N' as int || t == 'S' as int
  }

  /**
   * Tags `i`, `w`, `W`, `L`, `P`: a count; no link and eight skipped bytes
   * when it is zero, otherwise the regions, a string (the target's kind)
   * and a URL.
   */
  function TargetLinkAt(data: seq<byte>, pos: nat): (r: Result<Read<Option<Link>>>)
    ensures r.Ok? ==> pos < r.value.next <= |data|
  {
    var count :- ByteAt(data, pos);
    if count.value == 0 then
      var p :- SkipAt(data, count.next, 8);
      Ok(Read(None, p))
    else
      var regions :- RegionsAt(data, count.next, count.value, []);
      var kind :- StringAt(data, regions.next);
      var href :- UrlAt(data, kind.next);
      Ok(Read(Some(Link(regions.value, Url(kind.value, href.value))), href.next))
  }

  /** Tag `I`: the regions, a blob and five bytes; the link has no target. */
  function ImageLinkAt(data: seq<byte>, pos: nat): (r: Result<Read<Option<Link>>>)
    ensures r.Ok? ==> pos < r.value.next <= |data|
  {
    var count :- ByteAt(data, pos);
    var regions :- RegionsAt(data, count.next, count.value, []);
    var p :- BlobAt(data, regions.next);
    var q :- SkipAt(data, p, 5);
    Ok(Read(Some(Link(regions.value, EmptyUrl)), q))
  }

  /** Tags `N` and `S`: the regions and two blobs; the link has no target. */
  function BlobLinkAt(data: seq<byte>, pos: nat): (r: Result<Read<Option<Link>>>)
    ensures r.Ok? ==> pos < r.value.next <= |data|
  {
    var count :- ByteAt(data, pos);
    var regions :- RegionsAt(data, count.next, count.value, []);
    var p :- BlobAt(data, regions.next);
    var q :- BlobAt(data, p);
    Ok(Read(Some(Link(regions.value, EmptyUrl)), q))
  }

  /** The body of a link record after its tag: at most one link. */
  function LinkBodyAt(data: seq<byte>, pos: nat, tag: int): (r: Result<Read<Option<Link>>>)
    requires pos <= |data|
    requires IsLinkTag(tag)
    ensures r.Ok? ==> pos <= r.value.next <= |data|
  {
    if tag == 0 then
      var p :- DropDownAt(data, pos);
      Ok(Read(None, p))
    else if IsTargetTag(tag) then TargetLinkAt(data, pos)
    else if tag == 'C' as int then
      var p :- SkipAt(data, pos, 21);
      Ok(Read(None, p))
    else if tag == 'I' as int then ImageLinkAt(data, pos)
    else BlobLinkAt(data, pos)
  }

  /** One link record: a tag, then its body; an unknown tag stops the section. */
  function LinkRecordAt(data: seq<byte>, pos: nat, links: seq<Link>): (r: Scan<seq<Link>>)
    requires pos <= |data|
    ensures r.status == NoError ==> pos < r.next <= |data|
    ensures r.state == links || (r.status == NoError && |r.state| == |links| + 1 && r.state[..|links|] == links)
  {
    match ByteAt(data, pos)
    case Fail(f) => Scan(Io(f), links, pos)
    case Ok(tag) =>
      if !IsLinkTag(tag.value) then Scan(BadLinkTag, links, pos)
      else
        match LinkBodyAt(data, tag.next, tag.value)
        case Fail(f) => Scan(Io(f), links, pos)
        case Ok(body) =>
          Scan(NoError, if body.value.Some? then links + [body.value.value] else links, body.next)
  }

  /** Link records while the position is below `end` (compared as unsigned sizes). */
  function LinkRunAt(data: seq<byte>, pos: nat, end: int, links: seq<Link>): (r: Scan<seq<Link>>)
    requires pos <= |data|
    decreases |data| - pos
    ensures r.status == NoError ==> pos <= r.next <= |data|
  {
    if pos >= SizeT(end) then Scan(NoError, links, pos)
    else
      var s := LinkRecordAt(data, pos, links);
      if s.status != NoError then s else LinkRunAt(data, s.next, end, s.state)
  }

  /** The link section: the records, then the test that it ends exactly at `end`. */
  function LinksAt(data: seq<byte>, pos: nat, end: int, links: seq<Link>): (r: Scan<seq<Link>>)
    requires pos <= |data|
    ensures r.status == NoError ==> r.next == SizeT(end) && pos <= r.next <= |data|
  {
    var s := LinkRunAt(data, pos, end, links);
    if s.status == NoError && s.next != SizeT(end) then Scan(Unknown, s.state, s.next) else s
  }

  // ---------------------------------------------------------------------
  // Content section
  // ---------------------------------------------------------------------

  predicate IsTileTag(t: int) {
    t == 'B' as int || t == 'I' as int || t == 'F' as int || t == 'T' as int
  }

  /**
   * A tile record after its tag: bounds and colour, then `I`: three skipped
   * bytes and an address; `F`: a control type, id and value strings and
   * three skipped bytes; `T`: a font index and the text.
   */
  function TileAt(data: seq<byte>, pos: nat, tag: int): (r: Result<Read<Tile>>)
    requires IsTileTag(tag)
    ensures r.Ok? ==> pos + 14 <= r.value.next <= |data|
  {
    var bounds :- RectAt(data, pos);
    var color :- ColorAt(data, bounds.next);
    if tag == 'B' as int then
      Ok(Read(Base(bounds.value, color.value), color.next))
    else if tag == 'I' as int then
      var p :- SkipAt(data, color.next, 3);
      var addr :- MediumAt(data, p);
      Ok(Read(Image(bounds.value, color.value, UInt32(addr.value)), addr.next))
    else if tag == 'F' as int then
      var control :- ShortAt(data, color.next);
      var id :- StringAt(data, control.next);
      var value :- StringAt(data, id.next);
      var p :- SkipAt(data, value.next, 3);
      Ok(Read(Form(bounds.value, color.value, control.value, id.value, value.value), p))
    else
      var font :- ByteAt(data, color.next);
      var text :- StringAt(data, font.next);
      Ok(Read(Text(bounds.value, color.value, font.value, text.value), text.next))
  }

  /**
   * Inserting into the image table; like `unordered_map::insert`, an
   * existing entry is kept.
   */
  function Insert(images: map<int, ImageHandle>, key: int, image: ImageHandle): map<int, ImageHandle> {
    if key in images then images else images[key := image]
  }

  /**
   * Image records while the position is below `end`. Each decoded image is
   * filed under the offset of its length prefix minus 3; a record that
   * yields no image stops the section with `BadData`.
   */
  function ImagesAt(data: seq<byte>, pos: nat, end: int, images: map<int, ImageHandle>)
    : (r: Scan<map<int, ImageHandle>>)
    requires pos <= |data|
    decreases |data| - pos
    ensures r.status == NoError ==> pos <= r.next <= |data|
  {
    if pos >= end then Scan(NoError, images, pos)
    else
      match ImageAt(data, pos)
      case None => Scan(BadData, images, pos)
      case Some(image) => ImagesAt(data, image.next, end, Insert(images, UInt32(pos - 3), image.value))
  }

  /** A record that only moves the cursor. */
  function Passed(r: Result<nat>, d: Doc): Scan<Doc> {
    match r
    case Fail(f) => Scan(Io(f), d, 0)
    case Ok(p) => Scan(NoError, d, p)
  }

  /** Tag `M` in the content section: two bytes and a blob. */
  function MarkAt(data: seq<byte>, pos: nat): (r: Result<nat>)
    ensures r.Ok? ==> pos + 4 <= r.value <= |data|
  {
    var p :- SkipAt(data, pos, 2);
    BlobAt(data, p)
  }

  /** One content record; only tiles and images of `d` change. */
  function ContentRecordAt(data: seq<byte>, pos: nat, d: Doc): (r: Scan<Doc>)
    requires pos <= |data|
    ensures r.status == NoError ==> pos < r.next <= |data|
  {
    match ByteAt(data, pos)
    case Fail(f) => Scan(Io(f), d, pos)
    case Ok(tag) =>
      var t := tag.value;
      if t == 'L' as int then Passed(SkipAt(data, tag.next, 9), d)
      else if t == 'z' as int then Passed(SkipAt(data, tag.next, 6), d)
      else if t == 'o' as int then Passed(BlobAt(data, tag.next), d)
      else if t == 'M' as int then Passed(MarkAt(data, tag.next), d)
      else if IsTileTag(t) then
        match TileAt(data, tag.next, t)
        case Fail(f) => Scan(Io(f), d, pos)
        case Ok(tile) => Scan(NoError, d.(tiles := d.tiles + [tile.value]), tile.next)
      else if t == 'S' as int then
        match MediumAt(data, tag.next)
        case Fail(f) => Scan(Io(f), d, pos)
        case Ok(size) =>
          var end := SizeT(size.next + SizeT(size.value));
          var s := ImagesAt(data, size.next, end, d.images);
          Scan(s.status, d.(images := s.state), s.next)
      else Scan(BadContentTag, d, pos)
  }

  /** The content section: records while the position is below `end`. */
  function ContentAt(data: seq<byte>, pos: nat, end: int, d: Doc): (r: Scan<Doc>)
    requires pos <= |data|
    decreases |data| - pos
  {
    if pos >= end then Scan(NoError, d, pos)
    else
      var s := ContentRecordAt(data, pos, d);
      if s.status != NoError then s else ContentAt(data, s.next, end, s.state)
  }

  // ---------------------------------------------------------------------
  // The whole decode
  // ---------------------------------------------------------------------

  /**
   * Header, metadata, links and content in that order, starting at `pos`
   * with link-section size `size` and page content `d`; the first stage
   * that fails ends the decode.
   */
  function ParseAt(data: seq<byte>, pos: nat, size: int, d: Doc): (o: Outcome)
    requires pos <= |data|
  {
    var h := HeaderAt(data, pos, d.header);
    var d := d.(header := h.state);
    if h.status != NoError then Outcome(h.status, d) else BodyAt(data, h.next, size, d)
  }

  /** The stages after the header: metadata, then links, then content. */
  function BodyAt(data: seq<byte>, pos: nat, size: int, d: Doc): (o: Outcome)
    requires pos <= |data|
  {
    match MetadataAt(data, pos, size)
    case Fail(f) => Outcome(Io(f), d)
    case Ok(m) =>
      var l := LinksAt(data, m.next, m.next + m.value, d.links);
      var d := d.(links := l.state);
      if l.status != NoError then Outcome(l.status, d)
      else
        var c := ContentAt(data, l.next, d.header.dataLen, d);
        Outcome(c.status, c.state)
  }

  /**
   * Loading a page: `None` is a source that cannot be opened. Tiles, links
   * and images start empty; the header starts as the page's previous one.
   */
  function Decode(src: Option<seq<byte>>, h: Header): (o: Outcome)
  {
    var d := Doc(h, [], [], map[]);
    if src.None? then Outcome(BadPath, d) else ParseAt(src.value, 0, 0, d)
  }

  // ---------------------------------------------------------------------
  // The parser
  // ---------------------------------------------------------------------

  class Parser {
    const page: Page
    const reader: Reader
    var linksBegin: int
    var linksEnd: int
    var linksSize: int

    ghost predicate Valid()
      reads this, reader
    {
      reader.Valid()
    }

    /** A parser for `p` over the source `src`; the link-section size starts at zero. */
    constructor (p: Page, src: Option<seq<byte>>)
      ensures Valid() && fresh(reader)
      ensures page == p && reader.isOpen == src.Some? && reader.pos == 0
      ensures reader.data == (if src.Some? then src.value else [])
      ensures linksSize == 0
    {
      page := p;
      reader := new Reader.Open(src);
      linksBegin, linksEnd, linksSize := 0, 0, 0;
    }

    /** Runs the four stages in order and returns the first status that is not `NoError`. */
    method Parse() returns (e: Err)
      requires Valid()
      modifies this, reader, page
      ensures Valid()
      ensures var o := if reader.isOpen
                       then ParseAt(reader.data, old(reader.pos), old(linksSize), old(page.Content()))
                       else Outcome(BadPath, old(page.Content()));
              e == o.status && page.Content() == o.doc
      ensures page.err == old(page.err)
    {
      if !reader.isOpen {
        return BadPath;
      }
      ghost var d0 := page.Content();
      ghost var h := HeaderAt(reader.data, reader.pos, d0.header);
      e := ReadHeader();
      assert page.Content() == d0.(header := h.state);
      if e != NoError {
        return;
      }
      e := ReadBody();
    }

    /** The stages after the header: metadata, links and content, each run only if the one before succeeded. */
    method ReadBody() returns (e: Err)
      requires Valid()
      modifies this, reader, page`links, page`tiles, page`images
      ensures Valid()
      ensures var o := BodyAt(reader.data, old(reader.pos), old(linksSize), old(page.Content()));
              e == o.status && page.Content() == o.doc
    {
      ghost var data, p1, size, d1 := reader.data, reader.pos, linksSize, page.Content();
      ghost var m := MetadataAt(data, p1, size);
      e := ReadMetadata();
      if e != NoError {
        return;
      }
      ghost var l := LinksAt(data, reader.pos, linksEnd, d1.links);
      ghost var d2 := d1.(links := l.state);
      assert linksEnd == m.value.next + m.value.value;
      e := ReadLinks();
      assert page.Content() == d2;
      if e != NoError {
        return;
      }
      e := ReadContent();
    }

    method ReadHeader() returns (e: Err)
      requires Valid()
      modifies reader, page`header
      ensures Valid()
      ensures var s := HeaderAt(reader.data, old(reader.pos), old(page.header));
              e == s.status && page.header == s.state && (e == NoError ==> reader.pos == s.next)
    {
      var len := reader.ReadMedium();
      if len.Fail? {
        return Io(len.fault);
      }
      page.header := page.header.(dataLen := UInt32(len.value + 3));
      var version := reader.ReadByte();
      if version.Fail? {
        return Io(version.fault);
      }
      page.header := page.header.(version := version.value % 0x100);
      if page.header.version != V6 {
        return Version;
      }
      e := ReadHeaderFields();
    }

    method ReadHeaderFields() returns (e: Err)
      requires Valid()
      modifies reader, page`header
      ensures Valid()
      ensures var s := HeaderFieldsAt(reader.data, old(reader.pos), old(page.header));
              e == s.status && page.header == s.state && (e == NoError ==> reader.pos == s.next)
    {
      var size := reader.ReadCoord();
      if size.Fail? {
        return Io(size.fault);
      }
      page.header := page.header.(size := size.value);
      var skipped := reader.Skip(5);
      if skipped.Fail? {
        return Io(skipped.fault);
      }
      var title := reader.ReadString();
      if title.Fail? {
        return Io(title.fault);
      }
      page.header := page.header.(title := title.value);
      skipped := reader.SkipBlob();
      if skipped.Fail? {
        return Io(skipped.fault);
      }
      var baseUrl := reader.ReadString();
      if baseUrl.Fail? {
        return Io(baseUrl.fault);
      }
      page.header := page.header.(baseUrl := baseUrl.value);
      var pageUrl := reader.ReadString();
      if pageUrl.Fail? {
        return Io(pageUrl.fault);
      }
      page.header := page.header.(pageUrl := pageUrl.value);
      skipped := reader.Skip(1);
      if skipped.Fail? {
        return Io(skipped.fault);
      }
      return NoError;
    }

    method ReadMetadata() returns (e: Err)
      requires Valid()
      modifies this, reader
      ensures Valid()
      ensures var m := MetadataAt(reader.data, old(reader.pos), old(linksSize));
              && (m.Fail? ==> e == Io(m.fault))
              && (m.Ok? ==> && e == NoError
                            && linksSize == m.value.value
                            && linksBegin == reader.pos == m.value.next
                            && linksEnd == linksBegin + linksSize)
    {
      while linksSize == 0
        invariant Valid()
        invariant MetadataAt(reader.data, old(reader.pos), old(linksSize))
               == MetadataAt(reader.data, reader.pos, linksSize)
        decreases |reader.data| - reader.pos
      {
        var tag := reader.ReadByte();
        if tag.Fail? {
          return Io(tag.fault);
        }
        if tag.value == 'M' as int {
          var sub := reader.ReadByte();
          if sub.Fail? {
            return Io(sub.fault);
          }
          if sub.value == 'C' as int {
            var dumped := reader.DumpBlobAlt();
            if dumped.Fail? {
              return Io(dumped.fault);
            }
          } else if sub.value == 'S' as int {
            var skipped := reader.SkipBlobAlt();
            if skipped.Fail? {
              return Io(skipped.fault);
            }
          } else if sub.value == 'u' as int {
            var skipped := reader.Skip(7);
            if skipped.Fail? {
              return Io(skipped.fault);
            }
          }
        } else if tag.value == 'S' as int {
          var size := reader.ReadMedium();
          if size.Fail? {
            return Io(size.fault);
          }
          linksSize := size.value;
        }
      }
      linksBegin := reader.Tell();
      linksEnd := linksBegin + linksSize;
      return NoError;
    }

    method ReadRect() returns (r: Result<Rect>)
      requires Valid()
      modifies reader
      ensures Valid()
      ensures r == ValueOf(RectAt(reader.data, old(reader.pos)))
      ensures r.Ok? ==> reader.pos == old(reader.pos) + 10
    {
      var position :- reader.ReadCoord();
      var size :- reader.ReadCoord();
      return Ok(Rect(position.x, position.y, size.x, size.y));
    }

    method ReadRegions(count: int) returns (r: Result<seq<Rect>>)
      requires Valid()
      modifies reader
      ensures Valid()
      ensures r == ValueOf(RegionsAt(reader.data, old(reader.pos), count, []))
      ensures r.Ok? ==> reader.pos == RegionsAt(reader.data, old(reader.pos), count, []).value.next
    {
      var regions := [];
      var i := 0;
      while i < count
        invariant Valid()
        invariant 0 <= i && (count > 0 ==> i <= count)
        invariant RegionsAt(reader.data, old(reader.pos), count, [])
               == RegionsAt(reader.data, reader.pos, count - i, regions)
      {
        var rect :- ReadRect();
        regions := regions + [rect];
        i := i + 1;
      }
      return Ok(regions);
    }

    method SkipDropDown() returns (r: Result<nat>)
      requires Valid()
      modifies reader
      ensures Valid()
      ensures r == DropDownAt(reader.data, old(reader.pos))
      ensures r.Ok? ==> reader.pos == r.value
    {
      var skipped :- reader.Skip(1);
      var count :- reader.ReadByte();
      var i := 0;
      while i < count
        invariant Valid()
        invariant 0 <= i && (count > 0 ==> i <= count)
        invariant DropDownAt(reader.data, old(reader.pos)) == DropDownEntriesAt(reader.data, reader.pos, count - i)
      {
        skipped :- SkipDropDownEntry();
        i := i + 1;
      }
      return Ok(reader.pos);
    }

    /** One entry of a drop-down list. */
    method SkipDropDownEntry() returns (r: Result<nat>)
      requires Valid()
      modifies reader
      ensures Valid()
      ensures r == DropDownEntryAt(reader.data, old(reader.pos))
      ensures r.Ok? ==> reader.pos == r.value
    {
      var bytes :- reader.ReadShort();
      var skipped :- reader.Skip(bytes);
      skipped :- reader.SkipBlob();
      return Ok(reader.pos);
    }

    method ReadTargetLink() returns (r: Result<Option<Link>>)
      requires Valid()
      modifies reader
      ensures Valid()
      ensures r == ValueOf(TargetLinkAt(reader.data, old(reader.pos)))
      ensures r.Ok? ==> reader.pos == TargetLinkAt(reader.data, old(reader.pos)).value.next
    {
      var count :- reader.ReadByte();
      if count == 0 {
        var skipped :- reader.Skip(8);
        return Ok(None);
      }
      var regions :- ReadRegions(count);
      var kind :- reader.ReadString();
      var href :- reader.ReadUrl();
      return Ok(Some(Link(regions, Url(kind, href))));
    }

    method ReadImageLink() returns (r: Result<Option<Link>>)
      requires Valid()
      modifies reader
      ensures Valid()
      ensures r == ValueOf(ImageLinkAt(reader.data, old(reader.pos)))
      ensures r.Ok? ==> reader.pos == ImageLinkAt(reader.data, old(reader.pos)).value.next
    {
      var count :- reader.ReadByte();
      var regions :- ReadRegions(count);
      var skipped :- reader.SkipBlob();
      skipped :- reader.Skip(5);
      return Ok(Some(Link(regions, EmptyUrl)));
    }

    method ReadBlobLink() returns (r: Result<Option<Link>>)
      requires Valid()
      modifies reader
      ensures Valid()
      ensures r == ValueOf(BlobLinkAt(reader.data, old(reader.pos)))
      ensures r.Ok? ==> reader.pos == BlobLinkAt(reader.data, old(reader.pos)).value.next
    {
      var count :- reader.ReadByte();
      var regions :- ReadRegions(count);
      var skipped :- reader.SkipBlob();
      skipped :- reader.SkipBlob();
      return Ok(Some(Link(regions, EmptyUrl)));
    }

    method ReadLinkRecord() returns (e: Err)
      requires Valid()
      modifies reader, page`links
      ensures Valid()
      ensures var s := LinkRecordAt(reader.data, old(reader.pos), old(page.links));
              e == s.status && page.links == s.state && (e == NoError ==> reader.pos == s.next)
    {
      var tag := reader.ReadByte();
      if tag.Fail? {
        return Io(tag.fault);
      }
      var t := tag.value;
      if !IsLinkTag(t) {
        return BadLinkTag;
      }
      var body: Result<Option<Link>>;
      if t == 0 {
        var skipped := SkipDropDown();
        body := if skipped.Ok? then Ok(None) else Fail(skipped.fault);
      } else if IsTargetTag(t) {
        body := ReadTargetLink();
      } else if t == 'C' as int {
        var skipped := reader.Skip(21);
        body := if skipped.Ok? then Ok(None) else Fail(skipped.fault);
      } else if t == 'I' as int {
        body := ReadImageLink();
      } else {
        body := ReadBlobLink();
      }
      if body.Fail? {
        return Io(body.fault);
      }
      if body.value.Some? {
        page.links := page.links + [body.value.value];
      }
      return NoError;
    }

    method ReadLinks() returns (e: Err)
      requires Valid()
      modifies reader, page`links
      ensures Valid()
      ensures var s := LinksAt(reader.data, old(reader.pos), linksEnd, old(page.links));
              e == s.status && page.links == s.state && (e == NoError ==> reader.pos == s.next)
    {
      while reader.Tell() < SizeT(linksEnd)
        invariant Valid()
        invariant LinkRunAt(reader.data, old(reader.pos), linksEnd, old(page.links))
               == LinkRunAt(reader.data, reader.pos, linksEnd, page.links)
        decreases |reader.data| - reader.pos
      {
        e := ReadLinkRecord();
        if e != NoError {
          return e;
        }
      }
      if reader.Tell() != SizeT(linksEnd) {
        return Unknown;
      }
      return NoError;
    }

    method ReadTile(tag: int) returns (r: Result<Tile>)
      requires Valid()
      requires IsTileTag(tag)
      modifies reader
      ensures Valid()
      ensures r == ValueOf(TileAt(reader.data, old(reader.pos), tag))
      ensures r.Ok? ==> reader.pos == TileAt(reader.data, old(reader.pos), tag).value.next
    {
      var bounds :- ReadRect();
      var color :- reader.ReadColor();
      if tag == 'B' as int {
        return Ok(Base(bounds, color));
      } else if tag == 'I' as int {
        var skipped :- reader.Skip(3);
        var addr :- reader.ReadMedium();
        return Ok(Image(bounds, color, UInt32(addr)));
      } else if tag == 'F' as int {
        var control :- reader.ReadShort();
        var id :- reader.ReadString();
        var value :- reader.ReadString();
        var skipped :- reader.Skip(3);
        return Ok(Form(bounds, color, control, id, value));
      } else {
        var font :- reader.ReadByte();
        var text :- reader.ReadString();
        return Ok(Text(bounds, color, font, text));
      }
    }

    method ReadImages(end: int) returns (e: Err)
      requires Valid()
      modifies reader, page`images
      ensures Valid()
      ensures var s := ImagesAt(reader.data, old(reader.pos), end, old(page.images));
              e == s.status && page.images == s.state && (e == NoError ==> reader.pos == s.next)
    {
      while reader.Tell() < end
        invariant Valid()
        invariant ImagesAt(reader.data, old(reader.pos), end, old(page.images))
               == ImagesAt(reader.data, reader.pos, end, page.images)
        decreases |reader.data| - reader.pos
      {
        var addr := reader.Tell() - 3;
        var image := reader.ReadImage();
        if image.None? {
          return BadData;
        }
        var key := UInt32(addr);
        if key !in page.images {
          page.images := page.images[key := image.value];
        }
      }
      return NoError;
    }

    method ReadContentRecord() returns (e: Err)
      requires Valid()
      modifies reader, page`tiles, page`images
      ensures Valid()
      ensures var s := ContentRecordAt(reader.data, old(reader.pos), old(page.Content()));
              e == s.status && page.Content() == s.state && (e == NoError ==> reader.pos == s.next)
    {
      var tag := reader.ReadByte();
      if tag.Fail? {
        return Io(tag.fault);
      }
      var t := tag.value;
      var skipped: Result<nat>;
      if t == 'L' as int {
        skipped := reader.Skip(9);
      } else if t == 'z' as int {
        skipped := reader.Skip(6);
      } else if t == 'o' as int {
        skipped := reader.SkipBlob();
      } else if t == 'M' as int {
        skipped := reader.Skip(2);
        if skipped.Ok? {
          skipped := reader.SkipBlob();
        }
      } else if IsTileTag(t) {
        var tile := ReadTile(t);
        if tile.Fail? {
          return Io(tile.fault);
        }
        page.tiles := page.tiles + [tile.value];
        return NoError;
      } else if t == 'S' as int {
        var size := reader.ReadMedium();
        if size.Fail? {
          return Io(size.fault);
        }
        var begin := reader.Tell();
        e := ReadImages(SizeT(begin + SizeT(size.value)));
        return e;
      } else {
        return BadContentTag;
      }
      if skipped.Fail? {
        return Io(skipped.fault);
      }
      return NoError;
    }

    method ReadContent() returns (e: Err)
      requires Valid()
      modifies reader, page`tiles, page`images
      ensures Valid()
      ensures var s := ContentAt(reader.data, old(reader.pos), page.header.dataLen, old(page.Content()));
              e == s.status && page.Content() == s.state && (e == NoError ==> reader.pos == s.next)
    {
      var contentEnd := page.header.dataLen;
      while reader.Tell() < contentEnd
        invariant Valid()
        invariant ContentAt(reader.data, old(reader.pos), contentEnd, old(page.Content()))
               == ContentAt(reader.data, reader.pos, contentEnd, page.Content())
        decreases |reader.data| - reader.pos
      {
        e := ReadContentRecord();
        if e != NoError {
          return e;
        }
      }
      return NoError;
    }
  }

  /**
   * Loading a page: its tiles, links and images are cleared, then a new
   * parser decodes `src` into it and the status is stored.
   */
  method Load(page: Page, src: Option<seq<byte>>)
    modifies page
    ensures var o := Decode(src, old(page.header));
            page.err == o.status && page.Content() == o.doc
  {
    page.Cleanup();
    var parser := new Parser(page, src);
    var e := parser.Parse();
    page.err := e;
  }
}
