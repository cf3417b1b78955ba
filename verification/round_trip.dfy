/**
 * The parser inverts the reference page encoding: every tile and link
 * record decodes to the entity it encodes, runs of records decode to the
 * same entities in file order, and a page built from a header, a link
 * section and a content section decodes to exactly that page. Two of the
 * format's failure modes are stated against the same encoding: a link
 * section announced one byte short fails with `Unknown`, and an unknown
 * content tag fails with `BadContentTag` after the tiles before it.
 *
 * The proofs go one field group at a time: each helper lemma below looks
 * at a short stretch of bytes, so that no proof has to unfold a whole
 * record or a whole section at once.
 */
module RoundTrip {
  import opened Entity
  import opened ByteReader
  import opened Document
  import opened ObmlParser
  import opened Encoding
  import opened PageEncoding
  import opened ReaderProperties
  import opened ParserProperties
  import opened Chains

  // ---------------------------------------------------------------------
  // Rectangles
  // ---------------------------------------------------------------------

  lemma RectRoundTrip(data: seq<byte>, pos: nat, r: Rect)
    requires InRect(r) && At(data, pos, EncodeRect(r))
    ensures RectAt(data, pos) == Ok(Read(r, pos + 10))
  {
    AtSplit(data, pos, EncodeCoord(Vec(r.left, r.top)), EncodeCoord(Vec(r.width, r.height)));
    CoordRoundTrip(data, pos, Vec(r.left, r.top));
    CoordRoundTrip(data, pos + 5, Vec(r.width, r.height));
  }

  /** One rectangle of a region list. */
  lemma RegionsUnfold(data: seq<byte>, pos: nat, count: int, acc: seq<Rect>, r: Rect)
    requires pos <= |data| && count > 0 && RectAt(data, pos) == Ok(Read(r, pos + 10))
    ensures RegionsAt(data, pos, count, acc) == RegionsAt(data, pos + 10, count - 1, acc + [r])
  {
  }

  lemma {:induction false} RectsRoundTrip(data: seq<byte>, pos: nat, rs: seq<Rect>, acc: seq<Rect>)
    requires RectsFit(rs) && At(data, pos, EncodeRects(rs))
    ensures RegionsAt(data, pos, |rs|, acc) == Ok(Read(acc + rs, pos + 10 * |rs|))
    decreases |rs|
  {
    if rs == [] {
      assert acc + rs == acc;
    } else {
      var r, rest := rs[0], rs[1..];
      AtSplit(data, pos, EncodeRect(r), EncodeRects(rest));
      RectRoundTrip(data, pos, r);
      RegionsUnfold(data, pos, |rs|, acc, r);
      RectsRoundTrip(data, pos + 10, rest, acc + [r]);
      assert acc + [r] + rest == acc + rs;
    }
  }

  // ---------------------------------------------------------------------
  // Tiles
  // ---------------------------------------------------------------------

  /** The number of bytes a tile record takes, tag included. */
  function TileSize(t: Tile): nat {
    15 + match t
         case Base(_, _) => 0
         case Image(_, _, _) => 6
         case Form(_, _, _, id, value) => 9 + |id| + |value|
         case Text(_, _, _, text) => 3 + |text|
  }

  lemma TileLength(t: Tile)
    requires EncodableTile(t)
    ensures |EncodeTile(t)| == TileSize(t)
  {
  }

  lemma {:induction false} TilesLength(ts: seq<Tile>)
    requires TilesFit(ts)
    ensures |EncodeTiles(ts)| == Sum(TileSize, ts)
  {
    if ts != [] {
      TileLength(ts[0]);
      TilesLength(ts[1..]);
    }
  }

  /**
   * What the field readers return on the tail of a tile record, which
   * starts at `p`, field by field.
   */
  ghost predicate TailRead(data: seq<byte>, p: nat, t: Tile) {
    match t
    case Base(_, _) => true
    case Image(_, _, addr) =>
      && SkipAt(data, p, 3) == Ok(p + 3)
      && MediumAt(data, p + 3) == Ok(Read(addr, p + 6))
    case Form(_, _, control, id, value) =>
      && ShortAt(data, p) == Ok(Read(control, p + 2))
      && StringAt(data, p + 2) == Ok(Read(id, p + 4 + |id|))
      && StringAt(data, p + 4 + |id|) == Ok(Read(value, p + 6 + |id| + |value|))
      && SkipAt(data, p + 6 + |id| + |value|, 3) == Ok(p + 9 + |id| + |value|)
    case Text(_, _, font, text) =>
      && ByteAt(data, p) == Ok(Read(font, p + 1))
      && StringAt(data, p + 1) == Ok(Read(text, p + 3 + |text|))
  }

  /** What the readers return on a whole tile record starting at `pos`. */
  ghost predicate TileRead(data: seq<byte>, pos: nat, t: Tile) {
    && pos < |data| && data[pos] == TileTag(t)
    && RectAt(data, pos + 1) == Ok(Read(t.bounds, pos + 11))
    && ColorAt(data, pos + 11) == Ok(Read(t.color, pos + 15))
    && TailRead(data, pos + 15, t)
  }

  lemma ImageTail(data: seq<byte>, p: nat, t: Tile)
    requires t.Image? && EncodableTile(t) && At(data, p, TileTail(t))
    ensures TailRead(data, p, t)
  {
    var m := EncodeMedium(t.addr);
    assert TileTail(t) == [0, 0, 0] + m;
    AtSplit(data, p, [0, 0, 0], m);
    MediumRoundTrip(data, p + 3, t.addr);
  }

  /** Where the fields of a form's tail lie. */
  lemma FormTailLayout(data: seq<byte>, p: nat, t: Tile, p1: nat, p2: nat, p3: nat)
    requires t.Form? && EncodableTile(t) && At(data, p, TileTail(t))
    requires p1 == p + 2 && p2 == p1 + 2 + |t.id| && p3 == p2 + 2 + |t.value|
    ensures At(data, p, EncodeShort(t.control)) && At(data, p1, EncodeString(t.id))
    ensures At(data, p2, EncodeString(t.value)) && p3 + 3 <= |data|
  {
    var a, b, c := EncodeShort(t.control), EncodeString(t.id), EncodeString(t.value);
    assert TileTail(t) == ((a + b) + c) + [0, 0, 0];
    AtSplitAt(data, p, (a + b) + c, [0, 0, 0], p3);
    AtSplitAt(data, p, a + b, c, p2);
    AtSplitAt(data, p, a, b, p1);
  }

  /** The readers' results on a form's tail, from its fields. */
  lemma FormTailFields(data: seq<byte>, p: nat, t: Tile, p1: nat, p2: nat, p3: nat)
    requires t.Form? && p1 == p + 2 && p2 == p1 + 2 + |t.id| && p3 == p2 + 2 + |t.value| && p3 + 3 <= |data|
    requires ShortAt(data, p) == Ok(Read(t.control, p1))
    requires StringAt(data, p1) == Ok(Read(t.id, p2)) && StringAt(data, p2) == Ok(Read(t.value, p3))
    ensures TailRead(data, p, t)
  {
  }

  lemma FormTail(data: seq<byte>, p: nat, t: Tile)
    requires t.Form? && EncodableTile(t) && At(data, p, TileTail(t))
    ensures TailRead(data, p, t)
  {
    var p1, p2, p3 := p + 2, p + 4 + |t.id|, p + 6 + |t.id| + |t.value|;
    FormTailLayout(data, p, t, p1, p2, p3);
    ShortRoundTrip(data, p, t.control);
    StringRoundTrip(data, p1, t.id, p2);
    StringRoundTrip(data, p2, t.value, p3);
    FormTailFields(data, p, t, p1, p2, p3);
  }

  lemma TextTail(data: seq<byte>, p: nat, t: Tile)
    requires t.Text? && EncodableTile(t) && At(data, p, TileTail(t))
    ensures TailRead(data, p, t)
  {
    var f: seq<byte> := [EncodeInt8(t.font)];
    assert TileTail(t) == f + EncodeString(t.data);
    AtSplitAt(data, p, f, EncodeString(t.data), p + 1);
    AtByte(data, p, f, 0);
    Int8RoundTrip(t.font);
    StringRoundTrip(data, p + 1, t.data, p + 3 + |t.data|);
  }

  lemma TailRoundTrip(data: seq<byte>, p: nat, t: Tile)
    requires EncodableTile(t) && At(data, p, TileTail(t))
    ensures TailRead(data, p, t)
  {
    if t.Image? {
      ImageTail(data, p, t);
    } else if t.Form? {
      FormTail(data, p, t);
    } else if t.Text? {
      TextTail(data, p, t);
    }
  }

  /** The tag, bounds, colour and tail of an encoded tile read back field by field. */
  lemma TileFieldsRoundTrip(data: seq<byte>, pos: nat, t: Tile)
    requires EncodableTile(t) && At(data, pos, EncodeTile(t))
    ensures TileRead(data, pos, t) && pos + TileSize(t) <= |data|
  {
    var tag: seq<byte> := [TileTag(t)];
    var rect, color, tail := EncodeRect(t.bounds), EncodeColor(t.color), TileTail(t);
    assert EncodeTile(t) == tag + rect + color + tail;
    TileLength(t);
    AtSplitAt(data, pos, tag + rect + color, tail, pos + 15);
    AtSplitAt(data, pos, tag + rect, color, pos + 11);
    AtSplitAt(data, pos, tag, rect, pos + 1);
    AtByte(data, pos, tag, 0);
    RectRoundTrip(data, pos + 1, t.bounds);
    ColorRoundTrip(data, pos + 11, t.color);
    TailRoundTrip(data, pos + 15, t);
  }

  /** The tile that the field readers return, for each variant. */
  lemma BaseTileAt(data: seq<byte>, pos: nat, t: Tile)
    requires t.Base? && TileRead(data, pos, t)
    ensures TileAt(data, pos + 1, TileTag(t)) == Ok(Read(t, pos + TileSize(t)))
  {
  }

  lemma ImageTileAt(data: seq<byte>, pos: nat, t: Tile)
    requires t.Image? && 0 <= t.addr < 0x80_0000 && TileRead(data, pos, t)
    ensures TileAt(data, pos + 1, TileTag(t)) == Ok(Read(t, pos + TileSize(t)))
  {
    assert UInt32(t.addr) == t.addr;
  }

  lemma FormTileAt(data: seq<byte>, pos: nat, t: Tile)
    requires t.Form? && TileRead(data, pos, t)
    ensures TileAt(data, pos + 1, TileTag(t)) == Ok(Read(t, pos + TileSize(t)))
  {
    var p1, p2, p3 := pos + 17, pos + 19 + |t.id|, pos + 21 + |t.id| + |t.value|;
    assert ShortAt(data, pos + 15) == Ok(Read(t.control, p1));
    assert StringAt(data, p1) == Ok(Read(t.id, p2));
    assert StringAt(data, p2) == Ok(Read(t.value, p3));
    assert SkipAt(data, p3, 3) == Ok(pos + TileSize(t));
  }

  lemma TextTileAt(data: seq<byte>, pos: nat, t: Tile)
    requires t.Text? && TileRead(data, pos, t)
    ensures TileAt(data, pos + 1, TileTag(t)) == Ok(Read(t, pos + TileSize(t)))
  {
  }

  /** A record whose tag names a tile and whose tile decodes appends that tile. */
  lemma ContentTile(data: seq<byte>, pos: nat, d: Doc, tag: byte, tile: Read<Tile>)
    requires pos < |data| && data[pos] == tag && IsTileTag(tag)
    requires TileAt(data, pos + 1, tag) == Ok(tile)
    ensures ContentRecordAt(data, pos, d) == Scan(NoError, d.(tiles := d.tiles + [tile.value]), tile.next)
  {
  }

  /**
   * At `pos` lies a record that appends `t` to any document, whatever it
   * already holds, and ends `TileSize(t)` bytes later.
   */
  ghost predicate TileRecord(data: seq<byte>, pos: nat, t: Tile) {
    && pos + TileSize(t) <= |data|
    && forall e: Doc {:trigger ContentRecordAt(data, pos, e)} ::
         ContentRecordAt(data, pos, e) == Scan(NoError, e.(tiles := e.tiles + [t]), pos + TileSize(t))
  }

  /** The tile that the field readers return is the tile the record appends. */
  lemma TileReadRecord(data: seq<byte>, pos: nat, t: Tile)
    requires EncodableTile(t) && TileRead(data, pos, t) && pos + TileSize(t) <= |data|
    ensures TileRecord(data, pos, t)
  {
    match t
    case Base(_, _) => BaseTileAt(data, pos, t);
    case Image(_, _, _) => ImageTileAt(data, pos, t);
    case Form(_, _, _, _, _) => FormTileAt(data, pos, t);
    case Text(_, _, _, _) => TextTileAt(data, pos, t);
    var tile := Read(t, pos + TileSize(t));
    forall e: Doc
      ensures ContentRecordAt(data, pos, e) == Scan(NoError, e.(tiles := e.tiles + [t]), pos + TileSize(t))
    {
      ContentTile(data, pos, e, TileTag(t), tile);
    }
  }

  /** A tile record appends exactly the tile it encodes, to any document. */
  lemma TileRoundTrip(data: seq<byte>, pos: nat, t: Tile)
    requires EncodableTile(t) && At(data, pos, EncodeTile(t))
    ensures TileRecord(data, pos, t)
  {
    TileFieldsRoundTrip(data, pos, t);
    TileReadRecord(data, pos, t);
  }

  /** Tiles written one after the other from `pos`, record by record. */
  ghost predicate TilesLaid(data: seq<byte>, pos: nat, ts: seq<Tile>)
    decreases |ts|
  {
    ts == [] || (TileRecord(data, pos, ts[0]) && TilesLaid(data, pos + TileSize(ts[0]), ts[1..]))
  }

  /** Each tile of `ts`, encoded on its own, lies at its place from `pos`. */
  ghost predicate TilesWritten(data: seq<byte>, pos: nat, ts: seq<Tile>)
    decreases |ts|
  {
    ts == [] ||
    (EncodableTile(ts[0]) && At(data, pos, EncodeTile(ts[0])) && TilesWritten(data, pos + TileSize(ts[0]), ts[1..]))
  }

  /** An encoded list of tiles is its records one after the other. */
  lemma {:induction false} TilesWrittenAt(data: seq<byte>, pos: nat, ts: seq<Tile>)
    requires TilesFit(ts) && At(data, pos, EncodeTiles(ts))
    ensures TilesWritten(data, pos, ts)
    decreases |ts|
  {
    if ts != [] {
      var next := pos + TileSize(ts[0]);
      assert At(data, pos, EncodeTile(ts[0])) && TilesWritten(data, next, ts[1..]) by {
        TileLength(ts[0]);
        AtSplitAt(data, pos, EncodeTile(ts[0]), EncodeTiles(ts[1..]), next);
        TilesWrittenAt(data, next, ts[1..]);
      }
    }
  }

  lemma {:induction false} TilesLayout(data: seq<byte>, pos: nat, ts: seq<Tile>)
    requires TilesWritten(data, pos, ts)
    ensures TilesLaid(data, pos, ts)
    decreases |ts|
  {
    if ts != [] {
      TileRoundTrip(data, pos, ts[0]);
      TilesLayout(data, pos + TileSize(ts[0]), ts[1..]);
    }
  }

  /** Encoded tiles are tile records one after the other. */
  lemma TilesLaidAt(data: seq<byte>, pos: nat, ts: seq<Tile>)
    requires TilesFit(ts) && At(data, pos, EncodeTiles(ts))
    ensures TilesLaid(data, pos, ts)
  {
    TilesWrittenAt(data, pos, ts);
    TilesLayout(data, pos, ts);
  }

  /** The content section from a position and a document, as one function value. */
  function ContentFrom(data: seq<byte>, end: int): (nat, Doc) -> Scan<Doc> {
    (p: nat, e: Doc) => if p <= |data| then ContentAt(data, p, end, e) else Scan(NoError, e, p)
  }

  /** A record that decodes without error hands the rest of the section on. */
  lemma FromStep(data: seq<byte>, pos: nat, end: int, e: Doc, e2: Doc, next: nat)
    requires pos < end && next <= |data| && pos <= |data|
    requires ContentRecordAt(data, pos, e) == Scan(NoError, e2, next)
    ensures ContentFrom(data, end)(pos, e) == ContentFrom(data, end)(next, e2)
  {
  }

  /** The document after one more tile. */
  function AddTile(e: Doc, t: Tile): Doc {
    e.(tiles := e.tiles + [t])
  }

  lemma {:induction false} AddTiles(e: Doc, ts: seq<Tile>)
    ensures Fold(AddTile, e, ts) == e.(tiles := e.tiles + ts)
    decreases |ts|
  {
    if ts == [] {
      assert e.(tiles := e.tiles + ts) == e;
    } else {
      AddTiles(AddTile(e, ts[0]), ts[1..]);
      assert e.tiles + [ts[0]] + ts[1..] == e.tiles + ts;
    }
  }

  /** Every laid tile before `end` takes `F` from before it to after it. */
  ghost predicate TileSteps(F: (nat, Doc) -> Scan<Doc>, data: seq<byte>, end: int) {
    forall p: nat, t: Tile, e: Doc {:trigger TileRecord(data, p, t), F(p, e)} ::
      TileRecord(data, p, t) && p < end ==> F(p, e) == F(p + TileSize(t), AddTile(e, t))
  }

  lemma ContentTileSteps(data: seq<byte>, end: int)
    ensures TileSteps(ContentFrom(data, end), data, end)
  {
    forall p: nat, t: Tile, e: Doc | TileRecord(data, p, t) && p < end
      ensures ContentFrom(data, end)(p, e) == ContentFrom(data, end)(p + TileSize(t), AddTile(e, t))
    {
      assert ContentRecordAt(data, p, e) == Scan(NoError, AddTile(e, t), p + TileSize(t));
      FromStep(data, p, end, e, AddTile(e, t), p + TileSize(t));
    }
  }

  lemma {:induction false} TilesChained(F: (nat, Doc) -> Scan<Doc>, data: seq<byte>, pos: nat, ts: seq<Tile>, end: int, e: Doc)
    requires TilesLaid(data, pos, ts) && TileSteps(F, data, end) && pos + Sum(TileSize, ts) <= end
    ensures Chain(F, TileSize, AddTile, pos, ts, e)
    decreases |ts|
  {
    if ts != [] {
      var t, rest := ts[0], ts[1..];
      assert F(pos, e) == F(pos + TileSize(t), AddTile(e, t));
      TilesChained(F, data, pos + TileSize(t), rest, end, AddTile(e, t));
    }
  }

  lemma TilesEnds(F: (nat, Doc) -> Scan<Doc>, data: seq<byte>, pos: nat, ts: seq<Tile>, end: int, d: Doc)
    requires TilesLaid(data, pos, ts) && TileSteps(F, data, end) && pos + Sum(TileSize, ts) <= end
    ensures F(pos, d) == F(pos + Sum(TileSize, ts), d.(tiles := d.tiles + ts))
  {
    TilesChained(F, data, pos, ts, end, d);
    ChainEnds(F, TileSize, AddTile, pos, ts, d);
    AddTiles(d, ts);
  }

  /** Equal section values, read inside the stream. */
  lemma FromEnds(data: seq<byte>, pos: nat, q: nat, end: int, d: Doc, d2: Doc)
    requires pos <= |data| && q <= |data|
    requires ContentFrom(data, end)(pos, d) == ContentFrom(data, end)(q, d2)
    ensures ContentAt(data, pos, end, d) == ContentAt(data, q, end, d2)
  {
  }

  /**
   * A run of tile records that ends no later than `end` appends its tiles
   * in file order and hands the rest of the content section on: stated
   * for any function of the section that each tile record steps, which
   * `ContentTileSteps` shows of the content section itself.
   */
  lemma TilesRun(F: (nat, Doc) -> Scan<Doc>, data: seq<byte>, pos: nat, ts: seq<Tile>, end: int, d: Doc)
    requires TileSteps(F, data, end)
    requires TilesFit(ts) && At(data, pos, EncodeTiles(ts)) && pos + |EncodeTiles(ts)| <= end
    ensures F(pos, d) == F(pos + |EncodeTiles(ts)|, d.(tiles := d.tiles + ts))
  {
    TilesLength(ts);
    TilesLaidAt(data, pos, ts);
    TilesEnds(F, data, pos, ts, end, d);
  }

  /** Any other tag ends the content section with `BadContentTag`. */
  lemma BadTagEnds(data: seq<byte>, pos: nat, end: int, d: Doc)
    requires pos < end && pos < |data|
    requires !IsTileTag(data[pos]) && data[pos] !in {'L' as byte, 'z' as byte, 'o' as byte, 'M' as byte, 'S' as byte}
    ensures ContentFrom(data, end)(pos, d) == Scan(BadContentTag, d, pos)
  {
    ContentRecordBadTag(data, pos, d);
  }

  /**
   * An unknown tag after a run of tile records ends the content with
   * `BadContentTag`; the tiles decoded before it stay on the page.
   */
  lemma TilesBeforeBadTag(data: seq<byte>, pos: nat, ts: seq<Tile>, end: int, d: Doc)
    requires TilesFit(ts) && At(data, pos, EncodeTiles(ts))
    requires pos + |EncodeTiles(ts)| < end && pos + |EncodeTiles(ts)| < |data|
    requires var b := data[pos + |EncodeTiles(ts)|];
             !IsTileTag(b) && b !in {'L' as byte, 'z' as byte, 'o' as byte, 'M' as byte, 'S' as byte}
    ensures ContentAt(data, pos, end, d) == Scan(BadContentTag, d.(tiles := d.tiles + ts), pos + |EncodeTiles(ts)|)
  {
    var q, d2 := pos + |EncodeTiles(ts)|, d.(tiles := d.tiles + ts);
    BadTagEnds(data, q, end, d2);
    assert ContentFrom(data, end)(pos, d) == ContentFrom(data, end)(q, d2) by {
      ContentTileSteps(data, end);
      TilesRun(ContentFrom(data, end), data, pos, ts, end, d);
    }
    assert ContentFrom(data, end)(pos, d) == ContentAt(data, pos, end, d);
  }

  // ---------------------------------------------------------------------
  // Links
  // ---------------------------------------------------------------------

  /** The number of bytes a link record with a target takes, tag included. */
  function LinkSize(l: Link): nat {
    2 + 10 * |l.regions| + 2 + |l.target.kind| + 3 + |l.target.href|
  }

  lemma LinkLength(tag: byte, l: Link)
    requires IsTargetTag(tag) && EncodableLink(l)
    ensures |EncodeLink(tag, l)| == LinkSize(l)
  {
  }

  lemma {:induction false} LinksLength(tag: byte, ls: seq<Link>)
    requires IsTargetTag(tag) && LinksFit(ls)
    ensures |EncodeLinks(tag, ls)| == Sum(LinkSize, ls)
  {
    if ls != [] {
      LinkLength(tag, ls[0]);
      LinksLength(tag, ls[1..]);
    }
  }

  /** What the readers return on the tag, count and regions of a link record. */
  ghost predicate HeadRead(data: seq<byte>, pos: nat, tag: byte, regions: seq<Rect>) {
    && pos < |data| && data[pos] == tag
    && ByteAt(data, pos + 1) == Ok(Read(|regions|, pos + 2))
    && RegionsAt(data, pos + 2, |regions|, []) == Ok(Read(regions, pos + 2 + 10 * |regions|))
  }

  /** What the readers return on the kind and href of a link target at `p`. */
  ghost predicate TargetRead(data: seq<byte>, p: nat, u: Url) {
    && StringAt(data, p) == Ok(Read(u.kind, p + 2 + |u.kind|))
    && UrlAt(data, p + 2 + |u.kind|) == Ok(Read(u.href, p + 5 + |u.kind| + |u.href|))
  }

  /** What the readers return on a link record with a target, field by field. */
  ghost predicate LinkRead(data: seq<byte>, pos: nat, tag: byte, l: Link) {
    HeadRead(data, pos, tag, l.regions) && TargetRead(data, pos + 2 + 10 * |l.regions|, l.target)
  }

  /** The tag, count and regions of an encoded link read back. */
  lemma LinkHeadRoundTrip(data: seq<byte>, pos: nat, tag: byte, l: Link)
    requires EncodableLink(l) && At(data, pos, [tag, |l.regions| as byte] + EncodeRects(l.regions))
    ensures HeadRead(data, pos, tag, l.regions)
  {
    var a: seq<byte> := [tag, |l.regions| as byte];
    AtSplit(data, pos, a, EncodeRects(l.regions));
    AtByte(data, pos, a, 0);
    AtByte(data, pos, a, 1);
    RectsRoundTrip(data, pos + 2, l.regions, []);
    assert [] + l.regions == l.regions;
  }

  /** The kind and href of an encoded link read back. */
  lemma LinkTargetRoundTrip(data: seq<byte>, p: nat, u: Url)
    requires InString(u.kind) && |u.href| < 0x7fff
    requires At(data, p, EncodeString(u.kind) + EncodeUrlNul(u.href))
    ensures TargetRead(data, p, u)
  {
    AtSplit(data, p, EncodeString(u.kind), EncodeUrlNul(u.href));
    StringRoundTrip(data, p, u.kind, p + 2 + |u.kind|);
    UrlNulRoundTrip(data, p + 2 + |u.kind|, u.href);
  }

  lemma LinkFieldsRoundTrip(data: seq<byte>, pos: nat, tag: byte, l: Link)
    requires IsTargetTag(tag) && EncodableLink(l) && At(data, pos, EncodeLink(tag, l))
    ensures LinkRead(data, pos, tag, l) && pos + LinkSize(l) <= |data|
  {
    var a := [tag, |l.regions| as byte] + EncodeRects(l.regions);
    var b := EncodeString(l.target.kind) + EncodeUrlNul(l.target.href);
    AtSplit(data, pos, a, b);
    LinkHeadRoundTrip(data, pos, tag, l);
    var p := pos + 2 + 10 * |l.regions|;
    assert p == pos + |a|;
    LinkTargetRoundTrip(data, p, l.target);
    LinkLength(tag, l);
  }

  /** The link that the field readers return is the link the body decodes to. */
  lemma TargetLinkRead(data: seq<byte>, pos: nat, tag: byte, l: Link)
    requires 0 < |l.regions| < 0x80 && LinkRead(data, pos, tag, l)
    ensures TargetLinkAt(data, pos + 1) == Ok(Read(Some(l), pos + LinkSize(l)))
  {
    var p := pos + 2 + 10 * |l.regions|;
    var q := p + 2 + |l.target.kind|;
    assert RegionsAt(data, pos + 2, |l.regions|, []) == Ok(Read(l.regions, p));
    assert StringAt(data, p) == Ok(Read(l.target.kind, q));
    assert UrlAt(data, q) == Ok(Read(l.target.href, pos + LinkSize(l)));
  }

  /** A record with a target tag whose body decodes to a link appends it. */
  lemma LinkRecordAdds(data: seq<byte>, pos: nat, links: seq<Link>, tag: byte, body: Read<Option<Link>>)
    requires pos < |data| && data[pos] == tag && IsTargetTag(tag)
    requires TargetLinkAt(data, pos + 1) == Ok(body) && body.value.Some?
    ensures LinkRecordAt(data, pos, links) == Scan(NoError, links + [body.value.value], body.next)
  {
    assert LinkBodyAt(data, pos + 1, tag) == TargetLinkAt(data, pos + 1);
  }

  /**
   * At `pos` lies a record that appends `l` to any list of links and ends
   * `LinkSize(l)` bytes later.
   */
  ghost predicate LinkRecord(data: seq<byte>, pos: nat, l: Link) {
    && pos + LinkSize(l) <= |data|
    && forall links: seq<Link> {:trigger LinkRecordAt(data, pos, links)} ::
         LinkRecordAt(data, pos, links) == Scan(NoError, links + [l], pos + LinkSize(l))
  }

  lemma LinkReadRecord(data: seq<byte>, pos: nat, tag: byte, l: Link)
    requires IsTargetTag(tag) && 0 < |l.regions| < 0x80
    requires LinkRead(data, pos, tag, l) && pos + LinkSize(l) <= |data|
    ensures LinkRecord(data, pos, l)
  {
    TargetLinkRead(data, pos, tag, l);
    var body := Read(Some(l), pos + LinkSize(l));
    forall links: seq<Link>
      ensures LinkRecordAt(data, pos, links) == Scan(NoError, links + [l], pos + LinkSize(l))
    {
      LinkRecordAdds(data, pos, links, tag, body);
    }
  }

  /** A link record appends exactly the link it encodes, to any list of links. */
  lemma LinkRoundTrip(data: seq<byte>, pos: nat, tag: byte, l: Link)
    requires IsTargetTag(tag) && EncodableLink(l) && At(data, pos, EncodeLink(tag, l))
    ensures LinkRecord(data, pos, l)
  {
    LinkFieldsRoundTrip(data, pos, tag, l);
    LinkReadRecord(data, pos, tag, l);
  }

  /** Links written one after the other from `pos`, record by record. */
  ghost predicate LinksLaid(data: seq<byte>, pos: nat, ls: seq<Link>)
    decreases |ls|
  {
    ls == [] || (LinkRecord(data, pos, ls[0]) && LinksLaid(data, pos + LinkSize(ls[0]), ls[1..]))
  }

  /** Each link of `ls`, encoded on its own, lies at its place from `pos`. */
  ghost predicate LinksWritten(data: seq<byte>, pos: nat, tag: byte, ls: seq<Link>)
    requires IsTargetTag(tag)
    decreases |ls|
  {
    ls == [] ||
    (EncodableLink(ls[0]) && At(data, pos, EncodeLink(tag, ls[0])) && LinksWritten(data, pos + LinkSize(ls[0]), tag, ls[1..]))
  }

  /** An encoded list of links is its records one after the other. */
  lemma {:induction false} LinksWrittenAt(data: seq<byte>, pos: nat, tag: byte, ls: seq<Link>)
    requires IsTargetTag(tag) && LinksFit(ls) && At(data, pos, EncodeLinks(tag, ls))
    ensures LinksWritten(data, pos, tag, ls)
    decreases |ls|
  {
    if ls != [] {
      var next := pos + LinkSize(ls[0]);
      LinkLength(tag, ls[0]);
      AtSplitAt(data, pos, EncodeLink(tag, ls[0]), EncodeLinks(tag, ls[1..]), next);
      LinksWrittenAt(data, next, tag, ls[1..]);
    }
  }

  lemma {:induction false} LinksLayout(data: seq<byte>, pos: nat, tag: byte, ls: seq<Link>)
    requires IsTargetTag(tag) && LinksWritten(data, pos, tag, ls)
    ensures LinksLaid(data, pos, ls)
    decreases |ls|
  {
    if ls != [] {
      LinkRoundTrip(data, pos, tag, ls[0]);
      LinksLayout(data, pos + LinkSize(ls[0]), tag, ls[1..]);
    }
  }

  /** Encoded links are link records one after the other. */
  lemma LinksLaidAt(data: seq<byte>, pos: nat, tag: byte, ls: seq<Link>)
    requires IsTargetTag(tag) && LinksFit(ls) && At(data, pos, EncodeLinks(tag, ls))
    ensures LinksLaid(data, pos, ls)
  {
    LinksWrittenAt(data, pos, tag, ls);
    LinksLayout(data, pos, tag, ls);
  }

  /** A link record that decodes without error hands the rest of the loop on. */
  lemma LinkRunNext(data: seq<byte>, pos: nat, end: int, links: seq<Link>, links2: seq<Link>, next: nat)
    requires pos < SizeT(end) && pos <= |data| && next <= |data|
    requires LinkRecordAt(data, pos, links) == Scan(NoError, links2, next)
    ensures LinkRunAt(data, pos, end, links) == LinkRunAt(data, next, end, links2)
  {
  }

  /** One laid link before the section's end: the loop appends it and goes on after it. */
  lemma LinkRunStep(data: seq<byte>, pos: nat, l: Link, end: int, links: seq<Link>, next: nat)
    requires LinkRecord(data, pos, l) && next == pos + LinkSize(l) && pos < SizeT(end)
    ensures LinkRunAt(data, pos, end, links) == LinkRunAt(data, next, end, links + [l])
  {
    assert LinkRecordAt(data, pos, links) == Scan(NoError, links + [l], next);
    LinkRunNext(data, pos, end, links, links + [l], next);
  }

  /** The record loop of the link section from a position and a list of links, as one function value. */
  function LinkFrom(data: seq<byte>, end: int): (nat, seq<Link>) -> Scan<seq<Link>> {
    (p: nat, links: seq<Link>) => if p <= |data| then LinkRunAt(data, p, end, links) else Scan(NoError, links, p)
  }

  /** The list after one more link. */
  function AddLink(links: seq<Link>, l: Link): seq<Link> {
    links + [l]
  }

  lemma {:induction false} AddLinks(links: seq<Link>, ls: seq<Link>)
    ensures Fold(AddLink, links, ls) == links + ls
    decreases |ls|
  {
    if ls == [] {
      assert links + ls == links;
    } else {
      AddLinks(AddLink(links, ls[0]), ls[1..]);
      assert links + [ls[0]] + ls[1..] == links + ls;
    }
  }

  /** Every laid link before `end` takes `F` from before it to after it. */
  ghost predicate LinkSteps(F: (nat, seq<Link>) -> Scan<seq<Link>>, data: seq<byte>, end: int) {
    forall p: nat, l: Link, links: seq<Link> {:trigger LinkRecord(data, p, l), F(p, links)} ::
      LinkRecord(data, p, l) && p < SizeT(end) ==> F(p, links) == F(p + LinkSize(l), AddLink(links, l))
  }

  /** `LinkRunStep`, for the loop as a function value. */
  lemma LinkFromStep(data: seq<byte>, end: int, p: nat, l: Link, links: seq<Link>, next: nat)
    requires LinkRecord(data, p, l) && p < SizeT(end) && next == p + LinkSize(l)
    ensures LinkFrom(data, end)(p, links) == LinkFrom(data, end)(next, AddLink(links, l))
  {
    LinkRunStep(data, p, l, end, links, next);
    assert LinkFrom(data, end)(p, links) == LinkRunAt(data, p, end, links);
    assert LinkFrom(data, end)(next, links + [l]) == LinkRunAt(data, next, end, links + [l]);
  }

  lemma LinkRunSteps(data: seq<byte>, end: int)
    ensures LinkSteps(LinkFrom(data, end), data, end)
  {
    forall p: nat, l: Link, links: seq<Link> | LinkRecord(data, p, l) && p < SizeT(end)
      ensures LinkFrom(data, end)(p, links) == LinkFrom(data, end)(p + LinkSize(l), AddLink(links, l))
    {
      LinkFromStep(data, end, p, l, links, p + LinkSize(l));
    }
  }

  lemma {:induction false} LinksChained(F: (nat, seq<Link>) -> Scan<seq<Link>>, data: seq<byte>, pos: nat, ls: seq<Link>, end: int, links: seq<Link>)
    requires LinksLaid(data, pos, ls) && LinkSteps(F, data, end) && pos + Sum(LinkSize, ls) <= SizeT(end)
    ensures Chain(F, LinkSize, AddLink, pos, ls, links)
    decreases |ls|
  {
    if ls != [] {
      var l, rest := ls[0], ls[1..];
      assert F(pos, links) == F(pos + LinkSize(l), AddLink(links, l));
      LinksChained(F, data, pos + LinkSize(l), rest, end, AddLink(links, l));
    }
  }

  /**
   * Laid links that end no later than the section's end take any function
   * of the loop that each link record steps from before them to after
   * them, with the links appended in file order.
   */
  lemma LinksEnds(F: (nat, seq<Link>) -> Scan<seq<Link>>, data: seq<byte>, pos: nat, ls: seq<Link>, end: int, links: seq<Link>, next: nat, all: seq<Link>)
    requires LinksLaid(data, pos, ls) && LinkSteps(F, data, end)
    requires next == pos + Sum(LinkSize, ls) && all == links + ls && next <= SizeT(end)
    ensures F(pos, links) == F(next, all)
  {
    LinksChained(F, data, pos, ls, end, links);
    ChainEnds(F, LinkSize, AddLink, pos, ls, links);
    AddLinks(links, ls);
  }

  /**
   * The record loop runs across laid links that end no later than the
   * section's end, appending them in file order.
   */
  lemma LinkRunLaid(data: seq<byte>, pos: nat, ls: seq<Link>, end: int, links: seq<Link>, next: nat, all: seq<Link>)
    requires LinksLaid(data, pos, ls) && next == pos + Sum(LinkSize, ls) && all == links + ls
    requires next <= SizeT(end) && next <= |data|
    ensures LinkRunAt(data, pos, end, links) == LinkRunAt(data, next, end, all)
  {
    LinkRunSteps(data, end);
    LinksEnds(LinkFrom(data, end), data, pos, ls, end, links, next, all);
  }

  /** Laid links that end where the section was announced to end are its links. */
  lemma LinksLaidRoundTrip(data: seq<byte>, pos: nat, ls: seq<Link>, n: nat)
    requires LinksLaid(data, pos, ls) && n == Sum(LinkSize, ls) && pos + n <= |data| < 0x1_0000_0000_0000_0000
    ensures LinksAt(data, pos, pos + n, []) == Scan(NoError, ls, pos + n)
  {
    LinkRunLaid(data, pos, ls, pos + n, [], pos + n, ls);
    assert [] + ls == ls;
  }

  /**
   * A link section that ends where it was announced to decodes to its
   * links, in file order.
   */
  lemma LinksRoundTrip(data: seq<byte>, pos: nat, tag: byte, ls: seq<Link>)
    requires IsTargetTag(tag) && LinksFit(ls) && At(data, pos, EncodeLinks(tag, ls))
    requires |data| < 0x1_0000_0000_0000_0000
    ensures LinksAt(data, pos, pos + |EncodeLinks(tag, ls)|, []) == Scan(NoError, ls, pos + |EncodeLinks(tag, ls)|)
  {
    var n := |EncodeLinks(tag, ls)|;
    assert pos + n <= |data|;
    LinksLength(tag, ls);
    LinksLaidAt(data, pos, tag, ls);
    LinksLaidRoundTrip(data, pos, ls, n);
  }

  /** A list with one more link at the end still fits, and its encoding is one record longer. */
  lemma {:induction false} EncodeLinksSnoc(tag: byte, ls: seq<Link>, l: Link)
    requires IsTargetTag(tag) && LinksFit(ls) && EncodableLink(l)
    ensures LinksFit(ls + [l])
    ensures EncodeLinks(tag, ls + [l]) == EncodeLinks(tag, ls) + EncodeLink(tag, l)
    decreases |ls|
  {
    if ls == [] {
      assert [] + [l] == [l];
      assert EncodeLinks(tag, [l]) == EncodeLink(tag, l) + EncodeLinks(tag, []);
    } else {
      assert (ls + [l])[1..] == ls[1..] + [l];
      EncodeLinksSnoc(tag, ls[1..], l);
    }
  }

  lemma {:induction false} LinksFitLast(ls: seq<Link>)
    requires LinksFit(ls) && ls != []
    ensures LinksFit(ls[..|ls| - 1]) && EncodableLink(ls[|ls| - 1])
    decreases |ls|
  {
    if |ls| > 1 {
      LinksFitLast(ls[1..]);
      assert ls[1..][..|ls| - 2] == ls[..|ls| - 1][1..];
    }
  }

  /** A last record that runs one byte past the section's end ends the loop there. */
  lemma LinkRunOverrun(data: seq<byte>, q: nat, l: Link, end: int, links: seq<Link>, next: nat)
    requires LinkRecord(data, q, l) && next == q + LinkSize(l) && q < SizeT(end) == next - 1
    ensures LinkRunAt(data, q, end, links) == Scan(NoError, links + [l], next)
  {
    LinkRunStep(data, q, l, end, links, next);
  }

  /** Links laid up to a last record that runs one byte past the announced end. */
  lemma ShortByOneLaid(data: seq<byte>, pos: nat, prefix: seq<Link>, last: Link, q: nat, next: nat)
    requires LinksLaid(data, pos, prefix) && q == pos + Sum(LinkSize, prefix)
    requires LinkRecord(data, q, last) && next == q + LinkSize(last) && |data| < 0x1_0000_0000_0000_0000
    ensures LinksAt(data, pos, next - 1, []) == Scan(Unknown, prefix + [last], next)
  {
    LinkRunLaid(data, pos, prefix, next - 1, [], q, [] + prefix);
    assert [] + prefix == prefix;
    LinkRunOverrun(data, q, last, next - 1, prefix, next);
  }

  /** A list of links is the list of all but its last link, then that link. */
  lemma LinksSnoc(tag: byte, ls: seq<Link>)
    requires IsTargetTag(tag) && LinksFit(ls) && ls != []
    ensures var prefix, last := ls[..|ls| - 1], ls[|ls| - 1];
            && ls == prefix + [last] && LinksFit(prefix) && EncodableLink(last)
            && EncodeLinks(tag, ls) == EncodeLinks(tag, prefix) + EncodeLink(tag, last)
            && |EncodeLinks(tag, prefix)| == Sum(LinkSize, prefix)
            && |EncodeLink(tag, last)| == LinkSize(last)
  {
    var prefix, last := ls[..|ls| - 1], ls[|ls| - 1];
    LinksFitLast(ls);
    EncodeLinksSnoc(tag, prefix, last);
    assert prefix + [last] == ls;
    LinksLength(tag, prefix);
    LinkLength(tag, last);
  }

  /** The records of all links but the last, then the last one. */
  lemma ShortByOneLayout(data: seq<byte>, pos: nat, tag: byte, prefix: seq<Link>, last: Link, q: nat)
    requires IsTargetTag(tag) && LinksFit(prefix) && EncodableLink(last)
    requires At(data, pos, EncodeLinks(tag, prefix) + EncodeLink(tag, last))
    requires q == pos + |EncodeLinks(tag, prefix)|
    ensures LinksLaid(data, pos, prefix) && LinkRecord(data, q, last)
  {
    AtSplit(data, pos, EncodeLinks(tag, prefix), EncodeLink(tag, last));
    LinksWrittenAt(data, pos, tag, prefix);
    LinksLayout(data, pos, tag, prefix);
    LinkRoundTrip(data, q, tag, last);
  }

  /**
   * A link section announced one byte shorter than its records: the last
   * record is read past the announced end, and the section fails with
   * `Unknown` after all the links were appended.
   */
  lemma LinksShortByOne(data: seq<byte>, pos: nat, tag: byte, ls: seq<Link>)
    requires IsTargetTag(tag) && LinksFit(ls) && ls != [] && At(data, pos, EncodeLinks(tag, ls))
    requires |data| < 0x1_0000_0000_0000_0000
    ensures LinksAt(data, pos, pos + |EncodeLinks(tag, ls)| - 1, []) == Scan(Unknown, ls, pos + |EncodeLinks(tag, ls)|)
  {
    var prefix, last := ls[..|ls| - 1], ls[|ls| - 1];
    LinksSnoc(tag, ls);
    var q := pos + |EncodeLinks(tag, prefix)|;
    ShortByOneLayout(data, pos, tag, prefix, last, q);
    ShortByOneLaid(data, pos, prefix, last, q, pos + |EncodeLinks(tag, ls)|);
  }

  // ---------------------------------------------------------------------
  // Header
  // ---------------------------------------------------------------------

  /** The number of bytes of the version-6 header fields. */
  function HeaderSize(h: Header): nat {
    19 + |h.title| + |h.baseUrl| + |h.pageUrl|
  }

  /** What the readers return on the header fields, in three groups. */
  ghost predicate SizeRead(data: seq<byte>, pos: nat, size: Vec) {
    CoordAt(data, pos) == Ok(Read(size, pos + 5)) && pos + 10 <= |data|
  }

  ghost predicate TitleRead(data: seq<byte>, p: nat, title: seq<byte>) {
    && StringAt(data, p) == Ok(Read(title, p + 2 + |title|))
    && BlobAt(data, p + 2 + |title|) == Ok(p + 4 + |title|)
  }

  ghost predicate UrlsRead(data: seq<byte>, p: nat, baseUrl: seq<byte>, pageUrl: seq<byte>) {
    && StringAt(data, p) == Ok(Read(baseUrl, p + 2 + |baseUrl|))
    && StringAt(data, p + 2 + |baseUrl|) == Ok(Read(pageUrl, p + 4 + |baseUrl| + |pageUrl|))
    && p + 5 + |baseUrl| + |pageUrl| <= |data|
  }

  ghost predicate HeaderRead(data: seq<byte>, pos: nat, h: Header) {
    && SizeRead(data, pos, h.size)
    && TitleRead(data, pos + 10, h.title)
    && UrlsRead(data, pos + 14 + |h.title|, h.baseUrl, h.pageUrl)
  }

  lemma HeaderLength(h: Header)
    requires EncodableHeader(h)
    ensures |EncodeHeaderFields(h)| == HeaderSize(h)
  {
  }

  /** An empty blob is skipped in its two length bytes. */
  lemma EmptyBlob(data: seq<byte>, p: nat)
    requires At(data, p, [0, 0])
    ensures BlobAt(data, p) == Ok(p + 2)
  {
    AtByte(data, p, [0, 0], 0);
    AtByte(data, p, [0, 0], 1);
  }

  /** The size and the skipped bytes read back. */
  lemma HeaderSizeRoundTrip(data: seq<byte>, pos: nat, size: Vec)
    requires InCoord(size) && At(data, pos, EncodeCoord(size) + [0, 0, 0, 0, 0])
    ensures SizeRead(data, pos, size)
  {
    AtSplit(data, pos, EncodeCoord(size), [0, 0, 0, 0, 0]);
    CoordRoundTrip(data, pos, size);
  }

  /** The title and the empty blob read back. */
  lemma HeaderTitleRoundTrip(data: seq<byte>, p: nat, title: seq<byte>)
    requires InString(title) && At(data, p, EncodeString(title) + [0, 0])
    ensures TitleRead(data, p, title)
  {
    AtSplit(data, p, EncodeString(title), [0, 0]);
    StringRoundTrip(data, p, title, p + 2 + |title|);
    EmptyBlob(data, p + 2 + |title|);
  }

  /** The base and page URLs and the skipped byte read back. */
  lemma HeaderUrlsRoundTrip(data: seq<byte>, p: nat, h: Header)
    requires EncodableHeader(h)
    requires At(data, p, EncodeString(h.baseUrl) + EncodeString(h.pageUrl) + [0])
    ensures UrlsRead(data, p, h.baseUrl, h.pageUrl)
  {
    var e, f := EncodeString(h.baseUrl), EncodeString(h.pageUrl);
    AtSplit(data, p, e + f, [0]);
    AtSplit(data, p, e, f);
    StringRoundTrip(data, p, h.baseUrl, p + 2 + |h.baseUrl|);
    StringRoundTrip(data, p + 2 + |h.baseUrl|, h.pageUrl, p + 4 + |h.baseUrl| + |h.pageUrl|);
  }

  lemma HeaderFieldsRead(data: seq<byte>, pos: nat, h: Header)
    requires EncodableHeader(h) && At(data, pos, EncodeHeaderFields(h))
    ensures HeaderRead(data, pos, h)
  {
    var size := EncodeCoord(h.size) + [0, 0, 0, 0, 0];
    var title := EncodeString(h.title) + [0, 0];
    var urls := EncodeString(h.baseUrl) + EncodeString(h.pageUrl) + [0];
    AtSplit(data, pos, size + title, urls);
    AtSplit(data, pos, size, title);
    HeaderSizeRoundTrip(data, pos, h.size);
    HeaderTitleRoundTrip(data, pos + 10, h.title);
    HeaderUrlsRoundTrip(data, pos + 14 + |h.title|, h);
  }

  /** The header that the field readers return is the header the stage decodes. */
  lemma HeaderReadFields(data: seq<byte>, pos: nat, h: Header, h0: Header)
    requires HeaderRead(data, pos, h)
    ensures HeaderFieldsAt(data, pos, h0)
         == Scan(NoError, h0.(size := h.size, title := h.title, baseUrl := h.baseUrl, pageUrl := h.pageUrl),
                 pos + HeaderSize(h))
  {
  }

  /**
   * Encoded header fields decode to the size, title and URLs they encode;
   * the version and length already in the header are kept.
   */
  lemma HeaderFieldsRoundTrip(data: seq<byte>, pos: nat, h: Header, h0: Header)
    requires EncodableHeader(h) && At(data, pos, EncodeHeaderFields(h))
    ensures HeaderFieldsAt(data, pos, h0)
         == Scan(NoError, h0.(size := h.size, title := h.title, baseUrl := h.baseUrl, pageUrl := h.pageUrl),
                 pos + |EncodeHeaderFields(h)|)
  {
    HeaderFieldsRead(data, pos, h);
    HeaderLength(h);
    HeaderReadFields(data, pos, h, h0);
  }
}
