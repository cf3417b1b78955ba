/**
 * Whole pages: a page built from a header, one metadata record announcing
 * the link section, the link records and the tile records decodes, stage
 * by stage, to exactly what it was built from; and a page whose metadata
 * announces one byte too few for its links fails with `Unknown` after the
 * links.
 */
module PageRoundTrip {
  import opened Entity
  import opened ByteReader
  import opened Document
  import opened ObmlParser
  import opened Encoding
  import opened PageEncoding
  import opened ReaderProperties
  import opened ParserProperties
  import opened RoundTrip

  // ---------------------------------------------------------------------
  // The parts of a page
  // ---------------------------------------------------------------------

  // A page is its three length bytes `m` followed by four parts: the
  // version and header fields `a`, the size record `b`, the link records
  // `c` and the tile records `d`. Each lemma below finds one part in such
  // a stream, whatever the others hold.

  lemma RestAt(data: seq<byte>, m: seq<byte>, rest: seq<byte>)
    requires data == m + rest
    ensures At(data, 0, m) && At(data, |m|, rest)
  {
    AtSuffix(data, 0);
    assert data[0..] == data;
    AtSplit(data, 0, m, rest);
  }

  lemma FirstPartAt(data: seq<byte>, m: seq<byte>, a: seq<byte>, b: seq<byte>, c: seq<byte>, d: seq<byte>, pos: nat)
    requires data == m + (((a + b) + c) + d) && pos == |m|
    ensures At(data, 0, m) && At(data, pos, a)
  {
    RestAt(data, m, ((a + b) + c) + d);
    AtSplit(data, pos, (a + b) + c, d);
    AtSplit(data, pos, a + b, c);
    AtSplit(data, pos, a, b);
  }

  lemma SecondPartAt(data: seq<byte>, m: seq<byte>, a: seq<byte>, b: seq<byte>, c: seq<byte>, d: seq<byte>, pos: nat)
    requires data == m + (((a + b) + c) + d) && pos == |m| + |a|
    ensures At(data, pos, b)
  {
    RestAt(data, m, ((a + b) + c) + d);
    AtSplit(data, |m|, (a + b) + c, d);
    AtSplit(data, |m|, a + b, c);
    AtSplitAt(data, |m|, a, b, pos);
  }

  lemma ThirdPartAt(data: seq<byte>, m: seq<byte>, a: seq<byte>, b: seq<byte>, c: seq<byte>, d: seq<byte>, pos: nat)
    requires data == m + (((a + b) + c) + d) && pos == |m| + |a| + |b|
    ensures At(data, pos, c)
  {
    RestAt(data, m, ((a + b) + c) + d);
    AtSplit(data, |m|, (a + b) + c, d);
    AtSplitAt(data, |m|, a + b, c, pos);
  }

  lemma LastPartAt(data: seq<byte>, m: seq<byte>, a: seq<byte>, b: seq<byte>, c: seq<byte>, d: seq<byte>, pos: nat)
    requires data == m + (((a + b) + c) + d) && pos == |m| + |a| + |b| + |c|
    ensures At(data, pos, d) && pos + |d| == |data|
  {
    RestAt(data, m, ((a + b) + c) + d);
    AtSplitAt(data, |m|, (a + b) + c, d, pos);
  }

  /** An encoded page is its length bytes followed by its four parts. */
  lemma PageShape(h: Header, tag: byte, ls: seq<Link>, ts: seq<Tile>, declared: int)
    requires EncodableHeader(h) && IsTargetTag(tag) && InMedium(declared)
    requires LinksFit(ls) && TilesFit(ts)
    requires |EncodeBody(h, tag, ls, ts, declared)| < 0x80_0000
    ensures EncodePage(h, tag, ls, ts, declared)
         == EncodeMedium(|EncodeBody(h, tag, ls, ts, declared)|)
            + ((([V6 as byte] + EncodeHeaderFields(h)) + (['S' as byte] + EncodeMedium(declared)))
               + EncodeLinks(tag, ls) + EncodeTiles(ts))
  {
  }

  lemma LinksNonEmpty(tag: byte, ls: seq<Link>)
    requires IsTargetTag(tag) && LinksFit(ls) && ls != []
    ensures |EncodeLinks(tag, ls)| >= 2
  {
  }

  // ---------------------------------------------------------------------
  // Each stage on its part
  // ---------------------------------------------------------------------

  /** The three stages of the header, from the decoders' results. */
  lemma HeaderAtParts(data: seq<byte>, h0: Header, n: int, len: int, hf: Header, q: nat)
    requires MediumAt(data, 0) == Ok(Read(n, 3)) && ByteAt(data, 3) == Ok(Read(V6, 4)) && len == n + 3
    requires HeaderFieldsAt(data, 4, h0.(dataLen := UInt32(len), version := V6)) == Scan(NoError, hf, q)
    ensures HeaderAt(data, 0, h0) == Scan(NoError, hf, q)
  {
  }

  /** The version byte 6 reads as the version 6. */
  lemma VersionRead(data: seq<byte>, pos: nat)
    requires pos < |data| && data[pos] == V6 as byte
    ensures ByteAt(data, pos) == Ok(Read(V6, pos + 1))
  {
  }

  /**
   * A page whose length bytes give the rest of its length and whose
   * version is 6 decodes its header to the fields it encodes, with the
   * content length of the whole page.
   */
  lemma PageHeader(data: seq<byte>, h: Header, h0: Header, len: int)
    requires EncodableHeader(h) && 3 <= |data| < 0x80_0003 && len == |data| - 3
    requires At(data, 0, EncodeMedium(len)) && At(data, 3, [V6 as byte] + EncodeHeaderFields(h))
    ensures HeaderAt(data, 0, h0) == Scan(NoError, h.(dataLen := |data|, version := V6), 4 + HeaderSize(h))
  {
    var v: seq<byte> := [V6 as byte];
    AtSplitAt(data, 3, v, EncodeHeaderFields(h), 4);
    AtByte(data, 3, v, 0);
    VersionRead(data, 3);
    MediumRoundTrip(data, 0, len);
    var size := |data|;
    var h1 := h0.(dataLen := UInt32(size), version := V6);
    HeaderFieldsRead(data, 4, h);
    HeaderReadFields(data, 4, h, h1);
    assert h1.(size := h.size, title := h.title, baseUrl := h.baseUrl, pageUrl := h.pageUrl)
        == h.(dataLen := |data|, version := V6);
    HeaderAtParts(data, h0, len, size, h.(dataLen := |data|, version := V6), 4 + HeaderSize(h));
  }

  /** A size record announcing a non-zero size ends the metadata with that size. */
  lemma MetadataRoundTrip(data: seq<byte>, pos: nat, declared: int)
    requires InMedium(declared) && declared != 0
    requires At(data, pos, ['S' as byte] + EncodeMedium(declared))
    ensures MetadataAt(data, pos, 0) == Ok(Read(declared, pos + 4))
  {
    var s: seq<byte> := ['S' as byte];
    AtSplitAt(data, pos, s, EncodeMedium(declared), pos + 1);
    AtByte(data, pos, s, 0);
    MediumRoundTrip(data, pos + 1, declared);
    MetadataSize(data, pos);
  }

  /** Tile records up to the end of the stream are the whole content section. */
  lemma TilesRoundTrip(data: seq<byte>, pos: nat, ts: seq<Tile>, d: Doc)
    requires TilesFit(ts) && At(data, pos, EncodeTiles(ts)) && pos + |EncodeTiles(ts)| == |data|
    ensures ContentAt(data, pos, |data|, d) == Scan(NoError, d.(tiles := d.tiles + ts), |data|)
  {
    ContentTileSteps(data, |data|);
    TilesRun(ContentFrom(data, |data|), data, pos, ts, |data|, d);
  }

  // ---------------------------------------------------------------------
  // The stages together
  // ---------------------------------------------------------------------

  // Each stage's result, stated for every value of the argument the
  // stage carries along, so that it is used only where that stage is read.

  ghost predicate HeaderDecodes(data: seq<byte>, hdr: Header, q: nat) {
    forall h0 {:trigger HeaderAt(data, 0, h0)} :: HeaderAt(data, 0, h0) == Scan(NoError, hdr, q)
  }

  ghost predicate MetadataDecodes(data: seq<byte>, q: nat, declared: int) {
    q <= |data| &&
    forall size {:trigger MetadataAt(data, q, size)} :: size == 0 ==> MetadataAt(data, q, size) == Ok(Read(declared, q + 4))
  }

  ghost predicate LinksDecode(data: seq<byte>, m: nat, e: int, s: Scan<seq<Link>>) {
    m <= |data| &&
    forall links {:trigger LinksAt(data, m, e, links)} :: links == [] ==> LinksAt(data, m, e, links) == s
  }

  ghost predicate ContentDecodes(data: seq<byte>, pos: nat, end: nat, ts: seq<Tile>) {
    pos <= |data| &&
    forall d {:trigger ContentAt(data, pos, end, d)} :: ContentAt(data, pos, end, d) == Scan(NoError, d.(tiles := d.tiles + ts), end)
  }

  /** The stages after the header, all succeeding. */
  lemma BodyParts(data: seq<byte>, hdr: Header, q: nat, declared: int, m: nat, e: nat,
                  ls: seq<Link>, end: nat, ts: seq<Tile>)
    requires m == q + 4 && e == m + declared && end == hdr.dataLen
    requires MetadataDecodes(data, q, declared)
    requires LinksDecode(data, m, e, Scan(NoError, ls, e)) && ContentDecodes(data, e, end, ts)
    ensures BodyAt(data, q, 0, Doc(hdr, [], [], map[])) == Outcome(NoError, Doc(hdr, ts, ls, map[]))
  {
    var d1 := Doc(hdr, [], [], map[]);
    assert MetadataAt(data, q, 0) == Ok(Read(declared, m));
    var l := LinksAt(data, m, e, d1.links);
    assert l == Scan(NoError, ls, e);
    var d2 := d1.(links := ls);
    var c := ContentAt(data, e, end, d2);
    assert c == Scan(NoError, d2.(tiles := [] + ts), end);
    assert [] + ts == ts;
    assert BodyAt(data, q, 0, d1) == Outcome(c.status, c.state);
  }

  /** A decode whose four stages all succeed. */
  lemma DecodeParts(data: seq<byte>, h0: Header, hdr: Header, q: nat, declared: int, m: nat, e: nat,
                    ls: seq<Link>, end: nat, ts: seq<Tile>)
    requires m == q + 4 && e == m + declared && end == hdr.dataLen
    requires HeaderDecodes(data, hdr, q) && MetadataDecodes(data, q, declared)
    requires LinksDecode(data, m, e, Scan(NoError, ls, e)) && ContentDecodes(data, e, end, ts)
    ensures Decode(Some(data), h0) == Outcome(NoError, Doc(hdr, ts, ls, map[]))
  {
    assert HeaderAt(data, 0, h0) == Scan(NoError, hdr, q);
    BodyParts(data, hdr, q, declared, m, e, ls, end, ts);
  }

  /** A decode whose link stage fails: the content is not read. */
  lemma DecodeLinksFail(data: seq<byte>, h0: Header, hdr: Header, q: nat, declared: int, m: nat, e: int,
                        status: Err, ls: seq<Link>, next: nat)
    requires m == q + 4 && e == m + declared && status != NoError
    requires HeaderDecodes(data, hdr, q) && MetadataDecodes(data, q, declared)
    requires LinksDecode(data, m, e, Scan(status, ls, next))
    ensures Decode(Some(data), h0) == Outcome(status, Doc(hdr, [], ls, map[]))
  {
    var d1 := Doc(hdr, [], [], map[]);
    assert HeaderAt(data, 0, h0) == Scan(NoError, hdr, q);
    assert MetadataAt(data, q, 0) == Ok(Read(declared, m));
    assert LinksAt(data, m, e, []) == Scan(status, ls, next);
    assert BodyAt(data, q, 0, d1) == Outcome(status, d1.(links := ls));
  }

  /** The header part decodes, whatever the header it is read into. */
  lemma HeaderOfPage(data: seq<byte>, h: Header, m: seq<byte>, b: seq<byte>, c: seq<byte>, d: seq<byte>, len: int)
    requires EncodableHeader(h) && 3 <= |data| < 0x80_0003 && len == |data| - 3
    requires m == EncodeMedium(len)
    requires data == m + ((([V6 as byte] + EncodeHeaderFields(h)) + b) + c + d)
    ensures HeaderDecodes(data, h.(dataLen := |data|, version := V6), 4 + HeaderSize(h))
  {
    FirstPartAt(data, m, [V6 as byte] + EncodeHeaderFields(h), b, c, d, 3);
    forall h0 {:trigger HeaderAt(data, 0, h0)}
      ensures HeaderAt(data, 0, h0) == Scan(NoError, h.(dataLen := |data|, version := V6), 4 + HeaderSize(h))
    {
      PageHeader(data, h, h0, len);
    }
  }

  /** The size record ends the metadata with the size it announces. */
  lemma MetadataOfPage(data: seq<byte>, m: seq<byte>, a: seq<byte>, declared: int, c: seq<byte>, d: seq<byte>, q: nat)
    requires InMedium(declared) && declared != 0 && q == |m| + |a|
    requires data == m + (((a + (['S' as byte] + EncodeMedium(declared))) + c) + d)
    ensures MetadataDecodes(data, q, declared)
  {
    SecondPartAt(data, m, a, ['S' as byte] + EncodeMedium(declared), c, d, q);
    MetadataRoundTrip(data, q, declared);
    forall size {:trigger MetadataAt(data, q, size)} | size == 0
      ensures MetadataAt(data, q, size) == Ok(Read(declared, q + 4))
    {
    }
  }

  /** Link records read over exactly their length are the page's links. */
  lemma LinksOfPage(data: seq<byte>, m: seq<byte>, a: seq<byte>, b: seq<byte>, tag: byte, ls: seq<Link>, d: seq<byte>,
                    p: nat, e: nat)
    requires IsTargetTag(tag) && LinksFit(ls) && p == |m| + |a| + |b|
    requires data == m + (((a + b) + EncodeLinks(tag, ls)) + d) && |data| < 0x1_0000_0000_0000_0000
    requires e == p + |EncodeLinks(tag, ls)|
    ensures LinksDecode(data, p, e, Scan(NoError, ls, e))
  {
    ThirdPartAt(data, m, a, b, EncodeLinks(tag, ls), d, p);
    LinksRoundTrip(data, p, tag, ls);
    forall links {:trigger LinksAt(data, p, e, links)} | links == []
      ensures LinksAt(data, p, e, links) == Scan(NoError, ls, e)
    {
    }
  }

  /** Link records read over one byte less than their length fail with `Unknown`. */
  lemma LinksShortOfPage(data: seq<byte>, m: seq<byte>, a: seq<byte>, b: seq<byte>, tag: byte, ls: seq<Link>, d: seq<byte>,
                         p: nat, e: int)
    requires IsTargetTag(tag) && LinksFit(ls) && ls != [] && p == |m| + |a| + |b|
    requires data == m + (((a + b) + EncodeLinks(tag, ls)) + d) && |data| < 0x1_0000_0000_0000_0000
    requires e == p + |EncodeLinks(tag, ls)| - 1
    ensures LinksDecode(data, p, e, Scan(Unknown, ls, e + 1))
  {
    ThirdPartAt(data, m, a, b, EncodeLinks(tag, ls), d, p);
    LinksShortByOne(data, p, tag, ls);
    forall links {:trigger LinksAt(data, p, e, links)} | links == []
      ensures LinksAt(data, p, e, links) == Scan(Unknown, ls, e + 1)
    {
    }
  }

  /** The tile records that end a page are its content. */
  lemma TilesOfPage(data: seq<byte>, m: seq<byte>, a: seq<byte>, b: seq<byte>, c: seq<byte>, ts: seq<Tile>, pos: nat)
    requires TilesFit(ts) && pos == |m| + |a| + |b| + |c|
    requires data == m + (((a + b) + c) + EncodeTiles(ts))
    ensures ContentDecodes(data, pos, |data|, ts)
  {
    LastPartAt(data, m, a, b, c, EncodeTiles(ts), pos);
    forall doc {:trigger ContentAt(data, pos, |data|, doc)}
      ensures ContentAt(data, pos, |data|, doc) == Scan(NoError, doc.(tiles := doc.tiles + ts), |data|)
    {
      TilesRoundTrip(data, pos, ts, doc);
    }
  }

  // ---------------------------------------------------------------------
  // Whole pages
  // ---------------------------------------------------------------------

  /**
   * A page decodes to exactly the header fields, links and tiles it was
   * built from, in file order; its content length is the length of the
   * whole page and its image table is empty.
   */
  lemma PageDecodes(h: Header, tag: byte, ls: seq<Link>, ts: seq<Tile>, h0: Header)
    requires EncodableHeader(h) && IsTargetTag(tag) && ls != []
    requires LinksFit(ls) && TilesFit(ts) && |EncodeLinks(tag, ls)| < 0x80_0000
    requires |EncodeBody(h, tag, ls, ts, |EncodeLinks(tag, ls)|)| < 0x80_0000
    ensures var data := EncodePage(h, tag, ls, ts, |EncodeLinks(tag, ls)|);
            Decode(Some(data), h0) == Outcome(NoError, Doc(h.(dataLen := |data|, version := V6), ts, ls, map[]))
  {
    LinksNonEmpty(tag, ls);
    var n := |EncodeLinks(tag, ls)|;
    var len := |EncodeBody(h, tag, ls, ts, n)|;
    var data := EncodePage(h, tag, ls, ts, n);
    var m := EncodeMedium(len);
    var a, b := [V6 as byte] + EncodeHeaderFields(h), ['S' as byte] + EncodeMedium(n);
    var c, d := EncodeLinks(tag, ls), EncodeTiles(ts);
    var q, p := 4 + HeaderSize(h), 8 + HeaderSize(h);
    var e := p + n;
    var hdr := h.(dataLen := |data|, version := V6);
    assert && HeaderDecodes(data, hdr, q) && MetadataDecodes(data, q, n)
           && LinksDecode(data, p, e, Scan(NoError, ls, e)) && ContentDecodes(data, e, |data|, ts) by {
      PageShape(h, tag, ls, ts, n);
      HeaderLength(h);
      HeaderOfPage(data, h, m, b, c, d, len);
      MetadataOfPage(data, m, a, n, c, d, q);
      LinksOfPage(data, m, a, b, tag, ls, d, p, e);
      TilesOfPage(data, m, a, b, c, ts, e);
    }
    DecodeParts(data, h0, hdr, q, n, p, e, ls, |data|, ts);
  }

  /**
   * A page whose metadata announces a link section one byte shorter than
   * its records fails with `Unknown`; its header and links are decoded and
   * the content section is not read.
   */
  lemma PageLinksShortByOne(h: Header, tag: byte, ls: seq<Link>, ts: seq<Tile>, h0: Header)
    requires EncodableHeader(h) && IsTargetTag(tag) && ls != []
    requires LinksFit(ls) && TilesFit(ts) && |EncodeLinks(tag, ls)| <= 0x80_0000
    requires |EncodeBody(h, tag, ls, ts, |EncodeLinks(tag, ls)| - 1)| < 0x80_0000
    ensures var data := EncodePage(h, tag, ls, ts, |EncodeLinks(tag, ls)| - 1);
            Decode(Some(data), h0) == Outcome(Unknown, Doc(h.(dataLen := |data|, version := V6), [], ls, map[]))
  {
    LinksNonEmpty(tag, ls);
    var n := |EncodeLinks(tag, ls)|;
    var declared := n - 1;
    var len := |EncodeBody(h, tag, ls, ts, declared)|;
    var data := EncodePage(h, tag, ls, ts, declared);
    var m := EncodeMedium(len);
    var a, b := [V6 as byte] + EncodeHeaderFields(h), ['S' as byte] + EncodeMedium(declared);
    var c, d := EncodeLinks(tag, ls), EncodeTiles(ts);
    var q, p := 4 + HeaderSize(h), 8 + HeaderSize(h);
    var e := p + declared;
    var hdr := h.(dataLen := |data|, version := V6);
    assert && HeaderDecodes(data, hdr, q) && MetadataDecodes(data, q, declared)
           && LinksDecode(data, p, e, Scan(Unknown, ls, e + 1)) by {
      PageShape(h, tag, ls, ts, declared);
      HeaderLength(h);
      HeaderOfPage(data, h, m, b, c, d, len);
      MetadataOfPage(data, m, a, declared, c, d, q);
      LinksShortOfPage(data, m, a, b, tag, ls, d, p, e);
    }
    DecodeLinksFail(data, h0, hdr, q, declared, p, e, Unknown, ls, e + 1);
  }
}
