/**
 * Properties of the four decoding stages: what each record tag consumes and
 * contributes, that the stages only ever add to what is already on the page,
 * which statuses each stage can end with, and that a decode stops at the
 * first stage that fails.
 */
module ParserProperties {
  import opened Entity
  import opened ByteReader
  import opened Document
  import opened ObmlParser
  import opened ReaderProperties

  // ---------------------------------------------------------------------
  // Header
  // ---------------------------------------------------------------------

  /**
   * The content length counts the three bytes of its own field. A version
   * other than 6 ends the header at once: only the length and the version
   * have been stored.
   */
  lemma HeaderVersion(data: seq<byte>, pos: nat, h: Header)
    requires pos + 4 <= |data|
    ensures var s := HeaderAt(data, pos, h);
            var h' := h.(dataLen := UInt32(Medium(data[pos], data[pos + 1], data[pos + 2]) + 3),
                         version := data[pos + 3]);
            && s.state.dataLen == h'.dataLen
            && s.state.version == data[pos + 3]
            && (data[pos + 3] != V6 <==> s.status == Version)
            && (data[pos + 3] != V6 ==> s.state == h')
  {
  }

  // ---------------------------------------------------------------------
  // Metadata
  // ---------------------------------------------------------------------

  /**
   * What each metadata record passes over before the scan goes on: a blob
   * with a 24-bit length after `M C` and `M S`, seven bytes after `M u`,
   * nothing more after `M` and any other sub-tag, and a lone byte for any
   * other tag. A negative length fails `M C`, whose blob is copied out, and
   * makes `M S` skip nothing after it. `S` with a size of zero is passed
   * over too; any other size ends the scan right after it.
   */
  lemma MetadataRecords(data: seq<byte>, pos: nat)
    requires pos + 2 <= |data|
    ensures var tag := data[pos];
            var sub := data[pos + 1];
            && (tag == 'M' as byte && sub == 'C' as byte && DumpAltAt(data, pos + 2).Ok? ==>
                  MetadataAt(data, pos, 0)
                  == MetadataAt(data, pos + 5 + Medium(data[pos + 2], data[pos + 3], data[pos + 4]), 0))
            && (tag == 'M' as byte && sub == 'C' as byte && pos + 5 <= |data| && data[pos + 2] >= 0x80 ==>
                  MetadataAt(data, pos, 0) == Fail(BadLength))
            && (tag == 'M' as byte && sub == 'S' as byte && BlobAltAt(data, pos + 2).Ok? && data[pos + 2] < 0x80 ==>
                  MetadataAt(data, pos, 0)
                  == MetadataAt(data, pos + 5 + Medium(data[pos + 2], data[pos + 3], data[pos + 4]), 0))
            && (tag == 'M' as byte && sub == 'S' as byte && pos + 5 <= |data| && data[pos + 2] >= 0x80 ==>
                  MetadataAt(data, pos, 0) == MetadataAt(data, pos + 5, 0))
            && (tag == 'M' as byte && sub == 'u' as byte && pos + 9 <= |data| ==>
                  MetadataAt(data, pos, 0) == MetadataAt(data, pos + 9, 0))
            && (tag == 'M' as byte && sub != 'C' as byte && sub != 'S' as byte && sub != 'u' as byte ==>
                  MetadataAt(data, pos, 0) == MetadataAt(data, pos + 2, 0))
            && (tag != 'M' as byte && tag != 'S' as byte ==>
                  MetadataAt(data, pos, 0) == MetadataAt(data, pos + 1, 0))
  {
    BlobAltAdvance(data, pos + 2);
    DumpAltAdvance(data, pos + 2);
  }

  /**
   * An `S` record met while no size is known: a non-zero medium is the
   * size, read with the position after it; a zero medium lets the scan go
   * on after the record; a short medium fails the scan.
   */
  lemma MetadataSize(data: seq<byte>, pos: nat)
    requires pos < |data| && data[pos] == 'S' as byte
    ensures MediumAt(data, pos + 1).Ok? && MediumAt(data, pos + 1).value.value != 0 ==>
              MetadataAt(data, pos, 0) == MediumAt(data, pos + 1)
    ensures MediumAt(data, pos + 1).Ok? && MediumAt(data, pos + 1).value.value == 0 ==>
              MetadataAt(data, pos, 0) == MetadataAt(data, pos + 4, 0)
    ensures MediumAt(data, pos + 1).Fail? ==> MetadataAt(data, pos, 0) == Fail(Eof)
  {
  }

  /**
   * A scan that starts with no size ends right after an `S` record, and the
   * size it returns is the non-zero medium of that record.
   */
  lemma {:induction false} MetadataEndsAfterSize(data: seq<byte>, pos: nat)
    requires pos <= |data|
    requires MetadataAt(data, pos, 0).Ok?
    ensures var m := MetadataAt(data, pos, 0).value;
            && pos + 4 <= m.next
            && data[m.next - 4] == 'S' as byte
            && m.value == Medium(data[m.next - 3], data[m.next - 2], data[m.next - 1]) != 0
    decreases |data| - pos
  {
    var tag := ByteAt(data, pos).value;
    var p: nat;
    if tag.value == 'M' as int {
      var sub := ByteAt(data, tag.next).value;
      if sub.value == 'C' as int {
        p := DumpAltAt(data, sub.next).value;
      } else if sub.value == 'S' as int {
        p := BlobAltAt(data, sub.next).value;
      } else if sub.value == 'u' as int {
        p := SkipAt(data, sub.next, 7).value;
      } else {
        p := sub.next;
      }
    } else if tag.value == 'S' as int {
      var n := MediumAt(data, tag.next).value;
      if n.value != 0 {
        return;
      }
      p := n.next;
    } else {
      p := tag.next;
    }
    assert MetadataAt(data, pos, 0) == MetadataAt(data, p, 0) && p <= |data|;
    MetadataEndsAfterSize(data, p);
  }


  // ---------------------------------------------------------------------
  // Regions and link records
  // ---------------------------------------------------------------------

  /**
   * `r` is what reading `n` regions from `pos` onto `acc` must give: it
   * succeeds exactly when `n` ten-byte rectangles fit, ends after them, and
   * appends them to `acc` in file order.
   */
  ghost predicate RegionsRead(data: seq<byte>, pos: nat, n: nat, acc: seq<Rect>, r: Result<Read<seq<Rect>>>) {
    && (r.Ok? <==> pos + 10 * n <= |data|)
    && (r.Ok? ==>
          && r.value.next == pos + 10 * n
          && |r.value.value| == |acc| + n
          && r.value.value[..|acc|] == acc
          && forall k :: 0 <= k < n ==>
               RectAt(data, pos + 10 * k).Ok? && r.value.value[|acc| + k] == RectAt(data, pos + 10 * k).value.value)
  }

  /** A rectangle in front of a run of regions. */
  lemma RegionsStep(data: seq<byte>, pos: nat, n: nat, acc: seq<Rect>, rect: Rect, r: Result<Read<seq<Rect>>>)
    requires n > 0 && RectAt(data, pos) == Ok(Read(rect, pos + 10))
    requires RegionsRead(data, pos + 10, n - 1, acc + [rect], r)
    ensures RegionsRead(data, pos, n, acc, r)
  {
    var acc' := acc + [rect];
    if r.Ok? {
      var rs := r.value.value;
      assert rs[..|acc|] == rs[..|acc'|][..|acc|];
      forall k | 0 <= k < n
        ensures RectAt(data, pos + 10 * k).Ok? && rs[|acc| + k] == RectAt(data, pos + 10 * k).value.value
      {
        if k == 0 {
          assert rs[|acc|] == rs[..|acc'|][|acc|] == rect;
        } else {
          var j := k - 1;
          assert RectAt(data, pos + 10 + 10 * j).Ok? && rs[|acc'| + j] == RectAt(data, pos + 10 + 10 * j).value.value;
          assert pos + 10 + 10 * j == pos + 10 * k && |acc'| + j == |acc| + k;
        }
      }
    }
  }

  /**
   * `count` regions are read as consecutive ten-byte rectangles and kept in
   * file order; a count below zero reads none.
   */
  lemma {:induction false} RegionsInFileOrder(data: seq<byte>, pos: nat, count: int, acc: seq<Rect>)
    requires pos <= |data|
    ensures RegionsRead(data, pos, if count < 0 then 0 else count, acc, RegionsAt(data, pos, count, acc))
    decreases count
  {
    if count <= 0 {
      assert acc[..|acc|] == acc;
    } else {
      var rect := RectAt(data, pos);
      if rect.Ok? {
        RegionsInFileOrder(data, pos + 10, count - 1, acc + [rect.value.value]);
        RegionsStep(data, pos, count, acc, rect.value.value, RegionsAt(data, pos, count, acc));
      }
    }
  }

  /**
   * `r` gives one link whose regions are the rectangles after the count
   * byte at `pos`, in file order, whose kind is the string after them and
   * whose href is the URL after that; it ends where the URL ends.
   */
  ghost predicate TargetedLink(data: seq<byte>, pos: nat, r: Result<Read<Option<Link>>>)
    requires pos < |data|
  {
    var c := Int8(data[pos]);
    var n := if c < 0 then 0 else c;
    var kind := StringAt(data, pos + 1 + 10 * n);
    r.Ok? ==>
      && kind.Ok?
      && UrlAt(data, kind.value.next).Ok?
      && r.value.next == UrlAt(data, kind.value.next).value.next
      && r.value.value.Some?
      && r.value.value.value.target == Url(kind.value.value, UrlAt(data, kind.value.next).value.value)
      && |r.value.value.value.regions| == n
      && forall k :: 0 <= k < n ==>
           RectAt(data, pos + 1 + 10 * k).Ok?
           && r.value.value.value.regions[k] == RectAt(data, pos + 1 + 10 * k).value.value
  }

  lemma TargetedLinkShape(data: seq<byte>, pos: nat)
    requires pos < |data| && Int8(data[pos]) != 0
    ensures TargetedLink(data, pos, TargetLinkAt(data, pos))
  {
    var c := Int8(data[pos]);
    var n := if c < 0 then 0 else c;
    var r := TargetLinkAt(data, pos);
    if r.Ok? {
      assert ByteAt(data, pos) == Ok(Read(c, pos + 1));
      var regions := RegionsAt(data, pos + 1, c, []);
      RegionsInFileOrder(data, pos + 1, c, []);
      assert regions.Ok?;
      var kind := StringAt(data, pos + 1 + 10 * n);
      assert kind.Ok?;
      var href := UrlAt(data, kind.value.next);
      assert href.Ok?;
      var l := Link(regions.value.value, Url(kind.value.value, href.value.value));
      assert r == Ok(Read(Some(l), href.value.next));
      forall k | 0 <= k < n
        ensures RectAt(data, pos + 1 + 10 * k).Ok? && l.regions[k] == RectAt(data, pos + 1 + 10 * k).value.value
      {
        assert l.regions[0 + k] == RectAt(data, pos + 1 + 10 * k).value.value;
      }
    }
  }


  /**
   * The body of a record with a target, from its count byte on: a count of
   * zero skips eight more bytes and gives no link; any other count gives
   * the link `TargetedLink` describes.
   */
  lemma TargetLinkShape(data: seq<byte>, pos: nat)
    requires pos < |data|
    ensures var c := Int8(data[pos]);
            var r := TargetLinkAt(data, pos);
            && (c == 0 && pos + 9 <= |data| ==> r == Ok(Read(None, pos + 9)))
            && (c != 0 ==> TargetedLink(data, pos, r))
  {
    if Int8(data[pos]) != 0 {
      TargetedLinkShape(data, pos);
    }
  }

  /**
   * Tags `i`, `w`, `W`, `L`, `P`: a count of zero adds no link and the
   * record takes ten bytes; any other count appends exactly one link, the
   * one described by `TargetedLink`.
   */
  lemma LinkRecordTarget(data: seq<byte>, pos: nat, links: seq<Link>)
    requires pos + 2 <= |data| && IsTargetTag(data[pos])
    ensures var s := LinkRecordAt(data, pos, links);
            var body := TargetLinkAt(data, pos + 1);
            && (Int8(data[pos + 1]) == 0 && pos + 10 <= |data| ==> s == Scan(NoError, links, pos + 10))
            && (Int8(data[pos + 1]) != 0 && s.status == NoError ==>
                  && body.Ok? && body.value.value.Some?
                  && s == Scan(NoError, links + [body.value.value.value], body.value.next))
  {
    TargetLinkShape(data, pos + 1);
    assert LinkBodyAt(data, pos + 1, data[pos]) == TargetLinkAt(data, pos + 1);
  }

  /**
   * `r` gives one link with an empty target whose regions are the
   * rectangles after the count byte at `pos`, in file order.
   */
  ghost predicate UntargetedLink(data: seq<byte>, pos: nat, r: Result<Read<Option<Link>>>)
    requires pos < |data|
  {
    var c := Int8(data[pos]);
    var n := if c < 0 then 0 else c;
    r.Ok? ==>
      && r.value.value.Some?
      && r.value.value.value.target == EmptyUrl
      && |r.value.value.value.regions| == n
      && forall k :: 0 <= k < n ==>
           RectAt(data, pos + 1 + 10 * k).Ok?
           && r.value.value.value.regions[k] == RectAt(data, pos + 1 + 10 * k).value.value
  }

  lemma ImageLinkShape(data: seq<byte>, pos: nat)
    requires pos < |data|
    ensures UntargetedLink(data, pos, ImageLinkAt(data, pos))
  {
    RegionsInFileOrder(data, pos + 1, Int8(data[pos]), []);
  }

  lemma BlobLinkShape(data: seq<byte>, pos: nat)
    requires pos < |data|
    ensures UntargetedLink(data, pos, BlobLinkAt(data, pos))
  {
    RegionsInFileOrder(data, pos + 1, Int8(data[pos]), []);
  }

  /** The body of an `I`, `N` or `S` record gives one link: the regions after the count byte and an empty target. */
  lemma NoTargetShape(data: seq<byte>, pos: nat, tag: int)
    requires pos < |data|
    requires tag == 'I' as int || tag == 'N' as int || tag == 'S' as int
    ensures UntargetedLink(data, pos, LinkBodyAt(data, pos, tag))
  {
    if tag == 'I' as int {
      ImageLinkShape(data, pos);
      assert LinkBodyAt(data, pos, tag) == ImageLinkAt(data, pos);
    } else {
      BlobLinkShape(data, pos);
      assert LinkBodyAt(data, pos, tag) == BlobLinkAt(data, pos);
    }
  }

  /** Tags `I`, `N` and `S` append exactly the one link that `NoTargetShape` describes. */
  lemma LinkRecordNoTarget(data: seq<byte>, pos: nat, links: seq<Link>)
    requires pos + 2 <= |data|
    requires data[pos] == 'I' as byte || data[pos] == 'N' as byte || data[pos] == 'S' as byte
    ensures var s := LinkRecordAt(data, pos, links);
            var body := LinkBodyAt(data, pos + 1, data[pos]);
            s.status == NoError ==>
              && body.Ok? && body.value.value.Some?
              && s == Scan(NoError, links + [body.value.value.value], body.value.next)
  {
    NoTargetShape(data, pos + 1, data[pos]);
  }

  /**
   * Tags NUL and `C` add no link; `C` takes 21 bytes after its tag.
   */
  lemma LinkRecordSkipped(data: seq<byte>, pos: nat, links: seq<Link>)
    requires pos < |data| && (data[pos] == 0 || data[pos] == 'C' as byte)
    ensures LinkRecordAt(data, pos, links).state == links
    ensures data[pos] == 'C' as byte && pos + 22 <= |data| ==> LinkRecordAt(data, pos, links) == Scan(NoError, links, pos + 22)
  {
  }

  /** Any other tag ends the link section with `BadLinkTag`, the links untouched. */
  lemma LinkRecordBadTag(data: seq<byte>, pos: nat, links: seq<Link>)
    requires pos < |data| && !IsLinkTag(data[pos])
    ensures LinkRecordAt(data, pos, links) == Scan(BadLinkTag, links, pos)
  {
  }

  /**
   * The record loop only appends links, stops at `BadLinkTag` or a fault,
   * and otherwise runs until the position reaches the section's end.
   */
  lemma {:induction false} LinkRunAppends(data: seq<byte>, pos: nat, end: int, links: seq<Link>)
    requires pos <= |data|
    ensures var r := LinkRunAt(data, pos, end, links);
            && |links| <= |r.state| && r.state[..|links|] == links
            && (r.status == NoError || r.status == BadLinkTag || r.status.Io?)
            && (r.status == NoError ==> r.next >= SizeT(end))
    decreases |data| - pos
  {
    if pos < SizeT(end) {
      var s := LinkRecordAt(data, pos, links);
      if s.status == NoError {
        LinkRunAppends(data, s.next, end, s.state);
        var r := LinkRunAt(data, pos, end, links);
        assert r.state[..|links|] == r.state[..|s.state|][..|links|];
      }
    }
  }

  /**
   * The link section only appends links and ends with `NoError` exactly at
   * its declared end; `Unknown` means the records ran past that end.
   */
  lemma LinksAppend(data: seq<byte>, pos: nat, end: int, links: seq<Link>)
    requires pos <= |data|
    ensures var r := LinksAt(data, pos, end, links);
            && |links| <= |r.state| && r.state[..|links|] == links
            && (r.status == NoError || r.status == BadLinkTag || r.status == Unknown || r.status.Io?)
            && (r.status == Unknown ==> r.next > SizeT(end))
  {
    LinkRunAppends(data, pos, end, links);
  }

  // ---------------------------------------------------------------------
  // Content records
  // ---------------------------------------------------------------------

  /** The tile variant that each tile tag produces. */
  predicate TileOfTag(tag: int, t: Tile) {
    && (tag == 'B' as int ==> t.Base?)
    && (tag == 'I' as int ==> t.Image?)
    && (tag == 'F' as int ==> t.Form?)
    && (tag == 'T' as int ==> t.Text?)
  }

  /**
   * `B`, `I`, `F` and `T` append exactly one tile of the matching variant at
   * the end of the list, with the bounds and colour that follow the tag;
   * nothing else on the page changes.
   */
  lemma ContentRecordTile(data: seq<byte>, pos: nat, d: Doc)
    requires pos < |data| && IsTileTag(data[pos])
    ensures var s := ContentRecordAt(data, pos, d);
            s.status == NoError ==>
              && s.state.header == d.header && s.state.links == d.links && s.state.images == d.images
              && |s.state.tiles| == |d.tiles| + 1 && s.state.tiles[..|d.tiles|] == d.tiles
              && TileOfTag(data[pos], s.state.tiles[|d.tiles|])
              && s.state.tiles[|d.tiles|].bounds == RectAt(data, pos + 1).value.value
              && s.state.tiles[|d.tiles|].color == ColorAt(data, pos + 11).value.value
  {
    var s := ContentRecordAt(data, pos, d);
    if s.status == NoError {
      assert s.state.tiles[..|d.tiles|] == d.tiles;
    }
  }

  /**
   * `L` and `z` skip nine and six bytes, `o` a blob, `M` two bytes and a
   * blob; none of them changes the page.
   */
  lemma ContentRecordSkipped(data: seq<byte>, pos: nat, d: Doc)
    requires pos < |data|
    requires data[pos] in {'L' as byte, 'z' as byte, 'o' as byte, 'M' as byte}
    ensures var s := ContentRecordAt(data, pos, d);
            && s.state == d
            && (data[pos] == 'L' as byte && pos + 10 <= |data| ==> s == Scan(NoError, d, pos + 10))
            && (data[pos] == 'z' as byte && pos + 7 <= |data| ==> s == Scan(NoError, d, pos + 7))
            && (data[pos] == 'o' as byte && BlobAt(data, pos + 1).Ok? ==>
                  s == Scan(NoError, d, BlobAt(data, pos + 1).value))
            && (data[pos] == 'M' as byte && pos + 3 <= |data| && BlobAt(data, pos + 3).Ok? ==>
                  s == Scan(NoError, d, BlobAt(data, pos + 3).value))
  {
  }

  /** Any other tag ends the content with `BadContentTag`; what was decoded stays. */
  lemma ContentRecordBadTag(data: seq<byte>, pos: nat, d: Doc)
    requires pos < |data|
    requires !IsTileTag(data[pos]) && data[pos] !in {'L' as byte, 'z' as byte, 'o' as byte, 'M' as byte, 'S' as byte}
    ensures ContentRecordAt(data, pos, d) == Scan(BadContentTag, d, pos)
  {
  }

  // ---------------------------------------------------------------------
  // The image table
  // ---------------------------------------------------------------------

  /**
   * The image loop keeps every entry that was already in the table, ends
   * with `NoError` only once the position reaches `end`, and otherwise with
   * `BadData`.
   */
  lemma {:induction false} ImagesKeepEntries(data: seq<byte>, pos: nat, end: int, images: map<int, ImageHandle>)
    requires pos <= |data|
    ensures var r := ImagesAt(data, pos, end, images);
            && (forall k :: k in images ==> k in r.state && r.state[k] == images[k])
            && (r.status == NoError || r.status == BadData)
            && (r.status == NoError ==> r.next >= end)
    decreases |data| - pos
  {
    if pos < end {
      var image := ImageAt(data, pos);
      if image.Some? {
        ImagesKeepEntries(data, image.value.next, end, Insert(images, UInt32(pos - 3), image.value.value));
      }
    }
  }

  /**
   * An image decoded at `pos` is filed under `pos - 3` (as an unsigned
   * 32-bit key), unless an entry with that key was there already; an image
   * that cannot be decoded ends the section with `BadData` at once.
   */
  lemma ImagesKeyedByOffset(data: seq<byte>, pos: nat, end: int, images: map<int, ImageHandle>)
    requires pos <= |data| && pos < end
    ensures var key := UInt32(pos - 3);
            var r := ImagesAt(data, pos, end, images);
            && (ImageAt(data, pos).None? ==> r == Scan(BadData, images, pos))
            && (ImageAt(data, pos).Some? ==>
                  && key in r.state
                  && r.state[key] == if key in images then images[key] else ImageAt(data, pos).value.value)
  {
    var image := ImageAt(data, pos);
    if image.Some? {
      var key := UInt32(pos - 3);
      var images' := Insert(images, key, image.value.value);
      ImagesKeepEntries(data, image.value.next, end, images');
    }
  }

  /** The image section adds to the table and changes nothing else. */
  lemma ContentRecordImages(data: seq<byte>, pos: nat, d: Doc)
    requires pos < |data| && data[pos] == 'S' as byte
    ensures var s := ContentRecordAt(data, pos, d);
            && s.state.header == d.header && s.state.links == d.links && s.state.tiles == d.tiles
            && (forall k :: k in d.images ==> k in s.state.images && s.state.images[k] == d.images[k])
            && (s.status == NoError || s.status == BadData || s.status.Io?)
  {
    if pos + 4 <= |data| {
      var size := MediumAt(data, pos + 1).value;
      ImagesKeepEntries(data, size.next, SizeT(size.next + SizeT(size.value)), d.images);
    }
  }

  // ---------------------------------------------------------------------
  // The content section
  // ---------------------------------------------------------------------

  /** Every content record keeps the header and links and only adds tiles and images. */
  lemma ContentRecordAdds(data: seq<byte>, pos: nat, d: Doc)
    requires pos <= |data|
    ensures var s := ContentRecordAt(data, pos, d);
            && s.state.header == d.header && s.state.links == d.links
            && |d.tiles| <= |s.state.tiles| && s.state.tiles[..|d.tiles|] == d.tiles
            && (forall k :: k in d.images ==> k in s.state.images && s.state.images[k] == d.images[k])
            && (s.status == NoError || s.status == BadContentTag || s.status == BadData || s.status.Io?)
  {
    if pos < |data| {
      if IsTileTag(data[pos]) {
        ContentRecordTile(data, pos, d);
      } else if data[pos] == 'S' as byte {
        ContentRecordImages(data, pos, d);
      }
    }
  }

  /**
   * The content section keeps the header and links, keeps the tiles already
   * decoded as a prefix and the images already filed, and ends with
   * `NoError` only once the position reaches `end`.
   */
  lemma {:induction false} ContentAdds(data: seq<byte>, pos: nat, end: int, d: Doc)
    requires pos <= |data|
    ensures var r := ContentAt(data, pos, end, d);
            && r.state.header == d.header && r.state.links == d.links
            && |d.tiles| <= |r.state.tiles| && r.state.tiles[..|d.tiles|] == d.tiles
            && (forall k :: k in d.images ==> k in r.state.images && r.state.images[k] == d.images[k])
            && (r.status == NoError || r.status == BadContentTag || r.status == BadData || r.status.Io?)
            && (r.status == NoError ==> r.next >= end)
    decreases |data| - pos
  {
    if pos < end {
      var s := ContentRecordAt(data, pos, d);
      ContentRecordAdds(data, pos, d);
      if s.status == NoError {
        ContentAdds(data, s.next, end, s.state);
        var r := ContentAt(data, pos, end, d);
        assert r.state.tiles[..|d.tiles|] == r.state.tiles[..|s.state.tiles|][..|d.tiles|];
      }
    }
  }

  // ---------------------------------------------------------------------
  // The whole decode
  // ---------------------------------------------------------------------

  /**
   * `Version` is reported exactly when the fourth byte of a source of at
   * least four bytes is not 6; the page then holds only the length and
   * version fields and no tiles, links or images.
   */
  lemma DecodeVersion(data: seq<byte>, h: Header)
    ensures var o := Decode(Some(data), h);
            && (o.status == Version <==> |data| >= 4 && data[3] != V6)
            && (o.status == Version ==>
                  o.doc == Doc(h.(dataLen := UInt32(Medium(data[0], data[1], data[2]) + 3), version := data[3]),
                               [], [], map[]))
  {
    if |data| >= 4 {
      HeaderVersion(data, 0, h);
    }
    var s := HeaderAt(data, 0, h);
    if s.status == NoError {
      BodyStatus(data, s.next, 0, Doc(s.state, [], [], map[]));
    }
  }

  /**
   * The stages after the header end with `NoError`, a fault, or a status of
   * their own; a failing link section leaves the tiles and images as they
   * were.
   */
  lemma BodyStatus(data: seq<byte>, pos: nat, size: int, d: Doc)
    requires pos <= |data|
    ensures var o := BodyAt(data, pos, size, d);
            && o.status != Version && o.status != BadPath
            && (o.status == BadLinkTag || o.status == Unknown ==> o.doc.tiles == d.tiles && o.doc.images == d.images)
  {
    var m := MetadataAt(data, pos, size);
    if m.Ok? {
      var l := LinksAt(data, m.value.next, m.value.next + m.value.value, d.links);
      LinksAppend(data, m.value.next, m.value.next + m.value.value, d.links);
      var d' := d.(links := l.state);
      if l.status == NoError {
        var c := ContentAt(data, l.next, d.header.dataLen, d');
        ContentAdds(data, l.next, d.header.dataLen, d');
        assert BodyAt(data, pos, size, d) == Outcome(c.status, c.state);
      } else {
        assert BodyAt(data, pos, size, d) == Outcome(l.status, d');
      }
    }
  }

  /**
   * A decode runs no stage after the first that fails: a bad version leaves
   * no links, tiles or images, and a link section that fails leaves no
   * tiles or images.
   */
  lemma DecodeStopsAtFirstError(data: seq<byte>, h: Header)
    ensures var o := Decode(Some(data), h);
            && (o.status == Version ==> o.doc.links == [] && o.doc.tiles == [] && o.doc.images == map[])
            && (o.status == BadLinkTag || o.status == Unknown ==> o.doc.tiles == [] && o.doc.images == map[])
            && o.status != BadPath
  {
    var s := HeaderAt(data, 0, h);
    if s.status == NoError {
      BodyStatus(data, s.next, 0, Doc(s.state, [], [], map[]));
    }
  }

  /** A source that cannot be opened gives `BadPath` and an empty page. */
  lemma DecodeBadPath(h: Header)
    ensures Decode(None, h) == Outcome(BadPath, Doc(h, [], [], map[]))
  {
  }

  /** Reading the header again over the header it produced gives the same result. */
  lemma HeaderRepeatable(data: seq<byte>, pos: nat, h: Header)
    ensures HeaderAt(data, pos, HeaderAt(data, pos, h).state) == HeaderAt(data, pos, h)
  {
  }

  /**
   * Loading the same source twice into one page gives the same status and
   * the same content: the header left by the first load is overwritten by
   * the same fields, and tiles, links and images start empty each time.
   */
  lemma DecodeRepeatable(src: Option<seq<byte>>, h: Header)
    ensures Decode(src, Decode(src, h).doc.header) == Decode(src, h)
  {
    if src.Some? {
      var data := src.value;
      HeaderRepeatable(data, 0, h);
    }
  }

  /** A page loaded twice from the same source ends up as it was after the first load. */
  method Reload(page: Page, src: Option<seq<byte>>)
    modifies page
    ensures page.err == Decode(src, old(page.header)).status
    ensures page.Content() == Decode(src, old(page.header)).doc
  {
    Load(page, src);
    Load(page, src);
    DecodeRepeatable(src, old(page.header));
  }
}
