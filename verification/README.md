# OBML page decoder in Dafny

A model of the decoder core of `obml-renderer`, a viewer for OBML version 6
pages (the page format of Opera Mini). The decoder reads a page file front
to back with one byte cursor and fills a document with a header, a list of
tiles in paint order, a list of links and a table of embedded images keyed
by address. It runs four stages — header, metadata, link section, content
section — and stops at the first that fails.

The project is split along the program's structure:

| file | module | models |
|---|---|---|
| `entity.dfy` | `Entity` | the document entities of `sources/entity.hpp`: rectangles, colours, the four tile shapes, links with their target, the header and opaque image handles |
| `reader.dfy` | `ByteReader` | `sources/reader.cpp`: every primitive as a function of the stream and a position, and the class `Reader` whose methods advance the cursor and are proved to agree with those functions |
| `page.dfy` | `Document` | the parser's status codes (`sources/parser.hpp`) and the class `Page` with the fields the parser writes and `cleanup` (`sources/page.cpp`) |
| `parser.dfy` | `ObmlParser` | `sources/parser.cpp`: each stage and each record as a function, the class `Parser` whose methods run the stages over one `Reader` and one `Page` with loop invariants tying them to those functions, and `Load` (`page::load`) |
| `reader_properties.dfy` | `ReaderProperties` | round trips and quirks of the primitives |
| `parser_properties.dfy` | `ParserProperties` | what each record tag consumes and adds, which statuses each stage can end with, that stages only append, that a decode stops at the first error, and that loading twice is loading once |
| `encoding.dfy`, `page_encoding.dfy` | `Encoding`, `PageEncoding` | reference encoders for primitives, records and whole pages, the partners of the decoders; `At(data, pos, bytes)` says that `bytes` occur in `data` at `pos` |
| `chains.dfy` | `Chains` | runs of records stated once for every section: a chain of steps takes a section decoder from the start of a run to its end |
| `round_trip.dfy` | `RoundTrip` | every record kind decodes to what it encodes; runs of link and tile records decode to their list in file order; a link section one byte shorter than its records ends with `Unknown` |
| `page_round_trip.dfy` | `PageRoundTrip` | whole pages: a page built from a header, a size record, link records and tile records decodes to exactly those parts |

Reading past the end of the source is an explicit fault (`Io(Eof)`), and so
is a URL whose length ends up negative or an `M C` metadata blob with a
negative length (`Io(BadLength)`); `Err` has the program's seven codes plus
`Io`. Integer widths are written out: the signed 8-, 16- and 24-bit reads
(`Int8`, `Short`, `Medium`), the 16-bit decrement of a URL's length after a
NUL, which wraps from -0x8000 to 0x7fff (`UrlAt`), the unsigned 32-bit
fields `data_len` and image `addr` and image-table keys (`UInt32`), and the
unsigned 64-bit comparisons of the cursor with `_links_end` and the image
section's end (`SizeT`). A skip whose count is negative reaches the stream
as a negative number of characters to ignore and skips nothing, so a blob
with a negative length is passed over in its length prefix alone.

Two behaviours of the program the model keeps:
- The metadata scan passes over a byte it does not know and goes on with the
  next one (`sources/parser.cpp:65-89`); it does not fail with `Unknown`.
  The model's scan ends because every record consumes at least one byte and
  the end of the source is a fault.
- A link section that does not end at its declared end reports `Unknown`
  (`sources/parser.cpp:174-177`), the same code as any other unexpected
  state; there is no separate code for it.

## Model

| member | source | states |
|---|---|---|
| ByteReader.Int8 | sources/reader.cpp:23-27 | a byte read as `int8_t` lies in [-128, 128) and equals the byte exactly when the byte is below 0x80 |
| ByteReader.Short | sources/reader.cpp:29-35 | two bytes read as `int16_t` lie in [-2^15, 2^15) and are negative exactly when the first byte has its top bit set |
| ByteReader.Medium | sources/reader.cpp:37-43 | three bytes lie in [-2^23, 2^23), are negative exactly when the first byte is 0x80 or more, and for a smaller first byte are `b0*65536 + b1*256 + b2` |
| ByteReader.ByteAt | sources/reader.cpp:23-27 | a byte can be read exactly when one remains; it is the signed byte at the position and the cursor moves by 1 |
| ByteReader.ShortAt | sources/reader.cpp:29-35 | a short can be read exactly when two bytes remain, and the cursor moves by 2 |
| ByteReader.MediumAt | sources/reader.cpp:37-43 | a medium can be read exactly when three bytes remain, and the cursor moves by 3 |
| ByteReader.CoordAt | sources/reader.cpp:45-50 | a coordinate can be read exactly when five bytes remain, and the cursor moves by 5 |
| ByteReader.ColorAt | sources/reader.cpp:52-62 | a colour can be read exactly when four bytes remain, and the cursor moves by 4 |
| ByteReader.BytesAt | sources/reader.cpp:72-73 | `len` raw bytes can be read exactly when they remain; the result has `len` bytes and the cursor moves by `len` |
| ByteReader.StringAt | sources/reader.cpp:78-88 | a string read ends inside the source, two bytes plus the string's length after its start |
| ByteReader.UrlAt | sources/reader.cpp:64-76 | a URL read ends inside the source, at least two bytes after its start |
| ByteReader.ImageAt | sources/reader.cpp:102-115 | an image record that yields an image ends inside the source, more than two bytes after its start |
| ByteReader.SkipAt | sources/reader.cpp:138-140 | a skip of `n` stays put when `n` is negative, otherwise succeeds exactly when `n` bytes remain and lands `n` bytes further |
| ByteReader.BlobAt | sources/reader.cpp:142-145 | a blob skip lands inside the source, at least two bytes further (its length prefix alone when the length is negative) |
| ByteReader.BlobAltAt | sources/reader.cpp:147-150 | a long-blob skip lands inside the source, at least three bytes further (its length prefix alone when the length is negative) |
| ByteReader.DumpAltAt | sources/reader.cpp:117-132 | copying out a long blob lands inside the source, at least three bytes further |
| ByteReader.Reader.Open | sources/reader.cpp:4-6 | an opened reader is over the whole source with the cursor at 0; a source that cannot be opened reads as empty |
| ByteReader.Reader.Tell | sources/reader.cpp:134-136 | the cursor never lies beyond the end of the source |
| ByteReader.Reader.ReadByte | sources/reader.cpp:23-27 | returns what `ByteAt` decodes at the old cursor and moves the cursor to where it ends |
| ByteReader.Reader.ReadShort | sources/reader.cpp:29-35 | returns what `ShortAt` decodes and moves the cursor by 2 |
| ByteReader.Reader.ReadMedium | sources/reader.cpp:37-43 | returns what `MediumAt` decodes and moves the cursor by 3 |
| ByteReader.Reader.ReadCoord | sources/reader.cpp:45-50 | returns what `CoordAt` decodes and moves the cursor by 5 |
| ByteReader.Reader.ReadColor | sources/reader.cpp:52-62 | returns what `ColorAt` decodes and moves the cursor by 4 |
| ByteReader.Reader.ReadBytes | sources/reader.cpp:72-73 | returns the next `len` bytes and moves the cursor by `len` |
| ByteReader.Reader.ReadUrl | sources/reader.cpp:64-76 | returns what `UrlAt` decodes, undoing the peek at a non-NUL byte and decrementing the length as a 16-bit integer after a NUL, and moves the cursor to the URL's end |
| ByteReader.Reader.ReadString | sources/reader.cpp:78-88 | returns what `StringAt` decodes and moves the cursor to the string's end |
| ByteReader.Reader.ReadImage | sources/reader.cpp:102-115 | returns an image exactly when `ImageAt` decodes one, that image, with the cursor after it |
| ByteReader.Reader.Skip | sources/reader.cpp:138-140 | returns `SkipAt`'s result and leaves the cursor at the offset it returns, unmoved for a negative count |
| ByteReader.Reader.SkipBlob | sources/reader.cpp:142-145 | returns `BlobAt`'s result and leaves the cursor there |
| ByteReader.Reader.SkipBlobAlt | sources/reader.cpp:147-150 | returns `BlobAltAt`'s result and leaves the cursor there |
| ByteReader.Reader.DumpBlobAlt | sources/reader.cpp:117-132 | returns `DumpAltAt`'s result, reading the blob's bytes, and leaves the cursor there |
| ReaderProperties.TwosComplement | sources/reader.cpp:23-43 | each signed read is the unsigned big-endian value of its bytes modulo its width |
| ReaderProperties.Int8RoundTrip | sources/reader.cpp:23-27 | every value in [-128, 128) is read back from its byte |
| ReaderProperties.ShortRoundTrip | sources/reader.cpp:29-35 | a 16-bit value written big-endian is read back, and the cursor moves by 2 |
| ReaderProperties.ShortEncodeDecode | sources/reader.cpp:29-35 | every two bytes are the encoding of the short they read as |
| ReaderProperties.MediumRoundTrip | sources/reader.cpp:37-43 | a 24-bit signed value written big-endian is read back, and the cursor moves by 3 |
| ReaderProperties.MediumEncodeDecode | sources/reader.cpp:37-43 | every three bytes are the encoding of the medium they read as |
| ReaderProperties.MediumBytes | sources/reader.cpp:37-43 | the three bytes that encode a 24-bit value read back as that value |
| ReaderProperties.MediumSignExtends | sources/reader.cpp:41 | with a first byte of 0x80 or more the medium is 2^24 less than the unsigned value of its bytes |
| ReaderProperties.CoordRoundTrip | sources/reader.cpp:45-50 | a short x then a medium y read back as the coordinate, taking 5 bytes |
| ReaderProperties.ColorRoundTrip | sources/reader.cpp:52-62 | a colour written alpha first reads back as itself, taking 4 bytes |
| ReaderProperties.ColorExample | sources/reader.cpp:52-62 | the wire bytes A, R, G, B give the colour (R, G, B, A) |
| ReaderProperties.StringRoundTrip | sources/reader.cpp:78-88 | a length-prefixed string reads back, taking 2 plus its length |
| ReaderProperties.StringContent | sources/reader.cpp:78-88 | a length of 0 or less gives the empty string after 2 bytes; a positive length gives exactly the next `len` bytes, 2+len bytes in all; too few bytes is `Eof` |
| ReaderProperties.UrlAdvance | sources/reader.cpp:64-76 | whichever way the peek goes, a URL takes 2 bytes plus its declared length taken modulo 2^16, which covers the wrapped length -0x8000 after a NUL |
| ReaderProperties.UrlContent | sources/reader.cpp:64-76 | a non-NUL peek gives the `len` bytes after the length; a NUL gives the `len-1` bytes after the NUL, and 0x7fff bytes for `len` = -0x8000; too few bytes is `Eof`; a length that stays negative is `BadLength` |
| ReaderProperties.UrlPlainRoundTrip | sources/reader.cpp:67-68 | a URL written without a NUL, starting with a non-NUL byte, reads back |
| ReaderProperties.UrlNulRoundTrip | sources/reader.cpp:69-70 | a URL written with a leading NUL counted in its length reads back without the NUL |
| ReaderProperties.UrlExamples | sources/reader.cpp:64-76 | both URL shapes with a declared length of 5, byte for byte |
| ReaderProperties.BlobAdvance | sources/reader.cpp:142-145 | a blob skip succeeds exactly when its length is negative or fits, and lands at 2 plus the length, or at 2 for a negative length |
| ReaderProperties.BlobAltAdvance | sources/reader.cpp:147-150 | a long-blob skip succeeds exactly when its length is negative or fits, and lands at 3 plus the length, or at 3 for a negative length |
| ReaderProperties.DumpAltAdvance | sources/reader.cpp:117-132 | a copied-out long blob succeeds exactly when its length is not negative and fits, lands at 3+len, and a negative length is `BadLength` |
| ReaderProperties.NegativeLengthExamples | sources/reader.cpp:138-150 | a blob of length -1 and a long blob of length -2^23 are skipped in their prefix alone; copying out the latter is `BadLength` |
| ReaderProperties.ImageCases | sources/reader.cpp:102-115 | no image exactly when the length is not positive or fewer than `len` bytes follow; otherwise the image is built from exactly those bytes and the record takes 2+len |
| ReaderProperties.ImageRoundTrip | sources/reader.cpp:102-115 | a positive-length image record reads back as a handle on its payload |
| Document.Page.constructor | sources/page.hpp:63-72 | a page holds a blank header, no tiles, links or images |
| Document.Page.Cleanup | sources/page.cpp:19-26 | tiles, links and images become empty; the header and status stay as they were |
| ObmlParser.UInt32 | sources/entity.hpp:36-38 | storing into an unsigned 32-bit field keeps values in [0, 2^32) unchanged and lands in that range |
| ObmlParser.SizeT | sources/parser.hpp:31-33 | converting to an unsigned 64-bit size keeps values in [0, 2^64) unchanged and lands in that range |
| ObmlParser.RectAt | sources/parser.cpp:127-128 | a rectangle can be read exactly when ten bytes remain, and takes ten |
| ObmlParser.HeaderAt | sources/parser.cpp:32-62 | a header that decodes ends inside the source, after its start |
| ObmlParser.HeaderFieldsAt | sources/parser.cpp:44-61 | the version-6 fields that decode end inside the source, after their start |
| ObmlParser.MetadataAt | sources/parser.cpp:64-98 | a metadata scan that succeeds returns a non-zero size and a position inside the source |
| ObmlParser.RegionsAt | sources/parser.cpp:127-128 | reading regions never moves backwards nor past the end |
| ObmlParser.DropDownEntryAt | sources/parser.cpp:110-112 | one drop-down entry, a short count, that many bytes and a blob, takes at least four bytes and ends inside the source |
| ObmlParser.DropDownEntriesAt | sources/parser.cpp:108-112 | skipping drop-down entries never moves backwards nor past the end |
| ObmlParser.DropDownAt | sources/parser.cpp:106-113 | a drop-down record takes at least two bytes after its tag |
| ObmlParser.TargetLinkAt | sources/parser.cpp:120-135 | a record with a target consumes at least one byte and ends inside the source |
| ObmlParser.ImageLinkAt | sources/parser.cpp:142-151 | an `I` record consumes at least one byte and ends inside the source |
| ObmlParser.BlobLinkAt | sources/parser.cpp:154-165 | an `N` or `S` record consumes at least one byte and ends inside the source |
| ObmlParser.LinkBodyAt | sources/parser.cpp:105-166 | a record body ends inside the source, not before its start |
| ObmlParser.LinkRecordAt | sources/parser.cpp:103-171 | one record leaves the links unchanged or, when it succeeds, appends exactly one link; a success moves forward |
| ObmlParser.LinkRunAt | sources/parser.cpp:103-172 | the record loop, when it succeeds, ends inside the source |
| ObmlParser.LinksAt | sources/parser.cpp:100-180 | a link section ends with `NoError` only exactly at its declared end |
| ObmlParser.TileAt | sources/parser.cpp:213-262 | a tile record takes at least 14 bytes after its tag and ends inside the source |
| ObmlParser.ImagesAt | sources/parser.cpp:264-281 | the image loop, when it succeeds, ends inside the source |
| ObmlParser.MarkAt | sources/parser.cpp:207-211 | an `M` content record takes at least four bytes after its tag |
| ObmlParser.ContentRecordAt | sources/parser.cpp:189-285 | a content record that succeeds moves forward and ends inside the source |
| ObmlParser.Parser.constructor | sources/parser.cpp:4-5 | a parser works on the page it is given, over a fresh reader at offset 0, with the link-section size 0 |
| ObmlParser.Parser.Parse | sources/parser.cpp:10-30 | status and page content are those of `ParseAt` (header, metadata, links, content, stopping at the first failure), or `BadPath` with the page untouched when the source is not open |
| ObmlParser.Parser.ReadHeader | sources/parser.cpp:32-62 | status, header and cursor are those of `HeaderAt` |
| ObmlParser.Parser.ReadHeaderFields | sources/parser.cpp:44-61 | status, header and cursor are those of `HeaderFieldsAt` |
| ObmlParser.Parser.ReadBody | sources/parser.cpp:20-29 | status and page content are those of `BodyAt`: metadata, then links, then content, each run only after a success |
| ObmlParser.Parser.ReadMetadata | sources/parser.cpp:64-98 | the loop ends as `MetadataAt` does; on success the size is stored, the links begin at the cursor and end `size` bytes later |
| ObmlParser.Parser.ReadRect | sources/parser.cpp:128 | returns what `RectAt` decodes and moves the cursor by 10 |
| ObmlParser.Parser.ReadRegions | sources/parser.cpp:127-128 | returns what `RegionsAt` decodes, in file order, with the cursor after the last region |
| ObmlParser.Parser.SkipDropDown | sources/parser.cpp:106-113 | agrees with `DropDownAt` |
| ObmlParser.Parser.SkipDropDownEntry | sources/parser.cpp:110-112 | agrees with `DropDownEntryAt` and leaves the cursor where the entry ends |
| ObmlParser.Parser.ReadTargetLink | sources/parser.cpp:120-135 | agrees with `TargetLinkAt` |
| ObmlParser.Parser.ReadImageLink | sources/parser.cpp:142-151 | agrees with `ImageLinkAt` |
| ObmlParser.Parser.ReadBlobLink | sources/parser.cpp:154-165 | agrees with `BlobLinkAt` |
| ObmlParser.Parser.ReadLinkRecord | sources/parser.cpp:104-171 | status, links and cursor are those of `LinkRecordAt` |
| ObmlParser.Parser.ReadLinks | sources/parser.cpp:100-180 | status, links and cursor are those of `LinksAt` |
| ObmlParser.Parser.ReadTile | sources/parser.cpp:213-262 | returns what `TileAt` decodes with the cursor after it |
| ObmlParser.Parser.ReadImages | sources/parser.cpp:271-279 | status, image table and cursor are those of `ImagesAt` |
| ObmlParser.Parser.ReadContentRecord | sources/parser.cpp:190-285 | status, page content and cursor are those of `ContentRecordAt` |
| ObmlParser.Parser.ReadContent | sources/parser.cpp:182-289 | status, page content and cursor are those of `ContentAt` up to `data_len` |
| ObmlParser.Load | sources/page.cpp:12-17 | after a load the page's status and content are those of `Decode` on a cleared page keeping the old header |
| ParserProperties.HeaderVersion | sources/parser.cpp:35-42 | `data_len` is the medium plus 3; a version other than 6 is `Version` exactly, with only length and version stored |
| ParserProperties.MetadataRecords | sources/parser.cpp:66-83 | `M C` and `M S` pass over a long blob, `M u` over seven bytes, `M` with another sub-tag over nothing more, any other tag over itself; a negative long-blob length fails `M C` with `BadLength` and makes `M S` pass over its prefix alone |
| ParserProperties.MetadataSize | sources/parser.cpp:85-87 | an `S` record ends the scan with a non-zero size right after it, goes on after a zero size, and fails on a short medium |
| ParserProperties.MetadataEndsAfterSize | sources/parser.cpp:64-98 | a successful scan ends right after an `S` record whose non-zero medium is the size |
| ParserProperties.RegionsInFileOrder | sources/parser.cpp:127-128 | `count` regions are consecutive ten-byte rectangles kept in file order; a negative count reads none |
| ParserProperties.TargetedLinkShape | sources/parser.cpp:120-135 | a non-zero count gives, on success, one link whose regions are the rectangles after the count in file order, whose kind is the string after them and whose href is the URL after that, ending where the URL ends |
| ParserProperties.TargetLinkShape | sources/parser.cpp:120-135 | count 0 skips eight bytes and gives no link; otherwise one link with the regions in order, the string after them as kind and the URL after that as href |
| ParserProperties.LinkRecordTarget | sources/parser.cpp:116-136 | tags `i w W L P`: count 0 appends nothing and takes ten bytes; otherwise exactly the one link of `TargetLinkShape` is appended |
| ParserProperties.NoTargetShape | sources/parser.cpp:142-166 | `I`, `N`, `S` bodies give one link with the regions in order and an empty target |
| ParserProperties.ImageLinkShape | sources/parser.cpp:142-151 | an `I` body gives, on success, one link with the regions in file order and an empty target |
| ParserProperties.BlobLinkShape | sources/parser.cpp:154-165 | an `N` or `S` body gives, on success, one link with the regions in file order and an empty target |
| ParserProperties.LinkRecordNoTarget | sources/parser.cpp:142-166 | `I`, `N`, `S` records append exactly that one link |
| ParserProperties.LinkRecordSkipped | sources/parser.cpp:106-140 | NUL and `C` add no link; `C` takes 21 bytes after its tag |
| ParserProperties.LinkRecordBadTag | sources/parser.cpp:168-170 | any other tag gives `BadLinkTag` with the links untouched |
| ParserProperties.LinkRunAppends | sources/parser.cpp:103-172 | the record loop only appends, ends with `NoError`, `BadLinkTag` or a fault, and succeeds only at or past the end |
| ParserProperties.LinksAppend | sources/parser.cpp:100-180 | the section only appends; `Unknown` means the records ran past the declared end |
| ParserProperties.ContentRecordTile | sources/parser.cpp:213-262 | `B I F T` append exactly one tile of the matching variant at the end, with the bounds and colour after the tag; nothing else changes |
| ParserProperties.ContentRecordSkipped | sources/parser.cpp:195-211 | `L` and `z` skip 9 and 6 bytes, `o` a blob, `M` two bytes and a blob; the page does not change |
| ParserProperties.ContentRecordBadTag | sources/parser.cpp:283-284 | any other tag gives `BadContentTag`, the decoded content kept |
| ParserProperties.ImagesKeepEntries | sources/parser.cpp:271-279 | the image loop keeps every entry already filed and ends with `NoError` only at or past its end, otherwise with `BadData` |
| ParserProperties.ImagesKeyedByOffset | sources/parser.cpp:271-279 | an image is filed under its prefix offset minus 3 as an unsigned 32-bit key unless that key is taken; no image is `BadData` at once |
| ParserProperties.ContentRecordImages | sources/parser.cpp:264-281 | the image section only adds to the table |
| ParserProperties.ContentRecordAdds | sources/parser.cpp:189-285 | every content record keeps header and links, keeps the tiles as a prefix and the filed images |
| ParserProperties.ContentAdds | sources/parser.cpp:182-289 | the content section keeps header, links, tiles decoded before and filed images, and succeeds only at or past `data_len` |
| ParserProperties.DecodeVersion | sources/parser.cpp:10-42 | `Version` exactly when the fourth byte is not 6; the page then holds only length and version |
| ParserProperties.BodyStatus | sources/parser.cpp:20-29 | the stages after the header never report `Version` or `BadPath`; a failing link section leaves tiles and images untouched |
| ParserProperties.DecodeStopsAtFirstError | sources/parser.cpp:10-30 | no stage runs after the first failure: `Version` leaves no links, tiles or images; a failing link section leaves no tiles or images |
| ParserProperties.DecodeBadPath | sources/parser.cpp:14-15 | a source that cannot be opened gives `BadPath` and an empty page |
| ParserProperties.HeaderRepeatable | sources/parser.cpp:32-62 | decoding the header over the header it produced gives the same result |
| ParserProperties.DecodeRepeatable | sources/page.cpp:12-26 | loading the same source into the page a load left behind gives the same status and content |
| ParserProperties.Reload | sources/page.cpp:12-17 | a page loaded twice from one source is as after the first load |
| RoundTrip.RectRoundTrip | sources/parser.cpp:128 | a rectangle written as two coordinates reads back, taking ten bytes |
| RoundTrip.RectsRoundTrip | sources/parser.cpp:127-128 | written rectangles read back appended in file order |
| RoundTrip.TileFieldsRoundTrip | sources/parser.cpp:213-262 | the fields of a written tile record read back field by field |
| RoundTrip.TileRoundTrip | sources/parser.cpp:213-262 | a written tile record appends exactly that tile, whatever the page held |
| RoundTrip.TailRoundTrip | sources/parser.cpp:224-262 | the fields after the bounds and colour of a written image, form or text tile read back as that tile's own fields |
| RoundTrip.TilesRun | sources/parser.cpp:189-262 | a run of tile records takes the content decoder from its start to its end with the tiles appended in file order |
| RoundTrip.TilesLayout | sources/parser.cpp:213-262 | consecutive written tile records decode one after the other, each to its own tile |
| RoundTrip.TilesBeforeBadTag | sources/parser.cpp:283-284 | tiles before an unknown content tag stay appended when the section fails with `BadContentTag` |
| RoundTrip.BadTagEnds | sources/parser.cpp:283-284 | a byte that is no content tag ends the section at once with `BadContentTag` and the content unchanged |
| RoundTrip.LinkFieldsRoundTrip | sources/parser.cpp:120-134 | the fields of a written link record read back field by field |
| RoundTrip.LinkRoundTrip | sources/parser.cpp:116-135 | a written link record appends exactly that link, whatever the list held |
| RoundTrip.LinkRunSteps | sources/parser.cpp:103-172 | every link record steps the record loop from before it to after it with the link appended |
| RoundTrip.LinksLayout | sources/parser.cpp:116-135 | consecutive written link records decode one after the other, each to its own link |
| RoundTrip.LinkRunOverrun | sources/parser.cpp:103-172 | a last record that starts before the declared end and runs one byte past it is still read, and the loop ends after it |
| RoundTrip.LinksRoundTrip | sources/parser.cpp:100-180 | written link records over exactly their length decode to the links in file order with `NoError` |
| RoundTrip.LinksShortByOne | sources/parser.cpp:174-177 | link records read over one byte less than their length end with `Unknown` after the last link |
| RoundTrip.HeaderFieldsRoundTrip | sources/parser.cpp:44-61 | written version-6 fields read back into the header, taking their whole length |
| PageRoundTrip.PageHeader | sources/parser.cpp:32-62 | a written header reads back with `data_len` the length of the whole page and version 6 |
| PageRoundTrip.MetadataRoundTrip | sources/parser.cpp:85-93 | an `S` record with a non-zero size ends the metadata with that size four bytes on |
| PageRoundTrip.TilesRoundTrip | sources/parser.cpp:182-289 | tile records up to the end of the page are the whole content section, appended in order |
| PageRoundTrip.PageDecodes | sources/parser.cpp:10-30 | a whole written page decodes with `NoError` to exactly its header fields, links and tiles, with an empty image table |
| PageRoundTrip.BodyParts | sources/parser.cpp:20-29 | metadata, links and content that each succeed give `NoError` and a page of the header, those links and those tiles |
| PageRoundTrip.DecodeLinksFail | sources/parser.cpp:23-29 | a header and metadata that succeed, then a link section that fails, give that status with the links read so far and no tiles or images |
| PageRoundTrip.PageLinksShortByOne | sources/parser.cpp:174-177 | a page announcing one byte too few for its links fails with `Unknown`, its links decoded and no content read |

## Left out

- The user interface, rendering, fonts and export (`sources/viewer.cpp`, the drawing parts of `sources/page.cpp`): not part of decoding.
- Pixel decoding of embedded images: an image is an opaque handle on its payload bytes.
- Opening and closing files, `dump`, `dump_blob` and `get_handle`: the source is a byte sequence given to the reader, or `None` when it cannot be opened. The `M C` metadata record copies its blob into a buffer and writes it to a file; the model reads the blob's bytes and drops them.
- `read_blob`: nothing calls it.
- Floating-point coordinates: coordinates are the integers the reader produces before the conversion to `float`.
- Reading past the end: the stream's fail bits, the `-1` that `tellg` then returns and the loops that keep running over a failed stream are replaced by the fault `Io(Eof)`, which stops the stage. A negative length given to `std::string` (a URL) or converted to the size of a `std::vector` (an `M C` blob) is the fault `Io(BadLength)` instead of an exception.
- The cursor position after a failure is not stated; no stage runs after one.
- The byte count of a source is taken to be below 2^64 where the link section's end is compared as a size.
- Document.Page.constructor: the program's constructor loads at once; the model constructs a blank page and `Load` loads it. Fields the program leaves uninitialised start blank.
- PageRoundTrip.PageDecodes: stated for pages whose link records all carry a target under one tag, with at least one link, one size record as the only metadata and no image section.
- PageRoundTrip.PageLinksShortByOne: stated for the same pages as `PageDecodes`.
