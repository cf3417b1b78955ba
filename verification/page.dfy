/**
 * The page that a decode fills in: its header, tiles, links and image
 * table, and the status of the last decode. The parser writes these fields
 * directly; `ObmlParser.Load` clears the lists and runs a fresh parser.
 */
module Document {
  import opened Entity
  import opened ByteReader

  /** The parser's status codes; `Io` stands for a primitive read that could not complete. */
  datatype Err =
    | NoError
    | Version
    | BadLinkTag
    | BadContentTag
    | BadData
    | BadPath
    | Unknown
    | Io(fault: Fault)

  /** The decoded content of a page, as one value. */
  datatype Doc = Doc(
    header: Header,
    tiles: seq<Tile>,
    links: seq<Link>,
    images: map<int, ImageHandle>)

  class Page {
    var header: Header
    var tiles: seq<Tile>
    var links: seq<Link>
    var images: map<int, ImageHandle>
    var err: Err

    /** A page before anything was loaded into it. */
    constructor ()
      ensures header == BlankHeader && tiles == [] && links == [] && images == map[]
      ensures err == NoError
    {
      header := BlankHeader;
      tiles, links, images := [], [], map[];
      err := NoError;
    }

    /** The page's decoded content. */
    function Content(): (d: Doc)
      reads this
    {
      Doc(header, tiles, links, images)
    }

    /** Drops tiles, links and images; the header is left as it was. */
    method Cleanup()
      modifies this
      ensures Content() == Doc(old(header), [], [], map[])
      ensures err == old(err)
    {
      tiles := [];
      links := [];
      images := map[];
    }
  }
}
