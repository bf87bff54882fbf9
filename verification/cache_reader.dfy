// The cache reader (src/cache_reader.cpp) and the client's writer of tiles (src/client.cpp): a uri,
// its content id, and the tiles stored under that id.
module CacheReader {
  import opened Wrappers
  import opened Decimals
  import opened StoreTables
  import opened TileStore
  import ContentId
  import EpubLayout

  /** What the document parsers make of a uri, in the order in which meta asks them. */
  datatype Request = PdfPage(page: int) | PdfImage(image: int) | DjvuPage(page: int)
                   | EpubPage(page: int, layout: EpubLayout.Layout) | Other

  /** The parsers accept only positive numbers that are an int. */
  predicate Parsed(q: Request) {
    match q
    case PdfPage(n) => 1 <= n < TWO31
    case PdfImage(n) => 1 <= n < TWO31
    case DjvuPage(n) => 1 <= n < TWO31
    case EpubPage(n, _) => 1 <= n < TWO31
    case Other => true
  }

  function TargetOf(q: Request): ContentId.Target {
    match q
    case PdfPage(n) => ContentId.PageOf(n, "")
    case PdfImage(n) => ContentId.ImageOf(n)
    case DjvuPage(n) => ContentId.PageOf(n, "")
    case EpubPage(n, layout) => ContentId.PageOf(n, EpubLayout.Format(layout))
    case Other => ContentId.Whole
  }

  /** The row of `region` under media `m`. */
  function RowOf(m: int, q: Request): Region {
    match q
    case PdfPage(n) => Region(m, Page, ToString(n))
    case PdfImage(n) => Region(m, Fragment, ToString(n))
    case DjvuPage(n) => Region(m, Page, ToString(n))
    case EpubPage(n, layout) => Region(m, Page, ContentId.RegionKey(n, EpubLayout.Format(layout)))
    case Other => Region(m, Full, "")
  }

  datatype Place = Place(media: int, region: int)

  /** What meta found out; an image without its full region still has an id. */
  datatype Meta = Meta(contentId: string, media: int, region: Option<int>, ready: bool)

  ghost predicate HasTiles(db: Db, media: int, region: int) {
    exists c :: c in db.tiles && c.media == media && c.region == region
  }

  ghost function RegionMeta(db: Db, id: string, blob: int, q: Request): Option<Meta> {
    var media := MediaWith(db, Media(blob, if q.Other? then Image else Document));
    if media.None? then None
    else
      var region := RegionWith(db, RowOf(media.value, q));
      if region.None? && !q.Other? then None
      else Some(Meta(id, media.value, region, region.Some? && HasTiles(db, media.value, region.value)))
  }

  ghost function MetaOf(db: Db, uri: string, q: Request): Option<Meta> {
    if uri !in db.locators || db.locators[uri].None? then None
    else
      var blob := db.locators[uri].value;
      if blob !in db.digests || |db.digests[blob]| != 32 then None
      else RegionMeta(db, ContentId.Print(db.digests[blob], TargetOf(q)), blob, q)
  }

  function KindOf(p: ContentId.Parts): MediaKind { if p.page.Some? || p.image.Some? then Document else Image }

  function RowIn(m: int, p: ContentId.Parts): Region {
    if p.page.Some? then Region(m, Page, p.regionKey)
    else if p.image.Some? then Region(m, Fragment, ToString(p.image.value))
    else Region(m, Full, "")
  }

  /** CacheReader::tile_target, after the id is parsed. */
  ghost function PlaceOf(db: Db, id: ContentId.Id): Option<Place> {
    var blob := BlobWith(db, id.digest);
    if blob.None? then None
    else
      var media := MediaWith(db, Media(blob.value, KindOf(id.parts)));
      if media.None? then None
      else
        var region := RegionWith(db, RowIn(media.value, id.parts));
        if region.None? then None else Some(Place(media.value, region.value))
  }

  ghost function TileTarget(db: Db, contentId: string): Option<Place> {
    var id := ContentId.Parse(contentId);
    if id.None? then None else PlaceOf(db, id.value)
  }

  lemma SameRow(m: int, q: Request)
    requires Parsed(q)
    ensures RowIn(m, ContentId.PartsOf(TargetOf(q))) == RowOf(m, q)
    ensures KindOf(ContentId.PartsOf(TargetOf(q))) == if q.Other? then Image else Document
    ensures ContentId.Addressable(TargetOf(q))
  {
    if q.PdfPage? || q.DjvuPage? {
      assert ToString(q.page) + "" == ToString(q.page);
    }
  }

  /** The content id that meta gives out addresses the very media and region that meta looked up;
      for an image without a full region it addresses nothing. */
  lemma MetaAddresses(db: Db, uri: string, q: Request)
    requires UniqueKeys(db) && Parsed(q) && MetaOf(db, uri, q).Some?
    ensures var m := MetaOf(db, uri, q).value;
      TileTarget(db, m.contentId) == if m.region.None? then None else Some(Place(m.media, m.region.value))
  {
    var blob := db.locators[uri].value;
    var media := MediaWith(db, Media(blob, if q.Other? then Image else Document));
    SameRow(media.value, q);
    ContentId.PrintParsesIff(db.digests[blob], TargetOf(q));
    UniqueBlob(db, blob);
  }

  // ---- Tiles ----

  datatype Blob = Blob(scale: int, x: int, y: int, width: int, height: int, codec: string, bytes: seq<Byte>)

  /** The codec column that put_tiles_to_store writes, and the name that the reader gives it. */
  function CodecOf(name: string): Codec {
    if name == "jxl" then Jxl else if name == "png" then Png else if name == "webp" then WebP else Jpeg
  }

  function CodecName(c: Codec): string {
    match c case Jxl => "jxl" case Png => "png" case WebP => "webp" case Jpeg => "jpeg"
  }

  /** The four names survive; every other one comes back as jpeg. */
  lemma CodecNameIff(name: string)
    ensures CodecName(CodecOf(name)) == name <==> name in {"jxl", "png", "webp", "jpeg"}
    ensures name !in {"jxl", "png", "webp", "jpeg"} ==> CodecName(CodecOf(name)) == "jpeg"
  {
  }

  function CellOf(p: Place, t: Blob): Cell { Cell(p.media, p.region, t.scale, t.x, t.y) }

  const QUALITY := 80

  function TileOf(t: Blob): Tile { Tile(t.width, t.height, CodecOf(t.codec), Some(QUALITY)) }

  /** put_tile for every tile that has bytes, in order. */
  ghost function Stored(db: Db, p: Place, tiles: seq<Blob>): Db {
    if tiles == [] then db
    else
      var front, t := Stored(db, p, tiles[..|tiles| - 1]), tiles[|tiles| - 1];
      if t.bytes == [] then front else Apply(front, Put(CellOf(p, t), TileOf(t), t.bytes))
  }

  ghost function TileAt(db: Db, p: Place, scale: int, x: int, y: int): Option<Blob> {
    var c := Cell(p.media, p.region, scale, x, y);
    if c !in db.bulk || db.bulk[c].data == [] then None
    else if c in db.tiles then
      var row := db.tiles[c];
      Some(Blob(scale, x, y, row.width, row.height, CodecName(row.codec), db.bulk[c].data))
    else Some(Blob(scale, x, y, 0, 0, "jpeg", db.bulk[c].data))
  }

  /** CacheReader::tile by uri. */
  ghost function TileOfUri(db: Db, uri: string, q: Request, scale: int, x: int, y: int): Option<Blob> {
    var m := MetaOf(db, uri, q);
    if m.None? then None
    else
      var p := TileTarget(db, m.value.contentId);
      if p.None? then None else TileAt(db, p.value, scale, x, y)
  }

  /** A page is called ready exactly when some cell of it can be read. */
  lemma ReadyIsTrue(db: Db, uri: string, q: Request)
    requires Sound(db) && Parsed(q) && MetaOf(db, uri, q).Some?
    ensures MetaOf(db, uri, q).value.ready <==> exists s, x, y :: TileOfUri(db, uri, q, s, x, y).Some?
  {
    var m := MetaOf(db, uri, q).value;
    forall s, x, y ensures TileOfUri(db, uri, q, s, x, y).Some? <==> InRegion(db, m, s, x, y) {
      ReadableIff(db, uri, q, s, x, y);
    }
    if m.ready {
      var c :| c in db.tiles && c.media == m.media && c.region == m.region.value;
      assert InRegion(db, m, c.scale, c.x, c.y);
    }
  }

  ghost predicate InRegion(db: Db, m: Meta, scale: int, x: int, y: int) {
    m.region.Some? && Cell(m.media, m.region.value, scale, x, y) in db.tiles
  }

  lemma ReadableIff(db: Db, uri: string, q: Request, scale: int, x: int, y: int)
    requires Sound(db) && Parsed(q) && MetaOf(db, uri, q).Some?
    ensures TileOfUri(db, uri, q, scale, x, y).Some? <==> InRegion(db, MetaOf(db, uri, q).value, scale, x, y)
  {
    MetaAddresses(db, uri, q);
    var m := MetaOf(db, uri, q).value;
    if m.region.Some? {
      var c := Cell(m.media, m.region.value, scale, x, y);
      assert c in db.tiles.Keys <==> c in db.bulk.Keys;
    }
  }

  // ---- Writing ----

  /** The last tile with bytes for a cell, if there is one. */
  ghost predicate LastFor(tiles: seq<Blob>, k: nat, scale: int, x: int, y: int) {
    && k < |tiles| && tiles[k].bytes != [] && tiles[k].scale == scale && tiles[k].x == x && tiles[k].y == y
    && forall j :: k < j < |tiles| && tiles[j].bytes != [] ==> (tiles[j].scale, tiles[j].x, tiles[j].y) != (scale, x, y)
  }

  predicate Present(db: Db, p: Place) {
    p.media in db.media && p.region in db.regions && db.regions[p.region].media == p.media
  }

  lemma {:induction false} StoredKeeps(db: Db, p: Place, tiles: seq<Blob>)
    requires Sound(db) && Present(db, p)
    ensures Sound(Stored(db, p, tiles))
    ensures var after := Stored(db, p, tiles);
      db.(tiles := after.tiles, bulk := after.bulk) == after
  {
    if tiles != [] {
      var t := tiles[|tiles| - 1];
      var front := Stored(db, p, tiles[..|tiles| - 1]);
      StoredKeeps(db, p, tiles[..|tiles| - 1]);
      SoundIsKept(front, Put(CellOf(p, t), TileOf(t), t.bytes));
    }
  }

  /** A cell reads back as the last tile written to it, with its codec name normalised. */
  lemma {:induction false} LastTileWins(db: Db, p: Place, tiles: seq<Blob>, k: nat)
    requires Sound(db) && Present(db, p)
    requires k < |tiles| && LastFor(tiles, k, tiles[k].scale, tiles[k].x, tiles[k].y)
    ensures TileAt(Stored(db, p, tiles), p, tiles[k].scale, tiles[k].x, tiles[k].y)
      == Some(tiles[k].(codec := CodecName(CodecOf(tiles[k].codec))))
  {
    var n := |tiles| - 1;
    StoredKeeps(db, p, tiles[..n]);
    if k < n {
      assert LastFor(tiles[..n], k, tiles[k].scale, tiles[k].x, tiles[k].y);
      LastTileWins(db, p, tiles[..n], k);
      if tiles[n].bytes != [] {
        PutElsewhere(Stored(db, p, tiles[..n]), p, tiles[n], tiles[k].scale, tiles[k].x, tiles[k].y);
      }
    } else {
      PutReads(Stored(db, p, tiles[..n]), p, tiles[n]);
    }
  }

  lemma PutReads(db: Db, p: Place, t: Blob)
    requires Present(db, p) && t.bytes != []
    ensures TileAt(Apply(db, Put(CellOf(p, t), TileOf(t), t.bytes)), p, t.scale, t.x, t.y)
      == Some(t.(codec := CodecName(CodecOf(t.codec))))
  {
  }

  lemma PutElsewhere(db: Db, p: Place, t: Blob, scale: int, x: int, y: int)
    requires Present(db, p) && (t.scale, t.x, t.y) != (scale, x, y)
    ensures TileAt(Apply(db, Put(CellOf(p, t), TileOf(t), t.bytes)), p, scale, x, y) == TileAt(db, p, scale, x, y)
  {
  }

  /** Every other cell of every region reads as before. */
  lemma {:induction false} OtherCellsStay(db: Db, p: Place, tiles: seq<Blob>, c: Cell)
    requires forall t :: t in tiles && t.bytes != [] ==> CellOf(p, t) != c
    ensures var after := Stored(db, p, tiles);
      && (c in after.bulk <==> c in db.bulk) && (c in after.tiles <==> c in db.tiles)
      && (c in db.bulk ==> after.bulk[c] == db.bulk[c]) && (c in db.tiles ==> after.tiles[c] == db.tiles[c])
  {
    if tiles != [] {
      OtherCellsStay(db, p, tiles[..|tiles| - 1], c);
      assert tiles[|tiles| - 1] in tiles;
    }
  }

  /** Rows are only added: what named a blob, a media or a region still does. */
  ghost predicate Extends(before: Db, after: Db) {
    && before.blobs <= after.blobs && before.locators == after.locators
    && (forall b :: b in before.digests ==> b in after.digests && after.digests[b] == before.digests[b])
    && (forall m :: m in before.media ==> m in after.media && after.media[m] == before.media[m])
    && (forall r :: r in before.regions ==> r in after.regions && after.regions[r] == before.regions[r])
  }

  lemma {:induction false} MetaSurvives(before: Db, after: Db, uri: string, q: Request)
    requires UniqueKeys(before) && UniqueKeys(after) && Extends(before, after)
    requires MetaOf(before, uri, q).Some? && MetaOf(before, uri, q).value.region.Some?
    ensures MetaOf(after, uri, q).Some?
    ensures MetaOf(after, uri, q).value.contentId == MetaOf(before, uri, q).value.contentId
    ensures MetaOf(after, uri, q).value.media == MetaOf(before, uri, q).value.media
    ensures MetaOf(after, uri, q).value.region == MetaOf(before, uri, q).value.region
  {
    var m := MetaOf(before, uri, q).value;
    UniqueMedia(after, m.media);
    UniqueRegion(after, m.region.value);
  }

  /** The state that put_tiles_to_store leaves: the id is addressed, and its tiles are stored there. */
  ghost predicate Written(before: Db, after: Db, contentId: string, tiles: seq<Blob>) {
    && TileTarget(after, contentId).Some? && Present(after, TileTarget(after, contentId).value)
    && exists mid ::
         && Sound(mid) && Extends(before, mid) && mid.tiles == before.tiles && mid.bulk == before.bulk
         && Present(mid, TileTarget(after, contentId).value)
         && after == Stored(mid, TileTarget(after, contentId).value, tiles)
  }

  /** For any uri that meta resolves to a region, the tiles written under its content id are what a
      read of the uri then returns, and the uri keeps its id and its region. */
  lemma TilesComeBack(before: Db, after: Db, uri: string, q: Request, tiles: seq<Blob>, k: nat)
    requires Sound(before) && Parsed(q)
    requires MetaOf(before, uri, q).Some? && MetaOf(before, uri, q).value.region.Some?
    requires Written(before, after, MetaOf(before, uri, q).value.contentId, tiles)
    requires k < |tiles| && LastFor(tiles, k, tiles[k].scale, tiles[k].x, tiles[k].y)
    ensures TileOfUri(after, uri, q, tiles[k].scale, tiles[k].x, tiles[k].y)
      == Some(tiles[k].(codec := CodecName(CodecOf(tiles[k].codec))))
    ensures MetaOf(after, uri, q).value.contentId == MetaOf(before, uri, q).value.contentId
  {
    var id := MetaOf(before, uri, q).value.contentId;
    var p := TileTarget(after, id).value;
    var mid :| Sound(mid) && Extends(before, mid) && mid.tiles == before.tiles && mid.bulk == before.bulk
      && Present(mid, p) && after == Stored(mid, p, tiles);
    StoredKeeps(mid, p, tiles);
    StoredExtends(before, mid, after, p, tiles);
    MetaSurvives(before, after, uri, q);
    LastTileWins(mid, p, tiles, k);
    ReadAt(after, uri, q, p, tiles[k]);
  }

  lemma StoredExtends(before: Db, mid: Db, after: Db, p: Place, tiles: seq<Blob>)
    requires Sound(mid) && Present(mid, p) && Extends(before, mid) && after == Stored(mid, p, tiles)
    ensures Extends(before, after) && UniqueKeys(after)
  {
    StoredKeeps(mid, p, tiles);
  }

  lemma ReadAt(db: Db, uri: string, q: Request, p: Place, t: Blob)
    requires MetaOf(db, uri, q).Some? && TileTarget(db, MetaOf(db, uri, q).value.contentId) == Some(p)
    ensures TileOfUri(db, uri, q, t.scale, t.x, t.y) == TileAt(db, p, t.scale, t.x, t.y)
  {
  }

  // ---- The code ----

  /** parse_content_id, with its checks in the order of the source. */
  method ReadContentId(s: string) returns (r: Option<ContentId.Id>)
    ensures r == ContentId.Parse(s)
  {
    if !ContentId.StartsWith(s, "sha256:") || |s| < 71 {
      return None;
    }
    for i := 7 to 71
      invariant ContentId.AllHex(s[7..i])
    {
      if HexNibble(s[i]) < 0 {
        assert s[7..71][i - 7] == s[i];
        return None;
      }
      assert s[7..i + 1] == s[7..i] + [s[i]];
    }
    var parts := ContentId.ReadSuffix(s[71..]);
    if parts.None? {
      return None;
    }
    var digest := ContentId.ReadDigest(s[7..71]);
    r := if digest.None? then None else Some(ContentId.Id(digest.value, parts.value));
  }

  class Reader {
    const store: Store

    constructor (s: Store)
      ensures store == s
    {
      store := s;
    }

    method FindTarget(contentId: string) returns (r: Option<Place>)
      requires store.Valid()
      ensures r == TileTarget(store.View(), contentId)
    {
      r := None;
      var id := ReadContentId(contentId);
      if id.Some? {
        var blob := store.FindBlobByHash(id.value.digest);
        if blob.Some? {
          var media := store.FindMediaForBlob(blob.value, KindOf(id.value.parts));
          if media.Some? {
            var row := RowIn(media.value, id.value.parts);
            var region := store.FindRegionByKey(row.media, row.kind, row.key);
            if region.Some? {
              r := Some(Place(media.value, region.value));
            }
          }
        }
      }
    }

    /** CacheReader::meta; every document format ends in the same lookups. */
    method FindMeta(uri: string, q: Request) returns (r: Option<Meta>)
      requires store.Valid()
      ensures r == MetaOf(store.View(), uri, q)
    {
      r := None;
      if uri in store.locators && store.locators[uri].Some? {
        var blob := store.locators[uri].value;
        if blob in store.digests && |store.digests[blob]| == 32 {
          var hex := ContentId.FormatHex(store.digests[blob]);
          r := FindRegionMeta("sha256:" + hex + ContentId.Suffix(TargetOf(q)), blob, q);
        }
      }
    }

    method FindRegionMeta(id: string, blob: int, q: Request) returns (r: Option<Meta>)
      requires store.Valid()
      ensures r == RegionMeta(store.View(), id, blob, q)
    {
      var media := store.FindMediaForBlob(blob, if q.Other? then Image else Document);
      if media.None? {
        return None;
      }
      var row := RowOf(media.value, q);
      var region := store.FindRegionByKey(row.media, row.kind, row.key);
      var ready := false;
      if region.Some? {
        ready := store.HasTileScales(media.value, region.value);
      } else if !q.Other? {
        return None;
      }
      r := Some(Meta(id, media.value, region, ready));
    }

    method ReadTile(p: Place, scale: int, x: int, y: int) returns (r: Option<Blob>)
      requires store.Valid()
      ensures r == TileAt(store.View(), p, scale, x, y)
    {
      var c := Cell(p.media, p.region, scale, x, y);
      var bytes := store.GetTileData(c);
      r := None;
      if bytes.Some? {
        var t := Blob(scale, x, y, 0, 0, "jpeg", bytes.value);
        if c in store.tiles {
          var row := store.tiles[c];
          t := t.(width := row.width, height := row.height, codec := CodecName(row.codec));
        }
        r := Some(t);
      }
    }
  }

  lemma MediaExtends(db: Db, row: Media, free: int)
    requires free !in db.media
    ensures Extends(db, MediaEnsured(db, row, free))
    ensures MediaEnsured(db, row, free) == db.(media := MediaEnsured(db, row, free).media)
  {
  }

  lemma RegionExtends(db: Db, row: Region, free: int)
    requires free !in db.regions
    ensures Extends(db, RegionEnsured(db, row, free))
    ensures RegionEnsured(db, row, free) == db.(regions := RegionEnsured(db, row, free).regions)
  {
  }

  lemma ExtendsTwice(a: Db, b: Db, c: Db)
    requires Extends(a, b) && Extends(b, c)
    ensures Extends(a, c)
  {
  }

  method EnsureBlob(store: Store, digest: seq<Byte>, free: int) returns (blob: int)
    requires store.Valid() && |digest| == 32 && free !in store.blobs
    modifies store
    ensures store.Valid() && Extends(old(store.View()), store.View())
    ensures store.View() == old(store.View()).(blobs := store.blobs, digests := store.digests)
    ensures BlobWith(store.View(), digest) == Some(blob) && blob in store.blobs
  {
    var found := store.FindBlobByHash(digest);
    if found.Some? {
      return found.value;
    }
    blob := free;
    store.InsertBlob(blob);
    var ok := store.PutDigest(blob, digest);
    UniqueBlob(store.View(), blob);
  }

  method EnsureDocumentPlace(store: Store, blob: int, parts: ContentId.Parts, freeMedia: int,
                             freeRegion: int) returns (p: Place)
    requires store.Valid() && blob in store.blobs && freeMedia !in store.media && freeRegion !in store.regions
    requires parts.page.Some? || parts.image.Some?
    requires parts.page.Some? ==> parts.page.value >= 1 && parts.regionKey != ""
    modifies store
    ensures store.Valid() && Placed(old(store.View()), store.View(), blob, parts, p)
  {
    ghost var was := store.View();
    var media := store.EnsureDocumentMedia(blob, freeMedia);
    MediaExtends(was, Media(blob, Document), freeMedia);
    ghost var mid := store.View();
    p := EnsureRegionOf(store, media.value, parts, freeRegion);
    RegionExtends(mid, RowIn(media.value, parts), freeRegion);
    ExtendsTwice(was, mid, store.View());
    SameMedia(mid, store.View(), Media(blob, Document));
  }

  lemma SameMedia(a: Db, b: Db, row: Media)
    requires UniqueKeys(a) && UniqueKeys(b) && a.media == b.media
    ensures MediaWith(a, row) == MediaWith(b, row)
  {
    if MediaWith(a, row).Some? {
      UniqueMedia(b, MediaWith(a, row).value);
    }
  }

  method EnsureRegionOf(store: Store, m: int, parts: ContentId.Parts, free: int) returns (p: Place)
    requires store.Valid() && free !in store.regions && m in store.media
    requires parts.page.Some? || parts.image.Some?
    requires parts.page.Some? ==> parts.page.value >= 1 && parts.regionKey != ""
    modifies store
    ensures store.Valid() && store.View() == RegionEnsured(old(store.View()), RowIn(m, parts), free)
    ensures p.media == m && RegionWith(store.View(), RowIn(m, parts)) == Some(p.region)
  {
    var region;
    if parts.page.Some? {
      region := store.EnsurePageRegion(m, parts.page.value, parts.regionKey, free);
    } else {
      region := store.EnsureRegion(m, Fragment, ToString(parts.image.value), free);
    }
    p := Place(m, region.value);
  }

  method EnsureImagePlace(store: Store, blob: int, freeMedia: int, freeRegion: int) returns (p: Place)
    requires store.Valid() && blob in store.blobs && freeMedia !in store.media && freeRegion !in store.regions
    modifies store
    ensures store.Valid() && Placed(old(store.View()), store.View(), blob, ContentId.NOTHING, p)
  {
    ghost var was := store.View();
    var media := store.EnsureImageMedia(blob, freeMedia, freeRegion);
    ghost var mid := MediaEnsured(was, Media(blob, Image), freeMedia);
    MediaExtends(was, Media(blob, Image), freeMedia);
    RegionExtends(mid, Region(media.value, Full, ""), freeRegion);
    ExtendsTwice(was, mid, store.View());
    var region := store.FindRegionByKey(media.value, Full, "");
    p := Place(media.value, region.value);
  }

  /** `p` is the place of the parts under the blob, and nothing but media and regions was added. */
  ghost predicate Placed(before: Db, after: Db, blob: int, parts: ContentId.Parts, p: Place) {
    && Extends(before, after) && after == before.(media := after.media, regions := after.regions)
    && MediaWith(after, Media(blob, KindOf(parts))) == Some(p.media)
    && RegionWith(after, RowIn(p.media, parts)) == Some(p.region)
  }

  /** The blob, the media and the region that an id needs; each is found or made. */
  method EnsureTarget(store: Store, id: ContentId.Id, freeBlob: int, freeMedia: int, freeRegion: int) returns (p: Place)
    requires store.Valid() && ContentId.WellFormed(id)
    requires freeBlob !in store.blobs && freeMedia !in store.media && freeRegion !in store.regions
    modifies store
    ensures store.Valid() && Extends(old(store.View()), store.View())
    ensures store.tiles == old(store.tiles) && store.bulk == old(store.bulk)
    ensures PlaceOf(store.View(), id) == Some(p)
  {
    ghost var was := store.View();
    var blob := EnsureBlob(store, id.digest, freeBlob);
    ghost var mid := store.View();
    if id.parts.page.Some? || id.parts.image.Some? {
      p := EnsureDocumentPlace(store, blob, id.parts, freeMedia, freeRegion);
    } else {
      p := EnsureImagePlace(store, blob, freeMedia, freeRegion);
    }
    ExtendsTwice(was, mid, store.View());
    TargetPlaced(mid, store.View(), blob, id, p);
  }

  lemma TargetPlaced(mid: Db, after: Db, blob: int, id: ContentId.Id, p: Place)
    requires BlobWith(mid, id.digest) == Some(blob) && UniqueKeys(after)
    requires Placed(mid, after, blob, if KindOf(id.parts) == Document then id.parts else ContentId.NOTHING, p)
    ensures PlaceOf(after, id) == Some(p)
  {
    UniqueBlob(after, blob);
  }

  lemma PlaceIsPresent(db: Db, id: ContentId.Id)
    requires References(db) && PlaceOf(db, id).Some?
    ensures Present(db, PlaceOf(db, id).value)
  {
  }

  /** The put_tile loop. */
  method PutAll(store: Store, p: Place, tiles: seq<Blob>)
    requires store.Valid() && Present(store.View(), p)
    modifies store
    ensures store.Valid() && store.View() == Stored(old(store.View()), p, tiles)
  {
    ghost var was := store.View();
    for i := 0 to |tiles|
      invariant store.Valid() && store.View() == Stored(was, p, tiles[..i])
    {
      OneMoreTile(was, p, tiles, i);
      if tiles[i].bytes != [] {
        var ok := store.PutTile(CellOf(p, tiles[i]), TileOf(tiles[i]), tiles[i].bytes);
      }
    }
    assert tiles[..|tiles|] == tiles;
  }

  lemma OneMoreTile(db: Db, p: Place, tiles: seq<Blob>, i: nat)
    requires Sound(db) && Present(db, p) && i < |tiles|
    ensures var put := Put(CellOf(p, tiles[i]), TileOf(tiles[i]), tiles[i].bytes);
      && Straight(Stored(db, p, tiles[..i]), put)
      && Stored(db, p, tiles[..i + 1]) ==
        if tiles[i].bytes == [] then Stored(db, p, tiles[..i]) else Apply(Stored(db, p, tiles[..i]), put)
  {
    assert tiles[..i + 1][..i] == tiles[..i] && tiles[..i + 1][i] == tiles[i];
    StoredKeeps(db, p, tiles[..i]);
  }

  /** Client::put_tiles_to_store. The free ids are the ones SQLite will give. */
  method PutTilesToStore(store: Store, contentId: string, tiles: seq<Blob>, freeBlob: int, freeMedia: int,
                         freeRegion: int)
    requires store.Valid()
    requires freeBlob !in store.blobs && freeMedia !in store.media && freeRegion !in store.regions
    modifies store
    ensures store.Valid()
    ensures tiles == [] || ContentId.Parse(contentId).None? ==> store.View() == old(store.View())
    ensures tiles != [] && ContentId.Parse(contentId).Some? ==>
      Written(old(store.View()), store.View(), contentId, tiles)
  {
    if tiles == [] || contentId == "" {
      return;
    }
    var parsed := ReadContentId(contentId);
    if parsed.None? {
      return;
    }
    ContentId.ParsedIsWellFormed(contentId);
    var p := EnsureTarget(store, parsed.value, freeBlob, freeMedia, freeRegion);
    ghost var mid := store.View();
    PlaceIsPresent(mid, parsed.value);
    PutAll(store, p, tiles);
    StillThere(mid, store.View(), parsed.value, p, tiles);
  }

  lemma StillThere(mid: Db, after: Db, id: ContentId.Id, p: Place, tiles: seq<Blob>)
    requires Sound(mid) && Present(mid, p) && PlaceOf(mid, id) == Some(p) && after == Stored(mid, p, tiles)
    ensures PlaceOf(after, id) == Some(p) && Present(after, p)
  {
    StoredKeeps(mid, p, tiles);
  }
}
