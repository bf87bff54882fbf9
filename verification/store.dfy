// The store (src/store.cpp): one object over two databases, changed statement by statement.
module TileStore {
  import opened Wrappers
  import opened StoreTables
  import opened StoreForget
  import opened Decimals

  /** The unique key of `media`, and of `region`, as a lookup. */
  ghost function MediaWith(db: Db, row: Media): Option<int> {
    if exists m :: m in db.media && db.media[m] == row
    then var m :| m in db.media && db.media[m] == row; Some(m) else None
  }

  ghost function RegionWith(db: Db, row: Region): Option<int> {
    if exists r :: r in db.regions && db.regions[r] == row
    then var r :| r in db.regions && db.regions[r] == row; Some(r) else None
  }

  ghost function BlobWith(db: Db, digest: seq<Byte>): Option<int> {
    if exists b :: b in db.digests && db.digests[b] == digest
    then var b :| b in db.digests && db.digests[b] == digest; Some(b) else None
  }

  lemma UniqueMedia(db: Db, m: int)
    requires UniqueKeys(db) && m in db.media
    ensures MediaWith(db, db.media[m]) == Some(m)
  {
  }

  lemma UniqueRegion(db: Db, r: int)
    requires UniqueKeys(db) && r in db.regions
    ensures RegionWith(db, db.regions[r]) == Some(r)
  {
  }

  lemma UniqueBlob(db: Db, b: int)
    requires UniqueKeys(db) && b in db.digests
    ensures BlobWith(db, db.digests[b]) == Some(b)
  {
  }

  /** ensure_region: the region that has the row already, or a new one under a free id. */
  ghost function RegionEnsured(db: Db, row: Region, free: int): Db {
    if RegionWith(db, row).Some? then db else Apply(db, NewRegion(free, row))
  }

  /** ensure_document_media. */
  ghost function MediaEnsured(db: Db, row: Media, free: int): Db {
    if MediaWith(db, row).Some? then db else Apply(db, NewMedia(free, row))
  }

  class Store {
    var blobs: set<int>
    var digests: map<int, seq<Byte>>
    var locators: map<string, Option<int>>
    var media: map<int, Media>
    var regions: map<int, Region>
    var tiles: map<Cell, Tile>
    var bulk: map<Cell, Bulk>

    ghost function View(): Db
      reads this
    {
      Db(blobs, digests, locators, media, regions, tiles, bulk)
    }

    ghost predicate Valid()
      reads this
    {
      Sound(View())
    }

    constructor ()
      ensures Valid() && View() == EMPTY
    {
      blobs, digests, locators, media, regions := {}, map[], map[], map[], map[];
      tiles, bulk := map[], map[];
    }

    // ---- Rows that others refer to ----

    method InsertBlob(id: int)
      requires Valid() && id !in blobs
      modifies this
      ensures Valid() && View() == Apply(old(View()), NewBlob(id))
    {
      SoundIsKept(View(), NewBlob(id));
      blobs := blobs + {id};
    }

    method PutDigest(blob: int, digest: seq<Byte>) returns (ok: bool)
      requires Valid()
      modifies this
      ensures Valid() && View() == Apply(old(View()), PutHash(blob, digest))
      ensures ok == Accepted(old(View()), PutHash(blob, digest))
    {
      SoundIsKept(View(), PutHash(blob, digest));
      if digest == [] || blob !in blobs {
        return false;
      }
      if a :| a in digests && digests[a] == digest && a != blob {
        return false;
      }
      digests := digests[blob := digest];
      ok := true;
    }

    method UpsertLocator(uri: string, target: Option<int>) returns (ok: bool)
      requires Valid()
      modifies this
      ensures Valid() && View() == Apply(old(View()), Upsert(uri, target))
      ensures ok == Accepted(old(View()), Upsert(uri, target))
    {
      SoundIsKept(View(), Upsert(uri, target));
      var merged := target;
      if target.None? && uri in locators {
        merged := locators[uri];
      }
      ok := merged.Some? ==> merged.value in blobs;
      if ok {
        locators := locators[uri := merged];
      }
    }

    method BindLocator(uri: string, blob: int) returns (ok: bool)
      requires Valid()
      modifies this
      ensures Valid() && View() == Apply(old(View()), Bind(uri, blob))
      ensures ok == (uri in old(locators) ==> blob in old(blobs))
    {
      SoundIsKept(View(), Bind(uri, blob));
      ok := true;
      if uri in locators {
        ok := blob in blobs;
        if ok {
          locators := locators[uri := Some(blob)];
        }
      }
    }

    method FindBlobByHash(digest: seq<Byte>) returns (r: Option<int>)
      requires Valid()
      ensures r == BlobWith(View(), digest)
    {
      r := None;
      if b :| b in digests && digests[b] == digest {
        UniqueBlob(View(), b);
        r := Some(b);
      }
    }

    method FindMediaForBlob(blob: int, kind: MediaKind) returns (r: Option<int>)
      requires Valid()
      ensures r == MediaWith(View(), Media(blob, kind))
    {
      r := None;
      if m :| m in media && media[m] == Media(blob, kind) {
        UniqueMedia(View(), m);
        r := Some(m);
      }
    }

    method FindRegionByKey(owner: int, kind: RegionKind, key: string) returns (r: Option<int>)
      requires Valid()
      ensures r == RegionWith(View(), Region(owner, kind, key))
    {
      r := None;
      if a :| a in regions && regions[a] == Region(owner, kind, key) {
        UniqueRegion(View(), a);
        r := Some(a);
      }
    }

    method InsertMedia(id: int, blob: int, kind: MediaKind) returns (ok: bool)
      requires Valid() && id !in media
      modifies this
      ensures Valid() && View() == Apply(old(View()), NewMedia(id, Media(blob, kind)))
      ensures ok == Accepted(old(View()), NewMedia(id, Media(blob, kind)))
    {
      SoundIsKept(View(), NewMedia(id, Media(blob, kind)));
      if blob !in blobs {
        return false;
      }
      if m :| m in media && media[m] == Media(blob, kind) {
        return false;
      }
      media := media[id := Media(blob, kind)];
      ok := true;
    }

    method InsertRegion(id: int, owner: int, kind: RegionKind, key: string) returns (ok: bool)
      requires Valid() && id !in regions
      modifies this
      ensures Valid() && View() == Apply(old(View()), NewRegion(id, Region(owner, kind, key)))
      ensures ok == Accepted(old(View()), NewRegion(id, Region(owner, kind, key)))
    {
      SoundIsKept(View(), NewRegion(id, Region(owner, kind, key)));
      if owner !in media {
        return false;
      }
      if r :| r in regions && regions[r] == Region(owner, kind, key) {
        return false;
      }
      regions := regions[id := Region(owner, kind, key)];
      ok := true;
    }

    /** None stands for the exception of a media that does not exist. */
    method EnsureRegion(owner: int, kind: RegionKind, key: string, free: int) returns (r: Option<int>)
      requires Valid() && free !in regions
      modifies this
      ensures Valid() && View() == RegionEnsured(old(View()), Region(owner, kind, key), free)
      ensures r == RegionWith(View(), Region(owner, kind, key))
      ensures r.Some? <==> owner in media
    {
      r := FindRegionByKey(owner, kind, key);
      if r.None? {
        var ok := InsertRegion(free, owner, kind, key);
        if ok {
          UniqueRegion(View(), free);
          r := Some(free);
        }
      }
    }

    method EnsureDocumentMedia(blob: int, free: int) returns (m: Option<int>)
      requires Valid() && free !in media
      modifies this
      ensures Valid() && View() == MediaEnsured(old(View()), Media(blob, Document), free)
      ensures m == MediaWith(View(), Media(blob, Document))
      ensures m.Some? <==> blob in blobs
    {
      m := FindMediaForBlob(blob, Document);
      if m.None? {
        var ok := InsertMedia(free, blob, Document);
        if ok {
          UniqueMedia(View(), free);
          m := Some(free);
        }
      }
    }

    /** Images always get their full region with the media. */
    method EnsureImageMedia(blob: int, free: int, freeRegion: int) returns (m: Option<int>)
      requires Valid() && free !in media && freeRegion !in regions
      modifies this
      ensures Valid() && m == MediaWith(View(), Media(blob, Image))
      ensures m.Some? <==> blob in blobs
      ensures m.None? ==> View() == old(View())
      ensures m.Some? ==>
        && View()
           == RegionEnsured(MediaEnsured(old(View()), Media(blob, Image), free), Region(m.value, Full, ""), freeRegion)
        && RegionWith(View(), Region(m.value, Full, "")).Some?
    {
      m := FindMediaForBlob(blob, Image);
      if m.None? {
        var ok := InsertMedia(free, blob, Image);
        if ok {
          UniqueMedia(View(), free);
          m := Some(free);
        }
      }
      if m.Some? {
        var r := EnsureRegion(m.value, Full, "", freeRegion);
        UniqueMedia(View(), m.value);
      }
    }

    /** None stands for an exception: a page below 1, or no such media. */
    method EnsurePageRegion(owner: int, page: int, key: string, free: int) returns (r: Option<int>)
      requires Valid() && free !in regions
      modifies this
      ensures Valid() && (page < 1 ==> r == None && View() == old(View()))
      ensures page >= 1 ==> var row := Region(owner, Page, if key == "" then ToString(page) else key);
        && View() == RegionEnsured(old(View()), row, free) && r == RegionWith(View(), row)
        && (r.Some? <==> owner in media)
    {
      if page < 1 {
        return None;
      }
      r := EnsureRegion(owner, Page, if key == "" then ToString(page) else key, free);
    }

    /** Whether list_tile_scales finds anything. */
    method HasTileScales(m: int, r: int) returns (some: bool)
      ensures some <==> exists c :: c in tiles && c.media == m && c.region == r
    {
      var scales := set c | c in tiles && c.media == m && c.region == r :: c.scale;
      some := scales != {};
      if c :| c in tiles && c.media == m && c.region == r {
        assert c.scale in scales;
      }
    }

    // ---- Tiles ----

    /** Two statements in two databases; the first refuses what the second could not. */
    method PutTile(cell: Cell, tile: Tile, data: seq<Byte>) returns (ok: bool)
      requires Valid() && Straight(View(), Put(cell, tile, data))
      modifies this
      ensures Valid() && View() == Apply(old(View()), Put(cell, tile, data))
      ensures ok == Accepted(old(View()), Put(cell, tile, data))
    {
      SoundIsKept(View(), Put(cell, tile, data));
      if data == [] || cell.media !in media || cell.region !in regions {
        return false;
      }
      tiles := tiles[cell := tile];
      bulk := bulk[cell := Bulk(tile.codec, data)];
      ok := true;
    }

    method GetTileData(cell: Cell) returns (r: Option<seq<Byte>>)
      requires Valid()
      ensures r == if cell in bulk then Some(bulk[cell].data) else None
      ensures r.Some? <==> cell in tiles
    {
      assert bulk.Keys == tiles.Keys;
      r := None;
      if cell in bulk && bulk[cell].data != [] {
        r := Some(bulk[cell].data);
      }
    }

    method DeleteTilesForRegion(m: int, r: int)
      requires Valid()
      modifies this
      ensures Valid() && View() == Apply(old(View()), DeleteTiles(m, r))
    {
      SoundIsKept(View(), DeleteTiles(m, r));
      RegionDeleted(View(), m, r);
      tiles := map c | c in tiles && !(c.media == m && c.region == r) :: tiles[c];
      bulk := map c | c in bulk && !(c.media == m && c.region == r) :: bulk[c];
    }

    // ---- Forgetting ----

    method DeleteLocator(uri: string) returns (blob: Option<int>)
      requires Valid()
      modifies this
      ensures Valid() && View() == Dropped(old(View()), uri)
      ensures blob == if uri in old(locators) then old(locators)[uri] else None
    {
      SoundIsKept(View(), DropLocator(uri));
      blob := None;
      if uri in locators {
        blob := locators[uri];
      }
      locators := locators - {uri};
    }

    /** The size of list_locators_for_blob under its limit. */
    method CountLocators(blob: int, limit: nat) returns (n: nat)
      ensures n == if |Holders(View(), blob)| <= limit then |Holders(View(), blob)| else limit
    {
      var found := set u | u in locators && locators[u] == Some(blob);
      assert found == Holders(View(), blob);
      n := if |found| <= limit then |found| else limit;
    }

    method PurgeBlobIfUnreferenced(blob: int) returns (deleted: nat)
      requires Valid()
      modifies this
      ensures Valid() && View() == Purged(old(View()), blob)
      ensures deleted == TilesPurged(old(View()), blob)
    {
      SoundIsKept(View(), Purge(blob));
      var refs := CountLocators(blob, 1);
      if refs > 0 {
        assert Holders(View(), blob) != {};
        return 0;
      }
      assert Holders(View(), blob) == {};
      var ids := set m | m in media && media[m].blob == blob;
      deleted := PurgeBulk(ids);
      DeleteBlob(blob, ids);
    }

    /** One DELETE on the bulk database for each media. */
    method PurgeBulk(ids: set<int>) returns (deleted: nat)
      modifies this`bulk
      ensures bulk == BulkWithout(old(bulk), ids)
      ensures deleted == |BulkOf(old(bulk), ids)|
    {
      deleted := 0;
      var todo := ids;
      while todo != {}
        invariant todo <= ids
        invariant bulk == BulkWithout(old(bulk), ids - todo)
        invariant deleted == |BulkOf(old(bulk), ids - todo)|
        decreases |todo|
      {
        var m := AnyOf(todo);
        BulkInTwo(old(bulk), ids - todo, m);
        deleted := deleted + |(set c | c in bulk && c.media == m)|;
        bulk := map c | c in bulk && c.media != m :: bulk[c];
        assert ids - (todo - {m}) == (ids - todo) + {m};
        todo := todo - {m};
      }
      assert ids - todo == ids;
    }

    /** DELETE FROM blob: the index database follows its references. */
    method DeleteBlob(blob: int, ids: set<int>)
      requires ids == MediaOf(View(), blob)
      modifies this
      ensures View() == Cascaded(old(View()), blob)
    {
      var keptRegions := map r | r in regions && regions[r].media !in ids :: regions[r];
      blobs := blobs - {blob};
      digests := map b | b in digests && b != blob :: digests[b];
      locators := map u | u in locators :: (if locators[u] == Some(blob) then None else locators[u]);
      tiles := map c | c in tiles && c.media !in ids && c.region in keptRegions :: tiles[c];
      regions := keptRegions;
      media := map m | m in media && m !in ids :: media[m];
    }

    method ForgetUri(uri: string, dry: bool) returns (st: Stats)
      requires Valid()
      modifies this
      ensures Valid() && View() == AfterOne(old(View()), uri, dry)
      ensures st == CountedOne(old(View()), uri, dry)
    {
      st := Stats(false, false, 0);
      if uri !in locators {
        return;
      }
      st := st.(removed := true);
      var blob := locators[uri];
      if dry {
        if blob.Some? {
          var left := CountLocators(blob.value, 2);
          st := st.(purged := left <= 1);
        }
        return;
      }
      var was := DeleteLocator(uri);
      if blob.Some? {
        var deleted := PurgeBlobIfUnreferenced(blob.value);
        if deleted > 0 || blob.value !in blobs {
          st := st.(purged := blob.value !in blobs, tiles := deleted);
        }
      }
    }

    /** SELECT uri: every locator that matches, in some order. */
    method ListUris(matches: string -> bool) returns (uris: seq<string>)
      ensures Distinct(uris) && forall u :: u in uris <==> u in locators && matches(u)
    {
      uris := [];
      var todo := locators.Keys;
      while todo != {}
        invariant todo <= locators.Keys && Distinct(uris)
        invariant forall u :: u in uris <==> u in locators.Keys - todo && matches(u)
        decreases |todo|
      {
        var u := AnyOf(todo);
        if matches(u) {
          uris := uris + [u];
        }
        todo := todo - {u};
      }
    }

    /** `like` is the LIKE pattern built from the prefix. */
    method ForgetUriPrefix(prefix: string, like: (string, string) -> bool, dry: bool)
        returns (st: PrefixStats, ghost uris: seq<string>)
      requires Valid()
      modifies this
      ensures Valid()
      ensures prefix == "" ==> View() == old(View()) && st == PrefixStats(0, 0, 0)
      ensures prefix != "" ==>
        && Distinct(uris) && (forall u :: u in uris <==> u in old(locators) && like(prefix, u))
        && View() == After(old(View()), uris, dry) && st == Counted(old(View()), uris, dry)
    {
      st, uris := PrefixStats(0, 0, 0), [];
      if prefix == "" {
        return;
      }
      var list := ListUris(u => like(prefix, u));
      uris := list;
      st := ForgetAll(list, dry);
    }

    method ForgetAll(uris: seq<string>, dry: bool) returns (st: PrefixStats)
      requires Valid()
      modifies this
      ensures Valid() && View() == After(old(View()), uris, dry) && st == Counted(old(View()), uris, dry)
    {
      st := PrefixStats(0, 0, 0);
      ghost var was := View();
      NoUris(was, uris, dry);
      for i := 0 to |uris|
        invariant Valid() && Forgot(was, View(), uris, i, dry, st)
      {
        st := ForgetNext(was, uris, i, dry, st);
      }
      AllUris(was, View(), uris, dry, st);
    }

    method ForgetNext(ghost was: Db, uris: seq<string>, i: nat, dry: bool, before: PrefixStats)
      returns (st: PrefixStats)
      requires Valid() && i < |uris|
      requires Forgot(was, View(), uris, i, dry, before)
      modifies this
      ensures Valid() && Forgot(was, View(), uris, i + 1, dry, st)
    {
      OneMoreUri(was, uris, i, dry);
      var one := ForgetUri(uris[i], dry);
      st := Added(before, one);
    }

    method ListOrphanBlobIds(limit: int) returns (ids: seq<int>)
      ensures Distinct(ids) && (forall b :: b in ids ==> Orphan(View(), b)) && |ids| == Listed(View(), limit)
    {
      var free := set b | b in blobs && (set u | u in locators && locators[u] == Some(b)) == {};
      assert free == Orphans(View());
      ids := [];
      var todo := free;
      while todo != {} && |ids| < limit
        invariant todo <= free && Distinct(ids) && |ids| + |todo| == |free|
        invariant forall b :: b in ids ==> b in free - todo
        invariant |ids| <= if limit < 0 then 0 else limit
        decreases |todo|
      {
        var b := AnyOf(todo);
        assert b !in ids;
        ids := ids + [b];
        todo := todo - {b};
      }
    }

    /** The count is the same in a dry run and in a real one. */
    method PurgeOrphanBlobs(dry: bool, limit: int) returns (blobsPurged: nat, deleted: nat, ghost ids: seq<int>)
      requires Valid()
      modifies this
      ensures Valid() && blobsPurged == Listed(old(View()), limit) && deleted == |old(bulk)| - |bulk|
      ensures dry ==> View() == old(View())
      ensures !dry ==>
        && locators == old(locators) && blobs == old(blobs) - Members(ids) && View() == AllPurged(old(View()), ids)
        && |Members(ids)| == blobsPurged && (forall b :: b in ids ==> Orphan(old(View()), b))
        && (limit >= |Orphans(old(View()))| ==> Orphans(View()) == {})
    {
      var list := ListOrphanBlobIds(limit);
      ids := list;
      blobsPurged, deleted := |list|, 0;
      if dry {
        return;
      }
      ghost var was := View();
      deleted := PurgeAll(list);
      OrphanDryRun(was, list);
      if limit >= |Orphans(was)| {
        NoOrphanLeft(was, list);
      }
      blobsPurged := CountGone(list);
    }

    method PurgeAll(ids: seq<int>) returns (deleted: nat)
      requires Valid()
      modifies this
      ensures Valid() && View() == AllPurged(old(View()), ids) && deleted == |old(bulk)| - |bulk|
    {
      deleted := 0;
      ghost var was := View();
      for i := 0 to |ids|
        invariant Valid() && View() == AllPurged(was, ids[..i])
        invariant deleted == |was.bulk| - |bulk|
      {
        assert ids[..i + 1][..i] == ids[..i] && ids[..i + 1][i] == ids[i];
        PurgeIsCounted(View(), ids[i]);
        var n := PurgeBlobIfUnreferenced(ids[i]);
        deleted := deleted + n;
      }
      assert ids[..|ids|] == ids;
    }

    /** How many of the blobs have vanished. */
    method CountGone(ids: seq<int>) returns (gone: nat)
      requires blobs !! Members(ids)
      ensures gone == |ids|
    {
      gone := 0;
      for i := 0 to |ids|
        invariant gone == i
      {
        assert ids[i] in Members(ids);
        if ids[i] !in blobs {
          gone := gone + 1;
        }
      }
    }
  }

  lemma RegionDeleted(db: Db, m: int, r: int)
    ensures Apply(db, DeleteTiles(m, r)) ==
      db.(tiles := map c | c in db.tiles && !(c.media == m && c.region == r) :: db.tiles[c],
          bulk := map c | c in db.bulk && !(c.media == m && c.region == r) :: db.bulk[c])
  {
    var cells := CellsOfRegion(db.tiles.Keys + db.bulk.Keys, m, r);
    assert Apply(db, DeleteTiles(m, r)) == Without(db, cells);
  }

  method AnyOf<T(==)>(s: set<T>) returns (x: T)
    requires s != {}
    ensures x in s
  {
    x :| x in s;
  }

  lemma BulkInTwo(bulk: map<Cell, Bulk>, ids: set<int>, m: int)
    requires m !in ids
    ensures var part := BulkWithout(bulk, ids);
      && BulkWithout(bulk, ids + {m}) == (map c | c in part && c.media != m :: part[c])
      && |BulkOf(bulk, ids + {m})| == |BulkOf(bulk, ids)| + |(set c | c in part && c.media == m)|
  {
    var part := BulkWithout(bulk, ids);
    var more := set c | c in part && c.media == m;
    assert BulkOf(bulk, ids + {m}) == BulkOf(bulk, ids) + more && BulkOf(bulk, ids) !! more;
  }
}
