// The tables of the index and bulk databases that hold tiles (src/store.cpp): keys, references,
// cascades, and what each statement does to them.
module StoreTables {
  import opened Wrappers

  datatype MediaKind = Unknown | Image | Document | Video | Audio
  datatype RegionKind = Full | Page | Fragment | TimeRange
  datatype Codec = Jpeg | Jxl | Png | WebP

  datatype Media = Media(blob: int, kind: MediaKind)
  datatype Region = Region(media: int, kind: RegionKind, key: string)

  /** The primary key that `tile` and `tile_blob` share. */
  datatype Cell = Cell(media: int, region: int, scale: int, x: int, y: int)
  datatype Tile = Tile(width: int, height: int, codec: Codec, quality: Option<int>)
  datatype Bulk = Bulk(codec: Codec, data: seq<Byte>)

  /** `digests` is blob_hash for SHA-256; `bulk` is tile_blob, which lives in another database and has no references. */
  datatype Db = Db(blobs: set<int>, digests: map<int, seq<Byte>>, locators: map<string, Option<int>>,
                   media: map<int, Media>, regions: map<int, Region>, tiles: map<Cell, Tile>, bulk: map<Cell, Bulk>)

  const EMPTY := Db({}, map[], map[], map[], map[], map[], map[])

  // ---- What the schema enforces ----

  ghost predicate References(db: Db) {
    && (forall u :: u in db.locators && db.locators[u].Some? ==> db.locators[u].value in db.blobs)
    && db.digests.Keys <= db.blobs
    && (forall m :: m in db.media ==> db.media[m].blob in db.blobs)
    && (forall r :: r in db.regions ==> db.regions[r].media in db.media)
    && (forall c :: c in db.tiles ==> c.media in db.media && c.region in db.regions)
  }

  ghost predicate UniqueKeys(db: Db) {
    && (forall a, b :: a in db.digests && b in db.digests && db.digests[a] == db.digests[b] ==> a == b)
    && (forall a, b :: a in db.media && b in db.media && db.media[a] == db.media[b] ==> a == b)
    && (forall a, b :: a in db.regions && b in db.regions && db.regions[a] == db.regions[b] ==> a == b)
  }

  // ---- What only the code keeps ----

  /** The two tables agree on their keys and codecs, and no tile is empty. */
  ghost predicate InStep(db: Db) {
    && db.tiles.Keys == db.bulk.Keys
    && forall c :: c in db.bulk ==> db.bulk[c].codec == db.tiles[c].codec && db.bulk[c].data != []
  }

  /** The region of a tile is a region of its media; the schema does not ask for it. */
  ghost predicate Belongs(db: Db)
    requires References(db)
  {
    forall c :: c in db.tiles ==> db.regions[c.region].media == c.media
  }

  ghost predicate Sound(db: Db) {
    References(db) && UniqueKeys(db) && InStep(db) && Belongs(db)
  }

  // ---- Statements ----

  /** Each case is one statement or, for Put and Purge, the fixed group of statements of one function.
      Ids are the ones SQLite gives: unused, but not necessarily never used before. */
  datatype Op =
    | NewBlob(blob: int)
    | PutHash(blob: int, digest: seq<Byte>)
    | Upsert(uri: string, target: Option<int>)
    | Bind(uri: string, blob: int)
    | NewMedia(media: int, mrow: Media)
    | NewRegion(region: int, rrow: Region)
    | Put(cell: Cell, tile: Tile, data: seq<Byte>)
    | DeleteTiles(media: int, region: int)
    | DropLocator(uri: string)
    | Purge(blob: int)

  /** COALESCE(excluded.blob_id, locator.blob_id). */
  function Coalesce(db: Db, uri: string, target: Option<int>): Option<int> {
    if target.Some? then target else if uri in db.locators then db.locators[uri] else None
  }

  function WithLocator(db: Db, uri: string, target: Option<int>): Db { db.(locators := db.locators[uri := target]) }

  function Without(db: Db, cells: set<Cell>): Db {
    db.(tiles := map c | c in db.tiles && c !in cells :: db.tiles[c],
        bulk := map c | c in db.bulk && c !in cells :: db.bulk[c])
  }

  function CellsOfRegion(cells: set<Cell>, media: int, region: int): set<Cell> {
    set c | c in cells && c.media == media && c.region == region
  }

  ghost function Holders(db: Db, blob: int): set<string> {
    set u | u in db.locators && db.locators[u] == Some(blob)
  }

  function MediaOf(db: Db, blob: int): set<int> { set m | m in db.media && db.media[m].blob == blob }

  /** DELETE FROM blob, with ON DELETE CASCADE and ON DELETE SET NULL; the bulk database has no cascade. */
  function Cascaded(db: Db, blob: int): Db {
    var gone := MediaOf(db, blob);
    var regions := map r | r in db.regions && db.regions[r].media !in gone :: db.regions[r];
    Db(db.blobs - {blob},
       map b | b in db.digests && b != blob :: db.digests[b],
       map u | u in db.locators :: (if db.locators[u] == Some(blob) then None else db.locators[u]),
       map m | m in db.media && m !in gone :: db.media[m],
       regions,
       map c | c in db.tiles && c.media !in gone && c.region in regions :: db.tiles[c],
       db.bulk)
  }

  function BulkWithout(bulk: map<Cell, Bulk>, media: set<int>): map<Cell, Bulk> {
    map c | c in bulk && c.media !in media :: bulk[c]
  }

  /** purge_blob_if_unreferenced: the bulk rows of the blob's media, then the blob. */
  ghost function Purged(db: Db, blob: int): Db {
    if Holders(db, blob) != {} then db
    else Cascaded(db.(bulk := BulkWithout(db.bulk, MediaOf(db, blob))), blob)
  }

  /** A statement that breaks a key or a reference throws and changes nothing. */
  ghost predicate Accepted(db: Db, op: Op) {
    match op
    case NewBlob(b) => b !in db.blobs
    case PutHash(b, d) => d != [] && b in db.blobs && forall a :: a in db.digests && db.digests[a] == d ==> a == b
    case Upsert(u, t) => Coalesce(db, u, t).Some? ==> Coalesce(db, u, t).value in db.blobs
    case Bind(u, b) => u in db.locators && b in db.blobs
    case NewMedia(m, row) => m !in db.media && row.blob in db.blobs && forall a :: a in db.media ==> db.media[a] != row
    case NewRegion(r, row) => r !in db.regions && row.media in db.media
      && forall a :: a in db.regions ==> db.regions[a] != row
    case Put(c, _, data) => data != [] && c.media in db.media && c.region in db.regions
    case DeleteTiles(_, _) => true
    case DropLocator(_) => true
    case Purge(_) => true
  }

  ghost function Apply(db: Db, op: Op): Db {
    if !Accepted(db, op) then db else
    match op
    case NewBlob(b) => db.(blobs := db.blobs + {b})
    case PutHash(b, d) => db.(digests := db.digests[b := d])
    case Upsert(u, t) => WithLocator(db, u, Coalesce(db, u, t))
    case Bind(u, b) => WithLocator(db, u, Some(b))
    case NewMedia(m, row) => db.(media := db.media[m := row])
    case NewRegion(r, row) => db.(regions := db.regions[r := row])
    case Put(c, t, data) => db.(tiles := db.tiles[c := t], bulk := db.bulk[c := Bulk(t.codec, data)])
    case DeleteTiles(m, r) => Without(db, CellsOfRegion(db.tiles.Keys + db.bulk.Keys, m, r))
    case DropLocator(u) => db.(locators := db.locators - {u})
    case Purge(b) => Purged(db, b)
  }

  /** A caller of put_tile that names a region of the media it names. */
  ghost predicate Straight(db: Db, op: Op) {
    op.Put? && op.cell.region in db.regions ==> db.regions[op.cell.region].media == op.cell.media
  }

  // ---- What every statement keeps ----

  lemma SchemaIsKept(db: Db, op: Op)
    requires References(db) && UniqueKeys(db)
    ensures References(Apply(db, op)) && UniqueKeys(Apply(db, op))
  {
    ReferencesAreKept(db, op);
    UniqueKeysAreKept(db, op);
  }

  lemma ReferencesAreKept(db: Db, op: Op)
    requires References(db)
    ensures References(Apply(db, op))
  {
  }

  lemma UniqueKeysAreKept(db: Db, op: Op)
    requires UniqueKeys(db)
    ensures UniqueKeys(Apply(db, op))
  {
  }

  /** Deleting a blob keeps the two tables in step exactly when no tile lies in a region of the
      blob's media while naming another media. */
  lemma PurgeInStepIff(db: Db, blob: int)
    requires References(db) && InStep(db) && Holders(db, blob) == {}
    ensures InStep(Purged(db, blob)) <==>
      forall c :: c in db.tiles && db.regions[c.region].media in MediaOf(db, blob) ==> c.media in MediaOf(db, blob)
  {
    var after := Purged(db, blob);
    var gone := MediaOf(db, blob);
    forall c | c in db.tiles
      ensures c in after.bulk.Keys <==> c.media !in gone
      ensures c in after.tiles.Keys <==> c.media !in gone && db.regions[c.region].media !in gone
    {
    }
    forall c | c in db.tiles && db.regions[c.region].media in gone && c.media !in gone
      ensures after.tiles.Keys != after.bulk.Keys
    {
      assert c in after.bulk.Keys && c !in after.tiles.Keys;
    }
  }

  /** From a sound state a put keeps everything exactly when it is refused or straight. */
  lemma PutKeepsIff(db: Db, op: Op)
    requires Sound(db) && op.Put?
    ensures Sound(Apply(db, op)) <==> !Accepted(db, op) || Straight(db, op)
  {
    SchemaIsKept(db, op);
    var after := Apply(db, op);
    if Accepted(db, op) {
      assert after.tiles.Keys == db.tiles.Keys + {op.cell} && after.bulk.Keys == db.bulk.Keys + {op.cell};
      assert InStep(after);
    }
  }

  lemma SoundIsKept(db: Db, op: Op)
    requires Sound(db) && Straight(db, op)
    ensures Sound(Apply(db, op))
  {
    SchemaIsKept(db, op);
    if op.Put? {
      PutKeepsIff(db, op);
    } else if op.Purge? && Holders(db, op.blob) == {} {
      PurgeInStepIff(db, op.blob);
      PurgedRows(db, op.blob);
    } else if op.DeleteTiles? {
      DeletedInStep(db, op);
    }
  }

  lemma DeletedInStep(db: Db, op: Op)
    requires Sound(db) && op.DeleteTiles?
    ensures InStep(Apply(db, op)) && Belongs(Apply(db, op))
  {
    var after := Apply(db, op);
    assert after.tiles.Keys == after.bulk.Keys;
  }

  lemma PurgedRows(db: Db, blob: int)
    requires Sound(db) && Holders(db, blob) == {} && References(Purged(db, blob))
    ensures Belongs(Purged(db, blob))
  {
  }

  /** An id that is free has no bytes waiting under it, even when it was used before. */
  lemma FreeIdsAreClean(db: Db, id: int)
    requires Sound(db)
    ensures id !in db.media ==> forall c :: c in db.bulk ==> c.media != id
    ensures id !in db.regions ==> forall c :: c in db.bulk ==> c.region != id
  {
    forall c | c in db.bulk ensures c.media in db.media && c.region in db.regions {
      assert c in db.bulk.Keys;
    }
  }

  // ---- Runs ----

  ghost predicate Run(states: seq<Db>, ops: seq<Op>) {
    && |states| == |ops| + 1 && states[0] == EMPTY
    && forall i: nat :: i < |ops| ==> Straight(states[i], ops[i]) && states[i + 1] == Apply(states[i], ops[i])
  }

  lemma {:induction false} RunIsSound(states: seq<Db>, ops: seq<Op>, n: nat)
    requires Run(states, ops) && n < |states|
    ensures Sound(states[n])
  {
    if n > 0 {
      RunIsSound(states, ops, n - 1);
      SoundIsKept(states[n - 1], ops[n - 1]);
    }
  }

  /** Step `i` wrote the bytes of cell `c`, and from then to step `n` its media row and its region
      row were there all the time and never changed. */
  ghost predicate WrittenAt(states: seq<Db>, ops: seq<Op>, n: nat, c: Cell, i: nat)
    requires |states| == |ops| + 1 && n < |states| && c in states[n].bulk
  {
    && i < n && IsWrite(ops[i], c, states[n].bulk[c])
    && forall j: nat :: i <= j <= n ==> SameRows(states[j], states[n], c)
  }

  ghost predicate IsWrite(op: Op, c: Cell, row: Bulk) {
    op.Put? && op.cell == c && Bulk(op.tile.codec, op.data) == row
  }

  ghost predicate SameRows(a: Db, b: Db, c: Cell) {
    && c.media in a.media && c.media in b.media && a.media[c.media] == b.media[c.media]
    && c.region in a.regions && c.region in b.regions && a.regions[c.region] == b.regions[c.region]
  }

  /** Bytes that a lookup finds were written for this very media and region, not for an earlier
      owner of a reused id. */
  lemma {:induction false} NoStaleBytes(states: seq<Db>, ops: seq<Op>, n: nat, c: Cell) returns (i: nat)
    requires Run(states, ops) && n < |states| && c in states[n].bulk
    ensures WrittenAt(states, ops, n, c, i)
  {
    if n > 0 {
      LastStep(states, ops, n, c);
      if c in states[n - 1].bulk && states[n].bulk[c] == states[n - 1].bulk[c] {
        i := NoStaleBytes(states, ops, n - 1, c);
        StillWritten(states, ops, n, c, i);
      } else {
        i := n - 1;
        JustWritten(states, ops, n, c);
      }
    }
  }

  lemma LastStep(states: seq<Db>, ops: seq<Op>, n: nat, c: Cell)
    requires Run(states, ops) && 0 < n < |states| && c in states[n].bulk
    ensures SameRows(states[n - 1], states[n], c) && SameRows(states[n], states[n], c)
    ensures IsWrite(ops[n - 1], c, states[n].bulk[c])
            || (c in states[n - 1].bulk && states[n].bulk[c] == states[n - 1].bulk[c])
  {
    RunIsSound(states, ops, n - 1);
    RunIsSound(states, ops, n);
    BytesOfStep(states[n - 1], ops[n - 1], c);
    RowsOfStep(states[n - 1], ops[n - 1], c);
  }

  lemma BytesOfStep(db: Db, op: Op, c: Cell)
    requires c in Apply(db, op).bulk
    ensures IsWrite(op, c, Apply(db, op).bulk[c]) || (c in db.bulk && Apply(db, op).bulk[c] == db.bulk[c])
  {
  }

  /** A step writes only to rows that are there, and a cascade takes whole cells. */
  lemma RowsOfStep(db: Db, op: Op, c: Cell)
    requires Sound(db) && Sound(Apply(db, op)) && c in Apply(db, op).bulk
    ensures SameRows(db, Apply(db, op), c) && SameRows(Apply(db, op), Apply(db, op), c)
  {
    assert c in Apply(db, op).tiles.Keys;
    RowsStay(db, op, c.media, c.region);
    assert c in db.tiles || (op.Put? && op.cell == c && Accepted(db, op));
  }

  lemma RowsStay(db: Db, op: Op, m: int, r: int)
    ensures m in db.media && m in Apply(db, op).media ==> Apply(db, op).media[m] == db.media[m]
    ensures r in db.regions && r in Apply(db, op).regions ==> Apply(db, op).regions[r] == db.regions[r]
  {
  }

  lemma StillWritten(states: seq<Db>, ops: seq<Op>, n: nat, c: Cell, i: nat)
    requires |states| == |ops| + 1 && 0 < n < |states|
    requires c in states[n].bulk && c in states[n - 1].bulk && states[n].bulk[c] == states[n - 1].bulk[c]
    requires WrittenAt(states, ops, n - 1, c, i)
    requires SameRows(states[n - 1], states[n], c) && SameRows(states[n], states[n], c)
    ensures WrittenAt(states, ops, n, c, i)
  {
    forall j: nat | i <= j <= n ensures SameRows(states[j], states[n], c) {
      if j < n {
        assert SameRows(states[j], states[n - 1], c);
      }
    }
  }

  lemma JustWritten(states: seq<Db>, ops: seq<Op>, n: nat, c: Cell)
    requires |states| == |ops| + 1 && 0 < n < |states| && c in states[n].bulk
    requires SameRows(states[n - 1], states[n], c) && SameRows(states[n], states[n], c)
    requires IsWrite(ops[n - 1], c, states[n].bulk[c])
    ensures WrittenAt(states, ops, n, c, n - 1)
  {
    forall j: nat | n - 1 <= j <= n ensures SameRows(states[j], states[n], c) {
      if j < n {
        assert j == n - 1;
      }
    }
  }
}
