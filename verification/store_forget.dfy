// Forgetting locators (forget_uri, forget_uri_prefix, purge_orphan_blobs of src/store.cpp): what a
// dry run promises and what the real run does.
module StoreForget {
  import opened Wrappers
  import opened StoreTables

  datatype Stats = Stats(removed: bool, purged: bool, tiles: nat)

  /** delete_locator. */
  function Dropped(db: Db, uri: string): Db { db.(locators := db.locators - {uri}) }

  /** The rows of tile_blob that a purge of an unreferenced blob deletes. */
  function BulkOf(bulk: map<Cell, Bulk>, media: set<int>): set<Cell> { set c | c in bulk && c.media in media }

  ghost function Forgotten(db: Db, uri: string): Db {
    if uri !in db.locators then db
    else if db.locators[uri].None? then Dropped(db, uri)
    else Purged(Dropped(db, uri), db.locators[uri].value)
  }

  ghost function TilesPurged(db: Db, blob: int): nat {
    if Holders(db, blob) != {} then 0 else |BulkOf(db.bulk, MediaOf(db, blob))|
  }

  ghost function RealStats(db: Db, uri: string): Stats {
    if uri !in db.locators then Stats(false, false, 0)
    else if db.locators[uri].None? then Stats(true, false, 0)
    else
      var blob := db.locators[uri].value;
      var tiles := TilesPurged(Dropped(db, uri), blob);
      var gone := blob !in Forgotten(db, uri).blobs;
      if tiles > 0 || gone then Stats(true, gone, tiles) else Stats(true, false, 0)
  }

  ghost function DryStats(db: Db, uri: string): Stats {
    if uri !in db.locators then Stats(false, false, 0)
    else Stats(true, db.locators[uri].Some? && |Holders(db, db.locators[uri].value)| <= 1, 0)
  }

  lemma OneHolder(db: Db, uri: string, blob: int)
    requires uri in Holders(db, blob)
    ensures |Holders(db, blob)| <= 1 <==> Holders(db, blob) == {uri}
    ensures Holders(Dropped(db, uri), blob) == Holders(db, blob) - {uri}
  {
    var rest := Holders(db, blob) - {uri};
    assert Holders(db, blob) == rest + {uri};
  }

  /** A dry run of forget_uri says exactly whether the blob will be purged; it never counts tiles.
      The real run purges the blob exactly when this was its last locator. */
  lemma DryRunPredicts(db: Db, uri: string)
    requires References(db)
    ensures DryStats(db, uri) == RealStats(db, uri).(tiles := 0)
    ensures RealStats(db, uri).purged <==>
      uri in db.locators && db.locators[uri].Some? && Holders(db, db.locators[uri].value) == {uri}
    ensures uri in db.locators && db.locators[uri].Some? ==>
      (RealStats(db, uri).purged <==> db.locators[uri].value !in Forgotten(db, uri).blobs)
  {
    if uri in db.locators && db.locators[uri].Some? {
      OneHolder(db, uri, db.locators[uri].value);
    }
  }

  /** The count of deleted tiles is how much the bulk table shrinks. */
  lemma TilesAreCounted(db: Db, uri: string)
    requires References(db)
    ensures RealStats(db, uri).tiles == |db.bulk| - |Forgotten(db, uri).bulk|
  {
    if uri in db.locators && db.locators[uri].Some? {
      PurgeIsCounted(Dropped(db, uri), db.locators[uri].value);
    }
  }

  lemma PurgeIsCounted(db: Db, blob: int)
    ensures TilesPurged(db, blob) == |db.bulk| - |Purged(db, blob).bulk|
  {
    BulkSplits(db.bulk, MediaOf(db, blob));
  }

  lemma BulkSplits(bulk: map<Cell, Bulk>, media: set<int>)
    ensures |BulkOf(bulk, media)| + |BulkWithout(bulk, media)| == |bulk|
  {
    var out := BulkOf(bulk, media);
    var kept := BulkWithout(bulk, media);
    assert bulk.Keys == out + kept.Keys && out !! kept.Keys;
    assert |out + kept.Keys| == |out| + |kept.Keys|;
    assert |bulk.Keys| == |bulk| && |kept.Keys| == |kept|;
  }

  // ---- Prefixes ----

  datatype PrefixStats = PrefixStats(locators: nat, blobs: nat, tiles: nat)

  function Added(p: PrefixStats, s: Stats): PrefixStats {
    PrefixStats(p.locators + (if s.removed then 1 else 0), p.blobs + (if s.purged then 1 else 0), p.tiles + s.tiles)
  }

  ghost function AllForgotten(db: Db, uris: seq<string>): Db {
    if uris == [] then db else Forgotten(AllForgotten(db, uris[..|uris| - 1]), uris[|uris| - 1])
  }

  ghost function RealPrefix(db: Db, uris: seq<string>): PrefixStats {
    if uris == [] then PrefixStats(0, 0, 0)
    else
      var front := uris[..|uris| - 1];
      Added(RealPrefix(db, front), RealStats(AllForgotten(db, front), uris[|uris| - 1]))
  }

  ghost function DryPrefix(db: Db, uris: seq<string>): PrefixStats {
    if uris == [] then PrefixStats(0, 0, 0)
    else Added(DryPrefix(db, uris[..|uris| - 1]), DryStats(db, uris[|uris| - 1]))
  }

  ghost function After(db: Db, uris: seq<string>, dry: bool): Db { if dry then db else AllForgotten(db, uris) }

  ghost function Counted(db: Db, uris: seq<string>, dry: bool): PrefixStats {
    if dry then DryPrefix(db, uris) else RealPrefix(db, uris)
  }

  ghost function AfterOne(db: Db, uri: string, dry: bool): Db { if dry then db else Forgotten(db, uri) }

  ghost function CountedOne(db: Db, uri: string, dry: bool): Stats {
    if dry then DryStats(db, uri) else RealStats(db, uri)
  }

  /** The first n uris have been forgotten and counted. */
  ghost predicate Forgot(was: Db, now: Db, uris: seq<string>, n: nat, dry: bool, st: PrefixStats) {
    n <= |uris| && now == After(was, uris[..n], dry) && st == Counted(was, uris[..n], dry)
  }

  lemma NoUris(db: Db, uris: seq<string>, dry: bool)
    ensures Forgot(db, db, uris, 0, dry, PrefixStats(0, 0, 0))
  {
    assert uris[..0] == [];
  }

  lemma AllUris(was: Db, now: Db, uris: seq<string>, dry: bool, st: PrefixStats)
    requires Forgot(was, now, uris, |uris|, dry, st)
    ensures now == After(was, uris, dry) && st == Counted(was, uris, dry)
  {
    assert uris[..|uris|] == uris;
  }

  lemma OneMoreUri(db: Db, uris: seq<string>, i: nat, dry: bool)
    requires i < |uris|
    ensures After(db, uris[..i + 1], dry) == AfterOne(After(db, uris[..i], dry), uris[i], dry)
    ensures Counted(db, uris[..i + 1], dry) ==
      Added(Counted(db, uris[..i], dry), CountedOne(After(db, uris[..i], dry), uris[i], dry))
  {
    assert uris[..i + 1][..i] == uris[..i] && uris[..i + 1][i] == uris[i];
  }

  function Members<T(==)>(s: seq<T>): set<T> { set x | x in s }

  predicate Distinct<T(==)>(s: seq<T>) { forall i, j :: 0 <= i < j < |s| ==> s[i] != s[j] }

  lemma FrontMembers<T>(s: seq<T>)
    requires s != [] && Distinct(s)
    ensures Distinct(s[..|s| - 1]) && s[|s| - 1] !in Members(s[..|s| - 1])
    ensures Members(s) == Members(s[..|s| - 1]) + {s[|s| - 1]}
  {
    var front := s[..|s| - 1];
    assert s == front + [s[|s| - 1]];
    forall i | 0 <= i < |front| ensures front[i] == s[i] {}
  }

  /** Blobs all of whose locators are among `uris`. */
  ghost function Covered(db: Db, uris: set<string>): set<int> {
    set b | b in db.blobs && Holders(db, b) != {} && Holders(db, b) <= uris
  }

  ghost function Alone(db: Db, uris: set<string>): set<int> {
    set b | b in Covered(db, uris) && |Holders(db, b)| == 1
  }

  ghost function Shared(db: Db, uris: set<string>): set<int> {
    set b | b in Covered(db, uris) && |Holders(db, b)| >= 2
  }

  /** One more uri covers at most one more blob: the one whose other locators are covered already. */
  ghost function Newly(db: Db, uris: set<string>, uri: string): set<int> {
    if uri in db.locators && db.locators[uri].Some? && Holders(db, db.locators[uri].value) <= uris + {uri}
    then {db.locators[uri].value} else {}
  }

  lemma CoveredGrows(db: Db, uris: set<string>, uri: string)
    requires References(db) && uri !in uris
    ensures Covered(db, uris + {uri}) == Covered(db, uris) + Newly(db, uris, uri)
    ensures Covered(db, uris) !! Newly(db, uris, uri)
  {
    forall b | b in Covered(db, uris + {uri}) ensures b in Covered(db, uris) || b in Newly(db, uris, uri) {
      if !(Holders(db, b) <= uris) {
        assert uri in Holders(db, b);
      }
    }
    forall b | b in Newly(db, uris, uri) ensures b in Covered(db, uris + {uri}) && b !in Covered(db, uris) {
      assert uri in Holders(db, b);
    }
  }

  lemma AloneGrows(db: Db, uris: set<string>, uri: string)
    requires References(db) && uri !in uris
    ensures Alone(db, uris + {uri}) == Alone(db, uris) + (set b | b in Newly(db, uris, uri) && |Holders(db, b)| == 1)
  {
    CoveredGrows(db, uris, uri);
  }

  /** The blob that has `uri` as its only locator. */
  ghost function LastOf(db: Db, uri: string): set<int> {
    if uri in db.locators && db.locators[uri].Some? && Holders(db, db.locators[uri].value) == {uri}
    then {db.locators[uri].value} else {}
  }

  lemma ForgottenStep(db: Db, uri: string)
    requires References(db) && UniqueKeys(db)
    ensures References(Forgotten(db, uri)) && UniqueKeys(Forgotten(db, uri))
    ensures Forgotten(db, uri).locators == db.locators - {uri}
    ensures Forgotten(db, uri).blobs == db.blobs - LastOf(db, uri)
  {
    DropKeepsSchema(db, uri);
    if uri in db.locators && db.locators[uri].Some? {
      LastStep(db, uri, db.locators[uri].value);
    } else {
      assert uri !in db.locators ==> db.locators - {uri} == db.locators;
    }
  }

  lemma LastStep(db: Db, uri: string, b: int)
    requires References(db) && UniqueKeys(db) && References(Dropped(db, uri)) && UniqueKeys(Dropped(db, uri))
    requires uri in db.locators && db.locators[uri] == Some(b)
    ensures References(Forgotten(db, uri)) && UniqueKeys(Forgotten(db, uri))
    ensures Forgotten(db, uri).locators == db.locators - {uri}
    ensures Forgotten(db, uri).blobs == db.blobs - LastOf(db, uri)
  {
    PurgeKeepsSchema(Dropped(db, uri), b);
    OneHolder(db, uri, b);
    PurgeKeepsLocators(Dropped(db, uri), b);
    PurgedBlobs(Dropped(db, uri), b);
  }

  lemma DropKeepsSchema(db: Db, uri: string)
    requires References(db) && UniqueKeys(db)
    ensures References(Dropped(db, uri)) && UniqueKeys(Dropped(db, uri))
  {
    SchemaIsKept(db, DropLocator(uri));
  }

  lemma PurgeKeepsSchema(db: Db, blob: int)
    requires References(db) && UniqueKeys(db)
    ensures References(Purged(db, blob)) && UniqueKeys(Purged(db, blob))
  {
    SchemaIsKept(db, Purge(blob));
  }

  lemma PurgedBlobs(db: Db, blob: int)
    ensures Purged(db, blob).blobs == if Holders(db, blob) == {} then db.blobs - {blob} else db.blobs
  {
  }

  lemma PurgeKeepsLocators(db: Db, blob: int)
    ensures Purged(db, blob).locators == db.locators
  {
    if Holders(db, blob) == {} {
      var after := Purged(db, blob).locators;
      forall u | u in db.locators ensures after[u] == db.locators[u] {
        assert u !in Holders(db, blob);
      }
    }
  }

  /** The real run step by step: locators go one by one, a blob with its last locator. */
  lemma {:induction false} AfterAll(db: Db, uris: seq<string>)
    requires References(db) && UniqueKeys(db) && Distinct(uris)
    ensures References(AllForgotten(db, uris)) && UniqueKeys(AllForgotten(db, uris))
    ensures AllForgotten(db, uris).locators == db.locators - Members(uris)
    ensures AllForgotten(db, uris).blobs == db.blobs - Covered(db, Members(uris))
  {
    if uris == [] {
      assert db.locators - Members(uris) == db.locators;
      assert Covered(db, Members(uris)) == {};
    } else {
      var front, uri := uris[..|uris| - 1], uris[|uris| - 1];
      FrontMembers(uris);
      AfterAll(db, front);
      AfterOneMore(db, AllForgotten(db, front), Members(front), uri);
    }
  }

  lemma AfterOneMore(db: Db, mid: Db, uris: set<string>, uri: string)
    requires References(db) && References(mid) && UniqueKeys(mid) && uri !in uris
    requires mid.locators == db.locators - uris && mid.blobs == db.blobs - Covered(db, uris)
    ensures References(Forgotten(mid, uri)) && UniqueKeys(Forgotten(mid, uri))
    ensures Forgotten(mid, uri).locators == db.locators - (uris + {uri})
    ensures Forgotten(mid, uri).blobs == db.blobs - Covered(db, uris + {uri})
  {
    ForgottenStep(mid, uri);
    CoveredGrows(db, uris, uri);
    NewlyIsLast(db, mid, uris, uri);
    RemoveTwice(db.locators, uris, uri);
    DropTwice(db.blobs, Covered(db, uris), Newly(db, uris, uri));
  }

  lemma RemoveTwice(m: map<string, Option<int>>, a: set<string>, u: string)
    ensures (m - a) - {u} == m - (a + {u})
  {
  }

  lemma DropTwice(s: set<int>, a: set<int>, b: set<int>)
    ensures (s - a) - b == s - (a + b)
  {
  }

  lemma NewlyIsLast(db: Db, mid: Db, uris: set<string>, uri: string)
    requires mid.locators == db.locators - uris && uri !in uris
    ensures Newly(db, uris, uri) == LastOf(mid, uri)
  {
    HoldersLeft(db, mid, uris, uri);
  }

  lemma PurgedIsNewly(db: Db, mid: Db, uris: set<string>, uri: string)
    requires References(mid) && mid.locators == db.locators - uris && uri !in uris
    ensures RealStats(mid, uri).purged <==> Newly(db, uris, uri) != {}
    ensures |Newly(db, uris, uri)| == if RealStats(mid, uri).purged then 1 else 0
  {
    DryRunPredicts(mid, uri);
    NewlyIsLast(db, mid, uris, uri);
  }

  lemma HoldersLeft(db: Db, mid: Db, uris: set<string>, uri: string)
    requires mid.locators == db.locators - uris && uri !in uris
    ensures uri in mid.locators <==> uri in db.locators
    ensures uri in db.locators ==> mid.locators[uri] == db.locators[uri]
    ensures forall b :: Holders(mid, b) == Holders(db, b) - uris
    ensures uri in db.locators && db.locators[uri].Some? ==>
      (Holders(mid, db.locators[uri].value) == {uri} <==> Holders(db, db.locators[uri].value) <= uris + {uri})
  {
    if uri in db.locators && db.locators[uri].Some? {
      var b := db.locators[uri].value;
      assert Holders(mid, b) == Holders(db, b) - uris;
      assert uri in Holders(mid, b);
      if Holders(db, b) <= uris + {uri} {
        assert Holders(mid, b) == {uri};
      }
      if Holders(mid, b) == {uri} {
        forall u | u in Holders(db, b) ensures u in uris + {uri} {
          if u !in uris { assert u in Holders(mid, b); }
        }
      }
    }
  }

  /** The real run counts every locator and every blob that loses its last one. */
  lemma {:induction false} RealCounts(db: Db, uris: seq<string>)
    requires References(db) && UniqueKeys(db) && Distinct(uris) && Members(uris) <= db.locators.Keys
    ensures RealPrefix(db, uris).locators == |uris|
    ensures RealPrefix(db, uris).blobs == |Covered(db, Members(uris))|
  {
    if uris == [] {
      assert Covered(db, Members(uris)) == {};
    } else {
      var front, uri := uris[..|uris| - 1], uris[|uris| - 1];
      FrontMembers(uris);
      RealCounts(db, front);
      AfterAll(db, front);
      PurgedIsNewly(db, AllForgotten(db, front), Members(front), uri);
      CoveredGrows(db, Members(front), uri);
      assert uri in AllForgotten(db, front).locators;
    }
  }

  /** The dry run counts every locator, and every blob whose only locator it sees. */
  lemma {:induction false} DryCounts(db: Db, uris: seq<string>)
    requires References(db) && Distinct(uris) && Members(uris) <= db.locators.Keys
    ensures DryPrefix(db, uris) == PrefixStats(|uris|, |Alone(db, Members(uris))|, 0)
  {
    if uris == [] {
      assert Alone(db, Members(uris)) == {};
    } else {
      var front, uri := uris[..|uris| - 1], uris[|uris| - 1];
      FrontMembers(uris);
      DryCounts(db, front);
      DryOne(db, Members(front), uri);
    }
  }

  lemma DryOne(db: Db, uris: set<string>, uri: string)
    requires References(db) && uri in db.locators && uri !in uris
    ensures |Alone(db, uris + {uri})| == |Alone(db, uris)| + (if DryStats(db, uri).purged then 1 else 0)
  {
    AloneGrows(db, uris, uri);
    CoveredGrows(db, uris, uri);
    var more := set b | b in Newly(db, uris, uri) && |Holders(db, b)| == 1;
    if db.locators[uri].Some? {
      var b := db.locators[uri].value;
      OneHolder(db, uri, b);
      assert more == if DryStats(db, uri).purged then {b} else {};
    } else {
      assert more == {};
    }
  }

  /** A dry run over a prefix counts the locators exactly and the blobs from below: exactly when
      no blob has two or more locators that are all under the prefix. */
  lemma PrefixDryRun(db: Db, uris: seq<string>)
    requires References(db) && UniqueKeys(db) && Distinct(uris) && Members(uris) <= db.locators.Keys
    ensures DryPrefix(db, uris).locators == RealPrefix(db, uris).locators == |uris|
    ensures DryPrefix(db, uris).blobs + |Shared(db, Members(uris))| == RealPrefix(db, uris).blobs
    ensures DryPrefix(db, uris).blobs == RealPrefix(db, uris).blobs <==>
      !exists b :: b in db.blobs && |Holders(db, b)| >= 2 && Holders(db, b) <= Members(uris)
  {
    RealCounts(db, uris);
    DryCounts(db, uris);
    AloneOrShared(db, Members(uris));
    SharedEmptyIff(db, Members(uris));
  }

  lemma AloneOrShared(db: Db, uris: set<string>)
    ensures |Covered(db, uris)| == |Alone(db, uris)| + |Shared(db, uris)|
  {
    var covered, alone, shared := Covered(db, uris), Alone(db, uris), Shared(db, uris);
    forall b | b in covered ensures |Holders(db, b)| > 0 {}
    assert covered == alone + shared && alone !! shared;
  }

  lemma SharedEmptyIff(db: Db, uris: set<string>)
    ensures |Shared(db, uris)| == 0 <==>
      !exists b :: b in db.blobs && |Holders(db, b)| >= 2 && Holders(db, b) <= uris
  {
    if b :| b in db.blobs && |Holders(db, b)| >= 2 && Holders(db, b) <= uris {
      assert b in Shared(db, uris);
    } else {
      assert Shared(db, uris) == {};
    }
  }

  /** Tiles deleted by the real run are the rows that the bulk table lost. */
  lemma {:induction false} PrefixTiles(db: Db, uris: seq<string>)
    requires References(db) && UniqueKeys(db) && Distinct(uris)
    ensures RealPrefix(db, uris).tiles == |db.bulk| - |AllForgotten(db, uris).bulk|
  {
    if uris != [] {
      FrontMembers(uris);
      PrefixTiles(db, uris[..|uris| - 1]);
      AfterAll(db, uris[..|uris| - 1]);
      TilesAreCounted(AllForgotten(db, uris[..|uris| - 1]), uris[|uris| - 1]);
    }
  }

  // ---- Orphans ----

  ghost predicate Orphan(db: Db, blob: int) { blob in db.blobs && Holders(db, blob) == {} }

  ghost function Orphans(db: Db): set<int> { set b | b in db.blobs && Holders(db, b) == {} }

  /** How many ids list_orphan_blob_ids returns under its limit. */
  ghost function Listed(db: Db, limit: int): int {
    if limit < 0 then 0 else if limit < |Orphans(db)| then limit else |Orphans(db)|
  }

  ghost function AllPurged(db: Db, blobs: seq<int>): Db {
    if blobs == [] then db else Purged(AllPurged(db, blobs[..|blobs| - 1]), blobs[|blobs| - 1])
  }

  /** Purging orphans removes exactly the listed blobs, so the dry run's count is exact, and it
      touches no locator. */
  lemma {:induction false} OrphanDryRun(db: Db, blobs: seq<int>)
    requires Distinct(blobs) && forall b :: b in blobs ==> Orphan(db, b)
    ensures AllPurged(db, blobs).locators == db.locators
    ensures AllPurged(db, blobs).blobs == db.blobs - Members(blobs)
    ensures |Members(blobs)| == |blobs|
  {
    if blobs != [] {
      var front := blobs[..|blobs| - 1];
      FrontMembers(blobs);
      assert forall b :: b in front ==> b in blobs;
      OrphanDryRun(db, front);
      PurgeKeepsLocators(AllPurged(db, front), blobs[|blobs| - 1]);
      assert blobs[|blobs| - 1] in blobs;
      assert Holders(AllPurged(db, front), blobs[|blobs| - 1]) == Holders(db, blobs[|blobs| - 1]);
    }
  }

  /** With a limit that is large enough no orphan is left. */
  lemma NoOrphanLeft(db: Db, blobs: seq<int>)
    requires Distinct(blobs) && (forall b :: b in blobs ==> Orphan(db, b)) && |blobs| == |Orphans(db)|
    ensures Orphans(AllPurged(db, blobs)) == {}
  {
    OrphanDryRun(db, blobs);
    var all := Members(blobs);
    assert all <= Orphans(db);
    SameSize(all, Orphans(db));
    forall b | b in AllPurged(db, blobs).blobs ensures Holders(AllPurged(db, blobs), b) == Holders(db, b) {}
  }

  lemma SameSize(a: set<int>, b: set<int>)
    requires a <= b && |a| == |b|
    ensures a == b
  {
    assert b == a + (b - a) && |b| == |a| + |b - a|;
  }
}
