// Compaction as a transformation that preserves meaning, and the canonical form it produces.
module CompactionTheorems {
  import opened Types
  import opened Ordering
  import opened Keys
  import opened Manifests
  import opened Verification
  import opened Database
  import opened Objects
  import opened Restoring
  import opened Soundness
  import opened Backups
  import opened BackupTheorems
  import opened Compaction

  // The replayed maps of a chain hold the database the chain restores to.
  lemma {:induction false} CompactedRepresents(c: Codec, store: Store, id: Uuid, chain: seq<Manifest>)
    requires Compactable(c, store, id) && LoadChain(c, store, id) == Ok(chain)
    ensures Restored(c, store, id).Some?
    ensures Represents(CompactedTables(c, store, chain), Restored(c, store, id).value)
  {
    var tables, lists := TablesOf(c, store, chain[0]).value, ChangeLists(c, store, chain[1..]).value;
    assert Represents(map[], map[]);
    ReplayTablesRepresents(map[], map[], tables);
    ReplayListsRepresents(ReplayTables(map[], tables), InsertTables(map[], tables), lists);
  }

  // The maps that are listed, key by key.
  lemma {:induction false} CompactedRow(c: Codec, store: Store, id: Uuid, chain: seq<Manifest>, name: string,
      pk: string)
    requires Compactable(c, store, id) && LoadChain(c, store, id) == Ok(chain)
    ensures Lookup(CompactedTables(c, store, chain), name, pk)
         == FinalRow(TablesOf(c, store, chain[0]).value, ChangeLists(c, store, chain[1..]).value, name, pk)
  {
    CompactedRepresents(c, store, id, chain);
    RestoredRow(c, store, id, chain, name, pk);
  }

  lemma {:induction false} ListedTablesAgree(tables: Tables)
    ensures TablesAgree(Listing(tables))
  {
    AscendingIsInjective(Sorted(tables.Keys));
  }

  // Objects carried forward are already stored under their hashes.
  lemma {:induction false} CarriedObjectsAreSound(c: Codec, store: Store, id: Uuid, chain: seq<Manifest>, m: Manifest)
    requires Legible(c, store) && LoadChain(c, store, id) == Ok(chain) && AllComplete(c, store, chain)
    requires m.objects == CompactObjects(chain)
    ensures SoundObjects(c, store, m)
  {
    LegibleChain(c, store, id, chain);
    CompactObjectsAreLastUntombstoned(chain);
    forall i | 0 <= i < |m.objects|
      ensures m.objects[i].contentKey == ObjectKey(m.objects[i].sha)
      ensures VerifyBlob(c, store, BlobRef(m.objects[i].contentKey, m.objects[i].sha)).Ok?
    {
      assert IsLastEntry(AllObjects(chain), m.objects[i]);
      assert m.objects[i] in AllObjects(chain);
      ChainObjectIsSound(c, store, chain, m.objects[i]);
    }
  }

  lemma {:induction false} ChainObjectIsSound(c: Codec, store: Store, chain: seq<Manifest>, entry: ObjectEntry)
    requires forall i :: 0 <= i < |chain| ==> Tidy(chain[i]) && Complete(c, store, chain[i])
    requires entry in AllObjects(chain)
    ensures entry.contentKey == ObjectKey(entry.sha)
    ensures VerifyBlob(c, store, BlobRef(entry.contentKey, entry.sha)).Ok?
  {
    if entry in chain[0].objects {
      var i :| 0 <= i < |chain[0].objects| && chain[0].objects[i] == entry;
      assert Complete(c, store, chain[0]);
      assert Refs(chain[0])[i] == BlobRef(entry.contentKey, entry.sha);
    } else {
      ChainObjectIsSound(c, store, chain[1..], entry);
    }
  }

  lemma {:induction false} TombstonesNameNoObject(tombstones: seq<Tombstone>)
    requires forall t :: t in tombstones ==> t.objectId == None
    ensures TombstonedIn(tombstones) == {}
  {
    if tombstones == [] {
    } else {
      assert tombstones[0] in tombstones;
      TombstonesNameNoObject(tombstones[1..]);
    }
  }

  // The tombstones a full, synthetic full or incremental snapshot of this code carries.
  ghost predicate RowTombstonesOnly(m: Manifest) {
    exists changes :: m.tombstones == Tombstones(changes)
  }

  // On chains written by this code no object is dropped: what is carried forward is the last-wins union.
  lemma {:induction false} OwnChainsKeepEveryObject(chain: seq<Manifest>, id: Uuid)
    requires forall i :: 0 <= i < |chain| ==> RowTombstonesOnly(chain[i])
    ensures Tombstoned(chain) == {}
    ensures Occurs(CompactObjects(chain), id) <==> Occurs(AllObjects(chain), id)
  {
    NothingTombstoned(chain);
    CompactObjectsAreLastUntombstoned(chain);
  }

  lemma {:induction false} NothingTombstoned(chain: seq<Manifest>)
    requires forall i :: 0 <= i < |chain| ==> RowTombstonesOnly(chain[i])
    ensures Tombstoned(chain) == {}
  {
    if chain == [] {
    } else {
      assert RowTombstonesOnly(chain[0]);
      var changes :| chain[0].tombstones == Tombstones(changes);
      forall t | t in Tombstones(changes) ensures t.objectId == None {
        TombstonesAreDeletes(changes, t);
      }
      TombstonesNameNoObject(chain[0].tombstones);
      NothingTombstoned(chain[1..]);
    }
  }

  lemma {:induction false} CompactedManifestIsRoot(c: Codec, req: CompactChainRequest, chain: seq<Manifest>,
      tables: Tables)
    requires chain != []
    ensures var m := CompactedManifest(c, req, chain, tables);
            RootOver(c, m, Listing(tables), m.objects) && m.objects == CompactObjects(chain)
  {
    var m := CompactedManifest(c, req, chain, tables);
    SealedManifestVerifies(c, m.(checksum := ""));
    assert m == WithChecksum(c, m.(checksum := ""));
  }

  lemma {:induction false} RootOverIsTidy(c: Codec, store: Store, m: Manifest, tables: seq<TableExport>)
    requires RootOver(c, m, tables, m.objects) && SoundObjects(c, store, m)
    ensures Tidy(m)
  {
    var blobs := TableBlobs(c, m.snapshotId, tables);
    TableBlobsAreWellPlaced(c, m.snapshotId, tables);
    assert forall i :: 0 <= i < |blobs| ==> m.database.tables[i] == blobs[i].entry;
  }

  // What a compaction wrote, before its manifest.
  lemma {:induction false} CompactionIsReady(c: Codec, before: Store, req: CompactChainRequest, m: Manifest,
      after: Store)
    returns (listing: seq<TableExport>, mid: Store)
    requires Legible(c, before) && Fresh(before, req.snapshotId) && Compacted(c, before, req, m, after)
    ensures listing == Listing(CompactedTables(c, before, LoadChain(c, before, req.sourceId).value))
    ensures TablesAgree(listing) && RootOver(c, m, listing, m.objects) && SoundObjects(c, mid, m)
    ensures m.snapshotId == req.snapshotId
    ensures ReadyToPublish(c, before, m.snapshotId, TableBlobs(c, m.snapshotId, listing), [], mid)
    ensures after == mid[ManifestKey(m.snapshotId) := c.prettyManifest(m)]
  {
    var chain := LoadChain(c, before, req.sourceId).value;
    var tables: Tables := CompactedTables(c, before, chain);
    listing := Listing(tables);
    var blobs := TableBlobs(c, req.snapshotId, listing);
    mid :| ObjectsWritten(c, Jobs([]), PutAll(before, blobs), mid)
           && after == mid[ManifestKey(m.snapshotId) := c.prettyManifest(m)];
    ListedTablesAgree(tables);
    TableBlobsAreWellPlaced(c, req.snapshotId, listing);
    ReadyIsStaged(c, before, req.snapshotId, blobs, [], mid);
    CompactedManifestIsRoot(c, req, chain, tables);
    CarriedObjectsAreSound(c, before, req.sourceId, chain, m);
    ObjectsStaySound(c, req.snapshotId, before, mid, m);
  }

  lemma {:induction false} CompactionIsWritten(c: Codec, before: Store, req: CompactChainRequest, m: Manifest,
      after: Store) returns (blobs: seq<PayloadBlob>)
    requires Legible(c, before) && Fresh(before, req.snapshotId) && Compacted(c, before, req, m, after)
    ensures m.snapshotId == req.snapshotId && PayloadsOf(m.snapshotId, blobs)
    ensures VerifyChecksum(c, m).Ok? && Tidy(m) && Written(c, before, m, blobs, [], after)
  {
    var listing, mid := CompactionIsReady(c, before, req, m, after);
    blobs := TableBlobs(c, m.snapshotId, listing);
    RootOverIsTidy(c, mid, m, listing);
  }

  // A finished compaction adds one visible snapshot and leaves every sound one alone.
  lemma {:induction false} CompactionKeepsOthers(c: Codec, before: Store, ids: set<Uuid>, req: CompactChainRequest,
      m: Manifest, after: Store)
    requires c.Lawful() && Sound(c, before, ids) && Fresh(before, req.snapshotId)
    requires Compacted(c, before, req, m, after)
    ensures Sound(c, after, ids) && SameSnapshots(c, before, after, ids)
    ensures LoadManifest(c, after, req.snapshotId) == Ok(m)
    ensures Snapshots(after) == Snapshots(before) + {req.snapshotId} && req.snapshotId !in Snapshots(before)
    ensures ObjectsMatchNames(c, before) ==> ObjectsMatchNames(c, after)
  {
    var blobs := CompactionIsWritten(c, before, req, m, after);
    WrittenKeepsOthers(c, before, ids, m, blobs, [], after);
  }

  // The new snapshot is sound, a chain of its own, and stands for the listed rows.
  lemma {:induction false} CompactionAddsSnapshot(c: Codec, before: Store, ids: set<Uuid>, req: CompactChainRequest,
      m: Manifest, after: Store)
    requires c.Lawful() && Sound(c, before, ids) && Fresh(before, req.snapshotId)
    requires Compacted(c, before, req, m, after)
    ensures Sound(c, after, ids + {req.snapshotId})
    ensures LoadChain(c, after, req.snapshotId) == Ok([m])
    ensures var listing := Listing(CompactedTables(c, before, LoadChain(c, before, req.sourceId).value));
            && TablesOf(c, after, m) == Ok(listing)
            && Restored(c, after, req.snapshotId) == Some(InsertTables(map[], listing))
  {
    var listing, mid := CompactionIsReady(c, before, req, m, after);
    RootIsPublished(c, before, ids, m, listing, [], mid, after);
  }

  lemma {:induction false} ObjectsStaySound(c: Codec, id: Uuid, before: Store, after: Store, m: Manifest)
    requires SoundObjects(c, before, m) && Staged(id, before, after)
    ensures SoundObjects(c, after, m)
  {
    forall i | 0 <= i < |m.objects|
      ensures m.objects[i].contentKey == ObjectKey(m.objects[i].sha)
      ensures VerifyBlob(c, after, BlobRef(m.objects[i].contentKey, m.objects[i].sha)).Ok?
    {
      assert VerifyBlob(c, before, BlobRef(m.objects[i].contentKey, m.objects[i].sha)).Ok?;
      ObjectKeyFacts(m.objects[i].sha);
    }
  }

  lemma {:induction false} CompactedListingRefiles(c: Codec, store: Store, id: Uuid)
    requires Compactable(c, store, id)
    ensures Restored(c, store, id).Some?
    ensures InsertTables(map[], Listing(CompactedTables(c, store, LoadChain(c, store, id).value)))
         == Refiled(Restored(c, store, id).value)
  {
    var chain := LoadChain(c, store, id).value;
    CompactedRepresents(c, store, id, chain);
    ListingRefiles(CompactedTables(c, store, chain), Restored(c, store, id).value);
  }

  // What a compaction does to any source, through write, load, verify and parse: the synthetic full restores to
  // the database of its source with every row refiled under its own primary key.
  lemma {:induction false} CompactionMeaning(c: Codec, before: Store, ids: set<Uuid>, req: CompactChainRequest,
      m: Manifest, after: Store)
    requires c.Lawful() && Sound(c, before, ids) && Fresh(before, req.snapshotId)
    requires Compacted(c, before, req, m, after)
    ensures Sound(c, after, ids + {req.snapshotId}) && Restored(c, before, req.sourceId).Some?
    ensures Restored(c, after, req.snapshotId) == Some(Refiled(Restored(c, before, req.sourceId).value))
  {
    CompactionAddsSnapshot(c, before, ids, req, m, after);
    CompactedListingRefiles(c, before, req.sourceId);
  }

  // So compaction preserves meaning exactly when every row of the source is filed under its own primary key.
  lemma {:induction false} CompactionPreservesMeaningIff(c: Codec, before: Store, req: CompactChainRequest,
      m: Manifest, after: Store)
    requires c.Lawful() && Legible(c, before) && Fresh(before, req.snapshotId)
    requires Compacted(c, before, req, m, after)
    ensures Restored(c, before, req.sourceId).Some?
    ensures Restored(c, after, req.snapshotId) == Restored(c, before, req.sourceId)
       <==> WellKeyed(Restored(c, before, req.sourceId).value)
  {
    CompactionMeaning(c, before, {}, req, m, after);
    RefiledIsSameIff(Restored(c, before, req.sourceId).value);
  }

  // The manifest loaded under the id of a compaction: the request says when and by what application, the last
  // manifest of the source says what schema.
  lemma {:induction false} CompactionIsDescribed(c: Codec, before: Store, req: CompactChainRequest, m: Manifest,
      after: Store)
    requires c.Lawful() && Legible(c, before) && Fresh(before, req.snapshotId) && Compacted(c, before, req, m, after)
    ensures LoadManifest(c, after, req.snapshotId).Ok? && LoadManifest(c, before, req.sourceId).Ok?
    ensures var made, tip := ManifestAt(c, after, req.snapshotId), ManifestAt(c, before, req.sourceId);
            && made.formatVersion == 1 && made.snapshotId == req.snapshotId && made.parent == None
            && made.kind == SyntheticFull && made.createdAt == req.createdAt
            && made.appId == req.appId && made.appVersion == req.appVersion
            && made.schemaVersion == tip.schemaVersion && made.schemaHash == tip.schemaHash
            && made.backend == tip.backend
            && made.database.exportFormat == "jsonl" && made.database.compression == Zstd
            && made.database.changes == [] && made.tombstones == []
  {
    CompactionKeepsOthers(c, before, {}, req, m, after);
    LoadChainIff(c, before, req.sourceId, LoadChain(c, before, req.sourceId).value);
  }

  // A compaction can be restored into exactly the targets into which its source can be.
  lemma {:induction false} CompactionKeepsTargets(c: Codec, before: Store, req: CompactChainRequest, m: Manifest,
      after: Store, schema: Schema)
    requires c.Lawful() && Legible(c, before) && Fresh(before, req.snapshotId) && Compacted(c, before, req, m, after)
    ensures Restorable(c, after, schema, req.snapshotId) <==> Restorable(c, before, schema, req.sourceId)
  {
    CompactionIsDescribed(c, before, req, m, after);
    RestorableIffTip(c, before, req.sourceId, schema);
    assert Restored(c, after, req.snapshotId).Some? by {
      CompactionMeaning(c, before, {}, req, m, after);
    }
    RestorableIffTip(c, after, req.snapshotId, schema);
  }

  // A snapshot that stands for a database can be restored into the targets with its backend and schema hash.
  lemma {:induction false} RestorableIffTip(c: Codec, store: Store, id: Uuid, schema: Schema)
    requires Restored(c, store, id).Some? && LoadManifest(c, store, id).Ok?
    ensures var tip := ManifestAt(c, store, id);
            Restorable(c, store, schema, id) <==> tip.backend == schema.backend && tip.schemaHash == schema.schemaHash
  {
    var chain := LoadChain(c, store, id).value;
    LoadChainIff(c, store, id, chain);
    assert SameSource(chain[0], chain[|chain| - 1]);
  }

  // A snapshot can be compacted exactly when it can be restored.
  lemma {:induction false} CompactableIff(c: Codec, store: Store, req: CompactChainRequest)
    ensures (exists m, after :: Compacted(c, store, req, m, after)) <==> Restored(c, store, req.sourceId).Some?
  {
    if Restored(c, store, req.sourceId).Some? {
      var chain := LoadChain(c, store, req.sourceId).value;
      var tables: Tables := CompactedTables(c, store, chain);
      var m := CompactedManifest(c, req, chain, tables);
      var mid := PutAll(store, TableBlobs(c, req.snapshotId, Listing(tables)));
      NothingWritten(c, mid);
      assert Compacted(c, store, req, m, mid[ManifestKey(m.snapshotId) := c.prettyManifest(m)]);
    }
  }

  // ----- the canonical form -----

  // Tables strictly by name, and, where rows carry their keys, rows strictly by primary key.
  lemma {:induction false} ListingIsCanonical(tables: Tables)
    ensures var listing := Listing(tables);
            && (forall i, j :: 0 <= i < j < |listing| ==> Less(listing[i].tableName, listing[j].tableName))
            && forall t :: 0 <= t < |listing| ==>
                 listing[t].tableName in tables &&
                 (RowsWellKeyed(tables[listing[t].tableName]) ==> KeyOrdered(listing[t].rows))
  {
    var names, listing := Sorted(tables.Keys), Listing(tables);
    forall t | 0 <= t < |listing|
      ensures listing[t].tableName in tables
      ensures RowsWellKeyed(tables[listing[t].tableName]) ==> KeyOrdered(listing[t].rows)
    {
      assert names[t] in names;
      if RowsWellKeyed(tables[names[t]]) {
        RowsAreInOrder(tables[names[t]]);
      }
    }
  }

  lemma {:induction false} ListsConcat(tables: Tables, a: seq<seq<Change>>, b: seq<seq<Change>>)
    ensures ReplayLists(tables, a + b) == ReplayLists(ReplayLists(tables, a), b)
    decreases |a|
  {
    if a == [] {
      assert a + b == b;
    } else {
      assert (a + b)[1..] == a[1..] + b;
      ListsConcat(ReplayChanges(tables, a[0]), a[1..], b);
    }
  }

  lemma {:induction false} SingletonChain(m: Manifest)
    requires m.tombstones == []
    ensures AllObjects([m]) == m.objects && Tombstoned([m]) == {}
  {
    assert [m][1..] == [];
    assert m.objects + [] == m.objects;
  }

  lemma {:induction false} IdsOfLatest(objects: seq<ObjectEntry>, id: string)
    ensures id in LatestById(map[], objects, {}).Keys <==> id in Ids(objects)
  {
    if id in Ids(objects) {
      var i :| 0 <= i < |objects| && Ids(objects)[i] == id;
      assert Occurs(objects, objects[i].objectId);
      LatestIsLast(objects, {}, id);
    }
    if id in LatestById(map[], objects, {}).Keys {
      LatestIsLast(objects, {}, id);
      var i :| 0 <= i < |objects| && objects[i].objectId == id;
      assert Ids(objects)[i] == id;
    }
  }

  // Objects of a synthetic full: already by id, without tombstones.
  lemma {:induction false} RecompactedObjects(m: Manifest)
    requires m.tombstones == []
    requires forall i, j :: 0 <= i < j < |m.objects| ==> Less(m.objects[i].objectId, m.objects[j].objectId)
    ensures CompactObjects([m]) == m.objects
  {
    SingletonChain(m);
    var objects := m.objects;
    var latest := LatestById(map[], objects, {});
    forall id ensures id in Ids(objects) <==> id in Sorted(latest.Keys) {
      IdsOfLatest(objects, id);
    }
    assert Ascending(Ids(objects));
    AscendingIsUnique(Ids(objects), SortedIds(latest.Keys));
    forall i | 0 <= i < |objects| ensures InIdOrder(latest)[i] == objects[i] {
      UniqueEntryIsLast(objects, i);
      assert Ids(objects)[i] == objects[i].objectId;
    }
  }

  lemma {:induction false} UniqueEntryIsLast(objects: seq<ObjectEntry>, i: nat)
    requires i < |objects|
    requires forall j, k :: 0 <= j < k < |objects| ==> Less(objects[j].objectId, objects[k].objectId)
    ensures var latest := LatestById(map[], objects, {});
            objects[i].objectId in latest && latest[objects[i].objectId] == objects[i]
  {
    var id := objects[i].objectId;
    assert Occurs(objects, id);
    LatestIsLast(objects, {}, id);
    var latest := LatestById(map[], objects, {});
    var k :| 0 <= k < |objects| && objects[k] == latest[id];
    if k != i {
      LessIsTotal(objects[i].objectId, objects[k].objectId);
    }
  }

  // Two entries that differ only in the snapshot they are stored under.
  predicate SamePayload(a: TableEntry, b: TableEntry) {
    a.tableName == b.tableName && a.rowCount == b.rowCount && a.sha == b.sha
  }

  // Two manifests with the same tables, hashes, counts and objects.
  ghost predicate SameContents(a: Manifest, b: Manifest) {
    && a.objects == b.objects
    && a.database.rowCount == b.database.rowCount
    && a.database.tableCount == b.database.tableCount
    && |a.database.tables| == |b.database.tables|
    && forall i :: 0 <= i < |a.database.tables| ==> SamePayload(a.database.tables[i], b.database.tables[i])
  }

  // A finished compaction, the chain it read and the tables it listed.
  ghost predicate CompactionOf(c: Codec, before: Store, req: CompactChainRequest, m: Manifest, after: Store,
      chain: seq<Manifest>, tables: Tables)
  {
    && chain != [] && Parses(c, before, chain) && tables == CompactedTables(c, before, chain)
    && LoadChain(c, before, req.sourceId) == Ok(chain)
    && c.Lawful() && Legible(c, before) && Fresh(before, req.snapshotId) && Compacted(c, before, req, m, after)
  }

  lemma {:induction false} CompactionIsReadBack(c: Codec, before: Store, req: CompactChainRequest, m: Manifest,
      after: Store, chain: seq<Manifest>, tables: Tables)
    requires CompactionOf(c, before, req, m, after, chain, tables)
    ensures LoadChain(c, after, req.snapshotId) == Ok([m]) && TablesOf(c, after, m) == Ok(Listing(tables))
  {
    CompactionAddsSnapshot(c, before, {}, req, m, after);
  }

  lemma {:induction false} PublishingKeepsChain(before: Store, id: Uuid, body: Bytes, chain: seq<Manifest>)
    requires ManifestKey(id) !in before
    ensures KeptChain(before, before[ManifestKey(id) := body], chain)
  {
  }

  lemma {:induction false} KeptInTwoSteps(before: Store, mid: Store, after: Store, chain: seq<Manifest>)
    requires KeptChain(before, mid, chain) && KeptChain(mid, after, chain)
    ensures KeptChain(before, after, chain)
  {
    forall i | 0 <= i < |chain|
      ensures Kept(before, after, ManifestKey(chain[i].snapshotId)) && KeptRefs(before, after, chain[i])
    {
      assert KeptRefs(before, mid, chain[i]) && KeptRefs(mid, after, chain[i]);
      forall j | 0 <= j < |Refs(chain[i])| ensures Kept(before, after, Refs(chain[i])[j].key) {
        assert Kept(before, mid, Refs(chain[i])[j].key) && Kept(mid, after, Refs(chain[i])[j].key);
      }
    }
  }

  // A compaction keeps what its source reads.
  lemma {:induction false} CompactionKeepsSource(c: Codec, before: Store, req: CompactChainRequest, m: Manifest,
      after: Store, chain: seq<Manifest>, tables: Tables)
    requires CompactionOf(c, before, req, m, after, chain, tables)
    ensures KeptChain(before, after, chain)
  {
    var listing, mid := CompactionIsReady(c, before, req, m, after);
    ReadyIsStaged(c, before, req.snapshotId, TableBlobs(c, m.snapshotId, listing), [], mid);
    LegibleChain(c, before, req.sourceId, chain);
    FreshIsNotVisible(before, req.snapshotId);
    StageKeepsChain(req.snapshotId, before, mid, chain);
    PublishingKeepsChain(mid, m.snapshotId, c.prettyManifest(m), chain);
    KeptInTwoSteps(before, mid, after, chain);
  }

  // The listed tables are well keyed exactly when the database of the source is.
  lemma {:induction false} CompactedTablesAreWellKeyedIff(c: Codec, store: Store, id: Uuid, chain: seq<Manifest>)
    requires Compactable(c, store, id) && LoadChain(c, store, id) == Ok(chain)
    ensures Restored(c, store, id).Some?
    ensures TablesWellKeyed(CompactedTables(c, store, chain)) <==> WellKeyed(Restored(c, store, id).value)
  {
    CompactedRepresents(c, store, id, chain);
    RepresentedIsWellKeyedIff(CompactedTables(c, store, chain), Restored(c, store, id).value);
  }

  lemma {:induction false} RepresentedIsWellKeyedIff(tables: Tables, db: Db)
    requires Represents(tables, db)
    ensures TablesWellKeyed(tables) <==> WellKeyed(db)
  {
    forall name: string, pk: string | name in tables && pk in tables[name]
      ensures (name, pk) in db && db[(name, pk)] == tables[name][pk]
    {
      RepresentedRowIsFound(tables, db, name, pk);
    }
    forall k: (string, string) | k in db ensures k.0 in tables && k.1 in tables[k.0] {
      assert Lookup(tables, k.0, k.1) == Find(db, k.0, k.1);
    }
  }

  lemma {:induction false} ListedRootReplays(c: Codec, store: Store, m: Manifest, tables: Tables)
    requires TablesOf(c, store, m) == Ok(Listing(tables))
    ensures Parses(c, store, [m]) && CompactedTables(c, store, [m]) == Rekeyed(tables)
  {
    ListingRekeys(tables);
    assert [m][1..] == [];
    assert ChangeLists(c, store, [m][1..]) == Ok([]);
  }

  // The tables replayed from a synthetic full are well keyed, and are those it was listed from exactly when those
  // were.
  lemma {:induction false} RecompactedTablesIff(c: Codec, before: Store, req: CompactChainRequest, m: Manifest,
      after: Store, chain: seq<Manifest>, tables: Tables)
    requires CompactionOf(c, before, req, m, after, chain, tables)
    ensures LoadChain(c, after, req.snapshotId) == Ok([m]) && Parses(c, after, [m])
    ensures TablesWellKeyed(CompactedTables(c, after, [m]))
    ensures CompactedTables(c, after, [m]) == tables <==> TablesWellKeyed(tables)
  {
    CompactionIsReadBack(c, before, req, m, after, chain, tables);
    ListedRootReplays(c, after, m, tables);
    ListingRekeys(tables);
    ListingReloadsIff(tables);
  }

  lemma {:induction false} ChangeListsConcat(c: Codec, store: Store, a: seq<Manifest>, b: seq<Manifest>)
    requires ChangeLists(c, store, a).Ok? && ChangeLists(c, store, b).Ok?
    ensures ChangeLists(c, store, a + b) == Ok(ChangeLists(c, store, a).value + ChangeLists(c, store, b).value)
  {
    if a == [] {
      assert a + b == b;
      assert [] + ChangeLists(c, store, b).value == ChangeLists(c, store, b).value;
    } else {
      assert (a + b)[1..] == a[1..] + b && (a + b)[0] == a[0];
      ChangeListsConcat(c, store, a[1..], b);
      var head, rest, last := ChangesOf(c, store, a[0]).value, ChangeLists(c, store, a[1..]).value,
          ChangeLists(c, store, b).value;
      assert [head] + (rest + last) == [head] + rest + last;
    }
  }

  // Replaying a chain and then more incrementals is replaying the longer chain.
  lemma {:induction false} ReplayExtended(c: Codec, store: Store, chain: seq<Manifest>, suffix: seq<Manifest>)
    requires chain != [] && Parses(c, store, chain) && ChangeLists(c, store, suffix).Ok?
    ensures Parses(c, store, chain + suffix)
    ensures CompactedTables(c, store, chain + suffix)
         == ReplayLists(CompactedTables(c, store, chain), ChangeLists(c, store, suffix).value)
  {
    assert (chain + suffix)[0] == chain[0] && (chain + suffix)[1..] == chain[1..] + suffix;
    ChangeListsConcat(c, store, chain[1..], suffix);
    ListsConcat(ReplayTables(map[], TablesOf(c, store, chain[0]).value), ChangeLists(c, store, chain[1..]).value,
                ChangeLists(c, store, suffix).value);
  }

  // A replay reads payload blobs only, so it gives the same tables in any store that keeps them.
  lemma {:induction false} ReplayKept(c: Codec, before: Store, after: Store, chain: seq<Manifest>)
    requires chain != [] && Parses(c, before, chain) && KeptChain(before, after, chain)
    ensures Parses(c, after, chain) && CompactedTables(c, after, chain) == CompactedTables(c, before, chain)
  {
    assert KeptRefs(before, after, chain[0]);
    PayloadKeysAreRefs(before, after, chain[0]);
    LoadTablesKept(c, before, after, chain[0].database, chain[0].database.tables);
    ChangeListsKept(c, before, after, chain[1..]);
  }

  // Two ways to go on with the same changes replay to the same tables.
  ghost predicate SameReplay(c: Codec, store: Store, a: seq<Manifest>, b: seq<Manifest>) {
    && a != [] && b != [] && Parses(c, store, a) && Parses(c, store, b)
    && CompactedTables(c, store, a) == CompactedTables(c, store, b)
  }

  ghost predicate SameChanges(c: Codec, store: Store, a: seq<Manifest>, b: seq<Manifest>) {
    ChangeLists(c, store, a).Ok? && ChangeLists(c, store, b) == ChangeLists(c, store, a)
  }

  // Two chains replay to the same tables exactly when they do so under all later incrementals.
  lemma {:induction false} SameReplayExtends(c: Codec, store: Store, a: seq<Manifest>, b: seq<Manifest>)
    requires a != [] && b != [] && Parses(c, store, a) && Parses(c, store, b)
    ensures (forall suffix, other :: SameChanges(c, store, suffix, other) ==>
               SameReplay(c, store, a + suffix, b + other))
       <==> CompactedTables(c, store, a) == CompactedTables(c, store, b)
  {
    if CompactedTables(c, store, a) == CompactedTables(c, store, b) {
      forall suffix, other | SameChanges(c, store, suffix, other)
        ensures SameReplay(c, store, a + suffix, b + other)
      {
        ReplayExtended(c, store, a, suffix);
        ReplayExtended(c, store, b, other);
      }
    } else {
      assert SameChanges(c, store, [], []);
      assert a + [] == a && b + [] == b;
      assert !SameReplay(c, store, a + [], b + []);
    }
  }

  // A synthetic full stands in for its source under later incrementals: replaying them over the stored compaction
  // gives the tables that replaying incrementals with the same changes over the whole source chain gives. It does
  // so for all of them exactly when the rows of the source are well keyed.
  lemma {:induction false} SuffixOverCompactedPrefixIff(c: Codec, before: Store, req: CompactChainRequest, m: Manifest,
      after: Store, chain: seq<Manifest>, tables: Tables, later: Store)
    requires CompactionOf(c, before, req, m, after, chain, tables)
    requires KeptChain(after, later, [m]) && KeptChain(after, later, chain)
    ensures (forall suffix, other :: SameChanges(c, later, suffix, other) ==>
               SameReplay(c, later, [m] + suffix, chain + other))
       <==> TablesWellKeyed(tables)
  {
    RecompactedTablesIff(c, before, req, m, after, chain, tables);
    CompactionKeepsSource(c, before, req, m, after, chain, tables);
    KeptInTwoSteps(before, after, later, chain);
    ReplayKept(c, after, later, [m]);
    ReplayKept(c, before, later, chain);
    SameReplayExtends(c, later, [m], chain);
  }

  // Compacting a synthetic full again: same objects, and the same tables, rows, hashes and counts if what it
  // reloads is listed as before.
  lemma {:induction false} RecompactionReproduces(c: Codec, req: CompactChainRequest, chain: seq<Manifest>,
        tables: Tables, m: Manifest, again: CompactChainRequest, reloaded: Tables)
    requires chain != [] && m == CompactedManifest(c, req, chain, tables) && Listing(reloaded) == Listing(tables)
    ensures SameContents(CompactedManifest(c, again, [m], reloaded), m)
  {
    CompactObjectsAreLastUntombstoned(chain);
    RecompactedObjects(m);
  }

  lemma {:induction false} CompactedOnce(c: Codec, before: Store, req: CompactChainRequest, m: Manifest, after: Store,
        chain: seq<Manifest>)
    requires Compacted(c, before, req, m, after) && LoadChain(c, before, req.sourceId) == Ok(chain)
    ensures chain != [] && Parses(c, before, chain)
    ensures m == CompactedManifest(c, req, chain, CompactedTables(c, before, chain))
  {
  }

  lemma {:induction false} SecondCompaction(c: Codec, after: Store, again: CompactChainRequest, m: Manifest,
        tables: Tables, m2: Manifest, after2: Store)
    requires LoadChain(c, after, again.sourceId) == Ok([m]) && Parses(c, after, [m])
    requires CompactedTables(c, after, [m]) == tables
    requires Compacted(c, after, again, m2, after2)
    ensures m2 == CompactedManifest(c, again, [m], tables)
  {
    CompactedOnce(c, after, again, m2, after2, [m]);
  }

  // The rows of each listed table are in the order of their own keys.
  ghost predicate ListedInOrder(tables: Tables) {
    forall i :: 0 <= i < |Listing(tables)| ==> KeyOrdered(Listing(tables)[i].rows)
  }

  // Compacting a synthetic full again lists the same tables and rows exactly when the rows of the first listing
  // are in the order of their own keys, and then nothing differs but the snapshot id.
  lemma {:induction false} CompactionIsIdempotentIff(c: Codec, before: Store, req: CompactChainRequest, m: Manifest,
        after: Store, chain: seq<Manifest>, tables: Tables, again: CompactChainRequest, m2: Manifest, after2: Store)
    requires CompactionOf(c, before, req, m, after, chain, tables)
    requires again.sourceId == req.snapshotId && Compacted(c, after, again, m2, after2)
    ensures Parses(c, after, [m])
    ensures Listing(CompactedTables(c, after, [m])) == Listing(tables) <==> ListedInOrder(tables)
    ensures ListedInOrder(tables) ==> SameContents(m2, m)
  {
    CompactionIsReadBack(c, before, req, m, after, chain, tables);
    ListedRootReplays(c, after, m, tables);
    RelistingIff(tables);
    if ListedInOrder(tables) {
      SecondCompaction(c, after, again, m, Rekeyed(tables), m2, after2);
      CompactedOnce(c, before, req, m, after, chain);
      RecompactionReproduces(c, req, chain, tables, m, again, Rekeyed(tables));
    }
  }

  lemma {:induction false} WellKeyedIsListedInOrder(tables: Tables)
    requires TablesWellKeyed(tables)
    ensures ListedInOrder(tables)
  {
    ListingIsCanonical(tables);
  }

  // From the second compaction on, compacting is idempotent whatever the source was.
  lemma {:induction false} CompactingAgainIsIdempotent(c: Codec, before: Store, req: CompactChainRequest, m: Manifest,
        after: Store, chain: seq<Manifest>, tables: Tables, again: CompactChainRequest, m2: Manifest, after2: Store,
        third: CompactChainRequest, m3: Manifest, after3: Store)
    requires CompactionOf(c, before, req, m, after, chain, tables)
    requires again.sourceId == req.snapshotId && Fresh(after, again.snapshotId)
    requires Compacted(c, after, again, m2, after2)
    requires third.sourceId == again.snapshotId && Compacted(c, after2, third, m3, after3)
    ensures SameContents(m3, m2)
  {
    RecompactedTablesIff(c, before, req, m, after, chain, tables);
    CompactionKeepsOthers(c, before, {}, req, m, after);
    var reloaded := CompactedTables(c, after, [m]);
    WellKeyedIsListedInOrder(reloaded);
    CompactionIsIdempotentIff(c, after, again, m2, after2, [m], reloaded, third, m3, after3);
  }
}
