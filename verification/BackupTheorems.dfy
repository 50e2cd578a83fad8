// What a finished backup stands for.
module BackupTheorems {
  import opened Types
  import opened Payload
  import opened Keys
  import opened Repositories
  import opened Manifests
  import opened Verification
  import opened Database
  import opened Objects
  import opened Restoring
  import opened ObjectRestore
  import opened Soundness
  import opened Backups

  // Payload blobs of one snapshot, none of them a manifest.
  ghost predicate PayloadsOf(id: Uuid, blobs: seq<PayloadBlob>) {
    forall i :: 0 <= i < |blobs| ==>
      UnderSnapshot(id, blobs[i].entry.contentKey) && SnapshotIdOf(blobs[i].entry.contentKey) == None
  }

  lemma {:induction false} PutAllIsStaged(id: Uuid, before: Store, blobs: seq<PayloadBlob>)
    requires PayloadsOf(id, blobs)
    ensures Staged(id, before, PutAll(before, blobs))
  {
    if blobs == [] {
    } else {
      PutAllIsStaged(id, before, blobs[..|blobs| - 1]);
    }
  }

  lemma {:induction false} PayloadsKeepObjects(c: Codec, id: Uuid, before: Store, blobs: seq<PayloadBlob>)
    requires PayloadsOf(id, blobs) && ObjectsMatchNames(c, before)
    ensures ObjectsMatchNames(c, PutAll(before, blobs))
  {
    forall sha | ObjectKey(sha) in PutAll(before, blobs)
      ensures c.hash(PutAll(before, blobs)[ObjectKey(sha)]) == sha
    {
      ObjectKeyFacts(sha);
      PutAllAt(before, blobs, ObjectKey(sha));
      assert Get(PutAll(before, blobs), ObjectKey(sha)) == Get(before, ObjectKey(sha));
    }
  }

  lemma {:induction false} JobsAreKeyedByHash(refs: seq<ObjectRef>)
    ensures KeyedByHash(Jobs(refs))
  {
  }

  // The store just before the manifest is written.
  ghost predicate ReadyToPublish(c: Codec, before: Store, id: Uuid, blobs: seq<PayloadBlob>, refs: seq<ObjectRef>,
      mid: Store)
  {
    Fresh(before, id) && PayloadsOf(id, blobs) && ObjectsWritten(c, Jobs(refs), PutAll(before, blobs), mid)
  }

  lemma {:induction false} ReadyIsStaged(c: Codec, before: Store, id: Uuid, blobs: seq<PayloadBlob>,
      refs: seq<ObjectRef>, mid: Store)
    requires ReadyToPublish(c, before, id, blobs, refs, mid)
    ensures Staged(id, before, mid) && ManifestKey(id) !in mid
    ensures ObjectsMatchNames(c, before) ==> ObjectsMatchNames(c, mid)
  {
    PutAllIsStaged(id, before, blobs);
    if ObjectsMatchNames(c, before) {
      PayloadsKeepObjects(c, id, before, blobs);
    }
    JobsAreKeyedByHash(refs);
    WrittenObjectsMatch(c, Jobs(refs), PutAll(before, blobs), mid);
    ObjectsKeepStage(id, before, PutAll(before, blobs), mid, refs);
    ManifestKeyIsUnder(id);
    ManifestKeyRoundTrip(id);
  }

  // Payloads of one snapshot leave every object key as it was.
  lemma {:induction false} PayloadsKeepReferences(c: Codec, id: Uuid, before: Store, blobs: seq<PayloadBlob>,
      refs: seq<ObjectRef>)
    requires PayloadsOf(id, blobs)
    ensures ReferencedObjectsMatch(c, Jobs(refs), PutAll(before, blobs))
       <==> ReferencedObjectsMatch(c, Jobs(refs), before)
  {
    forall i | 0 <= i < |refs|
      ensures Get(PutAll(before, blobs), Jobs(refs)[i].key) == Get(before, Jobs(refs)[i].key)
    {
      ObjectKeyFacts(refs[i].sha);
      PutAllAt(before, blobs, Jobs(refs)[i].key);
    }
  }

  // The objects of a new snapshot verify exactly when those that were stored already have their declared
  // hashes: what a cancelled batch left under a wrong name is found by the next backup that refers to it.
  lemma {:induction false} NewObjectsVerifyIff(c: Codec, before: Store, id: Uuid, blobs: seq<PayloadBlob>,
      refs: seq<ObjectRef>, mid: Store)
    requires ReadyToPublish(c, before, id, blobs, refs, mid)
    ensures (forall i :: 0 <= i < |refs| ==> VerifyBlob(c, mid, Jobs(refs)[i]).Ok?)
       <==> ReferencedObjectsMatch(c, Jobs(refs), before)
  {
    JobsAreKeyedByHash(refs);
    WrittenObjectsMatch(c, Jobs(refs), PutAll(before, blobs), mid);
    PayloadsKeepReferences(c, id, before, blobs, refs);
    assert forall i :: 0 <= i < |refs| ==>
        (VerifyBlob(c, mid, Jobs(refs)[i]).Ok?
         <==> Jobs(refs)[i].key in mid && c.hash(mid[Jobs(refs)[i].key]) == Jobs(refs)[i].sha);
  }

  lemma {:induction false} ReadyPayloads(c: Codec, before: Store, id: Uuid, blobs: seq<PayloadBlob>,
      refs: seq<ObjectRef>, mid: Store)
    requires ReadyToPublish(c, before, id, blobs, refs, mid) && Agreeing(blobs)
    ensures forall i :: 0 <= i < |blobs| ==> Get(mid, blobs[i].entry.contentKey) == Ok(blobs[i].bytes)
  {
    AgreeingBlobsAreStored(before, blobs);
    forall i | 0 <= i < |blobs| ensures Get(mid, blobs[i].entry.contentKey) == Ok(blobs[i].bytes) {
      assert Get(PutAll(before, blobs), blobs[i].entry.contentKey) == Ok(blobs[i].bytes);
    }
  }

  // A finished run with a sealed manifest, whatever it depends on, leaves every sound snapshot alone.
  lemma {:induction false} WrittenKeepsOthers(c: Codec, before: Store, ids: set<Uuid>, m: Manifest,
      blobs: seq<PayloadBlob>, refs: seq<ObjectRef>, after: Store)
    requires c.Lawful() && Sound(c, before, ids) && Fresh(before, m.snapshotId) && PayloadsOf(m.snapshotId, blobs)
    requires VerifyChecksum(c, m).Ok? && Tidy(m) && Written(c, before, m, blobs, refs, after)
    ensures Sound(c, after, ids) && SameSnapshots(c, before, after, ids)
    ensures Snapshots(after) == Snapshots(before) + {m.snapshotId} && m.snapshotId !in Snapshots(before)
    ensures LoadManifest(c, after, m.snapshotId) == Ok(m)
    ensures ObjectsMatchNames(c, before) ==> ObjectsMatchNames(c, after)
  {
    var mid :| ObjectsWritten(c, Jobs(refs), PutAll(before, blobs), mid)
               && after == mid[ManifestKey(m.snapshotId) := c.prettyManifest(m)];
    ReadyIsStaged(c, before, m.snapshotId, blobs, refs, mid);
    StagesKeepSound(c, before, mid, ids, m.snapshotId);
    PublishingKeepsOthers(c, mid, ids, m, after);
    if ObjectsMatchNames(c, before) {
      ManifestIsNoObject(c, mid, m);
    }
  }

  lemma {:induction false} ManifestIsNoObject(c: Codec, store: Store, m: Manifest)
    requires ObjectsMatchNames(c, store)
    ensures ObjectsMatchNames(c, store[ManifestKey(m.snapshotId) := c.prettyManifest(m)])
  {
    ManifestKeyIsUnder(m.snapshotId);
    forall sha ensures ObjectKey(sha) != ManifestKey(m.snapshotId) {
      ObjectKeyFacts(sha);
    }
  }

  // The objects a manifest names are stored under their hashes.
  ghost predicate SoundObjects(c: Codec, store: Store, m: Manifest) {
    forall i :: 0 <= i < |m.objects| ==>
      && m.objects[i].contentKey == ObjectKey(m.objects[i].sha)
      && VerifyBlob(c, store, BlobRef(m.objects[i].contentKey, m.objects[i].sha)).Ok?
  }

  lemma {:induction false} WrittenEntriesAreSound(c: Codec, refs: seq<ObjectRef>, store: Store, m: Manifest)
    requires m.objects == Entries(refs)
    requires forall i :: 0 <= i < |refs| ==> VerifyBlob(c, store, Jobs(refs)[i]).Ok?
    ensures SoundObjects(c, store, m)
  {
    forall i | 0 <= i < |m.objects|
      ensures VerifyBlob(c, store, BlobRef(m.objects[i].contentKey, m.objects[i].sha)).Ok?
    {
      assert VerifyBlob(c, store, Jobs(refs)[i]).Ok?;
    }
  }

  lemma {:induction false} NewManifestIsComplete(c: Codec, m: Manifest, blobs: seq<PayloadBlob>, mid: Store)
    requires VerifyChecksum(c, m).Ok? && SoundObjects(c, mid, m)
    requires m.database.tables + m.database.changes == EntriesOf(blobs)
    requires forall i :: 0 <= i < |blobs| ==> blobs[i].entry.sha == c.hash(blobs[i].bytes)
    requires forall i :: 0 <= i < |blobs| ==> Get(mid, blobs[i].entry.contentKey) == Ok(blobs[i].bytes)
    ensures Complete(c, mid, m)
  {
    forall i | 0 <= i < |Refs(m)| ensures VerifyBlob(c, mid, Refs(m)[i]).Ok? {
      if i < |m.objects| {
        assert Refs(m)[i] == BlobRef(m.objects[i].contentKey, m.objects[i].sha);
      } else {
        var j := i - |m.objects|;
        assert Refs(m)[i] == BlobRef(blobs[j].entry.contentKey, blobs[j].entry.sha);
      }
    }
  }

  // A new snapshot verifies exactly when payloads of one key have one hash and the objects that were stored
  // already have theirs.
  lemma {:induction false} NewManifestIsCompleteIff(c: Codec, before: Store, m: Manifest, blobs: seq<PayloadBlob>,
      refs: seq<ObjectRef>, mid: Store)
    requires ReadyToPublish(c, before, m.snapshotId, blobs, refs, mid)
    requires VerifyChecksum(c, m).Ok? && m.objects == Entries(refs)
    requires m.database.tables + m.database.changes == EntriesOf(blobs)
    requires forall i :: 0 <= i < |blobs| ==> blobs[i].entry.sha == c.hash(blobs[i].bytes)
    ensures Complete(c, mid, m)
       <==> && ReferencedObjectsMatch(c, Jobs(refs), before)
            && forall i, j :: SameKey(blobs, i, j) ==> blobs[i].entry.sha == blobs[j].entry.sha
  {
    NewObjectsVerifyIff(c, before, m.snapshotId, blobs, refs, mid);
    PayloadsVerifyIff(c, before, blobs);
    PayloadsStillVerify(c, before, blobs, refs, mid);
    CompleteIffPartsVerify(c, m, blobs, refs, mid);
  }

  lemma {:induction false} PayloadsStillVerify(c: Codec, before: Store, blobs: seq<PayloadBlob>,
      refs: seq<ObjectRef>, mid: Store)
    requires ObjectsWritten(c, Jobs(refs), PutAll(before, blobs), mid)
    ensures PayloadsVerify(c, mid, blobs) <==> PayloadsVerify(c, PutAll(before, blobs), blobs)
  {
    forall i | 0 <= i < |blobs|
      ensures Get(mid, blobs[i].entry.contentKey) == Get(PutAll(before, blobs), blobs[i].entry.contentKey)
    {
      PutAllAt(before, blobs, blobs[i].entry.contentKey);
      var k := PutAllStoresOne(before, blobs, i);
    }
    assert forall i :: 0 <= i < |blobs| ==>
        VerifyBlob(c, mid, BlobRef(blobs[i].entry.contentKey, blobs[i].entry.sha))
        == VerifyBlob(c, PutAll(before, blobs), BlobRef(blobs[i].entry.contentKey, blobs[i].entry.sha));
  }

  lemma {:induction false} CompleteIffPartsVerify(c: Codec, m: Manifest, blobs: seq<PayloadBlob>,
      refs: seq<ObjectRef>, store: Store)
    requires VerifyChecksum(c, m).Ok? && m.objects == Entries(refs)
    requires m.database.tables + m.database.changes == EntriesOf(blobs)
    ensures Complete(c, store, m)
       <==> PayloadsVerify(c, store, blobs) && forall i :: 0 <= i < |refs| ==> VerifyBlob(c, store, Jobs(refs)[i]).Ok?
  {
    var n := |refs|;
    assert |Refs(m)| == n + |blobs|;
    assert forall i :: 0 <= i < n ==> Refs(m)[i] == Jobs(refs)[i];
    assert forall i :: 0 <= i < |blobs| ==>
        Refs(m)[n + i] == BlobRef(blobs[i].entry.contentKey, blobs[i].entry.sha);
    if Complete(c, store, m) {
      forall i | 0 <= i < |blobs|
        ensures VerifyBlob(c, store, BlobRef(blobs[i].entry.contentKey, blobs[i].entry.sha)).Ok?
      {
        assert VerifyBlob(c, store, Refs(m)[n + i]).Ok?;
      }
      forall i | 0 <= i < n ensures VerifyBlob(c, store, Jobs(refs)[i]).Ok? {
        assert VerifyBlob(c, store, Refs(m)[i]).Ok?;
      }
    }
    if PayloadsVerify(c, store, blobs) && forall i :: 0 <= i < n ==> VerifyBlob(c, store, Jobs(refs)[i]).Ok? {
      forall i | 0 <= i < |Refs(m)| ensures VerifyBlob(c, store, Refs(m)[i]).Ok? {
        if i < n {
          assert Refs(m)[i] == Jobs(refs)[i];
        } else {
          assert Refs(m)[i] == BlobRef(blobs[i - n].entry.contentKey, blobs[i - n].entry.sha);
        }
      }
    }
  }

  lemma {:induction false} EncodedEntriesLoad<T(!new)>(c: Codec, k: EntryCodec<T>, store: Store, db: DatabaseManifest,
        key: string, entries: seq<T>)
    requires c.Lawful() && k.Framed()
    requires db.exportFormat == EXPORT_FORMAT && db.compression == Zstd
    requires Get(store, key) == Ok(Encode(c, k, entries))
    ensures LoadEntries(c, k, store, db, key) == Ok(entries)
  {
    JsonlRoundTrip(k, entries);
    assert c.decompress(c.compress(Jsonl(k, entries))) == Some(Jsonl(k, entries));
  }

  // Exported tables are read back as they were.
  lemma {:induction false} StoredTablesLoad(c: Codec, store: Store, db: DatabaseManifest, id: Uuid,
        tables: seq<TableExport>)
    requires c.Lawful() && db.exportFormat == EXPORT_FORMAT && db.compression == Zstd
    requires forall i :: 0 <= i < |tables| ==>
               Get(store, TableKey(id, tables[i].tableName)) == Ok(Encode(c, c.rows, tables[i].rows))
    ensures LoadTables(c, store, db, EntriesOf(TableBlobs(c, id, tables))) == Ok(tables)
  {
    var entries := EntriesOf(TableBlobs(c, id, tables));
    if tables == [] {
    } else {
      EncodedEntriesLoad(c, c.rows, store, db, TableKey(id, tables[0].tableName), tables[0].rows);
      assert entries[1..] == EntriesOf(TableBlobs(c, id, tables[1..]));
      StoredTablesLoad(c, store, db, id, tables[1..]);
      assert tables == [tables[0]] + tables[1..];
    }
  }

  // Grouped changes are read back group after group.
  lemma {:induction false} StoredChangesLoad(c: Codec, store: Store, db: DatabaseManifest, id: Uuid,
        groups: seq<ChangeGroup>)
    requires c.Lawful() && db.exportFormat == EXPORT_FORMAT && db.compression == Zstd
    requires forall i :: 0 <= i < |groups| ==>
               Get(store, ChangesKey(id, groups[i].tableName)) == Ok(Encode(c, c.changes, groups[i].changes))
    ensures LoadChanges(c, store, db, EntriesOf(ChangesBlobs(c, id, groups))) == Ok(Ungrouped(groups))
    ensures |Ungrouped(groups)| == GroupTotal(groups)
  {
    var entries := EntriesOf(ChangesBlobs(c, id, groups));
    if groups == [] {
    } else {
      EncodedEntriesLoad(c, c.changes, store, db, ChangesKey(id, groups[0].tableName), groups[0].changes);
      assert entries[1..] == EntriesOf(ChangesBlobs(c, id, groups[1..]));
      StoredChangesLoad(c, store, db, id, groups[1..]);
    }
  }

  // ----- full backup -----

  // Tables exported under one name have the same rows; distinct names satisfy this.
  ghost predicate TablesAgree(tables: seq<TableExport>) {
    forall i, j :: 0 <= i < |tables| && 0 <= j < |tables| && tables[i].tableName == tables[j].tableName
      ==> tables[i].rows == tables[j].rows
  }

  lemma {:induction false} TableBlobsAreWellPlaced(c: Codec, id: Uuid, tables: seq<TableExport>)
    ensures PayloadsOf(id, TableBlobs(c, id, tables))
    ensures TablesAgree(tables) ==> Agreeing(TableBlobs(c, id, tables))
  {
    var blobs := TableBlobs(c, id, tables);
    forall i | 0 <= i < |blobs|
      ensures UnderSnapshot(id, blobs[i].entry.contentKey) && SnapshotIdOf(blobs[i].entry.contentKey) == None
    {
      TableKeyFacts(id, tables[i].tableName);
    }
    if TablesAgree(tables) {
      forall i, j | SameKey(blobs, i, j) ensures blobs[i].bytes == blobs[j].bytes {
        TableKeyIsInjective(id, tables[i].tableName, tables[j].tableName);
      }
    }
  }

  // A manifest without a parent is a chain of its own.
  lemma {:induction false} RootLoads(c: Codec, store: Store, m: Manifest)
    requires LoadManifest(c, store, m.snapshotId) == Ok(m) && IsRoot(m)
    ensures LoadChain(c, store, m.snapshotId) == Ok([m])
  {
    LoadChainIff(c, store, m.snapshotId, [m]);
  }

  // The manifest of a root snapshot over these tables: shared by full backups and compactions.
  ghost predicate RootOver(c: Codec, m: Manifest, tables: seq<TableExport>, refs: seq<ObjectEntry>) {
    && VerifyChecksum(c, m).Ok? && IsRoot(m) && m.objects == refs
    && m.database == DatabaseManifest(EXPORT_FORMAT, Zstd, RowTotal(tables), |tables|,
                                      EntriesOf(TableBlobs(c, m.snapshotId, tables)), [])
  }

  lemma {:induction false} RootTablesLoad(c: Codec, m: Manifest, tables: seq<TableExport>, mid: Store)
    requires c.Lawful() && RootOver(c, m, tables, m.objects)
    requires var blobs := TableBlobs(c, m.snapshotId, tables);
             forall i :: 0 <= i < |blobs| ==> Get(mid, blobs[i].entry.contentKey) == Ok(blobs[i].bytes)
    ensures TablesOf(c, mid, m) == Ok(tables) && Readable(c, mid, m)
  {
    var blobs := TableBlobs(c, m.snapshotId, tables);
    forall i | 0 <= i < |tables|
      ensures Get(mid, TableKey(m.snapshotId, tables[i].tableName)) == Ok(Encode(c, c.rows, tables[i].rows))
    {
      assert Get(mid, blobs[i].entry.contentKey) == Ok(blobs[i].bytes);
    }
    StoredTablesLoad(c, mid, m.database, m.snapshotId, tables);
  }

  // A stored root whose blobs are in order stands for its tables.
  lemma {:induction false} StoredRootRestores(c: Codec, store: Store, m: Manifest, tables: seq<TableExport>)
    requires LoadManifest(c, store, m.snapshotId) == Ok(m) && IsRoot(m)
    requires Complete(c, store, m) && TablesOf(c, store, m) == Ok(tables)
    ensures LoadChain(c, store, m.snapshotId) == Ok([m])
    ensures Restored(c, store, m.snapshotId) == Some(InsertTables(map[], tables))
  {
    RootLoads(c, store, m);
    assert [m][1..] == [];
    assert ChangeLists(c, store, [m][1..]) == Ok([]);
    assert AllComplete(c, store, [m]);
  }

  // Publishing a root manifest that is sound in the store.
  lemma {:induction false} PublishRoot(c: Codec, mid: Store, m: Manifest, tables: seq<TableExport>, after: Store)
    requires c.Lawful() && ManifestKey(m.snapshotId) !in mid
    requires IsRoot(m) && SoundManifest(c, mid, m) && TablesOf(c, mid, m) == Ok(tables)
    requires after == mid[ManifestKey(m.snapshotId) := c.prettyManifest(m)]
    ensures LoadChain(c, after, m.snapshotId) == Ok([m])
    ensures TablesOf(c, after, m) == Ok(tables)
    ensures Restored(c, after, m.snapshotId) == Some(InsertTables(map[], tables))
  {
    assert c.parseManifest(c.prettyManifest(m)) == Some(m);
    assert LoadManifest(c, after, m.snapshotId) == Ok(m);
    KeptStaysComplete(c, mid, after, m);
    LoadTablesKept(c, mid, after, m.database, m.database.tables);
    StoredRootRestores(c, after, m, tables);
  }

  // A finished run whose manifest is a root over these tables adds one sound snapshot that stands for them.
  lemma {:induction false} RootIsPublished(c: Codec, before: Store, ids: set<Uuid>, m: Manifest,
      tables: seq<TableExport>, refs: seq<ObjectRef>, mid: Store, after: Store)
    requires c.Lawful() && Sound(c, before, ids)
    requires ReadyToPublish(c, before, m.snapshotId, TableBlobs(c, m.snapshotId, tables), refs, mid)
    requires TablesAgree(tables) && RootOver(c, m, tables, m.objects) && SoundObjects(c, mid, m)
    requires after == mid[ManifestKey(m.snapshotId) := c.prettyManifest(m)]
    ensures Sound(c, after, ids + {m.snapshotId})
    ensures LoadChain(c, after, m.snapshotId) == Ok([m]) && TablesOf(c, after, m) == Ok(tables)
    ensures Restored(c, after, m.snapshotId) == Some(InsertTables(map[], tables))
  {
    var id, blobs := m.snapshotId, TableBlobs(c, m.snapshotId, tables);
    TableBlobsAreWellPlaced(c, id, tables);
    ReadyIsStaged(c, before, id, blobs, refs, mid);
    ReadyPayloads(c, before, id, blobs, refs, mid);
    assert SoundManifest(c, mid, m) && TablesOf(c, mid, m) == Ok(tables) by {
      assert m.database.tables + m.database.changes == EntriesOf(blobs);
      NewManifestIsComplete(c, m, blobs, mid);
      RootTablesLoad(c, m, tables, mid);
    }
    StagesKeepSound(c, before, mid, ids, id);
    PublishRoot(c, mid, m, tables, after);
    PublishingKeepsSound(c, mid, ids, m, after);
  }

  lemma {:induction false} PayloadManifestIsTidy(m: Manifest, blobs: seq<PayloadBlob>, refs: seq<ObjectRef>)
    requires PayloadsOf(m.snapshotId, blobs) && m.objects == Entries(refs)
    requires m.kind == Incremental <==> m.parent.Some?
    requires if m.kind == Incremental then m.database.tables == [] && m.database.changes == EntriesOf(blobs)
             else m.database.tables == EntriesOf(blobs) && m.database.changes == []
    ensures Tidy(m) && m.database.tables + m.database.changes == EntriesOf(blobs)
  {
    assert [] + EntriesOf(blobs) == EntriesOf(blobs) == EntriesOf(blobs) + [];
  }

  lemma {:induction false} FullManifestIsTidy(c: Codec, req: FullBackupRequest, plan: FullBackupPlan)
    ensures var m := FullManifest(c, req, plan);
            && VerifyChecksum(c, m).Ok? && Tidy(m)
            && RootOver(c, m, plan.tables, m.objects) && m.objects == Entries(plan.objects)
  {
    var m, blobs := FullManifest(c, req, plan), TableBlobs(c, req.snapshotId, plan.tables);
    assert VerifyChecksum(c, m).Ok? by {
      SealedManifestVerifies(c, m.(checksum := ""));
      assert m == WithChecksum(c, m.(checksum := ""));
    }
    TableBlobsAreWellPlaced(c, req.snapshotId, plan.tables);
    PayloadManifestIsTidy(m, blobs, plan.objects);
  }

  // A finished full backup adds one visible snapshot and leaves every sound one alone.
  lemma {:induction false} FullBackupKeepsOthers(c: Codec, before: Store, ids: set<Uuid>, req: FullBackupRequest,
      plan: FullBackupPlan, after: Store)
    requires c.Lawful() && Sound(c, before, ids) && Fresh(before, req.snapshotId)
    requires Written(c, before, FullManifest(c, req, plan), TableBlobs(c, req.snapshotId, plan.tables), plan.objects,
                     after)
    ensures Sound(c, after, ids) && SameSnapshots(c, before, after, ids)
    ensures Snapshots(after) == Snapshots(before) + {req.snapshotId} && req.snapshotId !in Snapshots(before)
    ensures LoadManifest(c, after, req.snapshotId) == Ok(FullManifest(c, req, plan))
    ensures ObjectsMatchNames(c, before) ==> ObjectsMatchNames(c, after)
  {
    FullManifestIsTidy(c, req, plan);
    TableBlobsAreWellPlaced(c, req.snapshotId, plan.tables);
    WrittenKeepsOthers(c, before, ids, FullManifest(c, req, plan), TableBlobs(c, req.snapshotId, plan.tables),
                       plan.objects, after);
  }

  // The manifest loaded under the id of a full backup.
  lemma {:induction false} FullBackupIsDescribed(c: Codec, before: Store, req: FullBackupRequest, plan: FullBackupPlan,
      after: Store)
    requires c.Lawful() && Legible(c, before) && Fresh(before, req.snapshotId)
    requires Written(c, before, FullManifest(c, req, plan), TableBlobs(c, req.snapshotId, plan.tables), plan.objects,
                     after)
    ensures LoadManifest(c, after, req.snapshotId).Ok?
    ensures var made := ManifestAt(c, after, req.snapshotId);
            && made.formatVersion == 1 && made.snapshotId == req.snapshotId && made.parent == None
            && made.kind == Full && made.createdAt == req.createdAt
            && made.appId == req.appId && made.appVersion == req.appVersion
            && made.schemaVersion == plan.schema.migrationVersion && made.schemaHash == plan.schema.schemaHash
            && made.backend == plan.schema.backend
            && made.database.exportFormat == "jsonl" && made.database.compression == Zstd
            && made.database.tableCount == |plan.tables| == |made.database.tables|
            && made.database.rowCount == |AllRows(plan.tables)|
            && (forall i :: 0 <= i < |plan.tables| ==>
                  && made.database.tables[i].tableName == plan.tables[i].tableName
                  && made.database.tables[i].rowCount == |plan.tables[i].rows|)
            && made.database.changes == [] && made.tombstones == []
  {
    FullBackupKeepsOthers(c, before, {}, req, plan, after);
    RowTotalCounts(plan.tables);
  }

  // Objects that went into a backup come back as they went in: a restore of the objects of this manifest that
  // succeeds hands out the references of the backup, in order, each with bytes of the declared hash.
  lemma {:induction false} ObjectsComeBack(c: Codec, store: Store, m: Manifest, refs: seq<ObjectRef>,
      delivered: seq<Delivery>, r: Result<()>)
    requires m.objects == Entries(refs) && Delivers(c, store, m.objects, delivered, r) && r.Ok?
    ensures |delivered| == |refs|
    ensures forall i :: 0 <= i < |refs| ==> delivered[i].ref == refs[i] && c.hash(delivered[i].bytes) == refs[i].sha
  {
    forall i | 0 <= i < |refs| ensures delivered[i].ref == refs[i] && c.hash(delivered[i].bytes) == refs[i].sha {
      assert Matches(c, delivered[i]);
    }
  }

  lemma {:induction false} FullBackupObjectsComeBack(c: Codec, before: Store, req: FullBackupRequest,
      plan: FullBackupPlan, after: Store, later: Store, delivered: seq<Delivery>, r: Result<()>)
    requires c.Lawful() && Legible(c, before) && Fresh(before, req.snapshotId)
    requires Written(c, before, FullManifest(c, req, plan), TableBlobs(c, req.snapshotId, plan.tables), plan.objects,
                     after)
    requires LoadManifest(c, later, req.snapshotId) == LoadManifest(c, after, req.snapshotId)
    requires LoadManifest(c, later, req.snapshotId).Ok?
    requires Delivers(c, later, ManifestAt(c, later, req.snapshotId).objects, delivered, r) && r.Ok?
    ensures |delivered| == |plan.objects|
    ensures forall i :: 0 <= i < |plan.objects| ==>
              delivered[i].ref == plan.objects[i] && c.hash(delivered[i].bytes) == plan.objects[i].sha
  {
    FullBackupKeepsOthers(c, before, {}, req, plan, after);
    FullManifestIsTidy(c, req, plan);
    ObjectsComeBack(c, later, ManifestAt(c, later, req.snapshotId), plan.objects, delivered, r);
  }

  // It stands for the exported rows when tables of one name agree and what was stored under the referenced
  // object keys has the declared hashes.
  lemma {:induction false} FullBackupMeaning(c: Codec, before: Store, ids: set<Uuid>, req: FullBackupRequest,
      plan: FullBackupPlan, after: Store)
    requires c.Lawful() && Sound(c, before, ids) && Fresh(before, req.snapshotId)
    requires TablesAgree(plan.tables) && ReferencedObjectsMatch(c, Jobs(plan.objects), before)
    requires Written(c, before, FullManifest(c, req, plan), TableBlobs(c, req.snapshotId, plan.tables), plan.objects,
                     after)
    ensures Sound(c, after, ids + {req.snapshotId})
    ensures Restored(c, after, req.snapshotId) == Some(InsertTables(map[], plan.tables))
  {
    var m, blobs := FullManifest(c, req, plan), TableBlobs(c, req.snapshotId, plan.tables);
    var mid :| ObjectsWritten(c, Jobs(plan.objects), PutAll(before, blobs), mid)
               && after == mid[ManifestKey(m.snapshotId) := c.prettyManifest(m)];
    FullManifestIsTidy(c, req, plan);
    TableBlobsAreWellPlaced(c, req.snapshotId, plan.tables);
    NewObjectsVerifyIff(c, before, req.snapshotId, blobs, plan.objects, mid);
    WrittenEntriesAreSound(c, plan.objects, mid, m);
    RootIsPublished(c, before, ids, m, plan.tables, plan.objects, mid, after);
  }

  // ----- incremental backup -----

  lemma {:induction false} ChangesBlobsAreWellPlaced(c: Codec, id: Uuid, changes: seq<Change>)
    ensures PayloadsOf(id, ChangesBlobs(c, id, Grouped(changes))) && Agreeing(ChangesBlobs(c, id, Grouped(changes)))
  {
    var groups := Grouped(changes);
    var blobs := ChangesBlobs(c, id, groups);
    forall i | 0 <= i < |blobs|
      ensures UnderSnapshot(id, blobs[i].entry.contentKey) && SnapshotIdOf(blobs[i].entry.contentKey) == None
    {
      ChangesKeyFacts(id, groups[i].tableName);
    }
    GroupingIsStablePartition(changes);
    forall i, j | SameKey(blobs, i, j) ensures blobs[i].bytes == blobs[j].bytes {
      ChangesKeyIsInjective(id, groups[i].tableName, groups[j].tableName);
    }
  }

  // The store has gained m and no other manifest.
  ghost predicate Gained(c: Codec, before: Store, after: Store, m: Manifest) {
    && (forall x :: ManifestKey(x) in before ==> Kept(before, after, ManifestKey(x)))
    && Fresh(before, m.snapshotId)
    && LoadManifest(c, after, m.snapshotId) == Ok(m)
    && forall x :: x != m.snapshotId && ManifestKey(x) in after ==> ManifestKey(x) in before
  }

  lemma {:induction false} LastLink(c: Codec, store: Store, id: Uuid, chain: seq<Manifest>, m: Manifest)
    requires IsChainOf(c, store, id, chain) && chain[|chain| - 1] == m && m.parent.Some?
    ensures |chain| > 1 && m.parent.value != m.snapshotId
    ensures LoadManifest(c, store, m.parent.value) == Ok(chain[|chain| - 2])
    ensures SameSource(m, chain[|chain| - 2])
  {
    var n := |chain| - 1;
    assert n > 0;
    assert chain[n].parent == Some(chain[n - 1].snapshotId);
    assert chain[n - 1].snapshotId != chain[n].snapshotId;
  }

  lemma {:induction false} OldManifestLoads(c: Codec, before: Store, after: Store, m: Manifest, id: Uuid)
    requires Canonical(before) && Gained(c, before, after, m) && id != m.snapshotId
    requires LoadManifest(c, after, id).Ok?
    ensures id in Snapshots(before) && LoadManifest(c, before, id) == LoadManifest(c, after, id)
  {
    assert ManifestKey(id) in after;
    VisibleIffStored(before, id);
  }

  // The chain of a loaded incremental without its last member is the chain its parent had before.
  lemma {:induction false} LoadedIncrementalHasParent(c: Codec, before: Store, after: Store, m: Manifest)
    requires Canonical(before) && Gained(c, before, after, m) && m.parent.Some?
    requires LoadChain(c, after, m.snapshotId).Ok?
    ensures m.parent.value in Snapshots(before) && LoadManifest(c, before, m.parent.value).Ok?
    ensures SameSource(m, LoadManifest(c, before, m.parent.value).value)
    ensures LoadChain(c, before, m.parent.value).Ok?
  {
    var chain := LoadChain(c, after, m.snapshotId).value;
    LoadChainIff(c, after, m.snapshotId, chain);
    LastLink(c, after, m.snapshotId, chain, m);
    OldManifestLoads(c, before, after, m, m.parent.value);
    PrefixLoads(c, before, after, m, chain);
  }

  lemma {:induction false} PrefixLoads(c: Codec, before: Store, after: Store, m: Manifest, chain: seq<Manifest>)
    requires Canonical(before) && Gained(c, before, after, m) && m.parent.Some?
    requires IsChainOf(c, after, m.snapshotId, chain) && chain[|chain| - 1] == m && |chain| > 1
    requires LoadManifest(c, before, m.parent.value) == Ok(chain[|chain| - 2])
    ensures LoadChain(c, before, m.parent.value) == Ok(chain[..|chain| - 1])
  {
    var n := |chain| - 1;
    var above := chain[..n];
    forall i | 0 <= i < n - 1 ensures LoadManifest(c, before, above[i].snapshotId) == Ok(above[i]) {
      assert chain[i].snapshotId != chain[n].snapshotId;
      assert LoadManifest(c, after, chain[i].snapshotId) == Ok(chain[i]);
      OldManifestLoads(c, before, after, m, chain[i].snapshotId);
    }
    assert ValidChain(above) by {
      PrefixIsValid(chain, n - 1);
      assert chain[..n - 1 + 1] == above;
    }
    assert IsChainOf(c, before, m.parent.value, above);
    LoadChainIff(c, before, m.parent.value, above);
  }

  lemma {:induction false} ManifestStillLoads(c: Codec, before: Store, after: Store, m: Manifest, id: Uuid)
    requires Gained(c, before, after, m) && LoadManifest(c, before, id).Ok?
    ensures LoadManifest(c, after, id) == LoadManifest(c, before, id) && id != m.snapshotId
  {
  }

  lemma {:induction false} IncrementalOnParentLoads(c: Codec, before: Store, after: Store, m: Manifest)
    requires Legible(c, before) && Gained(c, before, after, m) && m.parent.Some?
    requires LoadChain(c, before, m.parent.value).Ok?
    requires SameSource(m, ManifestAt(c, before, m.parent.value))
    ensures LoadChain(c, after, m.snapshotId) == Ok(LoadChain(c, before, m.parent.value).value + [m])
  {
    var above := LoadChain(c, before, m.parent.value).value;
    LegibleChain(c, before, m.parent.value, above);
    ExtendedChainLoads(c, before, after, m, above);
  }

  lemma {:induction false} ExtendedChainLoads(c: Codec, before: Store, after: Store, m: Manifest, above: seq<Manifest>)
    requires Gained(c, before, after, m) && ValidChain(above)
    requires forall i :: 0 <= i < |above| ==> LoadManifest(c, before, above[i].snapshotId) == Ok(above[i])
    requires m.parent == Some(above[|above| - 1].snapshotId) && SameSource(m, above[|above| - 1])
    ensures LoadChain(c, after, m.snapshotId) == Ok(above + [m])
  {
    forall i | 0 <= i < |above|
      ensures LoadManifest(c, after, above[i].snapshotId) == Ok(above[i]) && above[i].snapshotId != m.snapshotId
    {
      ManifestStillLoads(c, before, after, m, above[i].snapshotId);
    }
    ExtendedChainIsValid(above, m);
    LoadChainIff(c, after, m.snapshotId, above + [m]);
  }

  lemma {:induction false} ExtendedChainIsValid(above: seq<Manifest>, m: Manifest)
    requires ValidChain(above)
    requires m.parent == Some(above[|above| - 1].snapshotId) && SameSource(m, above[|above| - 1])
    requires forall i :: 0 <= i < |above| ==> above[i].snapshotId != m.snapshotId
    ensures ValidChain(above + [m])
  {
  }

  // The parent is not checked when an incremental is written. Its snapshot loads exactly when the parent is
  // visible, has a chain of its own and has the same application, backend and schema.
  lemma {:induction false} IncrementalLoadsIff(c: Codec, before: Store, after: Store, m: Manifest)
    requires Legible(c, before) && Gained(c, before, after, m) && m.parent.Some?
    ensures LoadChain(c, after, m.snapshotId).Ok? <==>
            && LoadChain(c, before, m.parent.value).Ok?
            && SameSource(m, ManifestAt(c, before, m.parent.value))
    ensures LoadChain(c, after, m.snapshotId).Ok? ==> m.parent.value in Snapshots(before)
  {
    if LoadChain(c, after, m.snapshotId).Ok? {
      LoadedIncrementalHasParent(c, before, after, m);
    }
    if LoadChain(c, before, m.parent.value).Ok? && SameSource(m, ManifestAt(c, before, m.parent.value)) {
      IncrementalOnParentLoads(c, before, after, m);
    }
  }

  lemma {:induction false} ChangeListsSnoc(c: Codec, store: Store, ms: seq<Manifest>, m: Manifest)
    requires ChangeLists(c, store, ms).Ok? && ChangesOf(c, store, m).Ok?
    ensures ChangeLists(c, store, ms + [m]) == Ok(ChangeLists(c, store, ms).value + [ChangesOf(c, store, m).value])
  {
    if ms == [] {
      assert ms + [m] == [m] && [m][1..] == [];
      var last := ChangesOf(c, store, m).value;
      assert [last] + [] == [last] == [] + [last];
    } else {
      assert (ms + [m])[1..] == ms[1..] + [m] && (ms + [m])[0] == ms[0];
      ChangeListsSnoc(c, store, ms[1..], m);
      var head, rest := ChangesOf(c, store, ms[0]).value, ChangeLists(c, store, ms[1..]).value;
      var last := ChangesOf(c, store, m).value;
      assert [head] + (rest + [last]) == [head] + rest + [last];
    }
  }

  lemma {:induction false} ApplyListsSnoc(db: Db, lists: seq<seq<Change>>, changes: seq<Change>)
    ensures ApplyLists(db, lists + [changes]) == ApplyChanges(ApplyLists(db, lists), changes)
    decreases |lists|
  {
    if lists == [] {
      assert [] + [changes] == [changes] && [changes][1..] == [];
    } else {
      assert (lists + [changes])[1..] == lists[1..] + [changes];
      ApplyListsSnoc(ApplyChanges(db, lists[0]), lists[1..], changes);
    }
  }

  // What a snapshot restores to, given that of its parent.
  lemma {:induction false} RestoredFromParent(c: Codec, store: Store, parent: Uuid, m: Manifest, above: seq<Manifest>)
    requires LoadChain(c, store, parent) == Ok(above) && Restored(c, store, parent).Some?
    requires LoadChain(c, store, m.snapshotId) == Ok(above + [m])
    requires Complete(c, store, m) && ChangesOf(c, store, m).Ok?
    ensures Restored(c, store, m.snapshotId)
         == Some(ApplyChanges(Restored(c, store, parent).value, ChangesOf(c, store, m).value))
  {
    assert above != [];
    var chain := above + [m];
    assert AllComplete(c, store, chain);
    assert chain[1..] == above[1..] + [m] && chain[0] == above[0];
    ChangeListsSnoc(c, store, above[1..], m);
    ApplyListsSnoc(InsertTables(map[], TablesOf(c, store, above[0]).value),
                   ChangeLists(c, store, above[1..]).value, ChangesOf(c, store, m).value);
  }

  lemma {:induction false} IncrementalChangesLoad(c: Codec, req: IncrementalBackupRequest, schema: Schema,
        changes: seq<Change>, refs: seq<ObjectRef>, blobs: seq<PayloadBlob>, mid: Store)
    requires c.Lawful() && blobs == ChangesBlobs(c, req.snapshotId, Grouped(changes))
    requires forall i :: 0 <= i < |blobs| ==> Get(mid, blobs[i].entry.contentKey) == Ok(blobs[i].bytes)
    ensures var m := IncrementalManifest(c, req, schema, changes, refs);
            ChangesOf(c, mid, m) == Ok(Ungrouped(Grouped(changes))) && Readable(c, mid, m)
  {
    var groups := Grouped(changes);
    forall i | 0 <= i < |groups|
      ensures Get(mid, ChangesKey(req.snapshotId, groups[i].tableName)) == Ok(Encode(c, c.changes, groups[i].changes))
    {
      assert Get(mid, blobs[i].entry.contentKey) == Ok(blobs[i].bytes);
    }
    StoredChangesLoad(c, mid, IncrementalManifest(c, req, schema, changes, refs).database, req.snapshotId, groups);
  }

  lemma {:induction false} IncrementalManifestIsTidy(c: Codec, req: IncrementalBackupRequest, schema: Schema,
      changes: seq<Change>, refs: seq<ObjectRef>)
    ensures var m := IncrementalManifest(c, req, schema, changes, refs);
            && VerifyChecksum(c, m).Ok? && Tidy(m) && m.objects == Entries(refs)
            && m.database.tables + m.database.changes == EntriesOf(ChangesBlobs(c, req.snapshotId, Grouped(changes)))
  {
    var m := IncrementalManifest(c, req, schema, changes, refs);
    var blobs := ChangesBlobs(c, req.snapshotId, Grouped(changes));
    assert VerifyChecksum(c, m).Ok? by {
      SealedManifestVerifies(c, m.(checksum := ""));
      assert m == WithChecksum(c, m.(checksum := ""));
    }
    ChangesBlobsAreWellPlaced(c, req.snapshotId, changes);
    PayloadManifestIsTidy(m, blobs, refs);
  }

  // A finished incremental adds one visible snapshot and leaves every sound one alone, whatever its parent.
  lemma {:induction false} IncrementalBackupKeepsOthers(c: Codec, before: Store, ids: set<Uuid>,
      req: IncrementalBackupRequest, schema: Schema, changes: seq<Change>, refs: seq<ObjectRef>, after: Store)
    requires c.Lawful() && Sound(c, before, ids) && Fresh(before, req.snapshotId)
    requires Written(c, before, IncrementalManifest(c, req, schema, changes, refs),
                     ChangesBlobs(c, req.snapshotId, Grouped(changes)), refs, after)
    ensures Sound(c, after, ids) && SameSnapshots(c, before, after, ids)
    ensures Snapshots(after) == Snapshots(before) + {req.snapshotId} && req.snapshotId !in Snapshots(before)
    ensures LoadManifest(c, after, req.snapshotId) == Ok(IncrementalManifest(c, req, schema, changes, refs))
    ensures ObjectsMatchNames(c, before) ==> ObjectsMatchNames(c, after)
  {
    IncrementalManifestIsTidy(c, req, schema, changes, refs);
    ChangesBlobsAreWellPlaced(c, req.snapshotId, changes);
    WrittenKeepsOthers(c, before, ids, IncrementalManifest(c, req, schema, changes, refs),
                       ChangesBlobs(c, req.snapshotId, Grouped(changes)), refs, after);
  }

  // The manifest loaded under the id of an incremental.
  lemma {:induction false} IncrementalBackupIsDescribed(c: Codec, before: Store, req: IncrementalBackupRequest,
      schema: Schema, changes: seq<Change>, refs: seq<ObjectRef>, after: Store)
    requires c.Lawful() && Legible(c, before) && Fresh(before, req.snapshotId)
    requires Written(c, before, IncrementalManifest(c, req, schema, changes, refs),
                     ChangesBlobs(c, req.snapshotId, Grouped(changes)), refs, after)
    ensures LoadManifest(c, after, req.snapshotId).Ok?
    ensures var made := ManifestAt(c, after, req.snapshotId);
            && made.formatVersion == 1 && made.snapshotId == req.snapshotId && made.parent == Some(req.parentId)
            && made.kind == Incremental && made.createdAt == req.createdAt
            && made.appId == req.appId && made.appVersion == req.appVersion
            && made.schemaVersion == schema.migrationVersion && made.schemaHash == schema.schemaHash
            && made.backend == schema.backend
            && made.database.exportFormat == "jsonl" && made.database.compression == Zstd
            && made.database.rowCount == |changes|
            && made.database.tableCount == 0 && made.database.tables == []
            && DescribesChanges(changes, made)
  {
    IncrementalBackupKeepsOthers(c, before, {}, req, schema, changes, refs, after);
    GroupedTotal(changes);
    ChangesAreDescribed(c, req, schema, changes, refs);
  }

  // An entry for each changed table with the number of its changes, and a tombstone for each deleted row.
  ghost predicate DescribesChanges(changes: seq<Change>, m: Manifest) {
    && (forall i :: 0 <= i < |m.database.changes| ==>
          m.database.changes[i].rowCount == |OfTable(changes, m.database.changes[i].tableName)|)
    && forall t :: t in m.tombstones <==>
         exists i :: 0 <= i < |changes| && changes[i].action == Delete
           && t == Tombstone(Some(changes[i].tableName), Some(changes[i].primaryKey), None, changes[i].changedAt)
  }

  lemma {:induction false} ChangesAreDescribed(c: Codec, req: IncrementalBackupRequest, schema: Schema,
      changes: seq<Change>, refs: seq<ObjectRef>)
    ensures DescribesChanges(changes, IncrementalManifest(c, req, schema, changes, refs))
  {
    var m := IncrementalManifest(c, req, schema, changes, refs);
    GroupingIsStablePartition(changes);
    forall t ensures t in m.tombstones <==>
                     exists i :: 0 <= i < |changes| && changes[i].action == Delete
                       && t == Tombstone(Some(changes[i].tableName), Some(changes[i].primaryKey), None,
                                         changes[i].changedAt)
    {
      TombstonesAreDeletes(changes, t);
    }
  }

  // A tombstone for each deleted row and for nothing else.
  lemma {:induction false} TombstonesAreDeletes(changes: seq<Change>, t: Tombstone)
    ensures t in Tombstones(changes) <==>
            exists i :: 0 <= i < |changes| && changes[i].action == Delete
              && t == Tombstone(Some(changes[i].tableName), Some(changes[i].primaryKey), None, changes[i].changedAt)
  {
    if changes == [] {
    } else {
      TombstonesAreDeletes(changes[1..], t);
      assert forall i :: 1 <= i < |changes| ==> changes[i] == changes[1..][i - 1];
    }
  }

  // As many changes are stored as were exported.
  lemma {:induction false} GroupedTotal(changes: seq<Change>)
    ensures GroupTotal(Grouped(changes)) == |changes|
  {
    if changes == [] {
    } else {
      var n := |changes| - 1;
      GroupedTotal(changes[..n]);
      OneMoreInGroups(Grouped(changes[..n]), changes[n]);
    }
  }

  lemma {:induction false} OneMoreInGroups(groups: seq<ChangeGroup>, change: Change)
    ensures GroupTotal(AddToGroups(groups, change)) == GroupTotal(groups) + 1
  {
    var next := AddToGroups(groups, change);
    if groups == [] {
      assert next == [ChangeGroup(change.tableName, [change])] && next[1..] == [];
    } else if groups[0].tableName == change.tableName {
      assert next[1..] == groups[1..];
    } else {
      OneMoreInGroups(groups[1..], change);
      assert next == [groups[0]] + AddToGroups(groups[1..], change);
    }
  }

  lemma {:induction false} IncrementalBackupObjectsComeBack(c: Codec, before: Store, req: IncrementalBackupRequest,
      schema: Schema, changes: seq<Change>, refs: seq<ObjectRef>, after: Store, later: Store,
      delivered: seq<Delivery>, r: Result<()>)
    requires c.Lawful() && Legible(c, before) && Fresh(before, req.snapshotId)
    requires Written(c, before, IncrementalManifest(c, req, schema, changes, refs),
                     ChangesBlobs(c, req.snapshotId, Grouped(changes)), refs, after)
    requires LoadManifest(c, later, req.snapshotId) == LoadManifest(c, after, req.snapshotId)
    requires LoadManifest(c, later, req.snapshotId).Ok?
    requires Delivers(c, later, ManifestAt(c, later, req.snapshotId).objects, delivered, r) && r.Ok?
    ensures |delivered| == |refs|
    ensures forall i :: 0 <= i < |refs| ==> delivered[i].ref == refs[i] && c.hash(delivered[i].bytes) == refs[i].sha
  {
    IncrementalBackupKeepsOthers(c, before, {}, req, schema, changes, refs, after);
    IncrementalManifestIsTidy(c, req, schema, changes, refs);
    ObjectsComeBack(c, later, ManifestAt(c, later, req.snapshotId), refs, delivered, r);
  }

  lemma {:induction false} IncrementalManifestIsSound(c: Codec, before: Store, req: IncrementalBackupRequest,
      schema: Schema, changes: seq<Change>, refs: seq<ObjectRef>, mid: Store)
    requires c.Lawful() && ReferencedObjectsMatch(c, Jobs(refs), before)
    requires ReadyToPublish(c, before, req.snapshotId, ChangesBlobs(c, req.snapshotId, Grouped(changes)), refs, mid)
    ensures SoundManifest(c, mid, IncrementalManifest(c, req, schema, changes, refs))
    ensures ChangesOf(c, mid, IncrementalManifest(c, req, schema, changes, refs)) == Ok(Ungrouped(Grouped(changes)))
  {
    var m := IncrementalManifest(c, req, schema, changes, refs);
    var blobs := ChangesBlobs(c, req.snapshotId, Grouped(changes));
    IncrementalManifestIsTidy(c, req, schema, changes, refs);
    ChangesBlobsAreWellPlaced(c, req.snapshotId, changes);
    ReadyPayloads(c, before, req.snapshotId, blobs, refs, mid);
    assert Complete(c, mid, m) by {
      NewObjectsVerifyIff(c, before, req.snapshotId, blobs, refs, mid);
      WrittenEntriesAreSound(c, refs, mid, m);
      NewManifestIsComplete(c, m, blobs, mid);
    }
    IncrementalChangesLoad(c, req, schema, changes, refs, blobs, mid);
  }

  lemma {:induction false} PublishedGains(c: Codec, before: Store, mid: Store, m: Manifest, after: Store)
    requires c.Lawful() && Fresh(before, m.snapshotId) && Staged(m.snapshotId, before, mid)
    requires VerifyChecksum(c, m).Ok?
    requires after == mid[ManifestKey(m.snapshotId) := c.prettyManifest(m)]
    ensures Gained(c, before, after, m)
  {
    assert c.parseManifest(c.prettyManifest(m)) == Some(m);
    forall x | x != m.snapshotId ensures Get(after, ManifestKey(x)) == Get(before, ManifestKey(x)) {
      if ManifestKey(x) == ManifestKey(m.snapshotId) {
        ManifestKeyIsInjective(x, m.snapshotId);
      }
      ManifestKeyRoundTrip(x);
    }
    forall x | ManifestKey(x) in before ensures Kept(before, after, ManifestKey(x)) {
      assert x != m.snapshotId;
      assert Get(after, ManifestKey(x)) == Get(before, ManifestKey(x));
    }
  }

  // Publishing an incremental over a store that already holds its payloads.
  ghost predicate IncrementalReady(c: Codec, before: Store, ids: set<Uuid>, mid: Store, m: Manifest) {
    && c.Lawful()
    && Sound(c, before, ids) && Fresh(before, m.snapshotId) && Staged(m.snapshotId, before, mid)
    && ManifestKey(m.snapshotId) !in mid && SoundManifest(c, mid, m)
    && m.parent.Some? && m.parent.value in ids
    && LoadManifest(c, before, m.parent.value).Ok?
    && SameSource(m, ManifestAt(c, before, m.parent.value))
  }

  lemma {:induction false} PublishedChain(c: Codec, before: Store, ids: set<Uuid>, mid: Store, m: Manifest,
      after: Store)
    requires IncrementalReady(c, before, ids, mid, m)
    requires after == mid[ManifestKey(m.snapshotId) := c.prettyManifest(m)]
    ensures LoadChain(c, before, m.parent.value).Ok?
    ensures LoadChain(c, after, m.snapshotId) == Ok(LoadChain(c, before, m.parent.value).value + [m])
  {
    PublishedGains(c, before, mid, m, after);
    assert SoundSnapshot(c, before, m.parent.value);
    IncrementalOnParentLoads(c, before, after, m);
  }

  lemma {:induction false} PublishIncremental(c: Codec, before: Store, ids: set<Uuid>, mid: Store, m: Manifest,
      after: Store)
    requires IncrementalReady(c, before, ids, mid, m)
    requires after == mid[ManifestKey(m.snapshotId) := c.prettyManifest(m)]
    ensures Sound(c, after, ids + {m.snapshotId})
  {
    PublishedChain(c, before, ids, mid, m, after);
    StagesKeepSound(c, before, mid, ids, m.snapshotId);
    PublishingKeepsSound(c, mid, ids, m, after);
  }

  lemma {:induction false} ManifestReadsSame(c: Codec, before: Store, after: Store, m: Manifest)
    requires SoundManifest(c, before, m) && Unchanged(before, after)
    ensures Complete(c, after, m) && ChangesOf(c, after, m).Ok? && ChangesOf(c, after, m) == ChangesOf(c, before, m)
  {
    KeptStaysComplete(c, before, after, m);
    LoadChangesKept(c, before, after, m.database, m.database.changes);
  }

  lemma {:induction false} PublishedIncrementalRestores(c: Codec, before: Store, ids: set<Uuid>, mid: Store,
      m: Manifest, after: Store)
    requires IncrementalReady(c, before, ids, mid, m)
    requires after == mid[ManifestKey(m.snapshotId) := c.prettyManifest(m)]
    ensures Restored(c, before, m.parent.value).Some?
    ensures Restored(c, after, m.snapshotId)
         == Some(ApplyChanges(Restored(c, before, m.parent.value).value, ChangesOf(c, mid, m).value))
  {
    var p := m.parent.value;
    PublishedChain(c, before, ids, mid, m, after);
    StagesKeepSound(c, before, mid, ids, m.snapshotId);
    PublishingKeepsOthers(c, mid, ids, m, after);
    SoundSnapshotRestores(c, before, ids, p);
    ManifestReadsSame(c, mid, after, m);
    RestoredFromParent(c, after, p, m, LoadChain(c, before, p).value);
  }

  // An incremental on a sound parent of the same source adds one sound snapshot that stands for the database
  // of the parent with the original, ungrouped change list applied.
  lemma {:induction false} IncrementalBackupMeaning(c: Codec, before: Store, ids: set<Uuid>,
      req: IncrementalBackupRequest, schema: Schema, changes: seq<Change>, refs: seq<ObjectRef>, after: Store)
    requires c.Lawful() && Sound(c, before, ids) && Fresh(before, req.snapshotId)
    requires req.parentId in ids && LoadManifest(c, before, req.parentId).Ok?
    requires SameSource(IncrementalManifest(c, req, schema, changes, refs), ManifestAt(c, before, req.parentId))
    requires ReferencedObjectsMatch(c, Jobs(refs), before)
    requires Written(c, before, IncrementalManifest(c, req, schema, changes, refs),
                     ChangesBlobs(c, req.snapshotId, Grouped(changes)), refs, after)
    ensures Sound(c, after, ids + {req.snapshotId})
    ensures Restored(c, before, req.parentId).Some?
    ensures Restored(c, after, req.snapshotId) == Some(ApplyChanges(Restored(c, before, req.parentId).value, changes))
  {
    var m := IncrementalManifest(c, req, schema, changes, refs);
    var blobs := ChangesBlobs(c, req.snapshotId, Grouped(changes));
    var mid :| ObjectsWritten(c, Jobs(refs), PutAll(before, blobs), mid)
               && after == mid[ManifestKey(m.snapshotId) := c.prettyManifest(m)];
    ChangesBlobsAreWellPlaced(c, req.snapshotId, changes);
    ReadyIsStaged(c, before, req.snapshotId, blobs, refs, mid);
    IncrementalManifestIsSound(c, before, req, schema, changes, refs, mid);
    PublishIncremental(c, before, ids, mid, m, after);
    PublishedIncrementalRestores(c, before, ids, mid, m, after);
    GroupingKeepsMeaning(Restored(c, before, req.parentId).value, changes);
  }

  // Key by key: the last change of a key that does something decides, and other keys are those of the parent.
  lemma {:induction false} IncrementalBackupRow(c: Codec, before: Store, ids: set<Uuid>,
      req: IncrementalBackupRequest, schema: Schema, changes: seq<Change>, refs: seq<ObjectRef>, after: Store,
      name: string, pk: string)
    requires c.Lawful() && Sound(c, before, ids) && Fresh(before, req.snapshotId)
    requires req.parentId in ids && LoadManifest(c, before, req.parentId).Ok?
    requires SameSource(IncrementalManifest(c, req, schema, changes, refs), ManifestAt(c, before, req.parentId))
    requires ReferencedObjectsMatch(c, Jobs(refs), before)
    requires Written(c, before, IncrementalManifest(c, req, schema, changes, refs),
                     ChangesBlobs(c, req.snapshotId, Grouped(changes)), refs, after)
    ensures Restored(c, before, req.parentId).Some? && Restored(c, after, req.snapshotId).Some?
    ensures Find(Restored(c, after, req.snapshotId).value, name, pk)
         == match LastEffect(changes, name, pk)
            case None => Find(Restored(c, before, req.parentId).value, name, pk)
            case Some(row) => row
  {
    IncrementalBackupMeaning(c, before, ids, req, schema, changes, refs, after);
    ChangedRow(Restored(c, before, req.parentId).value, changes, name, pk);
  }
}
