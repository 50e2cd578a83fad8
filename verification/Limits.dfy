// Concrete repositories on which the code does less than one might expect.
module Limits {
  import opened Types
  import opened Payload
  import opened Keys
  import opened Repositories
  import opened Manifests
  import opened Verification
  import opened Database
  import opened Restoring
  import opened Soundness
  import opened Backups
  import opened BackupTheorems
  import opened Compaction
  import opened Pruning
  import opened PruningTheorems
  import opened Operations
  import opened Histories
  import opened RunTheorems
  import opened Progress

  // ----- a sweep cut short -----

  // A prune down to nothing is planned on every sound store.
  lemma {:induction false} PruneToNothing(c: Codec, store: Store) returns (listing: seq<string>, plan: Plan)
    requires Sound(c, store, Snapshots(store))
    ensures Lists(listing, store, SNAPSHOTS_PREFIX) && PlanPrune(c, store, listing, 0) == Ok(plan)
    ensures SafePlan(c, store, plan) && plan.retained == {} && plan.expired == Snapshots(store)
  {
    listing := ListingExists(store, SNAPSHOTS_PREFIX);
    SoundStoreCanBePruned(c, store, listing, 0);
    plan := PlanPrune(c, store, listing, 0).value;
    var selected := PruneRetainsNewestChains(c, store, listing, 0);
    assert selected == {};
    assert ParentClosed(c, store, {});
    assert plan.retained <= {};
  }

  lemma {:induction false} FirstPayload(c: Codec, req: FullBackupRequest, plan: FullBackupPlan)
    requires plan.tables != []
    ensures var m, key := FullManifest(c, req, plan), TableKey(req.snapshotId, plan.tables[0].tableName);
            && |m.objects| < |Refs(m)| && Refs(m)[|m.objects|].key == key
            && UnderSnapshot(req.snapshotId, key) && key != ManifestKey(req.snapshotId)
  {
    TableKeyFacts(req.snapshotId, plan.tables[0].tableName);
    ManifestKeyRoundTrip(req.snapshotId);
  }

  // A prune cut short can leave a visible snapshot that cannot be restored: any full backup with a table will do.
  lemma {:induction false} PruneCanStrandASnapshot(c: Codec, req: FullBackupRequest, plan: FullBackupPlan)
    returns (before: Store, step: Store)
    requires c.Lawful() && TablesAgree(plan.tables) && plan.tables != [] && Obtainable(c, plan.objects)
    ensures Sound(c, before, Snapshots(before)) && Restored(c, before, req.snapshotId).Some?
    ensures Interrupts(c, Prune(0), before, step, {})
    ensures req.snapshotId in Snapshots(step) && Restored(c, step, req.snapshotId) == None
  {
    before := FirstBackup(c, req, plan);
    var ids := Snapshots(before);
    var listing, sweep := PruneToNothing(c, before);
    FirstPayload(c, req, plan);
    var i := |FullManifest(c, req, plan).objects|;
    SoundSnapshotRestores(c, before, ids, req.snapshotId);
    CutShortSweepStrands(c, before, ids, sweep, req.snapshotId, i);
    step := before - {TableKey(req.snapshotId, plan.tables[0].tableName)};
    PruneOutcome(c, 0, before, listing, step);
  }

  // ----- an id used twice -----

  // A second full backup under the id of a finished one, with other rows in its first table: after one put the
  // snapshot is still visible and cannot be restored.
  lemma {:induction false} IdUsedTwiceStrands(c: Codec, req: FullBackupRequest, plan: FullBackupPlan,
      table: TableExport) returns (before: Store, step: Store)
    requires c.Lawful() && TablesAgree(plan.tables) && plan.tables != [] && Obtainable(c, plan.objects)
    requires table.tableName == plan.tables[0].tableName
    requires c.hash(Encode(c, c.rows, table.rows)) != c.hash(Encode(c, c.rows, plan.tables[0].rows))
    ensures Sound(c, before, Snapshots(before)) && Restored(c, before, req.snapshotId).Some?
    ensures step == PutAll(before, [TableBlob(c, req.snapshotId, table)])
    ensures Interrupts(c, FullBackup(req, plan.(tables := [table])), before, step, Snapshots(before))
    ensures req.snapshotId in Snapshots(step) && Restored(c, step, req.snapshotId) == None
  {
    before := FirstBackup(c, req, plan);
    step := PutAll(before, [TableBlob(c, req.snapshotId, table)]);
    assert FullManifest(c, req, plan).database.tables[0] == TableBlob(c, req.snapshotId, plan.tables[0]).entry;
    OverwritingStrands(c, before, Snapshots(before), req.snapshotId, 0, table, step);
  }

  // ----- a row filed under a foreign key -----

  lemma {:induction false} OneChange(change: Change)
    requires change.action == Create && change.row.Some?
    ensures ApplyChanges(map[], [change]) == map[(change.tableName, change.primaryKey) := change.row.value]
  {
    assert [change][1..] == [];
  }

  lemma {:induction false} OneRefiled(key: (string, string), row: Row)
    ensures Refiled(map[key := row]) == map[(key.0, row.primaryKey) := row]
  {
    var db: Db := map[key := row];
    var k := (key.0, row.primaryKey);
    assert FiledUnder(db, k.0, k.1) == {key.1};
    assert (set x | x in db :: (x.0, db[x].primaryKey)) == {k};
  }

  // An empty export and one change under the key "a" with a row that carries the key "b": the incremental restores
  // to the row under "a", its compaction to the row under "b".
  lemma {:induction false} CompactionCanMoveARow(c: Codec, full: FullBackupRequest, schema: Schema,
      inc: IncrementalBackupRequest, compact: CompactChainRequest, row: Row)
    returns (s1: StepOf, s2: StepOf, s3: StepOf, s4: StepOf)
    requires c.Lawful() && row.primaryKey == "b"
    requires inc.parentId == full.snapshotId && inc.appId == full.appId && compact.sourceId == inc.snapshotId
    requires full.snapshotId != inc.snapshotId && full.snapshotId != compact.snapshotId
    requires inc.snapshotId != compact.snapshotId
    ensures s1.op == FullBackup(full, FullBackupPlan(schema, [], []))
    ensures s2.op == IncrementalBackup(inc, schema, [Change("t", "a", Create, Some(row), 0)], [])
    ensures s3.op == Compact(compact)
    ensures IsHistory(c, [s1, s2, s3, s4], [map[], s1.held, s2.held, s3.held, s4.held])
    ensures Restored(c, s3.held, inc.snapshotId) == Some(map[("t", "a") := row])
    ensures Restored(c, s3.held, compact.snapshotId) == Some(map[("t", "b") := row])
    ensures Restored(c, s3.held, compact.snapshotId) != Restored(c, s3.held, inc.snapshotId)
  {
    var plan, changes := FullBackupPlan(schema, [], []), [Change("t", "a", Create, Some(row), 0)];
    var base := FullEntry(c, full, plan);
    var next := IncrementalEntry(c, inc, schema, changes, [], base);
    assert next.db == map[("t", "a") := row] by {
      OneChange(changes[0]);
    }
    s1, s2, s3, s4 := MovingRun(c, full, plan, inc, changes, compact, base, next, row);
  }

  lemma {:induction false} MovingRun(c: Codec, full: FullBackupRequest, plan: FullBackupPlan,
      inc: IncrementalBackupRequest, changes: seq<Change>, compact: CompactChainRequest, base: Entry, next: Entry,
      row: Row) returns (s1: StepOf, s2: StepOf, s3: StepOf, s4: StepOf)
    requires c.Lawful() && row.primaryKey == "b" && plan.tables == [] && plan.objects == []
    requires inc.parentId == full.snapshotId && inc.appId == full.appId && compact.sourceId == inc.snapshotId
    requires full.snapshotId != inc.snapshotId && full.snapshotId != compact.snapshotId
    requires inc.snapshotId != compact.snapshotId
    requires base == FullEntry(c, full, plan) && next == IncrementalEntry(c, inc, plan.schema, changes, [], base)
    requires next.db == map[("t", "a") := row]
    ensures s1.op == FullBackup(full, plan) && s2.op == IncrementalBackup(inc, plan.schema, changes, [])
    ensures s3.op == Compact(compact)
    ensures IsHistory(c, [s1, s2, s3, s4], [map[], s1.held, s2.held, s3.held, s4.held])
    ensures Restored(c, s3.held, inc.snapshotId) == Some(map[("t", "a") := row])
    ensures Restored(c, s3.held, compact.snapshotId) == Some(map[("t", "b") := row])
    ensures Restored(c, s3.held, compact.snapshotId) != Restored(c, s3.held, inc.snapshotId)
  {
    var record: Record := map[full.snapshotId := base][inc.snapshotId := next];
    s1, s2, s3, s4 := RunOfEveryKind(c, full, plan, inc, changes, [], compact, 0, base, record);
    var entry := CompactedEntry(c, s2.held, compact);
    MovedRowIsRecorded(record, inc.snapshotId, compact.snapshotId, next, entry);
    MovedRowRestores(c, s3.held, record[compact.snapshotId := entry], inc.snapshotId, compact.snapshotId, row);
  }

  lemma {:induction false} MovedRowIsRecorded(record: Record, source: Uuid, target: Uuid, from: Entry, to: Entry)
    requires source in record && record[source] == from && source != target && to.db == Refiled(from.db)
    ensures var next := record[target := to];
            && source in next && target in next && next[source] == from
            && next[target].db == Refiled(next[source].db)
  {
  }

  lemma {:induction false} MovedRowRestores(c: Codec, store: Store, record: Record, source: Uuid, target: Uuid,
      row: Row)
    requires FullyRecorded(c, store, record) && source in record && target in record && row.primaryKey == "b"
    requires record[source].db == map[("t", "a") := row] && record[target].db == Refiled(record[source].db)
    ensures Restored(c, store, source) == Some(map[("t", "a") := row])
    ensures Restored(c, store, target) == Some(map[("t", "b") := row])
    ensures Restored(c, store, target) != Restored(c, store, source)
  {
    OneRefiled(("t", "a"), row);
    EntriesStand(c, store, record, source);
    EntriesStand(c, store, record, target);
    assert ("t", "a") !in map[("t", "b") := row];
  }

  lemma {:induction false} EntriesStand(c: Codec, store: Store, record: Record, id: Uuid)
    requires FullyRecorded(c, store, record) && id in record
    ensures StandsFor(c, store, id, record[id])
  {
  }

  // ----- a restore that stops half-way -----

  // An incremental whose only payload is these bytes.
  function BrokenManifest(c: Codec, full: Manifest, id: Uuid, bytes: Bytes): Manifest {
    WithChecksum(c, Manifest(
      FORMAT_VERSION, id, Some(full.snapshotId), 0, full.appId, "", full.schemaVersion, full.schemaHash, full.backend,
      Incremental,
      DatabaseManifest(EXPORT_FORMAT, Zstd, 0, 0, [], [TableEntry("t", 0, ChangesKey(id, "t"), c.hash(bytes))]),
      [], [], ""))
  }

  lemma {:induction false} BrokenManifestFacts(c: Codec, full: Manifest, id: Uuid, bytes: Bytes)
    ensures var m := BrokenManifest(c, full, id, bytes);
            && VerifyChecksum(c, m).Ok? && Tidy(m) && SameSource(m, full)
            && Refs(m) == [BlobRef(ChangesKey(id, "t"), c.hash(bytes))]
  {
    var m := BrokenManifest(c, full, id, bytes);
    SealedManifestVerifies(c, m.(checksum := ""));
    assert m == WithChecksum(c, m.(checksum := ""));
    ChangesKeyFacts(id, "t");
    assert [] + [m.database.changes[0]] == m.database.changes;
  }

  lemma {:induction false} BrokenDoesNotLoad(c: Codec, store: Store, full: Manifest, id: Uuid, bytes: Bytes)
    requires Get(store, ChangesKey(id, "t")) == Ok(bytes) && c.decompress(bytes) == None
    ensures var m := BrokenManifest(c, full, id, bytes); Complete(c, store, m) && ChangesOf(c, store, m).Err?
  {
    BrokenManifestFacts(c, full, id, bytes);
  }

  lemma {:induction false} BrokenIsPublished(c: Codec, before: Store, full: Manifest, id: Uuid, bytes: Bytes)
    returns (after: Store)
    requires c.Lawful() && Sound(c, before, {full.snapshotId}) && LoadChain(c, before, full.snapshotId) == Ok([full])
    requires Fresh(before, id)
    ensures Get(after, ChangesKey(id, "t")) == Ok(bytes)
    ensures SameSnapshots(c, before, after, {full.snapshotId})
    ensures LoadChain(c, after, id) == Ok([full, BrokenManifest(c, full, id, bytes)])
  {
    var m, key := BrokenManifest(c, full, id, bytes), ChangesKey(id, "t");
    var mid := before[key := bytes];
    after := mid[ManifestKey(id) := c.prettyManifest(m)];
    BrokenManifestFacts(c, full, id, bytes);
    ChangesKeyFacts(id, "t");
    ManifestKeyRoundTrip(id);
    assert Staged(id, before, mid);
    StagesKeepSound(c, before, mid, {full.snapshotId}, id);
    PublishingKeepsOthers(c, mid, {full.snapshotId}, m, after);
    PublishedGains(c, before, mid, m, after);
    LoadChainIff(c, before, full.snapshotId, [full]);
    IncrementalOnParentLoads(c, before, after, m);
    assert [full] + [m] == [full, m];
  }

  // A chain that verifies and whose second payload does not decompress: a restore into an empty target of the right
  // schema fails and leaves the rows of the full backup behind.
  lemma {:induction false} RestoreCanStopHalfWay(c: Codec, req: FullBackupRequest, plan: FullBackupPlan, id: Uuid,
      bytes: Bytes) returns (store: Store, chain: seq<Manifest>)
    requires c.Lawful() && TablesAgree(plan.tables) && Obtainable(c, plan.objects) && id != req.snapshotId
    requires InsertTables(map[], plan.tables) != map[] && c.decompress(bytes) == None
    ensures LoadChain(c, store, id) == Ok(chain) && AllComplete(c, store, chain)
    ensures Admitted(c, store, plan.schema, id) && !Restorable(c, store, plan.schema, id)
    ensures LeftBehind(c, store, chain) == InsertTables(map[], plan.tables) != map[]
  {
    var before := FirstBackup(c, req, plan);
    var full := FullManifest(c, req, plan);
    assert LoadChain(c, before, req.snapshotId) == Ok([full]) by {
      FullManifestIsTidy(c, req, plan);
      RootLoads(c, before, full);
    }
    store := BrokenIsPublished(c, before, full, id, bytes);
    chain := [full, BrokenManifest(c, full, id, bytes)];
    BrokenDoesNotLoad(c, store, full, id, bytes);
    BrokenLeavesRoot(c, store, full, chain[1], InsertTables(map[], plan.tables));
  }

  lemma {:induction false} BrokenLeavesRoot(c: Codec, store: Store, full: Manifest, m: Manifest, db: Db)
    requires LoadChain(c, store, full.snapshotId) == Ok([full]) && Restored(c, store, full.snapshotId) == Some(db)
    requires Complete(c, store, m) && ChangesOf(c, store, m).Err?
    ensures AllComplete(c, store, [full, m]) && !Parses(c, store, [full, m])
    ensures LeftBehind(c, store, [full, m]) == db
  {
    assert [full][0] == full && [full][1..] == [];
    assert Complete(c, store, [full][0]);
    assert [full, m][0] == full && [full, m][1..] == [m];
    assert ChangeLists(c, store, [m]).Err?;
  }
}
