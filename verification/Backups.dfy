// Full and incremental backups: payload blobs first, then objects, the manifest last.
module Backups {
  import opened Types
  import opened Payload
  import opened Keys
  import opened Repositories
  import opened Manifests
  import opened Verification
  import opened Database
  import opened Objects
  import opened Restoring
  import opened Soundness

  datatype FullBackupRequest = FullBackupRequest(snapshotId: Uuid, createdAt: int, appId: string, appVersion: string)

  datatype IncrementalBackupRequest = IncrementalBackupRequest(
    snapshotId: Uuid, parentId: Uuid, createdAt: int, appId: string, appVersion: string)

  // What the database adapter and the object index report for a full backup.
  datatype FullBackupPlan = FullBackupPlan(schema: Schema, tables: seq<TableExport>, objects: seq<ObjectRef>)

  // ----- payload blobs -----

  datatype PayloadBlob = PayloadBlob(entry: TableEntry, bytes: Bytes)

  function TableBlob(c: Codec, id: Uuid, table: TableExport): PayloadBlob {
    var bytes := Encode(c, c.rows, table.rows);
    PayloadBlob(TableEntry(table.tableName, |table.rows|, TableKey(id, table.tableName), c.hash(bytes)), bytes)
  }

  function ChangesBlob(c: Codec, id: Uuid, group: ChangeGroup): PayloadBlob {
    var bytes := Encode(c, c.changes, group.changes);
    PayloadBlob(TableEntry(group.tableName, |group.changes|, ChangesKey(id, group.tableName), c.hash(bytes)), bytes)
  }

  function TableBlobs(c: Codec, id: Uuid, tables: seq<TableExport>): seq<PayloadBlob> {
    seq(|tables|, i requires 0 <= i < |tables| => TableBlob(c, id, tables[i]))
  }

  function ChangesBlobs(c: Codec, id: Uuid, groups: seq<ChangeGroup>): seq<PayloadBlob> {
    seq(|groups|, i requires 0 <= i < |groups| => ChangesBlob(c, id, groups[i]))
  }

  function EntriesOf(blobs: seq<PayloadBlob>): seq<TableEntry> {
    seq(|blobs|, i requires 0 <= i < |blobs| => blobs[i].entry)
  }

  // The store after writing the blobs in order: a later blob replaces an earlier one of the same key.
  function PutAll(store: Store, blobs: seq<PayloadBlob>): Store {
    if blobs == [] then store
    else
      var n := |blobs| - 1;
      PutAll(store, blobs[..n])[blobs[n].entry.contentKey := blobs[n].bytes]
  }

  lemma {:induction false} PutAllAt(store: Store, blobs: seq<PayloadBlob>, key: string)
    ensures (forall i :: 0 <= i < |blobs| ==> blobs[i].entry.contentKey != key) ==>
              Get(PutAll(store, blobs), key) == Get(store, key)
    ensures (exists i :: 0 <= i < |blobs| && blobs[i].entry.contentKey == key) ==>
              exists i :: 0 <= i < |blobs| && blobs[i].entry.contentKey == key
                          && Get(PutAll(store, blobs), key) == Ok(blobs[i].bytes)
  {
    if blobs == [] {
    } else {
      var n := |blobs| - 1;
      PutAllAt(store, blobs[..n], key);
      assert forall i :: 0 <= i < n ==> blobs[..n][i] == blobs[i];
      if blobs[n].entry.contentKey != key {
        if i :| 0 <= i < |blobs| && blobs[i].entry.contentKey == key {
          assert blobs[..n][i].entry.contentKey == key;
        }
      }
    }
  }

  predicate SameKey(blobs: seq<PayloadBlob>, i: int, j: int) {
    0 <= i < |blobs| && 0 <= j < |blobs| && blobs[i].entry.contentKey == blobs[j].entry.contentKey
  }

  lemma {:induction false} PutAllStoresOne(store: Store, blobs: seq<PayloadBlob>, i: nat) returns (k: nat)
    requires i < |blobs|
    ensures SameKey(blobs, i, k) && Get(PutAll(store, blobs), blobs[i].entry.contentKey) == Ok(blobs[k].bytes)
  {
    PutAllAt(store, blobs, blobs[i].entry.contentKey);
    k :| 0 <= k < |blobs| && blobs[k].entry.contentKey == blobs[i].entry.contentKey
         && Get(PutAll(store, blobs), blobs[i].entry.contentKey) == Ok(blobs[k].bytes);
  }

  ghost predicate PayloadsVerify(c: Codec, store: Store, blobs: seq<PayloadBlob>) {
    forall i :: 0 <= i < |blobs| ==> VerifyBlob(c, store, BlobRef(blobs[i].entry.contentKey, blobs[i].entry.sha)).Ok?
  }

  // The payload checks of a snapshot succeed exactly when blobs of one key have one hash. Two tables
  // of one name share a key, so the second silently replaces the first.
  lemma {:induction false} PayloadsVerifyIff(c: Codec, store: Store, blobs: seq<PayloadBlob>)
    requires forall i :: 0 <= i < |blobs| ==> blobs[i].entry.sha == c.hash(blobs[i].bytes)
    ensures PayloadsVerify(c, PutAll(store, blobs), blobs)
       <==> forall i, j :: SameKey(blobs, i, j) ==> blobs[i].entry.sha == blobs[j].entry.sha
  {
    var after := PutAll(store, blobs);
    if PayloadsVerify(c, after, blobs) {
      forall i, j | SameKey(blobs, i, j) ensures blobs[i].entry.sha == blobs[j].entry.sha {
        assert VerifyBlob(c, after, BlobRef(blobs[i].entry.contentKey, blobs[i].entry.sha)).Ok?;
        assert VerifyBlob(c, after, BlobRef(blobs[j].entry.contentKey, blobs[j].entry.sha)).Ok?;
      }
    }
    if forall i, j :: SameKey(blobs, i, j) ==> blobs[i].entry.sha == blobs[j].entry.sha {
      forall i | 0 <= i < |blobs|
        ensures VerifyBlob(c, after, BlobRef(blobs[i].entry.contentKey, blobs[i].entry.sha)).Ok?
      {
        var k := PutAllStoresOne(store, blobs, i);
      }
    }
  }

  // Two tables of one name whose payloads hash differently: the snapshot that lists both never verifies.
  lemma {:induction false} TwoTablesOfOneNameClash(c: Codec, store: Store, id: Uuid, a: TableExport, b: TableExport)
    requires a.tableName == b.tableName
    requires c.hash(Encode(c, c.rows, a.rows)) != c.hash(Encode(c, c.rows, b.rows))
    ensures !PayloadsVerify(c, PutAll(store, TableBlobs(c, id, [a, b])), TableBlobs(c, id, [a, b]))
  {
    var blobs := TableBlobs(c, id, [a, b]);
    assert SameKey(blobs, 0, 1) && blobs[0].entry.sha != blobs[1].entry.sha;
    PayloadsVerifyIff(c, store, blobs);
  }

  // Blobs of one key are one blob.
  ghost predicate Agreeing(blobs: seq<PayloadBlob>) {
    forall i, j :: SameKey(blobs, i, j) ==> blobs[i].bytes == blobs[j].bytes
  }

  lemma {:induction false} AgreeingBlobsAreStored(store: Store, blobs: seq<PayloadBlob>)
    requires Agreeing(blobs)
    ensures forall i :: 0 <= i < |blobs| ==> Get(PutAll(store, blobs), blobs[i].entry.contentKey) == Ok(blobs[i].bytes)
  {
    forall i | 0 <= i < |blobs|
      ensures Get(PutAll(store, blobs), blobs[i].entry.contentKey) == Ok(blobs[i].bytes)
    {
      var k := PutAllStoresOne(store, blobs, i);
    }
  }

  // ----- the stages of a snapshot being written -----

  // Between two writes: nothing outside this snapshot's own keys has changed, no manifest has appeared
  // or changed, and what is new is a payload of this snapshot or an object.
  ghost predicate Staged(id: Uuid, before: Store, after: Store) {
    && (forall k :: k in before && !UnderSnapshot(id, k) ==> k in after && after[k] == before[k])
    && (forall k :: k in before && SnapshotIdOf(k).Some? ==> k in after && after[k] == before[k])
    && (forall k :: k in after && k !in before ==>
          SnapshotIdOf(k) == None && (UnderSnapshot(id, k) || Under(OBJECTS_PREFIX, k)))
  }

  lemma {:induction false} ObjectsKeepStage(id: Uuid, before: Store, s: Store, t: Store, refs: seq<ObjectRef>)
    requires Staged(id, before, s) && OnlyJobsAdded(Jobs(refs), s, t)
    ensures Staged(id, before, t)
  {
    forall k | k in t && k !in before
      ensures SnapshotIdOf(k) == None && (UnderSnapshot(id, k) || Under(OBJECTS_PREFIX, k))
    {
      if k !in s {
        var i :| 0 <= i < |Jobs(refs)| && Jobs(refs)[i].key == k;
        ObjectKeyFacts(refs[i].sha);
      }
    }
  }

  // No manifest is stored under this id. Payloads of a call that stopped may be.
  predicate Fresh(store: Store, id: Uuid) {
    ManifestKey(id) !in store
  }

  // A stage touches nothing that a manifest of another snapshot refers to.
  lemma {:induction false} StageKeepsRefs(id: Uuid, before: Store, after: Store, m: Manifest)
    requires Staged(id, before, after) && Tidy(m) && m.snapshotId != id
    ensures KeptRefs(before, after, m)
  {
    forall i | 0 <= i < |Refs(m)| ensures Kept(before, after, Refs(m)[i].key) {
      var key := Refs(m)[i].key;
      TidyRef(m, i);
      if key == ObjectKey(Refs(m)[i].sha) {
        ObjectKeyFacts(Refs(m)[i].sha);
      } else if UnderSnapshot(id, key) {
        SnapshotsAreDisjoint(id, m.snapshotId, key);
      }
    }
  }

  lemma {:induction false} StageKeepsChain(id: Uuid, before: Store, after: Store, chain: seq<Manifest>)
    requires Staged(id, before, after)
    requires forall i :: 0 <= i < |chain| ==> Tidy(chain[i]) && chain[i].snapshotId != id
    ensures KeptChain(before, after, chain)
  {
    forall i | 0 <= i < |chain|
      ensures Kept(before, after, ManifestKey(chain[i].snapshotId)) && KeptRefs(before, after, chain[i])
    {
      ManifestKeyRoundTrip(chain[i].snapshotId);
      StageKeepsRefs(id, before, after, chain[i]);
    }
  }

  lemma {:induction false} FreshIsNotVisible(store: Store, id: Uuid)
    requires Canonical(store)
    ensures Fresh(store, id) <==> id !in Snapshots(store)
  {
    VisibleIffStored(store, id);
  }

  lemma {:induction false} StageStaysLegible(c: Codec, before: Store, after: Store, id: Uuid)
    requires Legible(c, before) && Staged(id, before, after)
    ensures Legible(c, after) && Snapshots(after) == Snapshots(before)
  {
    SameManifestsVisible(before, after);
    forall x | x in Snapshots(before) ensures LegibleSnapshot(c, after, x) {
      ManifestKeyRoundTrip(x);
      KeptManifestStaysLegible(c, before, after, x);
    }
  }

  // Manifest last: after every single write of a run before the manifest, the same snapshots are visible and
  // sound, and each of them restores to the same database.
  lemma {:induction false} StagesKeepSound(c: Codec, before: Store, after: Store, ids: set<Uuid>, id: Uuid)
    requires Sound(c, before, ids) && Fresh(before, id) && Staged(id, before, after)
    ensures Sound(c, after, ids) && Snapshots(after) == Snapshots(before)
    ensures SameSnapshots(c, before, after, ids)
  {
    StageStaysLegible(c, before, after, id);
    forall x | x in ids ensures LoadChain(c, before, x).Ok? && KeptChain(before, after, LoadChain(c, before, x).value) {
      assert SoundSnapshot(c, before, x);
      FreshIsNotVisible(before, id);
      LegibleChain(c, before, x, LoadChain(c, before, x).value);
      StageKeepsChain(id, before, after, LoadChain(c, before, x).value);
    }
    KeptChainsStaySound(c, before, after, ids, ids);
  }

  // The store after a whole run: payloads, then objects, then the manifest.
  ghost predicate Written(c: Codec, before: Store, m: Manifest, blobs: seq<PayloadBlob>, refs: seq<ObjectRef>,
        after: Store) {
    exists mid ::
      && ObjectsWritten(c, Jobs(refs), PutAll(before, blobs), mid)
      && after == mid[ManifestKey(m.snapshotId) := c.prettyManifest(m)]
  }

  lemma {:induction false} PutAllSnoc(store: Store, blobs: seq<PayloadBlob>, i: nat)
    requires i < |blobs|
    ensures PutAll(store, blobs[..i + 1]) == PutAll(store, blobs[..i])[blobs[i].entry.contentKey := blobs[i].bytes]
    ensures EntriesOf(blobs[..i + 1]) == EntriesOf(blobs[..i]) + [blobs[i].entry]
  {
    assert blobs[..i + 1][..i] == blobs[..i];
  }

  ghost predicate StagedSince(id: Uuid, before: Store, history: seq<Store>, start: nat) {
    forall i :: start <= i < |history| ==> Staged(id, before, history[i])
  }

  lemma {:induction false} OneMoreStage(id: Uuid, before: Store, history: seq<Store>, next: seq<Store>, start: nat,
      store: Store)
    requires StagedSince(id, before, history, start)
    requires next == history || (next == history + [store] && Staged(id, before, store))
    ensures StagedSince(id, before, next, start)
  {
  }

  method PutPayload(repository: Repository, id: Uuid, blob: PayloadBlob, ghost before: Store) returns (r: Result<()>)
    requires repository.Valid() && Staged(id, before, repository.blobs)
    requires UnderSnapshot(id, blob.entry.contentKey) && SnapshotIdOf(blob.entry.contentKey) == None
    modifies repository
    ensures repository.Valid() && Staged(id, before, repository.blobs)
    ensures repository.history == old(repository.history)
         || repository.history == old(repository.history) + [repository.blobs]
    ensures r.Ok? ==> repository.blobs == old(repository.blobs)[blob.entry.contentKey := blob.bytes]
    ensures repository.failures >= old(repository.failures)
    ensures r.Err? ==> r.error == Storage && repository.failures > old(repository.failures)
  {
    r := repository.PutBlob(blob.entry.contentKey, blob.bytes);
  }

  lemma {:induction false} RowTotalStep(tables: seq<TableExport>, i: nat)
    requires i < |tables|
    ensures RowTotal(tables[i..]) == |tables[i].rows| + RowTotal(tables[i + 1..])
  {
    assert tables[i..][1..] == tables[i + 1..];
  }

  method WriteTable(c: Codec, repository: Repository, id: Uuid, table: TableExport, ghost before: Store)
    returns (r: Result<TableEntry>)
    requires repository.Valid() && Staged(id, before, repository.blobs)
    modifies repository
    ensures repository.Valid() && Staged(id, before, repository.blobs)
    ensures repository.history == old(repository.history)
         || repository.history == old(repository.history) + [repository.blobs]
    ensures var blob := TableBlob(c, id, table);
            r.Ok? ==>
              && r.value == blob.entry
              && repository.blobs == old(repository.blobs)[blob.entry.contentKey := blob.bytes]
    ensures repository.failures >= old(repository.failures)
    ensures r.Err? ==> r.error == Storage && repository.failures > old(repository.failures)
  {
    var bytes := SerializeEntries(c, c.rows, table.rows);
    var contentKey := TableKey(id, table.tableName);
    TableKeyFacts(id, table.tableName);
    var entry := TableEntry(table.tableName, |table.rows|, contentKey, c.hash(bytes));
    var _ :- PutPayload(repository, id, PayloadBlob(entry, bytes), before);
    r := Ok(entry);
  }

  // Writes one payload per table, as both a full backup and a compaction do.
  method WriteTables(c: Codec, repository: Repository, id: Uuid, tables: seq<TableExport>)
    returns (r: Result<(seq<TableEntry>, nat)>)
    requires repository.Valid()
    modifies repository
    ensures repository.Valid() && old(repository.history) <= repository.history
    ensures StagedSince(id, old(repository.blobs), repository.history, |old(repository.history)|)
    ensures Staged(id, old(repository.blobs), repository.blobs)
    ensures r.Ok? ==> r.value == (EntriesOf(TableBlobs(c, id, tables)), RowTotal(tables))
    ensures r.Ok? ==> repository.blobs == PutAll(old(repository.blobs), TableBlobs(c, id, tables))
    ensures repository.failures >= old(repository.failures)
    ensures r.Err? ==> r.error == Storage && repository.failures > old(repository.failures)
  {
    ghost var before, blobs := repository.blobs, TableBlobs(c, id, tables);
    var entries: seq<TableEntry> := [];
    var rowCount := 0;
    assert tables[0..] == tables;
    for i := 0 to |tables|
      invariant repository.Valid() && old(repository.history) <= repository.history
      invariant repository.failures >= old(repository.failures)
      invariant StagedSince(id, before, repository.history, |old(repository.history)|)
      invariant Staged(id, before, repository.blobs)
      invariant repository.blobs == PutAll(before, blobs[..i])
      invariant entries == EntriesOf(blobs[..i])
      invariant rowCount + RowTotal(tables[i..]) == RowTotal(tables)
    {
      var table := tables[i];
      assert RowTotal(tables[i..]) == |table.rows| + RowTotal(tables[i + 1..]) by {
        RowTotalStep(tables, i);
      }
      assert blobs[i] == TableBlob(c, id, table);
      PutAllSnoc(before, blobs, i);
      ghost var stores := repository.history;
      var put := WriteTable(c, repository, id, table, before);
      OneMoreStage(id, before, stores, repository.history, |old(repository.history)|, repository.blobs);
      var entry :- put;
      rowCount := rowCount + |table.rows|;
      entries := entries + [entry];
    }
    assert blobs[..|tables|] == blobs && RowTotal(tables[|tables|..]) == 0;
    r := Ok((entries, rowCount));
  }

  // write_manifest: seals the manifest and stores it under its own id.
  method WriteManifest(c: Codec, repository: Repository, m: Manifest) returns (r: Result<Manifest>)
    requires repository.Valid()
    modifies repository
    ensures repository.Valid()
    ensures r.Ok? ==>
              && r.value == WithChecksum(c, m)
              && repository.blobs == old(repository.blobs)[ManifestKey(m.snapshotId) := c.prettyManifest(r.value)]
              && repository.history == old(repository.history) + [repository.blobs]
    ensures repository.failures >= old(repository.failures)
    ensures r.Err? ==>
              && r.error == Storage && repository.failures > old(repository.failures)
              && repository.blobs == old(repository.blobs) && repository.history == old(repository.history)
  {
    var sealed := WithChecksum(c, m);
    var _ :- repository.PutBlob(ManifestKey(sealed.snapshotId), c.prettyManifest(sealed));
    r := Ok(sealed);
  }

  // ----- full backup -----

  function FullManifest(c: Codec, req: FullBackupRequest, plan: FullBackupPlan): Manifest {
    WithChecksum(c, Manifest(
      FORMAT_VERSION, req.snapshotId, None, req.createdAt, req.appId, req.appVersion,
      plan.schema.migrationVersion, plan.schema.schemaHash, plan.schema.backend, Full,
      DatabaseManifest(EXPORT_FORMAT, Zstd, RowTotal(plan.tables), |plan.tables|,
                       EntriesOf(TableBlobs(c, req.snapshotId, plan.tables)), []),
      Entries(plan.objects), [], ""))
  }

  // create_full_backup_inner
  method CreateFullBackup(c: Codec, repository: Repository, source: ObjectIndex, req: FullBackupRequest,
        plan: FullBackupPlan)
    returns (r: Result<Manifest>)
    requires repository.Valid()
    modifies repository, source
    ensures repository.failures >= old(repository.failures) && source.failures >= old(source.failures)
    ensures old(source.log) <= source.log
    // An error has its cause, and success means that every object was delivered with its declared hash.
    ensures r.Err? ==> HasCause(c, plan.objects, source.log[|old(source.log)|..], r.error,
                                repository.failures > old(repository.failures), source.failures > old(source.failures))
    ensures r.Ok? ==> forall i :: 0 <= i < |plan.objects| ==> exists bytes ::
              (plan.objects[i], bytes) in source.log[|old(source.log)|..] && c.hash(bytes) == plan.objects[i].sha
    ensures repository.Valid() && old(repository.history) <= repository.history
    ensures forall i :: |old(repository.history)| <= i < |repository.history| - (if r.Ok? then 1 else 0) ==>
              Staged(req.snapshotId, old(repository.blobs), repository.history[i])
    ensures r.Err? ==> Staged(req.snapshotId, old(repository.blobs), repository.blobs)
    ensures r.Ok? ==> r.value == FullManifest(c, req, plan)
    ensures r.Ok? ==> Written(c, old(repository.blobs), r.value, TableBlobs(c, req.snapshotId, plan.tables),
                              plan.objects, repository.blobs)
  {
    ghost var before := repository.blobs;
    var tables :- WriteTables(c, repository, req.snapshotId, plan.tables);
    ghost var staged, start := repository.blobs, |repository.history|;
    var entries, batch := WriteObjectEntries(c, repository, source, plan.objects);
    InvariantAddsOnlyJobs(c, Jobs(plan.objects), staged, batch);
    ObjectsKeepStage(req.snapshotId, before, staged, repository.blobs, plan.objects);
    forall i | start <= i < |repository.history| ensures Staged(req.snapshotId, before, repository.history[i]) {
      ObjectsKeepStage(req.snapshotId, before, staged, repository.history[i], plan.objects);
    }
    var objects :- entries;
    r := WriteManifest(c, repository, Manifest(
      FORMAT_VERSION, req.snapshotId, None, req.createdAt, req.appId, req.appVersion,
      plan.schema.migrationVersion, plan.schema.schemaHash, plan.schema.backend, Full,
      DatabaseManifest(EXPORT_FORMAT, Zstd, tables.1, |tables.0|, tables.0, []),
      objects, [], ""));
  }

  // ----- incremental backup -----

  // changes_to_tombstones
  function Tombstones(changes: seq<Change>): seq<Tombstone> {
    if changes == [] then []
    else
      (if changes[0].action == Delete
       then [Tombstone(Some(changes[0].tableName), Some(changes[0].primaryKey), None, changes[0].changedAt)]
       else []) + Tombstones(changes[1..])
  }

  function GroupTotal(groups: seq<ChangeGroup>): nat {
    if groups == [] then 0 else |groups[0].changes| + GroupTotal(groups[1..])
  }

  function IncrementalManifest(c: Codec, req: IncrementalBackupRequest, schema: Schema, changes: seq<Change>,
        refs: seq<ObjectRef>): Manifest {
    WithChecksum(c, Manifest(
      FORMAT_VERSION, req.snapshotId, Some(req.parentId), req.createdAt, req.appId, req.appVersion,
      schema.migrationVersion, schema.schemaHash, schema.backend, Incremental,
      DatabaseManifest(EXPORT_FORMAT, Zstd, GroupTotal(Grouped(changes)), 0, [],
                       EntriesOf(ChangesBlobs(c, req.snapshotId, Grouped(changes)))),
      Entries(refs), Tombstones(changes), ""))
  }

  lemma {:induction false} GroupTotalStep(groups: seq<ChangeGroup>, i: nat)
    requires i < |groups|
    ensures GroupTotal(groups[i..]) == |groups[i].changes| + GroupTotal(groups[i + 1..])
  {
    assert groups[i..][1..] == groups[i + 1..];
  }

  method WriteGroup(c: Codec, repository: Repository, id: Uuid, group: ChangeGroup, ghost before: Store)
    returns (r: Result<TableEntry>)
    requires repository.Valid() && Staged(id, before, repository.blobs)
    modifies repository
    ensures repository.Valid() && Staged(id, before, repository.blobs)
    ensures repository.history == old(repository.history)
         || repository.history == old(repository.history) + [repository.blobs]
    ensures var blob := ChangesBlob(c, id, group);
            r.Ok? ==>
              && r.value == blob.entry
              && repository.blobs == old(repository.blobs)[blob.entry.contentKey := blob.bytes]
    ensures repository.failures >= old(repository.failures)
    ensures r.Err? ==> r.error == Storage && repository.failures > old(repository.failures)
  {
    var bytes := SerializeEntries(c, c.changes, group.changes);
    var contentKey := ChangesKey(id, group.tableName);
    ChangesKeyFacts(id, group.tableName);
    var entry := TableEntry(group.tableName, |group.changes|, contentKey, c.hash(bytes));
    var _ :- PutPayload(repository, id, PayloadBlob(entry, bytes), before);
    r := Ok(entry);
  }

  method WriteChanges(c: Codec, repository: Repository, id: Uuid, groups: seq<ChangeGroup>)
    returns (r: Result<(seq<TableEntry>, nat)>)
    requires repository.Valid()
    modifies repository
    ensures repository.Valid() && old(repository.history) <= repository.history
    ensures StagedSince(id, old(repository.blobs), repository.history, |old(repository.history)|)
    ensures Staged(id, old(repository.blobs), repository.blobs)
    ensures r.Ok? ==> r.value == (EntriesOf(ChangesBlobs(c, id, groups)), GroupTotal(groups))
    ensures r.Ok? ==> repository.blobs == PutAll(old(repository.blobs), ChangesBlobs(c, id, groups))
    ensures repository.failures >= old(repository.failures)
    ensures r.Err? ==> r.error == Storage && repository.failures > old(repository.failures)
  {
    ghost var before, blobs := repository.blobs, ChangesBlobs(c, id, groups);
    var entries: seq<TableEntry> := [];
    var changeCount := 0;
    assert groups[0..] == groups;
    for i := 0 to |groups|
      invariant repository.Valid() && old(repository.history) <= repository.history
      invariant repository.failures >= old(repository.failures)
      invariant StagedSince(id, before, repository.history, |old(repository.history)|)
      invariant Staged(id, before, repository.blobs)
      invariant repository.blobs == PutAll(before, blobs[..i])
      invariant entries == EntriesOf(blobs[..i])
      invariant changeCount + GroupTotal(groups[i..]) == GroupTotal(groups)
    {
      var group := groups[i];
      GroupTotalStep(groups, i);
      assert blobs[i] == ChangesBlob(c, id, group);
      PutAllSnoc(before, blobs, i);
      ghost var stores := repository.history;
      var put := WriteGroup(c, repository, id, group, before);
      OneMoreStage(id, before, stores, repository.history, |old(repository.history)|, repository.blobs);
      var entry :- put;
      changeCount := changeCount + |group.changes|;
      entries := entries + [entry];
    }
    assert blobs[..|groups|] == blobs;
    r := Ok((entries, changeCount));
  }

  // create_incremental_backup_inner: the parent is taken on trust.
  method CreateIncrementalBackup(c: Codec, repository: Repository, source: ObjectIndex, req: IncrementalBackupRequest,
        schema: Schema, changes: seq<Change>, refs: seq<ObjectRef>)
    returns (r: Result<Manifest>)
    requires repository.Valid()
    modifies repository, source
    ensures repository.failures >= old(repository.failures) && source.failures >= old(source.failures)
    ensures old(source.log) <= source.log
    // An error has its cause, and success means that every object was delivered with its declared hash.
    ensures r.Err? ==> HasCause(c, refs, source.log[|old(source.log)|..], r.error,
                                repository.failures > old(repository.failures), source.failures > old(source.failures))
    ensures r.Ok? ==> forall i :: 0 <= i < |refs| ==> exists bytes ::
              (refs[i], bytes) in source.log[|old(source.log)|..] && c.hash(bytes) == refs[i].sha
    ensures repository.Valid() && old(repository.history) <= repository.history
    ensures forall i :: |old(repository.history)| <= i < |repository.history| - (if r.Ok? then 1 else 0) ==>
              Staged(req.snapshotId, old(repository.blobs), repository.history[i])
    ensures r.Err? ==> Staged(req.snapshotId, old(repository.blobs), repository.blobs)
    ensures r.Ok? ==> r.value == IncrementalManifest(c, req, schema, changes, refs)
    ensures r.Ok? ==> Written(c, old(repository.blobs), r.value, ChangesBlobs(c, req.snapshotId, Grouped(changes)),
                              refs, repository.blobs)
  {
    ghost var before := repository.blobs;
    var tombstones := Tombstones(changes);
    var groups := GroupChangesByTable(changes);
    var written :- WriteChanges(c, repository, req.snapshotId, groups);
    ghost var staged, start := repository.blobs, |repository.history|;
    var entries, batch := WriteObjectEntries(c, repository, source, refs);
    InvariantAddsOnlyJobs(c, Jobs(refs), staged, batch);
    ObjectsKeepStage(req.snapshotId, before, staged, repository.blobs, refs);
    forall i | start <= i < |repository.history| ensures Staged(req.snapshotId, before, repository.history[i]) {
      ObjectsKeepStage(req.snapshotId, before, staged, repository.history[i], refs);
    }
    var objects :- entries;
    r := WriteManifest(c, repository, Manifest(
      FORMAT_VERSION, req.snapshotId, Some(req.parentId), req.createdAt, req.appId, req.appVersion,
      schema.migrationVersion, schema.schemaHash, schema.backend, Incremental,
      DatabaseManifest(EXPORT_FORMAT, Zstd, written.1, 0, [], written.0),
      objects, tombstones, ""));
  }
}
