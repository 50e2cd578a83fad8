// What holds over whole runs beside immutability: which ids may be used again, what a chain of backups stands for,
// and which objects its compaction carries.
module RunTheorems {
  import opened Types
  import opened Payload
  import opened Keys
  import opened Repositories
  import opened Manifests
  import opened Verification
  import opened Database
  import opened Restoring
  import opened Soundness
  import opened Backups
  import opened BackupTheorems
  import opened Compaction
  import opened CompactionTheorems
  import opened Operations
  import opened Locking
  import opened Histories

  // ----- ids that may be used -----

  // A call that was refused or stopped may be tried again under its own id.
  lemma {:induction false} UnfinishedCallCanBeRetried(c: Codec, step: StepOf, before: Store, after: Store)
    requires Legible(c, before) && Admissible(step.op, before) && Runs(c, step, before, after)
    requires step.outcome != Finished
    ensures Admissible(step.op, after)
  {
    if NewId(step.op).Some? {
      var id := NewId(step.op).value;
      if step.outcome == NotStarted {
        LockKeepsFresh(before, after, id);
      } else {
        LockKeepsFresh(before, step.locked, id);
        ManifestKeyRoundTrip(id);
        assert Staged(id, step.locked, step.held);
        LockKeepsFresh(step.held, after, id);
      }
    }
  }

  // What one call under a fresh id leaves, finished or stopped.
  lemma {:induction false} FreshCallSpares(c: Codec, op: Operation, outcome: Outcome, before: Store, after: Store,
      kept: set<Uuid>, ids: set<Uuid>)
    requires c.Lawful() && Sound(c, before, ids) && Admissible(op, before) && NewId(op).Some?
    requires outcome != NotStarted && Acts(c, op, outcome, before, after, kept)
    ensures SameSnapshots(c, before, after, ids)
  {
    if outcome == Stopped {
      StagesKeepSound(c, before, after, ids, NewId(op).value);
    } else {
      match op
      case FullBackup(req, plan) => FullBackupKeepsOthers(c, before, ids, req, plan, after);
      case IncrementalBackup(req, schema, changes, refs) =>
        IncrementalBackupKeepsOthers(c, before, ids, req, schema, changes, refs, after);
      case Compact(req) =>
        var m :| Compacted(c, before, req, m, after);
        CompactionKeepsOthers(c, before, ids, req, m, after);
    }
  }

  // A full backup without objects stands for its tables whatever its id held before.
  lemma {:induction false} OverwritingBackupRestores(c: Codec, before: Store, req: FullBackupRequest,
      plan: FullBackupPlan, after: Store)
    requires c.Lawful() && TablesAgree(plan.tables) && plan.objects == []
    requires var m := FullManifest(c, req, plan);
             after == PutAll(before, TableBlobs(c, req.snapshotId, plan.tables))
                        [ManifestKey(req.snapshotId) := c.prettyManifest(m)]
    ensures Restored(c, after, req.snapshotId) == Some(InsertTables(map[], plan.tables))
  {
    var m, blobs := FullManifest(c, req, plan), TableBlobs(c, req.snapshotId, plan.tables);
    FullManifestIsTidy(c, req, plan);
    TableBlobsAreWellPlaced(c, req.snapshotId, plan.tables);
    AgreeingBlobsAreStored(before, blobs);
    ManifestKeyRoundTrip(req.snapshotId);
    forall i | 0 <= i < |blobs| ensures Get(after, blobs[i].entry.contentKey) == Ok(blobs[i].bytes) {
      assert Get(PutAll(before, blobs), blobs[i].entry.contentKey) == Ok(blobs[i].bytes);
    }
    assert m.database.tables + m.database.changes == EntriesOf(blobs);
    NewManifestIsComplete(c, m, blobs, after);
    RootTablesLoad(c, m, plan.tables, after);
    assert c.parseManifest(c.prettyManifest(m)) == Some(m);
    StoredRootRestores(c, after, m, plan.tables);
  }

  lemma {:induction false} OneRowExport(row: Row)
    ensures InsertTables(map[], [TableExport(row.tableName, [row])]) == map[(row.tableName, row.primaryKey) := row]
  {
    var tables := [TableExport(row.tableName, [row])];
    assert tables[1..] == [] && [row][1..] == [];
    assert InsertRows(map[], row.tableName, [row]) == map[(row.tableName, row.primaryKey) := row];
  }

  // Some export stands for another database than this one.
  lemma {:induction false} OtherTables(db: Db) returns (tables: seq<TableExport>)
    ensures TablesAgree(tables) && InsertTables(map[], tables) != db
  {
    if db == map[] {
      var row := Row("t", "a", "", "");
      tables := [TableExport(row.tableName, [row])];
      OneRowExport(row);
      assert (row.tableName, row.primaryKey) in InsertTables(map[], tables);
    } else {
      tables := [];
    }
  }

  // A backup under this id that finishes and leaves the id with another database.
  lemma {:induction false} OverwritingChanges(c: Codec, before: Store, id: Uuid, db: Db)
    returns (op: Operation, after: Store)
    requires c.Lawful()
    ensures NewId(op) == Some(id) && Performs(c, op, before, after, Snapshots(before))
    ensures Restored(c, after, id).Some? && Restored(c, after, id) != Some(db)
  {
    var tables := OtherTables(db);
    var req, plan := FullBackupRequest(id, 0, "", ""), FullBackupPlan(Schema("", "", ""), tables, []);
    var blobs, m := TableBlobs(c, id, tables), FullManifest(c, req, plan);
    op := FullBackup(req, plan);
    after := PutAll(before, blobs)[ManifestKey(id) := c.prettyManifest(m)];
    NothingWritten(c, PutAll(before, blobs));
    assert Written(c, before, m, blobs, [], after);
    OverwritingBackupRestores(c, before, req, plan, after);
  }

  // No call under this id, finished or stopped, touches a visible snapshot.
  ghost predicate MayBeUsed(c: Codec, before: Store, id: Uuid) {
    forall op, outcome, after, kept ::
      NewId(op) == Some(id) && outcome != NotStarted && Acts(c, op, outcome, before, after, kept) ==>
        SameSnapshots(c, before, after, Snapshots(before))
  }

  // The code does not look whether the id of a new snapshot is taken. Visible snapshots are safe from it exactly
  // when it is not the id of one of them.
  lemma {:induction false} MayBeUsedIff(c: Codec, before: Store, id: Uuid)
    requires c.Lawful() && Sound(c, before, Snapshots(before))
    ensures MayBeUsed(c, before, id) <==> id !in Snapshots(before)
  {
    FreshIsNotVisible(before, id);
    if id in Snapshots(before) {
      SoundSnapshotRestores(c, before, Snapshots(before), id);
      var op, after := OverwritingChanges(c, before, id, Restored(c, before, id).value);
      assert Acts(c, op, Finished, before, after, Snapshots(before));
      assert !SameSnapshots(c, before, after, Snapshots(before));
    } else {
      forall op, outcome, after, kept |
        NewId(op) == Some(id) && outcome != NotStarted && Acts(c, op, outcome, before, after, kept)
        ensures SameSnapshots(c, before, after, Snapshots(before))
      {
        FreshCallSpares(c, op, outcome, before, after, kept, Snapshots(before));
      }
    }
  }

  // The first put of a full backup over a visible one is enough: with another payload for one of its tables the
  // snapshot stays visible and can no longer be restored.
  lemma {:induction false} OverwritingStrands(c: Codec, before: Store, ids: set<Uuid>, id: Uuid, i: nat,
      table: TableExport, after: Store)
    requires Sound(c, before, ids) && id in ids && LoadManifest(c, before, id).Ok?
    requires i < |ManifestAt(c, before, id).database.tables|
    requires var entry := ManifestAt(c, before, id).database.tables[i];
             entry.contentKey == TableKey(id, table.tableName) && entry.sha != c.hash(Encode(c, c.rows, table.rows))
    requires after == PutAll(before, [TableBlob(c, id, table)])
    ensures Staged(id, before, after)
    ensures id in Snapshots(after) && Restored(c, after, id) == None
  {
    var m, blob := ManifestAt(c, before, id), TableBlob(c, id, table);
    OnePutIsStaged(c, id, before, table);
    assert id in Snapshots(after) && LoadManifest(c, after, id) == Ok(m) by {
      StageStaysLegible(c, before, after, id);
      ManifestKeyRoundTrip(id);
    }
    assert !Complete(c, after, m) by {
      AlteredTableIsFound(c, after, m, i, blob.bytes);
    }
    IncompleteIsNotRestored(c, after, id, m);
  }

  lemma {:induction false} AlteredTableIsFound(c: Codec, store: Store, m: Manifest, i: nat, bytes: Bytes)
    requires i < |m.database.tables| && c.hash(bytes) != m.database.tables[i].sha
    requires Get(store, m.database.tables[i].contentKey) == Ok(bytes)
    ensures !Complete(c, store, m)
  {
    var n := |m.objects| + i;
    assert Refs(m)[n] == BlobRef(m.database.tables[i].contentKey, m.database.tables[i].sha);
    assert VerifyBlob(c, store, Refs(m)[n]).Err?;
  }

  lemma {:induction false} OnePutIsStaged(c: Codec, id: Uuid, before: Store, table: TableExport)
    ensures var blob := TableBlob(c, id, table);
            && PutAll(before, [blob]) == before[blob.entry.contentKey := blob.bytes]
            && Staged(id, before, PutAll(before, [blob]))
  {
    var blob := TableBlob(c, id, table);
    TableKeyFacts(id, table.tableName);
    assert [blob][..0] == [];
    assert PutAll(before, []) == before;
    PutAllIsStaged(id, before, [blob]);
  }

  lemma {:induction false} IncompleteIsNotRestored(c: Codec, store: Store, id: Uuid, m: Manifest)
    requires LoadManifest(c, store, id) == Ok(m) && !Complete(c, store, m)
    ensures Restored(c, store, id) == None
  {
    if LoadChain(c, store, id).Ok? {
      LoadChainIff(c, store, id, LoadChain(c, store, id).value);
    }
  }

  // ----- what a chain of backups stands for -----

  // No call after place k and before place n is meant to remove what the call at k made.
  ghost predicate KeptBetween(steps: seq<StepOf>, k: nat, n: nat)
    requires k < n <= |steps|
  {
    NewId(steps[k].op).Some? && forall i :: k < i < n ==> NewId(steps[k].op).value in steps[i].kept
  }

  // A finished call that is recorded and then kept until place n.
  ghost predicate LastsUntil(c: Codec, record: Record, steps: seq<StepOf>, k: nat, n: nat) {
    && k < n <= |steps| && steps[k].outcome == Finished && KeptBetween(steps, k, n)
    && NewEntry(c, steps[k].op, steps[k].locked, RecordAfter(c, record, steps[..k])).Some?
  }

  // The places in a run of a full backup and of incrementals, each on the one before.
  datatype Line = First(at: nat) | Then(above: Line, at: nat)

  // Each call of the line lasts until the next is made, and the last one until place n.
  ghost predicate BackupLine(c: Codec, record: Record, steps: seq<StepOf>, line: Line, n: nat) {
    && LastsUntil(c, record, steps, line.at, n)
    && match line
       case First(k) => steps[k].op.FullBackup?
       case Then(above, k) =>
         && steps[k].op.IncrementalBackup?
         && BackupLine(c, record, steps, above, k)
         && NewId(steps[above.at].op) == Some(steps[k].op.incremental.parentId)
  }

  // The export of the first with the original change lists of the others applied one after the other.
  function FoldOf(steps: seq<StepOf>, line: Line): Db {
    if line.at >= |steps| then map[]
    else
      match (line, steps[line.at].op)
      case (First(_), FullBackup(_, plan)) => InsertTables(map[], plan.tables)
      case (Then(above, _), IncrementalBackup(_, _, changes, _)) => ApplyChanges(FoldOf(steps, above), changes)
      case _ => map[]
  }

  lemma {:induction false} NewlyRecorded(c: Codec, record: Record, steps: seq<StepOf>, k: nat)
    requires k < |steps| && steps[k].outcome == Finished
    requires NewEntry(c, steps[k].op, steps[k].locked, RecordAfter(c, record, steps[..k])).Some?
    ensures var entry := NewEntry(c, steps[k].op, steps[k].locked, RecordAfter(c, record, steps[..k])).value;
            && NewId(steps[k].op) == Some(entry.0)
            && entry.0 in RecordAfter(c, record, steps[..k + 1])
            && RecordAfter(c, record, steps[..k + 1])[entry.0] == entry.1
  {
    RecordSnoc(c, record, steps, k);
    NewEntryIsNewId(c, steps[k].op, steps[k].locked, RecordAfter(c, record, steps[..k]));
  }

  // At place n the snapshot made at place k is recorded with this database.
  ghost predicate RecordedAs(c: Codec, record: Record, steps: seq<StepOf>, n: nat, k: nat, db: Db)
    requires n <= |steps| && k < |steps|
  {
    var id, now := NewId(steps[k].op), RecordAfter(c, record, steps[..n]);
    id.Some? && id.value in now && now[id.value].db == db
  }

  // What a call records stays recorded for as long as it is kept.
  lemma {:induction false} EntryLasts(c: Codec, record: Record, steps: seq<StepOf>, stores: seq<Store>, k: nat, n: nat)
    requires c.Lawful() && IsHistory(c, steps, stores) && Faithful(c, stores[0], record)
    requires LastsUntil(c, record, steps, k, n)
    ensures RecordedAs(c, record, steps, n, k,
                       NewEntry(c, steps[k].op, steps[k].locked, RecordAfter(c, record, steps[..k])).value.1.db)
  {
    NewlyRecorded(c, record, steps, k);
    RecordIsKept(c, record, steps, stores, k + 1, n, NewId(steps[k].op).value);
  }

  lemma {:induction false} FullLasts(c: Codec, record: Record, steps: seq<StepOf>, stores: seq<Store>, k: nat, n: nat)
    requires c.Lawful() && IsHistory(c, steps, stores) && Faithful(c, stores[0], record)
    requires LastsUntil(c, record, steps, k, n) && steps[k].op.FullBackup?
    ensures RecordedAs(c, record, steps, n, k, InsertTables(map[], steps[k].op.plan.tables))
  {
    EntryLasts(c, record, steps, stores, k, n);
  }

  lemma {:induction false} IncrementalLasts(c: Codec, record: Record, steps: seq<StepOf>, stores: seq<Store>, p: nat,
      k: nat, n: nat, db: Db)
    requires c.Lawful() && IsHistory(c, steps, stores) && Faithful(c, stores[0], record)
    requires LastsUntil(c, record, steps, k, n) && steps[k].op.IncrementalBackup? && p < |steps|
    requires NewId(steps[p].op) == Some(steps[k].op.incremental.parentId) && RecordedAs(c, record, steps, k, p, db)
    ensures RecordedAs(c, record, steps, n, k, ApplyChanges(db, steps[k].op.changes))
  {
    EntryLasts(c, record, steps, stores, k, n);
  }

  lemma {:induction false} BackupsFold(c: Codec, record: Record, steps: seq<StepOf>, stores: seq<Store>, line: Line,
      n: nat)
    requires c.Lawful() && IsHistory(c, steps, stores) && Faithful(c, stores[0], record)
    requires BackupLine(c, record, steps, line, n)
    ensures line.at < |steps| && n <= |steps|
    ensures RecordedAs(c, record, steps, n, line.at, FoldOf(steps, line))
  {
    match line
    case First(k) => FullLasts(c, record, steps, stores, k, n);
    case Then(above, k) =>
      BackupsFold(c, record, steps, stores, above, k);
      IncrementalLasts(c, record, steps, stores, above.at, k, n, FoldOf(steps, above));
  }

  // A full backup and any number of incrementals, each on the one before and with whatever other calls between
  // them: the last one restores to the export with all the original change lists applied in order.
  lemma {:induction false} LineRestoresToFold(c: Codec, record: Record, steps: seq<StepOf>, stores: seq<Store>,
      line: Line, n: nat)
    requires c.Lawful() && IsHistory(c, steps, stores) && Faithful(c, stores[0], record)
    requires BackupLine(c, record, steps, line, n)
    ensures var tip := NewId(steps[line.at].op);
            tip.Some? && Restored(c, stores[n], tip.value) == Some(FoldOf(steps, line))
  {
    BackupsFold(c, record, steps, stores, line, n);
    RecordedRestores(c, record, steps, stores, n, NewId(steps[line.at].op).value);
  }

  // ----- what a whole run keeps -----

  lemma {:induction false} RecordAtStart(c: Codec, record: Record, steps: seq<StepOf>, id: Uuid)
    requires id in record
    ensures id in RecordAfter(c, record, steps[..0]) && RecordAfter(c, record, steps[..0])[id] == record[id]
  {
    assert RecordAfter(c, record, steps[..0]) == record;
  }

  lemma {:induction false} RecordAtEnd(c: Codec, record: Record, steps: seq<StepOf>)
    ensures RecordAfter(c, record, steps[..|steps|]) == RecordAfter(c, record, steps)
  {
    assert steps[..|steps|] == steps;
  }

  // A snapshot stays recorded as it was if every call from some place on is meant to keep it.
  lemma {:induction false} KeptEntryLasts(c: Codec, record: Record, steps: seq<StepOf>, stores: seq<Store>, k: nat,
      id: Uuid)
    requires c.Lawful() && IsHistory(c, steps, stores) && Faithful(c, stores[0], record)
    requires k <= |steps| && id in RecordAfter(c, record, steps[..k])
    requires forall i :: k <= i < |steps| ==> id in steps[i].kept
    ensures id in RecordAfter(c, record, steps)
    ensures RecordAfter(c, record, steps)[id] == RecordAfter(c, record, steps[..k])[id]
  {
    RecordIsKept(c, record, steps, stores, k, |steps|, id);
    RecordAtEnd(c, record, steps);
  }

  lemma {:induction false} RecordedIsVisible(c: Codec, record: Record, steps: seq<StepOf>, stores: seq<Store>, n: nat,
      id: Uuid)
    requires c.Lawful() && IsHistory(c, steps, stores) && Faithful(c, stores[0], record) && n <= |steps|
    requires id in RecordAfter(c, record, steps[..n])
    ensures id in Snapshots(stores[n])
  {
    EveryHistoryIsFaithful(c, record, steps, stores, n);
  }

  lemma {:induction false} BackupsKeepAll(c: Codec, step: StepOf, before: Store, after: Store)
    requires NewId(step.op).Some? && Runs(c, step, before, after)
    ensures step.kept == Snapshots(before)
  {
    if step.outcome != NotStarted {
      LockLeavesVisible(before, step.locked);
    }
  }

  ghost predicate OnlyBackups(steps: seq<StepOf>) {
    forall i :: 0 <= i < |steps| ==> NewId(steps[i].op).Some?
  }

  lemma {:induction false} BackupLosesNothing(c: Codec, record: Record, steps: seq<StepOf>, stores: seq<Store>,
      n: nat, id: Uuid)
    requires c.Lawful() && IsHistory(c, steps, stores) && Faithful(c, stores[0], record)
    requires n < |steps| && NewId(steps[n].op).Some? && id in RecordAfter(c, record, steps[..n])
    ensures id in RecordAfter(c, record, steps[..n + 1])
    ensures RecordAfter(c, record, steps[..n + 1])[id] == RecordAfter(c, record, steps[..n])[id]
  {
    RecordedIsVisible(c, record, steps, stores, n, id);
    BackupsKeepAll(c, steps[n], stores[n], stores[n + 1]);
    OneStepKeepsRecord(c, record, steps, stores, n, id);
  }

  // Backups and compactions alone lose nothing, wherever they fail.
  lemma {:induction false} BackupsLoseNothing(c: Codec, record: Record, steps: seq<StepOf>, stores: seq<Store>,
      first: nat, last: nat, id: Uuid)
    requires c.Lawful() && IsHistory(c, steps, stores) && Faithful(c, stores[0], record)
    requires first <= last <= |steps| && OnlyBackups(steps) && id in RecordAfter(c, record, steps[..first])
    ensures id in RecordAfter(c, record, steps[..last])
    ensures RecordAfter(c, record, steps[..last])[id] == RecordAfter(c, record, steps[..first])[id]
    decreases last - first
  {
    if first == last {
    } else {
      BackupsLoseNothing(c, record, steps, stores, first, last - 1, id);
      BackupLosesNothing(c, record, steps, stores, last - 1, id);
    }
  }

  // Whatever is recorded at the end of a run stands for it, taking or releasing the lock afterwards included.
  lemma {:induction false} StandsAtTheEnd(c: Codec, record: Record, steps: seq<StepOf>, stores: seq<Store>,
      after: Store)
    requires c.Lawful() && IsHistory(c, steps, stores) && Faithful(c, stores[0], record)
    requires SameButLock(stores[|steps|], after)
    ensures Faithful(c, after, RecordAfter(c, record, steps))
  {
    RecordAtEnd(c, record, steps);
    EveryHistoryIsFaithful(c, record, steps, stores, |steps|);
    FaithfulButLock(c, stores[|steps|], after, RecordAfter(c, record, steps));
  }

  // What a finished call records, once all later ones are over.
  lemma {:induction false} CallLasts(c: Codec, record: Record, steps: seq<StepOf>, stores: seq<Store>, k: nat,
      after: Store)
    requires c.Lawful() && IsHistory(c, steps, stores) && Faithful(c, stores[0], record)
    requires LastsUntil(c, record, steps, k, |steps|) && SameButLock(stores[|steps|], after)
    ensures var entry := NewEntry(c, steps[k].op, steps[k].locked, RecordAfter(c, record, steps[..k])).value;
            StandsFor(c, after, entry.0, entry.1)
  {
    var entry := NewEntry(c, steps[k].op, steps[k].locked, RecordAfter(c, record, steps[..k])).value;
    NewlyRecorded(c, record, steps, k);
    KeptEntryLasts(c, record, steps, stores, k + 1, entry.0);
    StandsAtTheEnd(c, record, steps, stores, after);
  }

  // ----- which objects a compaction carries -----

  // Tombstones name deleted rows only.
  ghost predicate OwnTombstones(record: Record) {
    forall id :: id in record ==> RowTombstonesOnly(record[id].manifest)
  }

  lemma {:induction false} NewEntryHasOwnTombstones(c: Codec, op: Operation, store: Store, record: Record)
    requires NewEntry(c, op, store, record).Some?
    ensures RowTombstonesOnly(NewEntry(c, op, store, record).value.1.manifest)
  {
    var m := NewEntry(c, op, store, record).value.1.manifest;
    assert Tombstones([]) == [];
    match op
    case FullBackup(_, _) => assert m.tombstones == [];
    case IncrementalBackup(_, _, changes, _) => assert m.tombstones == Tombstones(changes);
    case Compact(_) => assert m.tombstones == [];
  }

  lemma {:induction false} RecordsHaveOwnTombstones(c: Codec, record: Record, steps: seq<StepOf>)
    requires OwnTombstones(record)
    ensures OwnTombstones(RecordAfter(c, record, steps))
  {
    if steps == [] {
    } else {
      var n := |steps| - 1;
      var earlier := RecordAfter(c, record, steps[..n]);
      RecordsHaveOwnTombstones(c, record, steps[..n]);
      if NewEntry(c, steps[n].op, steps[n].locked, earlier).Some? {
        NewEntryHasOwnTombstones(c, steps[n].op, steps[n].locked, earlier);
      }
    }
  }

  // In every run, compacting a recorded snapshot drops no object of its chain.
  lemma {:induction false} RunsKeepEveryObject(c: Codec, record: Record, steps: seq<StepOf>, stores: seq<Store>,
      n: nat, id: Uuid, objectId: Uuid)
    requires c.Lawful() && IsHistory(c, steps, stores) && Faithful(c, stores[0], record) && n <= |steps|
    requires OwnTombstones(record) && id in RecordAfter(c, record, steps[..n])
    ensures LoadChain(c, stores[n], id).Ok?
    ensures var chain := LoadChain(c, stores[n], id).value;
            Occurs(CompactObjects(chain), objectId) <==> Occurs(AllObjects(chain), objectId)
  {
    var now := RecordAfter(c, record, steps[..n]);
    EveryHistoryIsFaithful(c, record, steps, stores, n);
    RecordsHaveOwnTombstones(c, record, steps[..n]);
    SoundSnapshotRestores(c, stores[n], now.Keys, id);
    var chain := LoadChain(c, stores[n], id).value;
    SoundChain(c, stores[n], now.Keys, id, chain);
    forall i | 0 <= i < |chain| ensures RowTombstonesOnly(chain[i]) {
      assert chain[i].snapshotId in now;
      assert StandsFor(c, stores[n], chain[i].snapshotId, now[chain[i].snapshotId]);
    }
    OwnChainsKeepEveryObject(chain, objectId);
  }
}
