// What can always be done: operations that can finish, and runs of every kind of operation.
module Progress {
  import opened Types
  import opened Ordering
  import opened Keys
  import opened Repositories
  import opened Manifests
  import opened Database
  import opened Objects
  import opened Restoring
  import opened Soundness
  import opened Backups
  import opened BackupTheorems
  import opened Compaction
  import opened CompactionTheorems
  import opened Pruning
  import opened PruningTheorems
  import opened Operations
  import opened Histories
  import opened RunTheorems

  // Every referenced object has some bytes with its declared hash.
  ghost predicate Obtainable(c: Codec, refs: seq<ObjectRef>) {
    forall i :: 0 <= i < |refs| ==> exists bytes :: c.hash(bytes) == refs[i].sha
  }

  lemma {:induction false} OneMoreObject(c: Codec, refs: seq<ObjectRef>, before: Store, mid: Store, bytes: Bytes,
      after: Store)
    requires refs != [] && ObjectsWritten(c, Jobs(refs[..|refs| - 1]), before, mid)
    requires c.hash(bytes) == refs[|refs| - 1].sha
    requires var key := ObjectKey(refs[|refs| - 1].sha); after == if key in mid then mid else mid[key := bytes]
    ensures ObjectsWritten(c, Jobs(refs), before, after)
  {
    var n := |refs| - 1;
    var jobs, earlier := Jobs(refs), Jobs(refs[..n]);
    assert jobs[n] == BlobRef(ObjectKey(refs[n].sha), refs[n].sha);
    forall i | 0 <= i < |jobs| ensures jobs[i].key in after {
      assert i < n ==> jobs[i] == earlier[i];
    }
    forall k | k in after && k !in before
      ensures exists i :: 0 <= i < |jobs| && k == jobs[i].key && c.hash(after[k]) == jobs[i].sha
    {
      if k in mid {
        var i :| 0 <= i < n && k == earlier[i].key && c.hash(mid[k]) == earlier[i].sha;
        assert jobs[i] == earlier[i];
      }
    }
  }

  lemma {:induction false} ObjectsCanBeWritten(c: Codec, refs: seq<ObjectRef>, before: Store) returns (after: Store)
    requires Obtainable(c, refs)
    ensures ObjectsWritten(c, Jobs(refs), before, after)
  {
    if refs == [] {
      after := before;
    } else {
      var n := |refs| - 1;
      assert Obtainable(c, refs[..n]) by {
        assert forall i :: 0 <= i < n ==> refs[..n][i] == refs[i];
      }
      var mid := ObjectsCanBeWritten(c, refs[..n], before);
      var bytes :| c.hash(bytes) == refs[n].sha;
      var key := ObjectKey(refs[n].sha);
      after := if key in mid then mid else mid[key := bytes];
      OneMoreObject(c, refs, before, mid, bytes, after);
    }
  }

  // A run with any manifest, payloads and obtainable objects can be finished.
  lemma {:induction false} RunCanFinish(c: Codec, before: Store, m: Manifest, blobs: seq<PayloadBlob>,
      refs: seq<ObjectRef>) returns (after: Store)
    requires Obtainable(c, refs)
    ensures Written(c, before, m, blobs, refs, after)
  {
    var mid := ObjectsCanBeWritten(c, refs, PutAll(before, blobs));
    after := mid[ManifestKey(m.snapshotId) := c.prettyManifest(m)];
  }

  lemma {:induction false} ListingExists(store: Store, prefix: string) returns (listing: seq<string>)
    ensures Lists(listing, store, prefix)
  {
    listing := Sorted(set k | k in store && Under(prefix, k));
    AscendingIsInjective(listing);
  }

  // Keys of one snapshot do not take the id of another.
  lemma {:induction false} WrittenKeepsFresh(c: Codec, before: Store, m: Manifest, blobs: seq<PayloadBlob>,
      refs: seq<ObjectRef>, after: Store, id: Uuid)
    requires PayloadsOf(m.snapshotId, blobs) && Fresh(before, m.snapshotId)
    requires Written(c, before, m, blobs, refs, after) && Fresh(before, id) && id != m.snapshotId
    ensures Fresh(after, id)
  {
    var mid :| ObjectsWritten(c, Jobs(refs), PutAll(before, blobs), mid)
               && after == mid[ManifestKey(m.snapshotId) := c.prettyManifest(m)];
    ReadyIsStaged(c, before, m.snapshotId, blobs, refs, mid);
    ManifestKeyRoundTrip(id);
    if ManifestKey(id) == ManifestKey(m.snapshotId) {
      ManifestKeyIsInjective(id, m.snapshotId);
    }
  }

  // ----- one more finished operation -----

  // Everything visible is recorded, and objects match their names.
  ghost predicate FullyRecorded(c: Codec, store: Store, record: Record) {
    Faithful(c, store, record) && ObjectsMatchNames(c, store) && record.Keys == Snapshots(store)
  }

  lemma {:induction false} StoredReferencesMatch(c: Codec, store: Store, refs: seq<ObjectRef>)
    requires ObjectsMatchNames(c, store)
    ensures ReferencedObjectsMatch(c, Jobs(refs), store)
  {
  }

  lemma {:induction false} FinishedIsRecorded(c: Codec, op: Operation, store: Store, after: Store, kept: set<Uuid>,
      record: Record)
    requires c.Lawful() && FullyRecorded(c, store, record) && Admissible(op, store)
    requires Performs(c, op, store, after, kept) && ObjectsMatchNames(c, after)
    requires NewId(op).Some? ==> NewEntry(c, op, store, record).Some?
    ensures FullyRecorded(c, after, Recorded(c, StepOf(op, Finished, store, after, kept), record))
  {
    var step := StepOf(op, Finished, store, after, kept);
    HeldIsFaithful(c, step, record);
    HeldRecordsAll(c, step, record);
  }

  lemma {:induction false} EntryIsAdded(c: Codec, op: Operation, store: Store, after: Store, record: Record, id: Uuid,
      entry: Entry)
    requires record.Keys <= Snapshots(store) && NewEntry(c, op, store, record) == Some((id, entry))
    ensures Recorded(c, StepOf(op, Finished, store, after, Snapshots(store)), record) == record[id := entry]
  {
    RestrictedToAll(record, Snapshots(store));
  }

  // A full backup with obtainable objects can be finished under any id not yet used.
  lemma {:induction false} FullBackupCanFinish(c: Codec, store: Store, record: Record, req: FullBackupRequest,
      plan: FullBackupPlan) returns (after: Store)
    requires c.Lawful() && FullyRecorded(c, store, record) && Fresh(store, req.snapshotId)
    requires TablesAgree(plan.tables) && Obtainable(c, plan.objects)
    ensures Performs(c, FullBackup(req, plan), store, after, Snapshots(store))
    ensures LoadManifest(c, after, req.snapshotId) == Ok(FullManifest(c, req, plan))
    ensures var step := StepOf(FullBackup(req, plan), Finished, store, after, Snapshots(store));
            && Recorded(c, step, record) == record[req.snapshotId := FullEntry(c, req, plan)]
            && FullyRecorded(c, after, Recorded(c, step, record))
    ensures forall id: Uuid :: id != req.snapshotId && Fresh(store, id) ==> Fresh(after, id)
  {
    var m, blobs := FullManifest(c, req, plan), TableBlobs(c, req.snapshotId, plan.tables);
    after := RunCanFinish(c, store, m, blobs, plan.objects);
    FullBackupKeepsOthers(c, store, {}, req, plan, after);
    StoredReferencesMatch(c, store, plan.objects);
    FinishedIsRecorded(c, FullBackup(req, plan), store, after, Snapshots(store), record);
    EntryIsAdded(c, FullBackup(req, plan), store, after, record, req.snapshotId, FullEntry(c, req, plan));
    TableBlobsAreWellPlaced(c, req.snapshotId, plan.tables);
    forall id: Uuid | id != req.snapshotId && Fresh(store, id) ensures Fresh(after, id) {
      WrittenKeepsFresh(c, store, m, blobs, plan.objects, after, id);
    }
  }

  lemma {:induction false} IncrementalCanBeWritten(c: Codec, store: Store, req: IncrementalBackupRequest,
      schema: Schema, changes: seq<Change>, refs: seq<ObjectRef>) returns (after: Store)
    requires c.Lawful() && Legible(c, store) && ObjectsMatchNames(c, store) && Fresh(store, req.snapshotId)
    requires Obtainable(c, refs)
    ensures Performs(c, IncrementalBackup(req, schema, changes, refs), store, after, Snapshots(store))
    ensures ObjectsMatchNames(c, after)
    ensures forall id: Uuid :: id != req.snapshotId && Fresh(store, id) ==> Fresh(after, id)
  {
    var m := IncrementalManifest(c, req, schema, changes, refs);
    var blobs := ChangesBlobs(c, req.snapshotId, Grouped(changes));
    after := RunCanFinish(c, store, m, blobs, refs);
    IncrementalBackupKeepsOthers(c, store, {}, req, schema, changes, refs, after);
    ChangesBlobsAreWellPlaced(c, req.snapshotId, changes);
    forall id: Uuid | id != req.snapshotId && Fresh(store, id) ensures Fresh(after, id) {
      WrittenKeepsFresh(c, store, m, blobs, refs, after, id);
    }
  }

  lemma {:induction false} IncrementalRecords(c: Codec, store: Store, req: IncrementalBackupRequest, schema: Schema,
      changes: seq<Change>, refs: seq<ObjectRef>, record: Record)
    requires req.parentId in record
    requires Extends(c, store, IncrementalManifest(c, req, schema, changes, refs), req.parentId, refs)
    ensures NewEntry(c, IncrementalBackup(req, schema, changes, refs), store, record)
         == Some((req.snapshotId, IncrementalEntry(c, req, schema, changes, refs, record[req.parentId])))
  {
  }

  // So can an incremental on a recorded parent of the same source.
  lemma {:induction false} IncrementalCanFinish(c: Codec, store: Store, record: Record, req: IncrementalBackupRequest,
      schema: Schema, changes: seq<Change>, refs: seq<ObjectRef>) returns (after: Store)
    requires c.Lawful() && FullyRecorded(c, store, record) && Fresh(store, req.snapshotId)
    requires req.parentId in record && Obtainable(c, refs) && LoadManifest(c, store, req.parentId).Ok?
    requires SameSource(IncrementalManifest(c, req, schema, changes, refs), ManifestAt(c, store, req.parentId))
    ensures Performs(c, IncrementalBackup(req, schema, changes, refs), store, after, Snapshots(store))
    ensures var step := StepOf(IncrementalBackup(req, schema, changes, refs), Finished, store, after, Snapshots(store));
            && Recorded(c, step, record)
               == record[req.snapshotId := IncrementalEntry(c, req, schema, changes, refs, record[req.parentId])]
            && FullyRecorded(c, after, Recorded(c, step, record))
    ensures forall id: Uuid :: id != req.snapshotId && Fresh(store, id) ==> Fresh(after, id)
  {
    var op := IncrementalBackup(req, schema, changes, refs);
    after := IncrementalCanBeWritten(c, store, req, schema, changes, refs);
    StoredReferencesMatch(c, store, refs);
    IncrementalRecords(c, store, req, schema, changes, refs, record);
    FinishedIsRecorded(c, op, store, after, Snapshots(store), record);
    EntryIsAdded(c, op, store, after, record, req.snapshotId,
                 IncrementalEntry(c, req, schema, changes, refs, record[req.parentId]));
  }

  // And a compaction of any recorded snapshot.
  lemma {:induction false} CompactionCanFinish(c: Codec, store: Store, record: Record, req: CompactChainRequest)
    returns (after: Store)
    requires c.Lawful() && FullyRecorded(c, store, record) && Fresh(store, req.snapshotId)
    requires req.sourceId in record
    ensures Performs(c, Compact(req), store, after, Snapshots(store))
    ensures Restored(c, store, req.sourceId).Some?
    ensures CompactedEntry(c, store, req).db == Refiled(record[req.sourceId].db)
    ensures var step := StepOf(Compact(req), Finished, store, after, Snapshots(store));
            && Recorded(c, step, record) == record[req.snapshotId := CompactedEntry(c, store, req)]
            && FullyRecorded(c, after, Recorded(c, step, record))
  {
    assert StandsFor(c, store, req.sourceId, record[req.sourceId]);
    assert exists m, end :: Compacted(c, store, req, m, end) by {
      CompactableIff(c, store, req);
    }
    var m, end :| Compacted(c, store, req, m, end);
    after := end;
    assert ObjectsMatchNames(c, after) by {
      CompactionKeepsOthers(c, store, {}, req, m, after);
    }
    CompactionEntry(c, store, req, record);
    FinishedIsRecorded(c, Compact(req), store, after, Snapshots(store), record);
    EntryIsAdded(c, Compact(req), store, after, record, req.snapshotId, CompactedEntry(c, store, req));
  }

  lemma {:induction false} PruneCanBeRun(c: Codec, store: Store, keepLast: nat) returns (after: Store, kept: set<Uuid>)
    requires Sound(c, store, Snapshots(store))
    ensures Performs(c, Prune(keepLast), store, after, kept) && MeantToKeep(c, Prune(keepLast), store, kept)
    ensures ObjectsMatchNames(c, store) ==> ObjectsMatchNames(c, after)
  {
    var listing := ListingExists(store, SNAPSHOTS_PREFIX);
    SoundStoreCanBePruned(c, store, listing, keepLast);
    PruneKeepsNewest(c, store, keepLast, listing);
    var plan := PlanPrune(c, store, listing, keepLast);
    after, kept := Swept(store, plan.value.expired, plan.value.reachable), KeptBy(store, plan);
    assert SweptBy(store, plan, after);
    PruneOutcome(c, keepLast, store, listing, after);
  }

  lemma {:induction false} PruneAddsNothing(c: Codec, store: Store, after: Store, keepLast: nat, kept: set<Uuid>,
      record: Record)
    ensures Recorded(c, StepOf(Prune(keepLast), Finished, store, after, kept), record) == Restricted(record, kept)
  {
  }

  // And a prune.
  lemma {:induction false} PruneCanFinish(c: Codec, store: Store, record: Record, keepLast: nat)
    returns (after: Store, kept: set<Uuid>)
    requires c.Lawful() && FullyRecorded(c, store, record)
    ensures Performs(c, Prune(keepLast), store, after, kept) && MeantToKeep(c, Prune(keepLast), store, kept)
    ensures Recorded(c, StepOf(Prune(keepLast), Finished, store, after, kept), record) == Restricted(record, kept)
    ensures FullyRecorded(c, after, Restricted(record, kept))
  {
    after, kept := PruneCanBeRun(c, store, keepLast);
    PruneAddsNothing(c, store, after, keepLast, kept, record);
    FinishedIsRecorded(c, Prune(keepLast), store, after, kept, record);
  }

  // ----- a run with every kind of write -----

  lemma {:induction false} NothingIsRecorded(c: Codec)
    ensures Faithful(c, map[], map[]) && FullyRecorded(c, map[], map[])
  {
    EmptyStoreIsFaithful(c);
  }

  // One full backup in an empty repository.
  lemma {:induction false} FirstBackup(c: Codec, req: FullBackupRequest, plan: FullBackupPlan) returns (store: Store)
    requires c.Lawful() && TablesAgree(plan.tables) && Obtainable(c, plan.objects)
    ensures Snapshots(store) == {req.snapshotId} && Sound(c, store, {req.snapshotId})
    ensures StandsFor(c, store, req.snapshotId, FullEntry(c, req, plan))
    ensures forall id: Uuid :: id != req.snapshotId ==> Fresh(store, id)
  {
    NothingIsRecorded(c);
    store := FullBackupCanFinish(c, map[], map[], req, plan);
    var record: Record := map[req.snapshotId := FullEntry(c, req, plan)];
    assert record.Keys == {req.snapshotId} && req.snapshotId in record;
  }

  lemma {:induction false} FinishedRuns(c: Codec, op: Operation, store: Store, after: Store, kept: set<Uuid>)
    requires Performs(c, op, store, after, kept)
    ensures Runs(c, StepOf(op, Finished, store, after, kept), store, after)
  {
  }

  lemma {:induction false} RecordContinues(c: Codec, record: Record, steps: seq<StepOf>, step: StepOf)
    ensures RecordAfter(c, record, steps + [step]) == Recorded(c, step, RecordAfter(c, record, steps))
  {
    assert (steps + [step])[..|steps|] == steps;
  }

  lemma {:induction false} RecordOfFour(c: Codec, record: Record, s1: StepOf, s2: StepOf, s3: StepOf, s4: StepOf)
    ensures RecordAfter(c, record, [s1, s2, s3, s4])
         == Recorded(c, s4, Recorded(c, s3, Recorded(c, s2, Recorded(c, s1, record))))
  {
    assert RecordAfter(c, record, []) == record;
    assert [] + [s1] == [s1] && [s1] + [s2] == [s1, s2];
    assert [s1, s2] + [s3] == [s1, s2, s3] && [s1, s2, s3] + [s4] == [s1, s2, s3, s4];
    RecordContinues(c, record, [], s1);
    RecordContinues(c, record, [s1], s2);
    RecordContinues(c, record, [s1, s2], s3);
    RecordContinues(c, record, [s1, s2, s3], s4);
  }

  lemma {:induction false} BackupsShareSource(c: Codec, full: FullBackupRequest, plan: FullBackupPlan,
      inc: IncrementalBackupRequest, changes: seq<Change>, refs: seq<ObjectRef>)
    requires inc.appId == full.appId
    ensures SameSource(IncrementalManifest(c, inc, plan.schema, changes, refs), FullManifest(c, full, plan))
  {
  }

  lemma {:induction false} BackupAndIncremental(c: Codec, full: FullBackupRequest, plan: FullBackupPlan,
      inc: IncrementalBackupRequest, changes: seq<Change>, refs: seq<ObjectRef>, base: Entry)
    returns (s1: StepOf, s2: StepOf)
    requires c.Lawful() && TablesAgree(plan.tables) && Obtainable(c, plan.objects) && Obtainable(c, refs)
    requires inc.parentId == full.snapshotId && inc.appId == full.appId && full.snapshotId != inc.snapshotId
    requires base == FullEntry(c, full, plan)
    ensures s1.op == FullBackup(full, plan) && s2.op == IncrementalBackup(inc, plan.schema, changes, refs)
    ensures Admissible(s1.op, map[]) && Runs(c, s1, map[], s1.held)
    ensures Admissible(s2.op, s1.held) && Runs(c, s2, s1.held, s2.held)
    ensures var next := IncrementalEntry(c, inc, plan.schema, changes, refs, base);
            var record := map[full.snapshotId := base][inc.snapshotId := next];
            Recorded(c, s2, Recorded(c, s1, map[])) == record && FullyRecorded(c, s2.held, record)
    ensures forall id: Uuid :: id != full.snapshotId && id != inc.snapshotId ==> Fresh(s2.held, id)
  {
    NothingIsRecorded(c);
    var t1 := FullBackupCanFinish(c, map[], map[], full, plan);
    s1 := StepOf(FullBackup(full, plan), Finished, map[], t1, Snapshots(map[]));
    FinishedRuns(c, s1.op, map[], t1, s1.kept);
    BackupsShareSource(c, full, plan, inc, changes, refs);
    var r1: Record := map[full.snapshotId := base];
    var t2 := IncrementalCanFinish(c, t1, r1, inc, plan.schema, changes, refs);
    s2 := StepOf(IncrementalBackup(inc, plan.schema, changes, refs), Finished, t1, t2, Snapshots(t1));
    FinishedRuns(c, s2.op, t1, t2, s2.kept);
  }

  lemma {:induction false} CompactionAndPrune(c: Codec, store: Store, record: Record, compact: CompactChainRequest,
      keepLast: nat) returns (s3: StepOf, s4: StepOf)
    requires c.Lawful() && FullyRecorded(c, store, record) && Fresh(store, compact.snapshotId)
    requires compact.sourceId in record
    ensures s3.op == Compact(compact) && s4.op == Prune(keepLast)
    ensures Admissible(s3.op, store) && Runs(c, s3, store, s3.held)
    ensures Admissible(s4.op, s3.held) && Runs(c, s4, s3.held, s4.held)
    ensures MeantToKeep(c, Prune(keepLast), s3.held, s4.kept)
    ensures Restored(c, store, compact.sourceId).Some?
    ensures CompactedEntry(c, store, compact).db == Refiled(record[compact.sourceId].db)
    ensures FullyRecorded(c, s3.held, record[compact.snapshotId := CompactedEntry(c, store, compact)])
    ensures var last := Restricted(record[compact.snapshotId := CompactedEntry(c, store, compact)], s4.kept);
            Recorded(c, s4, Recorded(c, s3, record)) == last && FullyRecorded(c, s4.held, last)
  {
    var t3 := CompactionCanFinish(c, store, record, compact);
    s3 := StepOf(Compact(compact), Finished, store, t3, Snapshots(store));
    FinishedRuns(c, s3.op, store, t3, s3.kept);
    var t4, kept := PruneCanFinish(c, t3, record[compact.snapshotId := CompactedEntry(c, store, compact)], keepLast);
    s4 := StepOf(Prune(keepLast), Finished, t3, t4, kept);
    FinishedRuns(c, s4.op, t3, t4, kept);
  }

  lemma {:induction false} FourCallsAreAHistory(c: Codec, s1: StepOf, s2: StepOf, s3: StepOf, s4: StepOf)
    requires Admissible(s1.op, map[]) && Runs(c, s1, map[], s1.held)
    requires Admissible(s2.op, s1.held) && Runs(c, s2, s1.held, s2.held)
    requires Admissible(s3.op, s2.held) && Runs(c, s3, s2.held, s3.held)
    requires Admissible(s4.op, s3.held) && Runs(c, s4, s3.held, s4.held)
    ensures IsHistory(c, [s1, s2, s3, s4], [map[], s1.held, s2.held, s3.held, s4.held])
  {
  }

  lemma {:induction false} RecordOfRun(c: Codec, s1: StepOf, s2: StepOf, s3: StepOf, s4: StepOf, mid: Record,
      last: Record)
    requires Recorded(c, s2, Recorded(c, s1, map[])) == mid && Recorded(c, s4, Recorded(c, s3, mid)) == last
    ensures RecordAfter(c, map[], [s1, s2, s3, s4]) == last
  {
    RecordOfFour(c, map[], s1, s2, s3, s4);
  }

  // From an empty repository: a full backup, an incremental on it, a compaction of that incremental and a prune,
  // with all that the three snapshots stand for.
  lemma {:induction false} RunOfEveryKind(c: Codec, full: FullBackupRequest, plan: FullBackupPlan,
      inc: IncrementalBackupRequest, changes: seq<Change>, refs: seq<ObjectRef>, compact: CompactChainRequest,
      keepLast: nat, base: Entry, record: Record) returns (s1: StepOf, s2: StepOf, s3: StepOf, s4: StepOf)
    requires c.Lawful() && TablesAgree(plan.tables) && Obtainable(c, plan.objects) && Obtainable(c, refs)
    requires inc.parentId == full.snapshotId && inc.appId == full.appId && compact.sourceId == inc.snapshotId
    requires full.snapshotId != inc.snapshotId && full.snapshotId != compact.snapshotId
    requires inc.snapshotId != compact.snapshotId
    requires base == FullEntry(c, full, plan)
    requires var next := IncrementalEntry(c, inc, plan.schema, changes, refs, base);
             record == map[full.snapshotId := base][inc.snapshotId := next]
    ensures s1.op == FullBackup(full, plan) && s2.op == IncrementalBackup(inc, plan.schema, changes, refs)
    ensures s3.op == Compact(compact) && s4.op == Prune(keepLast)
    ensures Faithful(c, map[], map[])
    ensures IsHistory(c, [s1, s2, s3, s4], [map[], s1.held, s2.held, s3.held, s4.held])
    ensures MeantToKeep(c, Prune(keepLast), s3.held, s4.kept)
    ensures FullyRecorded(c, s2.held, record) && Restored(c, s2.held, inc.snapshotId).Some?
    ensures CompactedEntry(c, s2.held, compact).db == Refiled(record[inc.snapshotId].db)
    ensures FullyRecorded(c, s3.held, record[compact.snapshotId := CompactedEntry(c, s2.held, compact)])
    ensures var last := Restricted(record[compact.snapshotId := CompactedEntry(c, s2.held, compact)], s4.kept);
            RecordAfter(c, map[], [s1, s2, s3, s4]) == last && FullyRecorded(c, s4.held, last)
  {
    s1, s2 := BackupAndIncremental(c, full, plan, inc, changes, refs, base);
    s3, s4 := CompactionAndPrune(c, s2.held, record, compact, keepLast);
    assert IsHistory(c, [s1, s2, s3, s4], [map[], s1.held, s2.held, s3.held, s4.held]) by {
      FourCallsAreAHistory(c, s1, s2, s3, s4);
    }
    assert Faithful(c, map[], map[]) by {
      NothingIsRecorded(c);
    }
    var last := Restricted(record[compact.snapshotId := CompactedEntry(c, s2.held, compact)], s4.kept);
    RecordOfRun(c, s1, s2, s3, s4, record, last);
  }

  // ----- a call that stopped and is tried again -----

  lemma {:induction false} StoppedIsRecorded(c: Codec, op: Operation, store: Store, stopped: Store, record: Record)
    requires c.Lawful() && FullyRecorded(c, store, record) && Admissible(op, store) && NewId(op).Some?
    requires Interrupts(c, op, store, stopped, Snapshots(store)) && ObjectsMatchNames(c, stopped)
    ensures FullyRecorded(c, stopped, record)
    ensures Recorded(c, StepOf(op, Stopped, store, stopped, Snapshots(store)), record) == record
  {
    StagesShowSame(c, op, store, stopped, Snapshots(store));
    RestrictedToAll(record, Snapshots(store));
    InterruptionIsFaithful(c, op, store, stopped, Snapshots(store), record);
  }

  // A full backup that stopped, under an id that was fresh, can be finished under that id, and records what it
  // would have recorded the first time.
  lemma {:induction false} RetryCanFinish(c: Codec, store: Store, record: Record, req: FullBackupRequest,
      plan: FullBackupPlan, stopped: Store) returns (first: StepOf, second: StepOf)
    requires c.Lawful() && FullyRecorded(c, store, record) && Fresh(store, req.snapshotId)
    requires Staged(req.snapshotId, store, stopped) && ObjectsMatchNames(c, stopped)
    requires TablesAgree(plan.tables) && Obtainable(c, plan.objects)
    ensures first == StepOf(FullBackup(req, plan), Stopped, store, stopped, Snapshots(store))
    ensures second.op == first.op && second.outcome == Finished
    ensures IsHistory(c, [first, second], [store, stopped, second.held])
    ensures RecordAfter(c, record, [first, second]) == record[req.snapshotId := FullEntry(c, req, plan)]
    ensures FullyRecorded(c, second.held, RecordAfter(c, record, [first, second]))
  {
    var op := FullBackup(req, plan);
    first := StepOf(op, Stopped, store, stopped, Snapshots(store));
    StoppedIsRecorded(c, op, store, stopped, record);
    assert Runs(c, first, store, stopped) && Admissible(op, stopped) by {
      UnfinishedCallCanBeRetried(c, first, store, stopped);
    }
    var after := FullBackupCanFinish(c, stopped, record, req, plan);
    second := StepOf(op, Finished, stopped, after, Snapshots(stopped));
    FinishedRuns(c, op, stopped, after, Snapshots(stopped));
    TwoCallsAreAHistory(c, store, stopped, first, second);
    RecordOfTwo(c, record, first, second);
  }

  lemma {:induction false} TwoCallsAreAHistory(c: Codec, store: Store, mid: Store, s1: StepOf, s2: StepOf)
    requires Admissible(s1.op, store) && Runs(c, s1, store, mid)
    requires Admissible(s2.op, mid) && Runs(c, s2, mid, s2.held)
    ensures IsHistory(c, [s1, s2], [store, mid, s2.held])
  {
  }

  lemma {:induction false} RecordOfTwo(c: Codec, record: Record, s1: StepOf, s2: StepOf)
    ensures RecordAfter(c, record, [s1, s2]) == Recorded(c, s2, Recorded(c, s1, record))
  {
    assert [] + [s1] == [s1] && [s1] + [s2] == [s1, s2];
    RecordContinues(c, record, [], s1);
    RecordContinues(c, record, [s1], s2);
  }
}
