// Whole runs: whatever is called and wherever it fails, every recorded snapshot restores to what was recorded.
module Histories {
  import opened Types
  import opened Keys
  import opened Repositories
  import opened Manifests
  import opened Verification
  import opened Database
  import opened Objects
  import opened Restoring
  import opened Soundness
  import opened Backups
  import opened BackupTheorems
  import opened Compaction
  import opened CompactionTheorems
  import opened Pruning
  import opened PruningTheorems
  import opened Locking
  import opened Operations

  // ----- the lock blob is invisible to snapshots -----

  lemma {:induction false} LockIsNoManifest()
    ensures SnapshotIdOf(LOCK_KEY) == None
    ensures forall id: Uuid :: ManifestKey(id) != LOCK_KEY && !UnderSnapshot(id, LOCK_KEY)
    ensures forall sha :: ObjectKey(sha) != LOCK_KEY
  {
    if SnapshotIdOf(LOCK_KEY).Some? {
      ManifestKeyShape(LOCK_KEY);
    }
    forall id: Uuid ensures ManifestKey(id) != LOCK_KEY && !UnderSnapshot(id, LOCK_KEY) {
      ManifestKeyIsUnder(id);
      assert SnapshotPrefix(id)[0] == 's' && LOCK_KEY[0] == 'l';
    }
    forall sha ensures ObjectKey(sha) != LOCK_KEY {
      ObjectKeyFacts(sha);
    }
  }

  lemma {:induction false} TidyRefsAvoidLock(m: Manifest, i: nat)
    requires Tidy(m) && i < |Refs(m)|
    ensures Refs(m)[i].key != LOCK_KEY
  {
    LockIsNoManifest();
    TidyRef(m, i);
  }

  lemma {:induction false} KeptExceptLock(a: Store, b: Store, key: string)
    requires SameButLock(a, b) && key != LOCK_KEY
    ensures Kept(a, b, key)
  {
    assert Get(a, key) == Get(b, key);
  }

  lemma {:induction false} LockKeepsChain(c: Codec, a: Store, b: Store, ids: set<Uuid>, id: Uuid)
    requires Sound(c, a, ids) && SameButLock(a, b) && id in ids
    ensures LoadChain(c, a, id).Ok? && KeptChain(a, b, LoadChain(c, a, id).value)
  {
    LockIsNoManifest();
    SoundSnapshotRestores(c, a, ids, id);
    var chain := LoadChain(c, a, id).value;
    SoundChain(c, a, ids, id, chain);
    forall i | 0 <= i < |chain| ensures Kept(a, b, ManifestKey(chain[i].snapshotId)) && KeptRefs(a, b, chain[i]) {
      KeptExceptLock(a, b, ManifestKey(chain[i].snapshotId));
      assert SoundManifest(c, a, chain[i]);
      forall j | 0 <= j < |Refs(chain[i])| ensures Kept(a, b, Refs(chain[i])[j].key) {
        TidyRefsAvoidLock(chain[i], j);
        KeptExceptLock(a, b, Refs(chain[i])[j].key);
      }
    }
  }

  lemma {:induction false} LockKeepsLegible(c: Codec, a: Store, b: Store)
    requires Legible(c, a) && SameButLock(a, b)
    ensures Legible(c, b) && Snapshots(b) == Snapshots(a)
  {
    LockIsNoManifest();
    forall k | SnapshotIdOf(k).Some? ensures k in b <==> k in a {
      assert Get(a, k) == Get(b, k);
    }
    SameManifestsVisible(a, b);
    forall id | id in Snapshots(a) ensures LegibleSnapshot(c, b, id) {
      KeptExceptLock(a, b, ManifestKey(id));
      KeptManifestStaysLegible(c, a, b, id);
    }
  }

  // Taking or releasing the lock changes nothing about snapshots.
  lemma {:induction false} LockIsInvisible(c: Codec, a: Store, b: Store, ids: set<Uuid>)
    requires Sound(c, a, ids) && SameButLock(a, b)
    ensures Sound(c, b, ids) && Snapshots(b) == Snapshots(a) && SameSnapshots(c, a, b, ids)
  {
    LockKeepsLegible(c, a, b);
    forall id | id in ids ensures LoadChain(c, a, id).Ok? && KeptChain(a, b, LoadChain(c, a, id).value) {
      LockKeepsChain(c, a, b, ids, id);
    }
    KeptChainsStaySound(c, a, b, ids, ids);
  }

  lemma {:induction false} LockKeepsFresh(a: Store, b: Store, id: Uuid)
    requires Fresh(a, id) && SameButLock(a, b)
    ensures Fresh(b, id)
  {
    LockIsNoManifest();
    assert Get(a, ManifestKey(id)) == Get(b, ManifestKey(id));
  }

  // ----- what is recorded -----

  // What is recorded of a snapshot: its manifest, and the database it stands for.
  datatype Entry = Entry(manifest: Manifest, db: Db)

  // The snapshots that callers may rely on.
  type Record = map<Uuid, Entry>

  // The one thing callers must respect: a new snapshot does not take the id of a visible one. It may take that of
  // a call that stopped.
  ghost predicate Admissible(op: Operation, store: Store) {
    match op
    case FullBackup(req, _) => Fresh(store, req.snapshotId)
    case IncrementalBackup(req, _, _, _) => Fresh(store, req.snapshotId)
    case Compact(req) => Fresh(store, req.snapshotId)
    case Prune(_) => true
    case DeleteOne(_) => true
  }

  // An incremental whose parent is of the same source, and whose referenced objects match where stored.
  ghost predicate Extends(c: Codec, store: Store, m: Manifest, parent: Uuid, refs: seq<ObjectRef>) {
    && LoadManifest(c, store, parent).Ok?
    && SameSource(m, ManifestAt(c, store, parent))
    && ReferencedObjectsMatch(c, Jobs(refs), store)
  }

  function Restricted(record: Record, ids: set<Uuid>): Record {
    map id | id in record && id in ids :: record[id]
  }

  ghost function FullEntry(c: Codec, req: FullBackupRequest, plan: FullBackupPlan): Entry {
    Entry(FullManifest(c, req, plan), InsertTables(map[], plan.tables))
  }

  ghost function IncrementalEntry(c: Codec, req: IncrementalBackupRequest, schema: Schema, changes: seq<Change>,
      refs: seq<ObjectRef>, parent: Entry): Entry
  {
    Entry(IncrementalManifest(c, req, schema, changes, refs), ApplyChanges(parent.db, changes))
  }

  ghost function CompactedEntry(c: Codec, store: Store, req: CompactChainRequest): Entry
    requires Restored(c, store, req.sourceId).Some?
  {
    var chain := LoadChain(c, store, req.sourceId).value;
    Entry(CompactedManifest(c, req, chain, CompactedTables(c, store, chain)),
          Refiled(Restored(c, store, req.sourceId).value))
  }

  // What a finished operation records for its new snapshot, if that may be relied on.
  ghost function NewEntry(c: Codec, op: Operation, store: Store, record: Record): Option<(Uuid, Entry)> {
    match op
    case FullBackup(req, plan) =>
      if TablesAgree(plan.tables) && ReferencedObjectsMatch(c, Jobs(plan.objects), store)
      then Some((req.snapshotId, FullEntry(c, req, plan))) else None
    case IncrementalBackup(req, schema, changes, refs) =>
      if req.parentId in record
         && Extends(c, store, IncrementalManifest(c, req, schema, changes, refs), req.parentId, refs)
      then Some((req.snapshotId, IncrementalEntry(c, req, schema, changes, refs, record[req.parentId]))) else None
    case Compact(req) =>
      if Restored(c, store, req.sourceId).Some? then Some((req.snapshotId, CompactedEntry(c, store, req))) else None
    case Prune(_) => None
    case DeleteOne(_) => None
  }

  function Extended(record: Record, entry: Option<(Uuid, Entry)>): Record {
    match entry
    case None => record
    case Some(e) => record[e.0 := e.1]
  }

  // The record after one call: what it was meant to keep, and the new snapshot if it finished.
  ghost function Recorded(c: Codec, step: StepOf, record: Record): Record {
    Extended(Restricted(record, step.kept),
             if step.outcome == Finished then NewEntry(c, step.op, step.locked, record) else None)
  }

  ghost predicate StandsFor(c: Codec, store: Store, id: Uuid, entry: Entry) {
    LoadManifest(c, store, id) == Ok(entry.manifest) && Restored(c, store, id) == Some(entry.db)
  }

  // Every recorded snapshot has the recorded manifest and restores to the recorded database.
  ghost predicate AllStand(c: Codec, store: Store, record: Record) {
    forall id :: id in record ==> StandsFor(c, store, id, record[id])
  }

  // The recorded snapshots are sound and stand for what was recorded.
  ghost predicate Faithful(c: Codec, store: Store, record: Record) {
    Sound(c, store, record.Keys) && AllStand(c, store, record)
  }

  lemma {:induction false} RestrictedIsFaithful(c: Codec, before: Store, after: Store, record: Record, kept: set<Uuid>)
    requires Faithful(c, before, record)
    requires Sound(c, after, record.Keys * kept) && SameSnapshots(c, before, after, record.Keys * kept)
    ensures Faithful(c, after, Restricted(record, kept))
  {
    assert Restricted(record, kept).Keys == record.Keys * kept;
    forall id | id in Restricted(record, kept) ensures StandsFor(c, after, id, Restricted(record, kept)[id]) {
      assert id in record.Keys * kept;
      assert StandsFor(c, before, id, record[id]);
    }
  }

  lemma {:induction false} RestrictedToAll(record: Record, ids: set<Uuid>)
    requires record.Keys <= ids
    ensures Restricted(record, ids) == record
  {
  }

  lemma {:induction false} AllKeptIsFaithful(c: Codec, before: Store, after: Store, record: Record)
    requires Faithful(c, before, record)
    requires Sound(c, after, record.Keys) && SameSnapshots(c, before, after, record.Keys)
    ensures Faithful(c, after, record)
  {
    forall id | id in record ensures StandsFor(c, after, id, record[id]) {
      assert StandsFor(c, before, id, record[id]);
    }
  }

  lemma {:induction false} ExtendedIsFaithful(c: Codec, store: Store, record: Record, id: Uuid, entry: Entry)
    requires Faithful(c, store, record)
    requires Sound(c, store, record.Keys + {id}) && StandsFor(c, store, id, entry)
    ensures Faithful(c, store, record[id := entry])
  {
    assert record[id := entry].Keys == record.Keys + {id};
  }

  // ----- one operation -----

  lemma {:induction false} FullBackupIsFaithful(c: Codec, before: Store, req: FullBackupRequest, plan: FullBackupPlan,
      after: Store, record: Record)
    requires c.Lawful() && Faithful(c, before, record) && Fresh(before, req.snapshotId)
    requires Written(c, before, FullManifest(c, req, plan), TableBlobs(c, req.snapshotId, plan.tables), plan.objects,
                     after)
    ensures Faithful(c, after, Extended(record, NewEntry(c, FullBackup(req, plan), before, record)))
  {
    FullBackupKeepsOthers(c, before, record.Keys, req, plan, after);
    AllKeptIsFaithful(c, before, after, record);
    if TablesAgree(plan.tables) && ReferencedObjectsMatch(c, Jobs(plan.objects), before) {
      FullBackupMeaning(c, before, record.Keys, req, plan, after);
      ExtendedIsFaithful(c, after, record, req.snapshotId, FullEntry(c, req, plan));
    }
  }

  lemma {:induction false} IncrementalBackupIsFaithful(c: Codec, before: Store, req: IncrementalBackupRequest,
      schema: Schema, changes: seq<Change>, refs: seq<ObjectRef>, after: Store, record: Record)
    requires c.Lawful() && Faithful(c, before, record) && Fresh(before, req.snapshotId)
    requires Written(c, before, IncrementalManifest(c, req, schema, changes, refs),
                     ChangesBlobs(c, req.snapshotId, Grouped(changes)), refs, after)
    ensures Faithful(c, after, Extended(record, NewEntry(c, IncrementalBackup(req, schema, changes, refs), before,
                                                         record)))
  {
    assert Faithful(c, after, record)
           && LoadManifest(c, after, req.snapshotId) == Ok(IncrementalManifest(c, req, schema, changes, refs)) by {
      IncrementalBackupKeepsOthers(c, before, record.Keys, req, schema, changes, refs, after);
      AllKeptIsFaithful(c, before, after, record);
    }
    if req.parentId in record
       && Extends(c, before, IncrementalManifest(c, req, schema, changes, refs), req.parentId, refs)
    {
      var entry := IncrementalEntry(c, req, schema, changes, refs, record[req.parentId]);
      assert Sound(c, after, record.Keys + {req.snapshotId})
             && Restored(c, after, req.snapshotId) == Some(entry.db) by {
        IncrementalBackupMeaning(c, before, record.Keys, req, schema, changes, refs, after);
        assert StandsFor(c, before, req.parentId, record[req.parentId]);
      }
      ExtendedIsFaithful(c, after, record, req.snapshotId, entry);
    }
  }

  lemma {:induction false} CompactedStandsFor(c: Codec, before: Store, req: CompactChainRequest, m: Manifest,
      after: Store)
    requires c.Lawful() && Legible(c, before) && Fresh(before, req.snapshotId) && Compacted(c, before, req, m, after)
    ensures Restored(c, before, req.sourceId).Some?
    ensures StandsFor(c, after, req.snapshotId, CompactedEntry(c, before, req))
  {
    CompactionKeepsOthers(c, before, {}, req, m, after);
    CompactionMeaning(c, before, {}, req, m, after);
  }

  lemma {:induction false} CompactionEntry(c: Codec, store: Store, req: CompactChainRequest, record: Record)
    requires Restored(c, store, req.sourceId).Some?
    ensures NewEntry(c, Compact(req), store, record) == Some((req.snapshotId, CompactedEntry(c, store, req)))
    ensures CompactedEntry(c, store, req).db == Refiled(Restored(c, store, req.sourceId).value)
  {
  }

  lemma {:induction false} CompactionIsFaithfulTo(c: Codec, before: Store, req: CompactChainRequest, m: Manifest,
      after: Store, record: Record, entry: Entry)
    requires c.Lawful() && Faithful(c, before, record) && Fresh(before, req.snapshotId)
    requires Compacted(c, before, req, m, after) && StandsFor(c, after, req.snapshotId, entry)
    ensures Faithful(c, after, record[req.snapshotId := entry])
  {
    assert Faithful(c, after, record) by {
      CompactionKeepsOthers(c, before, record.Keys, req, m, after);
      AllKeptIsFaithful(c, before, after, record);
    }
    assert Sound(c, after, record.Keys + {req.snapshotId}) by {
      CompactionMeaning(c, before, record.Keys, req, m, after);
    }
    ExtendedIsFaithful(c, after, record, req.snapshotId, entry);
  }

  lemma {:induction false} CompactionIsFaithful(c: Codec, before: Store, req: CompactChainRequest, m: Manifest,
      after: Store, record: Record)
    requires c.Lawful() && Faithful(c, before, record) && Fresh(before, req.snapshotId)
    requires Compacted(c, before, req, m, after)
    ensures Faithful(c, after, Extended(record, NewEntry(c, Compact(req), before, record)))
  {
    CompactedStandsFor(c, before, req, m, after);
    var entry := CompactedEntry(c, before, req);
    CompactionEntry(c, before, req, record);
    CompactionIsFaithfulTo(c, before, req, m, after, record, entry);
  }

  // A sweep by a plan that may have been cut short; without a plan nothing has happened.
  lemma {:induction false} SweepIsFaithful(c: Codec, before: Store, plan: Result<Plan>, after: Store, record: Record)
    requires Faithful(c, before, record)
    requires plan.Ok? ==> SafePlan(c, before, plan.value)
    requires TrimmedBy(before, plan, after)
    ensures Faithful(c, after, Restricted(record, KeptBy(before, plan)))
  {
    if plan.Ok? {
      TrimmedKeepsSound(c, before, record.Keys, plan.value, after);
      RestrictedIsFaithful(c, before, after, record, plan.value.retained);
    } else {
      RestrictedToAll(record, Snapshots(before));
    }
  }

  lemma {:induction false} PruneIsFaithful(c: Codec, before: Store, keepLast: nat, listing: seq<string>, after: Store,
      record: Record)
    requires Faithful(c, before, record) && Lists(listing, before, SNAPSHOTS_PREFIX)
    requires TrimmedBy(before, PlanPrune(c, before, listing, keepLast), after)
    ensures Faithful(c, after, Restricted(record, KeptBy(before, PlanPrune(c, before, listing, keepLast))))
  {
    var selected := PruneRetainsNewestChains(c, before, listing, keepLast);
    SweepIsFaithful(c, before, PlanPrune(c, before, listing, keepLast), after, record);
  }

  lemma {:induction false} DeleteIsFaithful(c: Codec, before: Store, id: Uuid, listing: seq<string>, after: Store,
      record: Record)
    requires Faithful(c, before, record) && Lists(listing, before, SNAPSHOTS_PREFIX)
    requires TrimmedBy(before, PlanDelete(c, before, listing, id), after)
    ensures Faithful(c, after, Restricted(record, KeptBy(before, PlanDelete(c, before, listing, id))))
  {
    DeleteIsRefusedIff(c, before, listing, id);
    SweepIsFaithful(c, before, PlanDelete(c, before, listing, id), after, record);
  }

  lemma {:induction false} SweptByIsTrimmedBy(store: Store, plan: Result<Plan>, after: Store)
    requires SweptBy(store, plan, after)
    ensures TrimmedBy(store, plan, after)
  {
    SweptIsTrimmed(store, plan.value.expired, plan.value.reachable);
  }

  lemma {:induction false} InterruptedSweepIsFaithful(c: Codec, op: Operation, before: Store, after: Store,
      kept: set<Uuid>, record: Record)
    requires Faithful(c, before, record) && (op.Prune? || op.DeleteOne?) && Interrupts(c, op, before, after, kept)
    ensures Faithful(c, after, Restricted(record, kept))
  {
    if op.Prune? {
      var listing :| Lists(listing, before, SNAPSHOTS_PREFIX)
                     && TrimmedBy(before, PlanPrune(c, before, listing, op.keepLast), after)
                     && kept == KeptBy(before, PlanPrune(c, before, listing, op.keepLast));
      PruneIsFaithful(c, before, op.keepLast, listing, after, record);
    } else {
      var listing :| Lists(listing, before, SNAPSHOTS_PREFIX)
                     && TrimmedBy(before, PlanDelete(c, before, listing, op.id), after)
                     && kept == KeptBy(before, PlanDelete(c, before, listing, op.id));
      DeleteIsFaithful(c, before, op.id, listing, after, record);
    }
  }

  // A finished sweep is a partial sweep with nothing left to do.
  lemma {:induction false} FinishedSweepInterrupts(c: Codec, op: Operation, before: Store, after: Store,
      kept: set<Uuid>)
    requires (op.Prune? || op.DeleteOne?) && Performs(c, op, before, after, kept)
    ensures Interrupts(c, op, before, after, kept)
  {
    if op.Prune? {
      var listing :| Lists(listing, before, SNAPSHOTS_PREFIX)
                     && SweptBy(before, PlanPrune(c, before, listing, op.keepLast), after)
                     && kept == KeptBy(before, PlanPrune(c, before, listing, op.keepLast));
      SweptByIsTrimmedBy(before, PlanPrune(c, before, listing, op.keepLast), after);
    } else {
      var listing :| Lists(listing, before, SNAPSHOTS_PREFIX)
                     && SweptBy(before, PlanDelete(c, before, listing, op.id), after)
                     && kept == KeptBy(before, PlanDelete(c, before, listing, op.id));
      SweptByIsTrimmedBy(before, PlanDelete(c, before, listing, op.id), after);
    }
  }

  // An operation that stops anywhere leaves every recorded snapshot it was meant to keep as it was.
  lemma {:induction false} InterruptionIsFaithful(c: Codec, op: Operation, before: Store, after: Store,
      kept: set<Uuid>, record: Record)
    requires Faithful(c, before, record) && Admissible(op, before) && Interrupts(c, op, before, after, kept)
    ensures Faithful(c, after, Restricted(record, kept))
  {
    RestrictedToAll(record, Snapshots(before));
    match op
    case FullBackup(req, _) =>
      StagesKeepSound(c, before, after, record.Keys, req.snapshotId);
      AllKeptIsFaithful(c, before, after, record);
    case IncrementalBackup(req, _, _, _) =>
      StagesKeepSound(c, before, after, record.Keys, req.snapshotId);
      AllKeptIsFaithful(c, before, after, record);
    case Compact(req) =>
      StagesKeepSound(c, before, after, record.Keys, req.snapshotId);
      AllKeptIsFaithful(c, before, after, record);
    case Prune(_) => InterruptedSweepIsFaithful(c, op, before, after, kept, record);
    case DeleteOne(_) => InterruptedSweepIsFaithful(c, op, before, after, kept, record);
  }

  // A finished operation does, in addition, record what its new snapshot restores to.
  lemma {:induction false} OperationIsFaithful(c: Codec, op: Operation, before: Store, after: Store, kept: set<Uuid>,
      record: Record)
    requires c.Lawful() && Faithful(c, before, record) && Admissible(op, before)
    requires Performs(c, op, before, after, kept)
    ensures Faithful(c, after, Extended(Restricted(record, kept), NewEntry(c, op, before, record)))
  {
    RestrictedToAll(record, Snapshots(before));
    match op
    case FullBackup(req, plan) => FullBackupIsFaithful(c, before, req, plan, after, record);
    case IncrementalBackup(req, schema, changes, refs) =>
      IncrementalBackupIsFaithful(c, before, req, schema, changes, refs, after, record);
    case Compact(req) =>
      var m :| Compacted(c, before, req, m, after);
      CompactionIsFaithful(c, before, req, m, after, record);
    case Prune(_) =>
      FinishedSweepInterrupts(c, op, before, after, kept);
      InterruptedSweepIsFaithful(c, op, before, after, kept, record);
    case DeleteOne(_) =>
      FinishedSweepInterrupts(c, op, before, after, kept);
      InterruptedSweepIsFaithful(c, op, before, after, kept, record);
  }

  lemma {:induction false} FaithfulButLock(c: Codec, a: Store, b: Store, record: Record)
    requires Faithful(c, a, record) && SameButLock(a, b)
    ensures Faithful(c, b, record) && Snapshots(b) == Snapshots(a)
  {
    LockIsInvisible(c, a, b, record.Keys);
  }

  lemma {:induction false} AdmissibleUnderLock(op: Operation, a: Store, b: Store)
    requires Admissible(op, a) && SameButLock(a, b)
    ensures Admissible(op, b)
  {
    match op
    case FullBackup(req, _) => LockKeepsFresh(a, b, req.snapshotId);
    case IncrementalBackup(req, _, _, _) => LockKeepsFresh(a, b, req.snapshotId);
    case Compact(req) => LockKeepsFresh(a, b, req.snapshotId);
    case Prune(_) =>
    case DeleteOne(_) =>
  }

  lemma {:induction false} HeldIsFaithful(c: Codec, step: StepOf, record: Record)
    requires c.Lawful() && Faithful(c, step.locked, record) && Admissible(step.op, step.locked)
    requires step.outcome != NotStarted && Acts(c, step.op, step.outcome, step.locked, step.held, step.kept)
    ensures Faithful(c, step.held, Recorded(c, step, record))
  {
    if step.outcome == Finished {
      OperationIsFaithful(c, step.op, step.locked, step.held, step.kept, record);
    } else {
      InterruptionIsFaithful(c, step.op, step.locked, step.held, step.kept, record);
    }
  }

  // One call, whatever it returns: refused by the lock, stopped anywhere, or finished with the lock released or not.
  lemma {:induction false} CallIsFaithful(c: Codec, step: StepOf, before: Store, after: Store, record: Record)
    requires c.Lawful() && Faithful(c, before, record) && Admissible(step.op, before) && Runs(c, step, before, after)
    ensures Faithful(c, after, Recorded(c, step, record))
  {
    if step.outcome == NotStarted {
      RestrictedToAll(record, Snapshots(before));
      FaithfulButLock(c, before, after, record);
    } else {
      FaithfulButLock(c, before, step.locked, record);
      AdmissibleUnderLock(step.op, before, step.locked);
      HeldIsFaithful(c, step, record);
      FaithfulButLock(c, step.held, after, Recorded(c, step, record));
    }
  }

  // What a sweep is meant to keep: for a prune the least parent-closed set that holds the newest snapshots, for
  // a delete all others. A sweep that is refused keeps everything.
  ghost predicate MeantToKeep(c: Codec, op: Operation, store: Store, kept: set<Uuid>) {
    match op
    case Prune(n) =>
      exists selected ::
        && NewestSelection(c, store, n, selected)
        && if forall id :: id in selected ==> LoadChain(c, store, id).Ok? then LeastClosed(c, store, selected, kept)
           else kept == Snapshots(store)
    case DeleteOne(id) =>
      kept == if id in Snapshots(store) && !IsParent(c, store, id) then Snapshots(store) - {id} else Snapshots(store)
    case _ => kept == Snapshots(store)
  }

  lemma {:induction false} PruneKeepsNewest(c: Codec, store: Store, keepLast: nat, listing: seq<string>)
    requires Legible(c, store) && Lists(listing, store, SNAPSHOTS_PREFIX)
    ensures MeantToKeep(c, Prune(keepLast), store, KeptBy(store, PlanPrune(c, store, listing, keepLast)))
  {
    var selected := PruneRetainsNewestChains(c, store, listing, keepLast);
    assert NewestSelection(c, store, keepLast, selected);
  }

  // The snapshots a step is said to keep are the ones its operation is meant to keep.
  lemma {:induction false} KeptIsMeantToBeKept(c: Codec, op: Operation, before: Store, after: Store, kept: set<Uuid>)
    requires Legible(c, before) && Interrupts(c, op, before, after, kept)
    ensures MeantToKeep(c, op, before, kept)
  {
    if op.Prune? {
      var listing :| Lists(listing, before, SNAPSHOTS_PREFIX)
                     && TrimmedBy(before, PlanPrune(c, before, listing, op.keepLast), after)
                     && kept == KeptBy(before, PlanPrune(c, before, listing, op.keepLast));
      PruneKeepsNewest(c, before, op.keepLast, listing);
    } else if op.DeleteOne? {
      var listing :| Lists(listing, before, SNAPSHOTS_PREFIX)
                     && TrimmedBy(before, PlanDelete(c, before, listing, op.id), after)
                     && kept == KeptBy(before, PlanDelete(c, before, listing, op.id));
      DeleteIsRefusedIff(c, before, listing, op.id);
    }
  }

  // Wherever a call stops, every recorded snapshot it was meant to keep is sound and restores to what was
  // recorded for it.
  lemma {:induction false} FailureSparesWhatIsKept(c: Codec, step: StepOf, before: Store, after: Store, record: Record)
    requires c.Lawful() && Faithful(c, before, record) && Admissible(step.op, before) && Runs(c, step, before, after)
    requires step.outcome == Stopped
    ensures MeantToKeep(c, step.op, step.locked, step.kept)
    ensures Faithful(c, after, Restricted(record, step.kept))
  {
    CallIsFaithful(c, step, before, after, record);
    LockKeepsLegible(c, before, step.locked);
    KeptIsMeantToBeKept(c, step.op, step.locked, step.held, step.kept);
  }

  // ----- whole runs -----

  // The stores of a run. Calls may finish, fail anywhere or be refused.
  ghost predicate IsHistory(c: Codec, steps: seq<StepOf>, stores: seq<Store>) {
    && |stores| == |steps| + 1
    && forall i :: 0 <= i < |steps| ==>
         Admissible(steps[i].op, stores[i]) && Runs(c, steps[i], stores[i], stores[i + 1])
  }

  ghost function RecordAfter(c: Codec, record: Record, steps: seq<StepOf>): Record {
    if steps == [] then record
    else Recorded(c, steps[|steps| - 1], RecordAfter(c, record, steps[..|steps| - 1]))
  }

  // For every finite run, every recorded snapshot restores to exactly what was recorded for it.
  lemma {:induction false} EveryHistoryIsFaithful(c: Codec, record: Record, steps: seq<StepOf>, stores: seq<Store>,
      n: nat)
    requires c.Lawful() && IsHistory(c, steps, stores) && Faithful(c, stores[0], record) && n <= |steps|
    ensures Faithful(c, stores[n], RecordAfter(c, record, steps[..n]))
  {
    if n == 0 {
    } else {
      EveryHistoryIsFaithful(c, record, steps, stores, n - 1);
      RecordSnoc(c, record, steps, n - 1);
      CallIsFaithful(c, steps[n - 1], stores[n - 1], stores[n], RecordAfter(c, record, steps[..n - 1]));
    }
  }

  // An empty repository is a place to start.
  lemma {:induction false} EmptyStoreIsFaithful(c: Codec)
    ensures Faithful(c, map[], map[])
  {
  }

  // The id an operation makes visible.
  function NewId(op: Operation): Option<Uuid> {
    match op
    case FullBackup(req, _) => Some(req.snapshotId)
    case IncrementalBackup(req, _, _, _) => Some(req.snapshotId)
    case Compact(req) => Some(req.snapshotId)
    case _ => None
  }

  lemma {:induction false} NewIdIsNotVisible(c: Codec, op: Operation, store: Store, id: Uuid)
    requires Legible(c, store) && Admissible(op, store) && id in Snapshots(store)
    ensures NewId(op) != Some(id)
  {
    VisibleIffStored(store, id);
  }

  lemma {:induction false} RecordSurvives(c: Codec, step: StepOf, record: Record, id: Uuid)
    requires id in record && id in step.kept && NewId(step.op) != Some(id)
    ensures id in Recorded(c, step, record) && Recorded(c, step, record)[id] == record[id]
  {
  }

  lemma {:induction false} RecordSnoc(c: Codec, record: Record, steps: seq<StepOf>, n: nat)
    requires n < |steps|
    ensures RecordAfter(c, record, steps[..n + 1]) == Recorded(c, steps[n], RecordAfter(c, record, steps[..n]))
  {
    assert steps[..n + 1][..n] == steps[..n];
  }

  lemma {:induction false} NextIdIsNew(c: Codec, record: Record, steps: seq<StepOf>, stores: seq<Store>, n: nat,
      id: Uuid)
    requires c.Lawful() && IsHistory(c, steps, stores) && Faithful(c, stores[0], record) && n < |steps|
    requires id in RecordAfter(c, record, steps[..n])
    ensures NewId(steps[n].op) != Some(id)
  {
    EveryHistoryIsFaithful(c, record, steps, stores, n);
    NewIdIsNotVisible(c, steps[n].op, stores[n], id);
  }

  lemma {:induction false} OneStepKeepsRecord(c: Codec, record: Record, steps: seq<StepOf>, stores: seq<Store>,
      n: nat, id: Uuid)
    requires c.Lawful() && IsHistory(c, steps, stores) && Faithful(c, stores[0], record) && n < |steps|
    requires id in RecordAfter(c, record, steps[..n]) && id in steps[n].kept
    ensures id in RecordAfter(c, record, steps[..n + 1])
    ensures RecordAfter(c, record, steps[..n + 1])[id] == RecordAfter(c, record, steps[..n])[id]
  {
    NextIdIsNew(c, record, steps, stores, n, id);
    RecordSnoc(c, record, steps, n);
    RecordSurvives(c, steps[n], RecordAfter(c, record, steps[..n]), id);
  }

  lemma {:induction false} RecordIsKept(c: Codec, record: Record, steps: seq<StepOf>, stores: seq<Store>, first: nat,
      last: nat, id: Uuid)
    requires c.Lawful() && IsHistory(c, steps, stores) && Faithful(c, stores[0], record)
    requires first <= last <= |steps| && id in RecordAfter(c, record, steps[..first])
    requires forall i :: first <= i < last ==> id in steps[i].kept
    ensures id in RecordAfter(c, record, steps[..last])
    ensures RecordAfter(c, record, steps[..last])[id] == RecordAfter(c, record, steps[..first])[id]
    decreases last - first
  {
    if first == last {
    } else {
      RecordIsKept(c, record, steps, stores, first, last - 1, id);
      OneStepKeepsRecord(c, record, steps, stores, last - 1, id);
    }
  }

  lemma {:induction false} RecordedRestores(c: Codec, record: Record, steps: seq<StepOf>, stores: seq<Store>, n: nat,
      id: Uuid)
    requires c.Lawful() && IsHistory(c, steps, stores) && Faithful(c, stores[0], record) && n <= |steps|
    requires id in RecordAfter(c, record, steps[..n])
    ensures StandsFor(c, stores[n], id, RecordAfter(c, record, steps[..n])[id])
  {
    EveryHistoryIsFaithful(c, record, steps, stores, n);
  }

  // Snapshots are immutable: a recorded snapshot has the same manifest and restores to the same database for as
  // long as no sweep is meant to remove it, whatever else is called and wherever it fails.
  lemma {:induction false} SnapshotsAreImmutable(c: Codec, record: Record, steps: seq<StepOf>, stores: seq<Store>,
      first: nat, last: nat, id: Uuid)
    requires c.Lawful() && IsHistory(c, steps, stores) && Faithful(c, stores[0], record)
    requires first <= last <= |steps| && id in RecordAfter(c, record, steps[..first])
    requires forall i :: first <= i < last ==> id in steps[i].kept
    ensures Restored(c, stores[first], id).Some? && Restored(c, stores[last], id) == Restored(c, stores[first], id)
    ensures LoadManifest(c, stores[first], id).Ok?
    ensures LoadManifest(c, stores[last], id) == LoadManifest(c, stores[first], id)
  {
    RecordIsKept(c, record, steps, stores, first, last, id);
    RecordedRestores(c, record, steps, stores, first, id);
    RecordedRestores(c, record, steps, stores, last, id);
  }

  // ----- runs in which everything visible is recorded -----

  // A call whose sweep, if any, was not cut short, and whose new snapshot, if any, can be relied on.
  ghost predicate Whole(c: Codec, step: StepOf, record: Record) {
    match step.outcome
    case NotStarted => true
    case Stopped => !step.op.Prune? && !step.op.DeleteOne?
    case Finished => NewId(step.op).Some? ==> NewEntry(c, step.op, step.locked, record).Some?
  }

  lemma {:induction false} SweptShowsKept(c: Codec, op: Operation, before: Store, after: Store, kept: set<Uuid>)
    requires Legible(c, before) && (op.Prune? || op.DeleteOne?) && Performs(c, op, before, after, kept)
    ensures Snapshots(after) == kept <= Snapshots(before)
  {
    if op.Prune? {
      var listing :| Lists(listing, before, SNAPSHOTS_PREFIX)
                     && SweptBy(before, PlanPrune(c, before, listing, op.keepLast), after)
                     && kept == KeptBy(before, PlanPrune(c, before, listing, op.keepLast));
      var selected := PruneRetainsNewestChains(c, before, listing, op.keepLast);
      VisibleAfterSweep(c, before, PlanPrune(c, before, listing, op.keepLast).value);
    } else {
      var listing :| Lists(listing, before, SNAPSHOTS_PREFIX)
                     && SweptBy(before, PlanDelete(c, before, listing, op.id), after)
                     && kept == KeptBy(before, PlanDelete(c, before, listing, op.id));
      DeleteIsRefusedIff(c, before, listing, op.id);
      VisibleAfterSweep(c, before, PlanDelete(c, before, listing, op.id).value);
    }
  }

  lemma {:induction false} WrittenShowsNew(c: Codec, op: Operation, before: Store, after: Store, kept: set<Uuid>)
    requires c.Lawful() && Legible(c, before) && Admissible(op, before) && NewId(op).Some?
    requires Performs(c, op, before, after, kept)
    ensures Snapshots(after) == Snapshots(before) + {NewId(op).value} && kept == Snapshots(before)
  {
    match op
    case FullBackup(req, plan) => FullBackupKeepsOthers(c, before, {}, req, plan, after);
    case IncrementalBackup(req, schema, changes, refs) =>
      IncrementalBackupKeepsOthers(c, before, {}, req, schema, changes, refs, after);
    case Compact(req) =>
      var m :| Compacted(c, before, req, m, after);
      CompactionKeepsOthers(c, before, {}, req, m, after);
  }

  lemma {:induction false} StagesShowSame(c: Codec, op: Operation, before: Store, after: Store, kept: set<Uuid>)
    requires Legible(c, before) && Admissible(op, before) && NewId(op).Some? && Interrupts(c, op, before, after, kept)
    ensures Snapshots(after) == Snapshots(before) == kept
  {
    StagesKeepSound(c, before, after, {}, NewId(op).value);
  }

  lemma {:induction false} NewEntryIsNewId(c: Codec, op: Operation, store: Store, record: Record)
    ensures NewEntry(c, op, store, record).Some? ==> NewId(op) == Some(NewEntry(c, op, store, record).value.0)
  {
  }

  lemma {:induction false} LockLeavesVisible(a: Store, b: Store)
    requires SameButLock(a, b)
    ensures Snapshots(a) == Snapshots(b)
  {
    LockIsNoManifest();
    forall k | SnapshotIdOf(k).Some? ensures k in a <==> k in b {
      assert Get(a, k) == Get(b, k);
    }
  }

  lemma {:induction false} RecordedKeys(c: Codec, step: StepOf, record: Record)
    requires Whole(c, step, record) && record.Keys <= step.kept
    ensures Recorded(c, step, record).Keys
         == record.Keys + if step.outcome == Finished && NewId(step.op).Some? then {NewId(step.op).value} else {}
  {
    RestrictedToAll(record, step.kept);
    NewEntryIsNewId(c, step.op, step.locked, record);
  }

  lemma {:induction false} RecordedKeysOfSweep(c: Codec, step: StepOf, record: Record)
    requires step.outcome == Finished && NewId(step.op) == None && step.kept <= record.Keys
    ensures Recorded(c, step, record).Keys == step.kept
  {
    NewEntryIsNewId(c, step.op, step.locked, record);
  }

  lemma {:induction false} HeldRecordsAll(c: Codec, step: StepOf, record: Record)
    requires c.Lawful() && Legible(c, step.locked) && Admissible(step.op, step.locked)
    requires step.outcome != NotStarted && Acts(c, step.op, step.outcome, step.locked, step.held, step.kept)
    requires record.Keys == Snapshots(step.locked) && Whole(c, step, record)
    ensures Recorded(c, step, record).Keys == Snapshots(step.held)
  {
    if step.outcome == Stopped {
      StagesShowSame(c, step.op, step.locked, step.held, step.kept);
      RecordedKeys(c, step, record);
    } else if NewId(step.op).Some? {
      WrittenShowsNew(c, step.op, step.locked, step.held, step.kept);
      RecordedKeys(c, step, record);
    } else {
      SweptShowsKept(c, step.op, step.locked, step.held, step.kept);
      RecordedKeysOfSweep(c, step, record);
    }
  }

  lemma {:induction false} WholeCallRecordsAll(c: Codec, step: StepOf, before: Store, after: Store, record: Record)
    requires c.Lawful() && Legible(c, before) && Admissible(step.op, before) && Runs(c, step, before, after)
    requires record.Keys == Snapshots(before) && Whole(c, step, record)
    ensures Recorded(c, step, record).Keys == Snapshots(after)
  {
    if step.outcome == NotStarted {
      LockLeavesVisible(before, after);
      RecordedKeys(c, step, record);
    } else {
      LockKeepsLegible(c, before, step.locked);
      AdmissibleUnderLock(step.op, before, step.locked);
      HeldRecordsAll(c, step, record);
      LockLeavesVisible(step.held, after);
    }
  }

  // In a run of such calls every visible snapshot is recorded, and so restores to what was recorded for it.
  lemma {:induction false} EveryVisibleIsRecorded(c: Codec, record: Record, steps: seq<StepOf>, stores: seq<Store>,
      n: nat)
    requires c.Lawful() && IsHistory(c, steps, stores) && Faithful(c, stores[0], record) && n <= |steps|
    requires record.Keys == Snapshots(stores[0])
    requires forall i :: 0 <= i < n ==> Whole(c, steps[i], RecordAfter(c, record, steps[..i]))
    ensures RecordAfter(c, record, steps[..n]).Keys == Snapshots(stores[n])
    ensures forall id :: id in Snapshots(stores[n]) ==>
              StandsFor(c, stores[n], id, RecordAfter(c, record, steps[..n])[id])
  {
    EveryHistoryIsFaithful(c, record, steps, stores, n);
    if n == 0 {
    } else {
      EveryVisibleIsRecorded(c, record, steps, stores, n - 1);
      EveryHistoryIsFaithful(c, record, steps, stores, n - 1);
      RecordSnoc(c, record, steps, n - 1);
      WholeCallRecordsAll(c, steps[n - 1], stores[n - 1], stores[n], RecordAfter(c, record, steps[..n - 1]));
    }
  }

  // A compaction of a recorded snapshot records its database with every row under its own primary key, which is
  // the same database exactly when they all are there already.
  lemma {:induction false} CompactionRecordsSource(c: Codec, step: StepOf, record: Record)
    requires Faithful(c, step.locked, record) && step.op.Compact? && step.outcome == Finished
    requires step.op.compact.sourceId in record
    ensures var req := step.op.compact;
            && req.snapshotId in Recorded(c, step, record)
            && Recorded(c, step, record)[req.snapshotId].db == Refiled(record[req.sourceId].db)
            && (Recorded(c, step, record)[req.snapshotId].db == record[req.sourceId].db
                <==> WellKeyed(record[req.sourceId].db))
  {
    var req := step.op.compact;
    assert StandsFor(c, step.locked, req.sourceId, record[req.sourceId]);
    CompactionEntry(c, step.locked, req, record);
    RefiledIsSameIff(record[req.sourceId].db);
  }
}
