// The public operations: each takes the lock, runs, and releases the lock whatever the outcome.
module Operations {
  import opened Types
  import opened Keys
  import opened Repositories
  import opened Database
  import opened Objects
  import opened Soundness
  import opened Backups
  import opened Compaction
  import opened Pruning
  import opened Locking

  datatype Operation =
    | FullBackup(full: FullBackupRequest, plan: FullBackupPlan)
    | IncrementalBackup(incremental: IncrementalBackupRequest, schema: Schema, changes: seq<Change>,
        refs: seq<ObjectRef>)
    | Compact(compact: CompactChainRequest)
    | Prune(keepLast: nat)
    | DeleteOne(id: Uuid)

  // The snapshots a sweep is meant to leave alone; without a plan nothing is deleted.
  ghost function KeptBy(store: Store, plan: Result<Plan>): set<Uuid> {
    if plan.Ok? then plan.value.retained else Snapshots(store)
  }

  // What a finished operation does to the store while it holds the lock, and which snapshots it is meant to keep.
  ghost predicate Performs(c: Codec, op: Operation, before: Store, after: Store, kept: set<Uuid>) {
    match op
    case FullBackup(req, plan) =>
      && kept == Snapshots(before)
      && Written(c, before, FullManifest(c, req, plan), TableBlobs(c, req.snapshotId, plan.tables), plan.objects, after)
    case IncrementalBackup(req, schema, changes, refs) =>
      && kept == Snapshots(before)
      && Written(c, before, IncrementalManifest(c, req, schema, changes, refs),
                 ChangesBlobs(c, req.snapshotId, Grouped(changes)), refs, after)
    case Compact(req) =>
      kept == Snapshots(before) && exists m :: Compacted(c, before, req, m, after)
    case Prune(keepLast) =>
      exists listing ::
        && Lists(listing, before, SNAPSHOTS_PREFIX)
        && SweptBy(before, PlanPrune(c, before, listing, keepLast), after)
        && kept == KeptBy(before, PlanPrune(c, before, listing, keepLast))
    case DeleteOne(id) =>
      exists listing ::
        && Lists(listing, before, SNAPSHOTS_PREFIX)
        && SweptBy(before, PlanDelete(c, before, listing, id), after)
        && kept == KeptBy(before, PlanDelete(c, before, listing, id))
  }

  // What an operation that fails half-way leaves: an unfinished snapshot, or a partial sweep.
  ghost predicate Interrupts(c: Codec, op: Operation, before: Store, after: Store, kept: set<Uuid>) {
    match op
    case FullBackup(req, _) => kept == Snapshots(before) && Staged(req.snapshotId, before, after)
    case IncrementalBackup(req, _, _, _) => kept == Snapshots(before) && Staged(req.snapshotId, before, after)
    case Compact(req) => kept == Snapshots(before) && Staged(req.snapshotId, before, after)
    case Prune(keepLast) =>
      exists listing ::
        && Lists(listing, before, SNAPSHOTS_PREFIX)
        && TrimmedBy(before, PlanPrune(c, before, listing, keepLast), after)
        && kept == KeptBy(before, PlanPrune(c, before, listing, keepLast))
    case DeleteOne(id) =>
      exists listing ::
        && Lists(listing, before, SNAPSHOTS_PREFIX)
        && TrimmedBy(before, PlanDelete(c, before, listing, id), after)
        && kept == KeptBy(before, PlanDelete(c, before, listing, id))
  }

  // NotStarted: the lock was not taken.
  datatype Outcome = Finished | Stopped | NotStarted

  // One call, with the stores right after taking the lock and right before releasing it.
  datatype StepOf = StepOf(op: Operation, outcome: Outcome, locked: Store, held: Store, kept: set<Uuid>)

  // What one call does to the repository, whatever it returns. Releasing the lock may fail.
  ghost predicate Runs(c: Codec, step: StepOf, before: Store, after: Store) {
    match step.outcome
    case NotStarted =>
      SameButLock(before, after) && step.kept == Snapshots(before)
    case Stopped =>
      && SameButLock(before, step.locked)
      && Interrupts(c, step.op, step.locked, step.held, step.kept)
      && SameButLock(step.held, after)
    case Finished =>
      && SameButLock(before, step.locked)
      && Performs(c, step.op, step.locked, step.held, step.kept)
      && SameButLock(step.held, after)
  }

  // The clock reading and the staleness limit an operation starts with.
  datatype LockOptions = LockOptions(codec: SecondsCodec, now: int, staleAfter: int)

  // release_lock: the operation's own error wins over a failing release, and after an operation that succeeded an
  // error means exactly that the release failed.
  method ReleaseAfter<T>(repository: Repository, result: Result<T>) returns (r: Result<T>, ghost released: Result<()>)
    requires repository.Valid()
    modifies repository
    ensures repository.Valid() && old(repository.history) <= repository.history
    ensures result.Err? ==> r == result
    ensures result.Ok? ==> (r.Err? <==> released.Err?) && (r.Ok? ==> r == result)
    ensures released.Ok? ==> repository.blobs == old(repository.blobs) - {LOCK_KEY}
    ensures released.Err? ==> repository.blobs == old(repository.blobs)
    ensures repository.failures >= old(repository.failures)
    ensures result.Ok? && r.Err? ==> r.error == Storage && repository.failures > old(repository.failures)
  {
    var release := Release(repository);
    released := release;
    r := if result.Ok? && release.Err? then Err(release.error) else result;
  }

  // ----- what each operation does between taking and releasing the lock -----

  ghost function OutcomeOf<T>(r: Result<T>): Outcome {
    if r.Ok? then Finished else Stopped
  }

  ghost predicate Acts(c: Codec, op: Operation, outcome: Outcome, before: Store, after: Store, kept: set<Uuid>) {
    if outcome == Finished then Performs(c, op, before, after, kept) else Interrupts(c, op, before, after, kept)
  }

  method RunFullBackup(c: Codec, repository: Repository, source: ObjectIndex, req: FullBackupRequest,
      plan: FullBackupPlan) returns (r: Result<Manifest>, ghost kept: set<Uuid>)
    requires repository.Valid()
    modifies repository, source
    ensures repository.failures >= old(repository.failures) && source.failures >= old(source.failures)
    ensures old(source.log) <= source.log
    ensures r.Err? ==> HasCause(c, plan.objects, source.log[|old(source.log)|..], r.error,
                                repository.failures > old(repository.failures), source.failures > old(source.failures))
    ensures repository.Valid()
    ensures r.Ok? ==> r.value == FullManifest(c, req, plan)
    ensures Acts(c, FullBackup(req, plan), OutcomeOf(r), old(repository.blobs), repository.blobs, kept)
  {
    kept := Snapshots(repository.blobs);
    r := CreateFullBackup(c, repository, source, req, plan);
  }

  method RunIncrementalBackup(c: Codec, repository: Repository, source: ObjectIndex, req: IncrementalBackupRequest,
      schema: Schema, changes: seq<Change>, refs: seq<ObjectRef>) returns (r: Result<Manifest>, ghost kept: set<Uuid>)
    requires repository.Valid()
    modifies repository, source
    ensures repository.failures >= old(repository.failures) && source.failures >= old(source.failures)
    ensures old(source.log) <= source.log
    ensures r.Err? ==> HasCause(c, refs, source.log[|old(source.log)|..], r.error,
                                repository.failures > old(repository.failures), source.failures > old(source.failures))
    ensures repository.Valid()
    ensures r.Ok? ==> r.value == IncrementalManifest(c, req, schema, changes, refs)
    ensures Acts(c, IncrementalBackup(req, schema, changes, refs), OutcomeOf(r), old(repository.blobs),
                 repository.blobs, kept)
  {
    kept := Snapshots(repository.blobs);
    r := CreateIncrementalBackup(c, repository, source, req, schema, changes, refs);
  }

  // A finished compaction that returned the manifest it wrote.
  ghost predicate CompactedTo(c: Codec, req: CompactChainRequest, before: Store, r: Result<Manifest>, after: Store) {
    r.Ok? && Compacted(c, before, req, r.value, after)
  }

  method RunCompaction(c: Codec, repository: Repository, req: CompactChainRequest)
    returns (r: Result<Manifest>, ghost kept: set<Uuid>)
    requires repository.Valid()
    modifies repository
    ensures repository.failures >= old(repository.failures)
    ensures r.Err? && Compactable(c, old(repository.blobs), req.sourceId) ==>
              r.error == Storage && repository.failures > old(repository.failures)
    ensures repository.Valid()
    ensures r.Ok? ==> CompactedTo(c, req, old(repository.blobs), r, repository.blobs)
    ensures Acts(c, Compact(req), OutcomeOf(r), old(repository.blobs), repository.blobs, kept)
  {
    kept := Snapshots(repository.blobs);
    r := CompactChain(c, repository, req);
  }

  lemma {:induction false} PruneOutcome(c: Codec, keepLast: nat, before: Store, listing: seq<string>, after: Store)
    requires Lists(listing, before, SNAPSHOTS_PREFIX)
    ensures var plan := PlanPrune(c, before, listing, keepLast);
            && (SweptBy(before, plan, after) ==> Performs(c, Prune(keepLast), before, after, KeptBy(before, plan)))
            && (TrimmedBy(before, plan, after) ==> Interrupts(c, Prune(keepLast), before, after, KeptBy(before, plan)))
  {
  }

  lemma {:induction false} DeleteOutcome(c: Codec, id: Uuid, before: Store, listing: seq<string>, after: Store)
    requires Lists(listing, before, SNAPSHOTS_PREFIX)
    ensures var plan := PlanDelete(c, before, listing, id);
            && (SweptBy(before, plan, after) ==> Performs(c, DeleteOne(id), before, after, KeptBy(before, plan)))
            && (TrimmedBy(before, plan, after) ==> Interrupts(c, DeleteOne(id), before, after, KeptBy(before, plan)))
  {
  }

  ghost predicate PruneReports(c: Codec, keepLast: nat, before: Store, r: PruneResult, after: Store) {
    exists listing :: Lists(listing, before, SNAPSHOTS_PREFIX) && Pruned(c, before, listing, keepLast, r, after)
  }

  method RunPrune(c: Codec, repository: Repository, keepLast: nat)
    returns (r: Result<PruneResult>, ghost kept: set<Uuid>)
    requires repository.Valid()
    modifies repository
    ensures repository.failures >= old(repository.failures)
    ensures r.Err? ==> IsDataError(r.error) || (r.error == Storage && repository.failures > old(repository.failures))
    ensures repository.Valid()
    ensures r.Ok? ==> PruneReports(c, keepLast, old(repository.blobs), r.value, repository.blobs)
    ensures Acts(c, Prune(keepLast), OutcomeOf(r), old(repository.blobs), repository.blobs, kept)
  {
    ghost var listing;
    r, listing := Pruning.Prune(c, repository, keepLast);
    kept := KeptBy(old(repository.blobs), PlanPrune(c, old(repository.blobs), listing, keepLast));
    assert r.Ok? ==> Pruned(c, old(repository.blobs), listing, keepLast, r.value, repository.blobs);
    PruneOutcome(c, keepLast, old(repository.blobs), listing, repository.blobs);
  }

  ghost predicate DeleteReports(c: Codec, id: Uuid, before: Store, r: DeleteSnapshotResult, after: Store) {
    exists listing :: Lists(listing, before, SNAPSHOTS_PREFIX) && Deleted(c, before, listing, id, r, after)
  }

  method RunDelete(c: Codec, repository: Repository, id: Uuid)
    returns (r: Result<DeleteSnapshotResult>, ghost kept: set<Uuid>)
    requires repository.Valid()
    modifies repository
    ensures repository.failures >= old(repository.failures)
    ensures r.Err? ==> IsDataError(r.error) || (r.error == Storage && repository.failures > old(repository.failures))
    ensures repository.Valid()
    ensures r.Ok? ==> DeleteReports(c, id, old(repository.blobs), r.value, repository.blobs)
    ensures Acts(c, DeleteOne(id), OutcomeOf(r), old(repository.blobs), repository.blobs, kept)
  {
    ghost var listing;
    r, listing := DeleteSnapshot(c, repository, id);
    kept := KeptBy(old(repository.blobs), PlanDelete(c, old(repository.blobs), listing, id));
    assert r.Ok? ==> Deleted(c, old(repository.blobs), listing, id, r.value, repository.blobs);
    DeleteOutcome(c, id, old(repository.blobs), listing, repository.blobs);
  }

  // ----- the operations under the lock: every call is one step, whatever it returns -----

  lemma {:induction false} LockedRun(c: Codec, op: Operation, outcome: Outcome, before: Store, locked: Store,
      held: Store, after: Store, kept: set<Uuid>)
    requires outcome != NotStarted && SameButLock(before, locked) && Acts(c, op, outcome, locked, held, kept)
    requires after == held || after == held - {LOCK_KEY}
    ensures Runs(c, StepOf(op, outcome, locked, held, kept), before, after)
  {
  }

  // A call reports success exactly when its operation finished and the lock could be released after it.
  ghost predicate Reports<T>(r: Result<T>, step: StepOf, after: Store) {
    && (r.Ok? ==> step.outcome == Finished && after == step.held - {LOCK_KEY})
    && (r.Err? && step.outcome == Finished ==> r.error == Storage && after == step.held)
  }

  // Some client holds a lock that is not stale.
  ghost predicate IsLocked(lock: LockOptions, store: Store) {
    LOCK_KEY in store && !IsStale(lock.codec, store[LOCK_KEY], lock.now, lock.staleAfter)
  }

  // A call is refused exactly for a live lock, or when the repository fails before the lock is taken.
  ghost predicate RefusedFor<T>(r: Result<T>, step: StepOf, lock: LockOptions, before: Store, failed: bool) {
    && (IsLocked(lock, before) ==> step.outcome == NotStarted)
    && (step.outcome == NotStarted ==>
          r.Err? && if r.error == RepositoryLocked then IsLocked(lock, before) else r.error == Storage && failed)
  }

  method CreateFullBackupLocked(c: Codec, repository: Repository, source: ObjectIndex, req: FullBackupRequest,
      plan: FullBackupPlan, lock: LockOptions) returns (r: Result<Manifest>, ghost step: StepOf)
    requires repository.Valid()
    modifies repository, source
    ensures RefusedFor(r, step, lock, old(repository.blobs), repository.failures > old(repository.failures))
    ensures old(source.log) <= source.log
    ensures r.Err? && step.outcome != NotStarted ==>
              HasCause(c, plan.objects, source.log[|old(source.log)|..], r.error,
                       repository.failures > old(repository.failures), source.failures > old(source.failures))
    ensures repository.Valid()
    ensures step.op == FullBackup(req, plan) && Runs(c, step, old(repository.blobs), repository.blobs)
    ensures Reports(r, step, repository.blobs)
    ensures r.Ok? ==> r.value == FullManifest(c, req, plan)
  {
    ghost var before, op := repository.blobs, FullBackup(req, plan);
    step := StepOf(op, NotStarted, before, before, Snapshots(before));
    var _ :- Acquire(lock.codec, repository, lock.now, lock.staleAfter);
    ghost var locked := repository.blobs;
    var result, kept := RunFullBackup(c, repository, source, req, plan);
    ghost var held := repository.blobs;
    ghost var released;
    r, released := ReleaseAfter(repository, result);
    step := StepOf(op, OutcomeOf(result), locked, held, kept);
    LockedRun(c, op, OutcomeOf(result), before, locked, held, repository.blobs, kept);
  }

  method CreateIncrementalBackupLocked(c: Codec, repository: Repository, source: ObjectIndex,
      req: IncrementalBackupRequest, schema: Schema, changes: seq<Change>, refs: seq<ObjectRef>, lock: LockOptions)
    returns (r: Result<Manifest>, ghost step: StepOf)
    requires repository.Valid()
    modifies repository, source
    ensures RefusedFor(r, step, lock, old(repository.blobs), repository.failures > old(repository.failures))
    ensures old(source.log) <= source.log
    ensures r.Err? && step.outcome != NotStarted ==>
              HasCause(c, refs, source.log[|old(source.log)|..], r.error,
                       repository.failures > old(repository.failures), source.failures > old(source.failures))
    ensures repository.Valid()
    ensures step.op == IncrementalBackup(req, schema, changes, refs)
    ensures Runs(c, step, old(repository.blobs), repository.blobs)
    ensures Reports(r, step, repository.blobs)
    ensures r.Ok? ==> r.value == IncrementalManifest(c, req, schema, changes, refs)
  {
    ghost var before, op := repository.blobs, IncrementalBackup(req, schema, changes, refs);
    step := StepOf(op, NotStarted, before, before, Snapshots(before));
    var _ :- Acquire(lock.codec, repository, lock.now, lock.staleAfter);
    ghost var locked := repository.blobs;
    var result, kept := RunIncrementalBackup(c, repository, source, req, schema, changes, refs);
    ghost var held := repository.blobs;
    ghost var released;
    r, released := ReleaseAfter(repository, result);
    step := StepOf(op, OutcomeOf(result), locked, held, kept);
    LockedRun(c, op, OutcomeOf(result), before, locked, held, repository.blobs, kept);
  }

  method CompactChainLocked(c: Codec, repository: Repository, req: CompactChainRequest, lock: LockOptions)
    returns (r: Result<Manifest>, ghost step: StepOf)
    requires repository.Valid()
    modifies repository
    ensures RefusedFor(r, step, lock, old(repository.blobs), repository.failures > old(repository.failures))
    ensures r.Err? && step.outcome != NotStarted && Compactable(c, step.locked, req.sourceId) ==>
              r.error == Storage && repository.failures > old(repository.failures)
    ensures repository.Valid()
    ensures step.op == Compact(req) && Runs(c, step, old(repository.blobs), repository.blobs)
    ensures Reports(r, step, repository.blobs)
    ensures r.Ok? ==> CompactedTo(c, req, step.locked, r, step.held)
  {
    ghost var before, op := repository.blobs, Compact(req);
    step := StepOf(op, NotStarted, before, before, Snapshots(before));
    var _ :- Acquire(lock.codec, repository, lock.now, lock.staleAfter);
    ghost var locked := repository.blobs;
    var result, kept := RunCompaction(c, repository, req);
    ghost var held := repository.blobs;
    ghost var released;
    r, released := ReleaseAfter(repository, result);
    assert r.Ok? ==> r == result;
    step := StepOf(op, OutcomeOf(result), locked, held, kept);
    LockedRun(c, op, OutcomeOf(result), before, locked, held, repository.blobs, kept);
  }

  method PruneLocked(c: Codec, repository: Repository, keepLast: nat, lock: LockOptions)
    returns (r: Result<PruneResult>, ghost step: StepOf)
    requires repository.Valid()
    modifies repository
    ensures RefusedFor(r, step, lock, old(repository.blobs), repository.failures > old(repository.failures))
    ensures r.Err? && step.outcome != NotStarted ==>
              IsDataError(r.error) || (r.error == Storage && repository.failures > old(repository.failures))
    ensures repository.Valid()
    ensures step.op == Prune(keepLast) && Runs(c, step, old(repository.blobs), repository.blobs)
    ensures Reports(r, step, repository.blobs)
    ensures r.Ok? ==> PruneReports(c, keepLast, step.locked, r.value, step.held)
  {
    ghost var before, op := repository.blobs, Prune(keepLast);
    step := StepOf(op, NotStarted, before, before, Snapshots(before));
    var _ :- Acquire(lock.codec, repository, lock.now, lock.staleAfter);
    ghost var locked := repository.blobs;
    var result, kept := RunPrune(c, repository, keepLast);
    ghost var held := repository.blobs;
    ghost var released;
    r, released := ReleaseAfter(repository, result);
    step := StepOf(op, OutcomeOf(result), locked, held, kept);
    LockedRun(c, op, OutcomeOf(result), before, locked, held, repository.blobs, kept);
  }

  method DeleteSnapshotLocked(c: Codec, repository: Repository, id: Uuid, lock: LockOptions)
    returns (r: Result<DeleteSnapshotResult>, ghost step: StepOf)
    requires repository.Valid()
    modifies repository
    ensures RefusedFor(r, step, lock, old(repository.blobs), repository.failures > old(repository.failures))
    ensures r.Err? && step.outcome != NotStarted ==>
              IsDataError(r.error) || (r.error == Storage && repository.failures > old(repository.failures))
    ensures repository.Valid()
    ensures step.op == DeleteOne(id) && Runs(c, step, old(repository.blobs), repository.blobs)
    ensures Reports(r, step, repository.blobs)
    ensures r.Ok? ==> DeleteReports(c, id, step.locked, r.value, step.held)
  {
    ghost var before, op := repository.blobs, DeleteOne(id);
    step := StepOf(op, NotStarted, before, before, Snapshots(before));
    var _ :- Acquire(lock.codec, repository, lock.now, lock.staleAfter);
    ghost var locked := repository.blobs;
    var result, kept := RunDelete(c, repository, id);
    ghost var held := repository.blobs;
    ghost var released;
    r, released := ReleaseAfter(repository, result);
    step := StepOf(op, OutcomeOf(result), locked, held, kept);
    LockedRun(c, op, OutcomeOf(result), before, locked, held, repository.blobs, kept);
  }
}
