// What garbage collection keeps: every retained snapshot, at every step, and nothing unreachable at the end.
module PruningTheorems {
  import opened Types
  import opened Ordering
  import opened Keys
  import opened Repositories
  import opened Manifests
  import opened Verification
  import opened Objects
  import opened Restoring
  import opened Soundness
  import opened Pruning

  ghost predicate ReachedFrom(c: Codec, store: Store, ids: set<Uuid>, key: string) {
    exists id :: id in ids && LoadManifest(c, store, id).Ok? && key in RefKeys(ManifestAt(c, store, id))
  }

  // A retained snapshot has its parent retained, if that is visible at all.
  ghost predicate ParentsRetained(c: Codec, store: Store, retained: set<Uuid>) {
    forall id :: id in retained ==>
      && LoadManifest(c, store, id).Ok?
      && var parent := ManifestAt(c, store, id).parent;
         parent.Some? && parent.value in Snapshots(store) ==> parent.value in retained
  }

  // A plan that splits the snapshots, keeps parents with children, and reaches exactly what is retained.
  ghost predicate SafePlan(c: Codec, store: Store, plan: Plan) {
    && plan.retained + plan.expired == Snapshots(store) && plan.retained !! plan.expired
    && ParentsRetained(c, store, plan.retained)
    && forall k :: k in plan.reachable <==> ReachedFrom(c, store, plan.retained, k)
  }

  lemma {:induction false} RetainedIsClosed(c: Codec, store: Store, ids: set<Uuid>, retained: set<Uuid>)
    requires ids <= Snapshots(store) && ParentClosed(c, store, ids) && ParentsRetained(c, store, retained)
    ensures ParentClosed(c, store, ids * retained)
  {
    forall id | id in ids * retained
      ensures LoadManifest(c, store, id).Ok?
      ensures ManifestAt(c, store, id).parent.Some? ==> ManifestAt(c, store, id).parent.value in ids * retained
    {
      assert id in ids && id in retained;
    }
  }

  lemma {:induction false} OwnKeyIsSpared(expired: set<Uuid>, id: Uuid, key: string)
    requires id !in expired && UnderSnapshot(id, key)
    ensures !UnderAny(expired, key)
  {
    if UnderAny(expired, key) {
      var x :| x in expired && UnderSnapshot(x, key);
      SnapshotsAreDisjoint(x, id, key);
    }
  }

  // Nothing a retained manifest depends on is doomed.
  lemma {:induction false} RetainedManifestIsSpared(c: Codec, store: Store, plan: Plan, id: Uuid, m: Manifest)
    requires SafePlan(c, store, plan) && id in plan.retained
    requires LoadManifest(c, store, id) == Ok(m) && m.snapshotId == id && Tidy(m)
    ensures !Doomed(plan.expired, plan.reachable, ManifestKey(id))
    ensures forall i :: 0 <= i < |Refs(m)| ==> !Doomed(plan.expired, plan.reachable, Refs(m)[i].key)
  {
    ManifestKeyIsUnder(id);
    OwnKeyIsSpared(plan.expired, id, ManifestKey(id));
    forall i | 0 <= i < |Refs(m)| ensures !Doomed(plan.expired, plan.reachable, Refs(m)[i].key) {
      var key := Refs(m)[i].key;
      assert key in plan.reachable by {
        RefKeysAreRefs(m);
        assert ReachedFrom(c, store, plan.retained, key);
      }
      TidyRef(m, i);
      if UnderSnapshot(id, key) {
        OwnKeyIsSpared(plan.expired, id, key);
      } else {
        ObjectKeyFacts(Refs(m)[i].sha);
      }
    }
  }

  lemma {:induction false} SurvivorIsKept(c: Codec, before: Store, ids: set<Uuid>, plan: Plan, after: Store, id: Uuid)
    requires Sound(c, before, ids) && SafePlan(c, before, plan) && id in ids * plan.retained
    requires Trimmed(before, after, DoomedKeys(plan.expired, plan.reachable))
    ensures LoadChain(c, before, id).Ok?
    ensures KeptChain(before, after, LoadChain(c, before, id).value)
  {
    assert SoundSnapshot(c, before, id);
    var chain := LoadChain(c, before, id).value;
    SoundChain(c, before, ids, id, chain);
    RetainedIsClosed(c, before, ids, plan.retained);
    forall i | 0 <= i < |chain|
      ensures Kept(before, after, ManifestKey(chain[i].snapshotId)) && KeptRefs(before, after, chain[i])
    {
      ChainStaysInside(c, before, ids * plan.retained, id, chain, i);
      assert SoundManifest(c, before, chain[i]);
      RetainedManifestIsSpared(c, before, plan, chain[i].snapshotId, chain[i]);
    }
  }

  // After each single delete of a sweep, every retained snapshot that was sound is still complete, has the same
  // chain and restores to the same database.
  lemma {:induction false} SurvivorsIntactAtEveryStep(c: Codec, before: Store, ids: set<Uuid>, plan: Plan, step: Store,
      id: Uuid)
    requires Sound(c, before, ids) && SafePlan(c, before, plan) && id in ids * plan.retained
    requires Trimmed(before, step, DoomedKeys(plan.expired, plan.reachable))
    ensures SoundSnapshot(c, step, id)
    ensures LoadChain(c, step, id) == LoadChain(c, before, id)
    ensures Restored(c, step, id) == Restored(c, before, id) && Restored(c, step, id).Some?
  {
    SurvivorIsKept(c, before, ids, plan, step, id);
    KeptSnapshotStaysSound(c, before, step, ids, id);
  }

  // What is left of a legible store is legible.
  lemma {:induction false} RemainsLegible(c: Codec, before: Store, step: Store)
    requires Legible(c, before) && Unchanged(step, before)
    ensures Legible(c, step) && Snapshots(step) <= Snapshots(before)
  {
    forall id | id in Snapshots(step) ensures LegibleSnapshot(c, step, id) && id in Snapshots(before) {
      VisibleIffStored(step, id);
      VisibleIffStored(before, id);
      KeptManifestStaysLegible(c, before, step, id);
    }
  }

  // So at every step the sound snapshots that are retained stay sound together.
  lemma {:induction false} TrimmedKeepsSound(c: Codec, before: Store, ids: set<Uuid>, plan: Plan, step: Store)
    requires Sound(c, before, ids) && SafePlan(c, before, plan)
    requires Trimmed(before, step, DoomedKeys(plan.expired, plan.reachable))
    ensures Sound(c, step, ids * plan.retained) && SameSnapshots(c, before, step, ids * plan.retained)
  {
    RemainsLegible(c, before, step);
    RetainedIsClosed(c, before, ids, plan.retained);
    forall id | id in ids * plan.retained
      ensures LoadChain(c, before, id).Ok? && KeptChain(before, step, LoadChain(c, before, id).value)
    {
      SurvivorIsKept(c, before, ids, plan, step, id);
    }
    KeptChainsStaySound(c, before, step, ids, ids * plan.retained);
  }

  // ----- what a sweep that was cut short leaves of the others -----

  lemma {:induction false} LoadedIsUnchanged(c: Codec, before: Store, step: Store, id: Uuid)
    requires Unchanged(step, before) && LoadManifest(c, step, id).Ok?
    ensures LoadManifest(c, before, id) == LoadManifest(c, step, id) && Kept(before, step, ManifestKey(id))
  {
  }

  lemma {:induction false} CompleteIsKept(c: Codec, before: Store, step: Store, m: Manifest)
    requires Unchanged(step, before) && Complete(c, step, m)
    ensures KeptRefs(before, step, m)
  {
    forall i | 0 <= i < |Refs(m)| ensures Kept(before, step, Refs(m)[i].key) {
      assert VerifyBlob(c, step, Refs(m)[i]).Ok?;
    }
  }

  lemma {:induction false} RestorableIsKept(c: Codec, before: Store, step: Store, id: Uuid)
    requires Legible(c, before) && Unchanged(step, before) && Restored(c, step, id).Some?
    ensures LoadChain(c, before, id) == LoadChain(c, step, id) && LoadChain(c, step, id).Ok?
    ensures KeptChain(before, step, LoadChain(c, step, id).value)
  {
    var chain := LoadChain(c, step, id).value;
    RemainsLegible(c, before, step);
    LegibleChain(c, step, id, chain);
    forall i | 0 <= i < |chain|
      ensures LoadManifest(c, before, chain[i].snapshotId) == Ok(chain[i])
      ensures Kept(before, step, ManifestKey(chain[i].snapshotId)) && KeptRefs(before, step, chain[i])
    {
      LoadedIsUnchanged(c, before, step, chain[i].snapshotId);
      assert Complete(c, step, chain[i]);
      CompleteIsKept(c, before, step, chain[i]);
    }
    LoadChainIff(c, before, id, chain);
  }

  // Whatever has been deleted so far, a sound snapshot can still be restored exactly when nothing its chain
  // reads has been.
  lemma {:induction false} RestorableIff(c: Codec, before: Store, ids: set<Uuid>, step: Store, id: Uuid)
    requires Sound(c, before, ids) && id in ids && Unchanged(step, before)
    ensures Restored(c, step, id).Some? <==> KeptChain(before, step, LoadChain(c, before, id).value)
    ensures Restored(c, step, id).Some? ==> Restored(c, step, id) == Restored(c, before, id)
  {
    SoundSnapshotRestores(c, before, ids, id);
    if Restored(c, step, id).Some? {
      RestorableIsKept(c, before, step, id);
    }
    if KeptChain(before, step, LoadChain(c, before, id).value) {
      KeptSnapshotStaysSound(c, before, step, ids, id);
    }
  }

  lemma {:induction false} MissingBlobStrands(c: Codec, before: Store, ids: set<Uuid>, step: Store, id: Uuid, i: nat)
    requires Sound(c, before, ids) && id in ids && Unchanged(step, before) && LoadManifest(c, before, id).Ok?
    requires i < |Refs(ManifestAt(c, before, id))| && Refs(ManifestAt(c, before, id))[i].key !in step
    ensures Restored(c, step, id) == None
  {
    var m := ManifestAt(c, before, id);
    SoundSnapshotRestores(c, before, ids, id);
    var chain := LoadChain(c, before, id).value;
    SoundChain(c, before, ids, id, chain);
    assert chain[|chain| - 1] == m;
    assert VerifyBlob(c, before, Refs(m)[i]).Ok?;
    assert !Kept(before, step, Refs(m)[i].key);
    assert !KeptRefs(before, step, chain[|chain| - 1]);
    RestorableIff(c, before, ids, step, id);
  }

  lemma {:induction false} OneDeleteIsAStep(before: Store, plan: Plan, id: Uuid, key: string)
    requires Canonical(before) && id in plan.expired && id in Snapshots(before)
    requires UnderSnapshot(id, key) && key != ManifestKey(id)
    ensures Trimmed(before, before - {key}, DoomedKeys(plan.expired, plan.reachable))
    ensures id in Snapshots(before - {key})
  {
    assert UnderAny(plan.expired, key);
    VisibleIffStored(before, id);
    VisibleIffStored(before - {key}, id);
  }

  // A sweep that stops after deleting one blob of an expired snapshot leaves it visible but not restorable.
  lemma {:induction false} CutShortSweepStrands(c: Codec, before: Store, ids: set<Uuid>, plan: Plan, id: Uuid, i: nat)
    requires Sound(c, before, ids) && SafePlan(c, before, plan) && id in ids && id in plan.expired
    requires LoadManifest(c, before, id).Ok? && i < |Refs(ManifestAt(c, before, id))|
    requires UnderSnapshot(id, Refs(ManifestAt(c, before, id))[i].key)
    requires Refs(ManifestAt(c, before, id))[i].key != ManifestKey(id)
    ensures var step := before - {Refs(ManifestAt(c, before, id))[i].key};
            && Trimmed(before, step, DoomedKeys(plan.expired, plan.reachable))
            && id in Snapshots(step) && Restored(c, step, id) == None
  {
    var key := Refs(ManifestAt(c, before, id))[i].key;
    OneDeleteIsAStep(before, plan, id, key);
    MissingBlobStrands(c, before, ids, before - {key}, id, i);
  }

  // ----- a finished sweep -----

  lemma {:induction false} SweptIsTrimmed(store: Store, expired: set<Uuid>, reachable: set<string>)
    ensures Trimmed(store, Swept(store, expired, reachable), DoomedKeys(expired, reachable))
  {
  }

  lemma {:induction false} VisibleAfterSweep(c: Codec, before: Store, plan: Plan)
    requires Legible(c, before) && SafePlan(c, before, plan)
    ensures Snapshots(Swept(before, plan.expired, plan.reachable)) == plan.retained
  {
    var after := Swept(before, plan.expired, plan.reachable);
    forall id ensures id in Snapshots(after) <==> id in plan.retained {
      VisibleIffStored(before, id);
      VisibleIffStored(after, id);
      ManifestKeyIsUnder(id);
      if id in plan.retained {
        OwnKeyIsSpared(plan.expired, id, ManifestKey(id));
      }
      if id in plan.expired {
        assert UnderAny(plan.expired, ManifestKey(id));
      }
    }
  }

  // What a finished sweep leaves: everything but the blobs below an expired snapshot and the objects that no
  // retained manifest references.
  lemma {:induction false} SweepLeavesIff(c: Codec, before: Store, plan: Plan, key: string)
    requires SafePlan(c, before, plan)
    ensures key in Swept(before, plan.expired, plan.reachable)
       <==> && key in before
            && (forall id: Uuid :: id in plan.expired ==> !("snapshots/" + id <= key))
            && ("objects/sha256" <= key ==> ReachedFrom(c, before, plan.retained, key))
    ensures key in Swept(before, plan.expired, plan.reachable) ==>
              Swept(before, plan.expired, plan.reachable)[key] == before[key]
  {
    assert forall id: Uuid :: UnderSnapshot(id, key) <==> "snapshots/" + id <= key;
  }

  // The objects left by a finished sweep are exactly those a retained manifest references.
  lemma {:induction false} SweepLeavesReferencedObjects(c: Codec, before: Store, plan: Plan, key: string)
    requires SafePlan(c, before, plan) && Under(OBJECTS_PREFIX, key)
    ensures key in Swept(before, plan.expired, plan.reachable)
       <==> key in before && ReachedFrom(c, before, plan.retained, key)
  {
    if UnderAny(plan.expired, key) {
      var x :| x in plan.expired && UnderSnapshot(x, key);
      ObjectsAreOutsideSnapshots(x, key);
    }
  }

  // A finished sweep shows exactly the retained snapshots, and those that were sound are unchanged.
  lemma {:induction false} SweepLeavesRetained(c: Codec, before: Store, ids: set<Uuid>, plan: Plan, after: Store)
    requires Sound(c, before, ids) && SafePlan(c, before, plan)
    requires after == Swept(before, plan.expired, plan.reachable)
    ensures Snapshots(after) == plan.retained
    ensures Sound(c, after, ids * plan.retained) && SameSnapshots(c, before, after, ids * plan.retained)
    ensures ObjectsMatchNames(c, before) ==> ObjectsMatchNames(c, after)
  {
    VisibleAfterSweep(c, before, plan);
    SweptIsTrimmed(before, plan.expired, plan.reachable);
    TrimmedKeepsSound(c, before, ids, plan, after);
  }

  // ----- the plan of delete_snapshot -----

  // Every listed manifest is the one stored under its id.
  ghost predicate AreStored(c: Codec, store: Store, ms: seq<Manifest>) {
    forall i :: 0 <= i < |ms| ==> LoadManifest(c, store, ms[i].snapshotId) == Ok(ms[i])
  }

  // The manifests stored under these ids, each once.
  ghost predicate StoredManifests(c: Codec, store: Store, ms: seq<Manifest>, ids: set<Uuid>) {
    && DistinctIds(ms)
    && IdsOf(ms) == ids
    && AreStored(c, store, ms)
  }

  ghost predicate AllManifests(c: Codec, store: Store, ms: seq<Manifest>) {
    StoredManifests(c, store, ms, Snapshots(store))
  }

  lemma {:induction false} StoredCons(c: Codec, store: Store, m: Manifest, ms: seq<Manifest>, ids: set<Uuid>)
    requires StoredManifests(c, store, ms, ids) && m.snapshotId !in ids
    requires LoadManifest(c, store, m.snapshotId) == Ok(m)
    ensures StoredManifests(c, store, [m] + ms, {m.snapshotId} + ids)
  {
    RefKeysConcat([m], ms);
    SingletonKeys(m);
    assert forall i :: 0 <= i < |ms| ==> ms[i].snapshotId in IdsOf(ms);
  }

  // The ids of the manifest keys in a listing.
  function ListedIds(listing: seq<string>): set<Uuid> {
    if listing == [] then {}
    else (if SnapshotIdOf(listing[0]).Some? then {SnapshotIdOf(listing[0]).value} else {}) + ListedIds(listing[1..])
  }

  lemma {:induction false} ListedIdsMembers(listing: seq<string>, id: Uuid)
    ensures id in ListedIds(listing) <==> exists key :: key in listing && SnapshotIdOf(key) == Some(id)
  {
    if listing == [] {
    } else {
      ListedIdsMembers(listing[1..], id);
      assert forall key :: key in listing <==> key == listing[0] || key in listing[1..];
    }
  }

  lemma {:induction false} ListedManifests(c: Codec, store: Store, listing: seq<string>)
    requires Legible(c, store)
    requires forall i :: 0 <= i < |listing| ==> listing[i] in store
    requires forall i, j :: 0 <= i < j < |listing| ==> listing[i] != listing[j]
    ensures LoadAll(c, store, listing).Ok?
    ensures StoredManifests(c, store, LoadAll(c, store, listing).value, ListedIds(listing))
  {
    if listing == [] {
      assert IdsOf([]) == {};
    } else {
      var key, rest := listing[0], listing[1..];
      ListedManifests(c, store, rest);
      if SnapshotIdOf(key).Some? {
        var id := SnapshotIdOf(key).value;
        assert LoadManifest(c, store, id).Ok? && LoadManifest(c, store, id).value.snapshotId == id by {
          assert LegibleSnapshot(c, store, id);
        }
        assert id !in ListedIds(rest) by {
          ListedIdsMembers(rest, id);
          assert forall k :: k in rest ==> k in store && k != key;
        }
        StoredCons(c, store, LoadManifest(c, store, id).value, LoadAll(c, store, rest).value, ListedIds(rest));
      }
    }
  }

  // In a legible store every listing loads, whatever its order.
  lemma {:induction false} ListingLoadsAll(c: Codec, store: Store, listing: seq<string>)
    requires Legible(c, store) && Lists(listing, store, SNAPSHOTS_PREFIX)
    ensures LoadAll(c, store, listing).Ok? && AllManifests(c, store, LoadAll(c, store, listing).value)
  {
    assert forall i :: 0 <= i < |listing| ==> listing[i] in listing;
    ListedManifests(c, store, listing);
    forall id ensures id in ListedIds(listing) <==> id in Snapshots(store) {
      ListedIdsMembers(listing, id);
      if id in Snapshots(store) {
        VisibleIffStored(store, id);
        ManifestKeyIsUnder(id);
        ManifestKeyRoundTrip(id);
        assert ManifestKey(id) in listing;
      }
    }
  }

  lemma {:induction false} RefKeysOfMembers(ms: seq<Manifest>, key: string)
    ensures key in RefKeysOf(ms) <==> exists i :: 0 <= i < |ms| && key in RefKeys(ms[i])
  {
    if ms == [] {
    } else {
      RefKeysOfMembers(ms[1..], key);
      if i :| 0 <= i < |ms[1..]| && key in RefKeys(ms[1..][i]) {
        assert key in RefKeys(ms[i + 1]);
      }
      if i :| 0 <= i < |ms| && key in RefKeys(ms[i]) {
        assert i > 0 ==> key in RefKeys(ms[1..][i - 1]);
      }
    }
  }

  // The manifests of a set of ids reach what the set reaches.
  lemma {:induction false} ReachedByManifests(c: Codec, store: Store, ms: seq<Manifest>, key: string)
    requires AreStored(c, store, ms)
    ensures key in RefKeysOf(ms) <==> ReachedFrom(c, store, IdsOf(ms), key)
  {
    RefKeysOfMembers(ms, key);
    if key in RefKeysOf(ms) {
      var i :| 0 <= i < |ms| && key in RefKeys(ms[i]);
      assert ms[i].snapshotId in IdsOf(ms);
    }
    if ReachedFrom(c, store, IdsOf(ms), key) {
      var id :| id in IdsOf(ms) && LoadManifest(c, store, id).Ok? && key in RefKeys(ManifestAt(c, store, id));
      var i :| 0 <= i < |ms| && ms[i].snapshotId == id;
      assert key in RefKeys(ms[i]);
    }
  }

  lemma {:induction false} OthersMembers(ms: seq<Manifest>, id: Uuid, m: Manifest)
    ensures m in Others(ms, id) <==> m in ms && m.snapshotId != id
  {
    if ms == [] {
    } else {
      OthersMembers(ms[1..], id, m);
      assert m in ms <==> m == ms[0] || m in ms[1..];
    }
  }

  lemma {:induction false} IdsOfMembers(ms: seq<Manifest>, id: Uuid)
    ensures id in IdsOf(ms) <==> exists m :: m in ms && m.snapshotId == id
  {
    if id in IdsOf(ms) {
      var i :| 0 <= i < |ms| && ms[i].snapshotId == id;
      assert ms[i] in ms;
    }
    if m :| m in ms && m.snapshotId == id {
      var i :| 0 <= i < |ms| && ms[i] == m;
      assert ms[i].snapshotId in IdsOf(ms);
    }
  }

  lemma {:induction false} IdsOfOthers(ms: seq<Manifest>, id: Uuid)
    ensures IdsOf(Others(ms, id)) == IdsOf(ms) - {id}
  {
    forall x ensures x in IdsOf(Others(ms, id)) <==> x in IdsOf(ms) - {id} {
      IdsOfMembers(Others(ms, id), x);
      IdsOfMembers(ms, x);
      if m :| m in Others(ms, id) && m.snapshotId == x {
        OthersMembers(ms, id, m);
      }
      if m :| m in ms && m.snapshotId == x {
        OthersMembers(ms, id, m);
      }
    }
  }

  // Some visible snapshot is an incremental on this one.
  ghost predicate IsParent(c: Codec, store: Store, id: Uuid) {
    exists x :: x in Snapshots(store) && LoadManifest(c, store, x).Ok? && ManifestAt(c, store, x).parent == Some(id)
  }

  lemma {:induction false} FoundInManifests(c: Codec, store: Store, ms: seq<Manifest>, id: Uuid)
    requires AllManifests(c, store, ms)
    ensures HasId(ms, id) <==> id in Snapshots(store)
    ensures HasChild(ms, id) <==> IsParent(c, store, id)
  {
    if HasId(ms, id) {
      var i :| 0 <= i < |ms| && ms[i].snapshotId == id;
      assert ms[i].snapshotId in IdsOf(ms);
    }
    if HasChild(ms, id) {
      var i :| 0 <= i < |ms| && ms[i].parent == Some(id);
      assert ms[i].snapshotId in IdsOf(ms);
    }
    if IsParent(c, store, id) {
      var x :| x in Snapshots(store) && LoadManifest(c, store, x).Ok? && ManifestAt(c, store, x).parent == Some(id);
      var i :| 0 <= i < |ms| && ms[i].snapshotId == x;
      assert ms[i].parent == Some(id);
    }
  }

  // A delete is refused exactly when the snapshot is missing or is a parent; otherwise it retains the others.
  lemma {:induction false} DeleteIsRefusedIff(c: Codec, store: Store, listing: seq<string>, id: Uuid)
    requires Legible(c, store) && Lists(listing, store, SNAPSHOTS_PREFIX)
    ensures PlanDelete(c, store, listing, id).Ok? <==> id in Snapshots(store) && !IsParent(c, store, id)
    ensures id !in Snapshots(store) ==>
              PlanDelete(c, store, listing, id) == Err(MissingBlob("snapshots/" + id + "/manifest.json"))
    ensures id in Snapshots(store) && IsParent(c, store, id) ==>
              PlanDelete(c, store, listing, id) == Err(InvalidManifestChain)
    ensures PlanDelete(c, store, listing, id).Ok? ==>
              var plan := PlanDelete(c, store, listing, id).value;
              SafePlan(c, store, plan) && plan.retained == Snapshots(store) - {id} && plan.expired == {id}
  {
    ListingLoadsAll(c, store, listing);
    var ms := LoadAll(c, store, listing).value;
    FoundInManifests(c, store, ms, id);
    if PlanDelete(c, store, listing, id).Ok? {
      IdsOfOthers(ms, id);
      OthersPlanIsSafe(c, store, ms, id);
    }
  }

  lemma {:induction false} OthersAreStored(c: Codec, store: Store, ms: seq<Manifest>, id: Uuid)
    requires AllManifests(c, store, ms)
    ensures var others := Others(ms, id);
            && IdsOf(others) == Snapshots(store) - {id}
            && AreStored(c, store, others)
  {
    var others := Others(ms, id);
    IdsOfOthers(ms, id);
    forall i | 0 <= i < |others| ensures LoadManifest(c, store, others[i].snapshotId) == Ok(others[i]) {
      assert others[i] in others;
      OthersMembers(ms, id, others[i]);
      var j :| 0 <= j < |ms| && ms[j] == others[i];
    }
  }

  lemma {:induction false} OthersPlanIsSafe(c: Codec, store: Store, ms: seq<Manifest>, id: Uuid)
    requires Legible(c, store) && AllManifests(c, store, ms) && id in Snapshots(store) && !IsParent(c, store, id)
    ensures SafePlan(c, store, Plan(IdsOf(Others(ms, id)), {id}, RefKeysOf(Others(ms, id))))
  {
    var others := Others(ms, id);
    OthersAreStored(c, store, ms, id);
    forall x | x in IdsOf(others)
      ensures LoadManifest(c, store, x).Ok?
      ensures ManifestAt(c, store, x).parent != Some(id)
    {
      assert LegibleSnapshot(c, store, x);
    }
    ReachingPlanIsSafe(c, store, others);
    assert Snapshots(store) - (Snapshots(store) - {id}) == {id};
  }

  lemma {:induction false} DistinctIdsCount(ms: seq<Manifest>)
    requires DistinctIds(ms)
    ensures |IdsOf(ms)| == |ms|
  {
    if ms == [] {
      assert IdsOf(ms) == {};
    } else {
      DistinctIdsCount(ms[1..]);
      RefKeysConcat([ms[0]], ms[1..]);
      SingletonKeys(ms[0]);
      assert ms == [ms[0]] + ms[1..];
      assert ms[0].snapshotId !in IdsOf(ms[1..]);
    }
  }

  // ----- the plan of prune -----

  // The ids of the chains of the selected manifests: closed under parents, and within every closed set
  // that holds the selected ids.
  ghost predicate LeastClosed(c: Codec, store: Store, selected: set<Uuid>, ids: set<Uuid>) {
    && selected <= ids && ParentClosed(c, store, ids)
    && forall other :: selected <= other && ParentClosed(c, store, other) ==> ids <= other
  }

  lemma {:induction false} ChainIsLeastClosed(c: Codec, store: Store, id: Uuid, chain: seq<Manifest>)
    requires Legible(c, store) && LoadChain(c, store, id) == Ok(chain)
    ensures LeastClosed(c, store, {id}, IdsOf(chain))
    ensures AreStored(c, store, chain)
  {
    LegibleChain(c, store, id, chain);
    assert chain[|chain| - 1].snapshotId in IdsOf(chain);
    forall x | x in IdsOf(chain)
      ensures LoadManifest(c, store, x).Ok?
      ensures ManifestAt(c, store, x).parent.Some? ==> ManifestAt(c, store, x).parent.value in IdsOf(chain)
    {
      var i :| 0 <= i < |chain| && chain[i].snapshotId == x;
      if i > 0 {
        assert chain[i].parent == Some(chain[i - 1].snapshotId);
        assert chain[i - 1].snapshotId in IdsOf(chain);
      }
    }
    forall other | {id} <= other && ParentClosed(c, store, other) ensures IdsOf(chain) <= other {
      forall i | 0 <= i < |chain| ensures chain[i].snapshotId in other {
        ChainStaysInside(c, store, other, id, chain, i);
      }
    }
  }

  lemma {:induction false} UnionIsLeastClosed(c: Codec, store: Store, s1: set<Uuid>, a: set<Uuid>, s2: set<Uuid>,
      b: set<Uuid>)
    requires LeastClosed(c, store, s1, a) && LeastClosed(c, store, s2, b)
    ensures LeastClosed(c, store, s1 + s2, a + b)
  {
  }

  lemma {:induction false} IdsOfCons(m: Manifest, ms: seq<Manifest>)
    ensures IdsOf([m] + ms) == {m.snapshotId} + IdsOf(ms)
  {
    RefKeysConcat([m], ms);
    SingletonKeys(m);
  }

  // The chains load exactly when each of them does.
  lemma {:induction false} ChainsLoadIff(c: Codec, store: Store, selected: seq<Manifest>)
    ensures ChainsOf(c, store, selected).Ok? <==> forall id :: id in IdsOf(selected) ==> LoadChain(c, store, id).Ok?
  {
    if selected == [] {
      assert IdsOf(selected) == {};
    } else {
      ChainsLoadIff(c, store, selected[1..]);
      IdsOfCons(selected[0], selected[1..]);
      assert selected == [selected[0]] + selected[1..];
    }
  }

  lemma {:induction false} ChainsAreStored(c: Codec, store: Store, selected: seq<Manifest>)
    requires Legible(c, store) && ChainsOf(c, store, selected).Ok?
    ensures AreStored(c, store, ChainsOf(c, store, selected).value)
  {
    if selected == [] {
    } else {
      var id := selected[0].snapshotId;
      ChainIsLeastClosed(c, store, id, LoadChain(c, store, id).value);
      ChainsAreStored(c, store, selected[1..]);
    }
  }

  lemma {:induction false} ChainsAreLeastClosed(c: Codec, store: Store, selected: seq<Manifest>)
    requires Legible(c, store) && ChainsOf(c, store, selected).Ok?
    ensures LeastClosed(c, store, IdsOf(selected), IdsOf(ChainsOf(c, store, selected).value))
  {
    if selected == [] {
      assert IdsOf(selected) == {} && IdsOf(ChainsOf(c, store, selected).value) == {};
    } else {
      var id := selected[0].snapshotId;
      var chain := LoadChain(c, store, id).value;
      var rest := ChainsOf(c, store, selected[1..]).value;
      ChainIsLeastClosed(c, store, id, chain);
      ChainsAreLeastClosed(c, store, selected[1..]);
      assert IdsOf(selected) == {id} + IdsOf(selected[1..]) by {
        IdsOfCons(selected[0], selected[1..]);
        assert selected == [selected[0]] + selected[1..];
      }
      assert IdsOf(chain + rest) == IdsOf(chain) + IdsOf(rest) by {
        RefKeysConcat(chain, rest);
      }
      UnionIsLeastClosed(c, store, {id}, IdsOf(chain), IdsOf(selected[1..]), IdsOf(rest));
    }
  }

  // This visible snapshot is newer than that one: created later, or at the same time under a textually greater id.
  ghost predicate IsNewer(c: Codec, store: Store, a: Uuid, b: Uuid) {
    && LoadManifest(c, store, a).Ok? && LoadManifest(c, store, b).Ok?
    && var first, second := ManifestAt(c, store, a), ManifestAt(c, store, b);
       second.createdAt < first.createdAt || (second.createdAt == first.createdAt && Less(b, a))
  }

  // The newest manifests, at most `keepLast` of them.
  ghost predicate NewestSelection(c: Codec, store: Store, keepLast: nat, selected: set<Uuid>) {
    && selected <= Snapshots(store)
    && |selected| == (if |Snapshots(store)| <= keepLast then |Snapshots(store)| else keepLast)
    && forall a, b :: a in selected && b in Snapshots(store) - selected ==> IsNewer(c, store, a, b)
  }

  // Manifests in newest-first order that are each stored under their own id have distinct ids.
  lemma {:induction false} OrderedIdsAreDistinct(c: Codec, store: Store, sorted: seq<Manifest>)
    requires NewestOrder(sorted)
    requires AreStored(c, store, sorted)
    ensures DistinctIds(sorted)
  {
    forall i, j | 0 <= i < j < |sorted| ensures sorted[i].snapshotId != sorted[j].snapshotId {
      LessIsTotal(sorted[i].snapshotId, sorted[i].snapshotId);
      assert sorted[j].createdAt < sorted[i].createdAt || Less(sorted[j].snapshotId, sorted[i].snapshotId);
    }
  }

  lemma {:induction false} NewestFirstListsAll(c: Codec, store: Store, ms: seq<Manifest>)
    requires AllManifests(c, store, ms)
    ensures AllManifests(c, store, NewestFirst(ms)) && NewestOrder(NewestFirst(ms))
  {
    var sorted := NewestFirst(ms);
    NewestFirstSorts(ms);
    forall i | 0 <= i < |sorted| ensures LoadManifest(c, store, sorted[i].snapshotId) == Ok(sorted[i]) {
      assert sorted[i] in ms;
    }
    OrderedIdsAreDistinct(c, store, sorted);
    forall id ensures id in IdsOf(sorted) <==> id in IdsOf(ms) {
      IdsOfMembers(sorted, id);
      IdsOfMembers(ms, id);
    }
  }

  lemma {:induction false} TakenAreNewer(c: Codec, store: Store, sorted: seq<Manifest>, keepLast: nat, a: Uuid, b: Uuid)
    requires AllManifests(c, store, sorted) && NewestOrder(sorted)
    requires a in IdsOf(Take(sorted, keepLast)) && b in Snapshots(store) - IdsOf(Take(sorted, keepLast))
    ensures IsNewer(c, store, a, b)
  {
    var taken := Take(sorted, keepLast);
    var i :| 0 <= i < |taken| && taken[i].snapshotId == a;
    var j :| 0 <= j < |sorted| && sorted[j].snapshotId == b;
    assert forall k :: 0 <= k < |taken| ==> taken[k] == sorted[k] && taken[k].snapshotId in IdsOf(taken);
    assert j >= |taken|;
    assert LoadManifest(c, store, a) == Ok(sorted[i]) && LoadManifest(c, store, b) == Ok(sorted[j]);
  }

  lemma {:induction false} TakenAreNewest(c: Codec, store: Store, sorted: seq<Manifest>, keepLast: nat)
    requires AllManifests(c, store, sorted) && NewestOrder(sorted)
    ensures NewestSelection(c, store, keepLast, IdsOf(Take(sorted, keepLast)))
  {
    var taken := Take(sorted, keepLast);
    DistinctIdsCount(taken);
    DistinctIdsCount(sorted);
    forall i | 0 <= i < |taken| ensures taken[i].snapshotId in IdsOf(sorted) {
      assert taken[i] == sorted[i];
    }
    forall a, b | a in IdsOf(taken) && b in Snapshots(store) - IdsOf(taken)
      ensures IsNewer(c, store, a, b)
    {
      TakenAreNewer(c, store, sorted, keepLast, a, b);
    }
  }

  // A plan that retains stored manifests, parents with children, and reaches what they reference is safe.
  lemma {:induction false} ReachingPlanIsSafe(c: Codec, store: Store, kept: seq<Manifest>)
    requires Legible(c, store) && ParentsRetained(c, store, IdsOf(kept))
    requires AreStored(c, store, kept)
    ensures SafePlan(c, store, Plan(IdsOf(kept), Snapshots(store) - IdsOf(kept), RefKeysOf(kept)))
  {
    forall i | 0 <= i < |kept| ensures kept[i].snapshotId in Snapshots(store) {
      assert LoadManifest(c, store, kept[i].snapshotId).Ok?;
      VisibleIffStored(store, kept[i].snapshotId);
    }
    forall k ensures k in RefKeysOf(kept) <==> ReachedFrom(c, store, IdsOf(kept), k) {
      ReachedByManifests(c, store, kept, k);
    }
  }

  lemma {:induction false} TakenAreVisible(c: Codec, store: Store, ms: seq<Manifest>, keepLast: nat)
    requires AllManifests(c, store, ms)
    ensures AllManifests(c, store, NewestFirst(ms))
    ensures NewestSelection(c, store, keepLast, IdsOf(Take(NewestFirst(ms), keepLast)))
  {
    NewestFirstListsAll(c, store, ms);
    TakenAreNewest(c, store, NewestFirst(ms), keepLast);
  }

  lemma {:induction false} ChainsPlanIsSafe(c: Codec, store: Store, selected: seq<Manifest>)
    requires Legible(c, store) && ChainsOf(c, store, selected).Ok?
    ensures var kept := ChainsOf(c, store, selected).value;
            && LeastClosed(c, store, IdsOf(selected), IdsOf(kept))
            && SafePlan(c, store, Plan(IdsOf(kept), Snapshots(store) - IdsOf(kept), RefKeysOf(kept)))
  {
    ChainsAreLeastClosed(c, store, selected);
    ChainsAreStored(c, store, selected);
    ReachingPlanIsSafe(c, store, ChainsOf(c, store, selected).value);
  }

  // What a plan to prune is, whatever the listing order: it exists exactly when the chain of each of the newest
  // snapshots loads, and then retains exactly the least parent-closed set that holds them.
  ghost predicate RetainsNewestChains(c: Codec, store: Store, keepLast: nat, plan: Result<Plan>, selected: set<Uuid>) {
    && NewestSelection(c, store, keepLast, selected)
    && (plan.Ok? <==> forall id :: id in selected ==> LoadChain(c, store, id).Ok?)
    && (plan.Ok? ==> SafePlan(c, store, plan.value) && LeastClosed(c, store, selected, plan.value.retained))
  }

  lemma {:induction false} PruneRetainsNewestChains(c: Codec, store: Store, listing: seq<string>, keepLast: nat)
    returns (selected: set<Uuid>)
    requires Legible(c, store) && Lists(listing, store, SNAPSHOTS_PREFIX)
    ensures RetainsNewestChains(c, store, keepLast, PlanPrune(c, store, listing, keepLast), selected)
    ensures forall a, b :: a in selected && b in Snapshots(store) - selected ==> IsNewer(c, store, a, b)
  {
    ListingLoadsAll(c, store, listing);
    var ms := LoadAll(c, store, listing).value;
    var taken := Take(NewestFirst(ms), keepLast);
    selected := IdsOf(taken);
    TakenAreVisible(c, store, ms, keepLast);
    ChainsLoadIff(c, store, taken);
    if ChainsOf(c, store, taken).Ok? {
      ChainsPlanIsSafe(c, store, taken);
    }
  }

  // No snapshot of these was created after this one.
  ghost predicate IsLatest(c: Codec, store: Store, ids: set<Uuid>, latest: Uuid) {
    forall id :: id in ids ==> CreatedNoLater(c, store, id, latest)
  }

  ghost predicate CreatedNoLater(c: Codec, store: Store, a: Uuid, b: Uuid) {
    && LoadManifest(c, store, a).Ok? && LoadManifest(c, store, b).Ok?
    && ManifestAt(c, store, a).createdAt <= ManifestAt(c, store, b).createdAt
  }

  lemma {:induction false} LatestExists(c: Codec, store: Store, ids: set<Uuid>) returns (latest: Uuid)
    requires ids != {} && forall id :: id in ids ==> CreatedNoLater(c, store, id, id)
    ensures latest in ids && IsLatest(c, store, ids, latest)
  {
    var id :| id in ids;
    if ids == {id} {
      latest := id;
    } else {
      var rest := ids - {id};
      latest := LatestExists(c, store, rest);
      assert ids == rest + {id};
      assert CreatedNoLater(c, store, id, id) && CreatedNoLater(c, store, latest, latest);
      if !CreatedNoLater(c, store, id, latest) {
        latest := id;
      }
    }
  }

  lemma {:induction false} LatestOfNewest(c: Codec, store: Store, keepLast: nat, selected: set<Uuid>, latest: Uuid)
    requires NewestSelection(c, store, keepLast, selected) && latest in selected
    requires IsLatest(c, store, selected, latest)
    ensures IsLatest(c, store, Snapshots(store), latest)
  {
    forall id | id in Snapshots(store) ensures CreatedNoLater(c, store, id, latest) {
      if id !in selected {
        assert IsNewer(c, store, latest, id);
      }
    }
  }

  // A prune that keeps at least one snapshot retains one that was created last of all.
  lemma {:induction false} PruneRetainsTheLatest(c: Codec, store: Store, listing: seq<string>, keepLast: nat)
    returns (latest: Uuid)
    requires Legible(c, store) && Lists(listing, store, SNAPSHOTS_PREFIX) && Snapshots(store) != {} && keepLast > 0
    requires PlanPrune(c, store, listing, keepLast).Ok?
    ensures latest in PlanPrune(c, store, listing, keepLast).value.retained && latest in Snapshots(store)
    ensures IsLatest(c, store, Snapshots(store), latest)
  {
    var selected := PruneRetainsNewestChains(c, store, listing, keepLast);
    assert |Snapshots(store)| > 0;
    assert selected != {};
    forall id | id in selected ensures CreatedNoLater(c, store, id, id) {
      assert LegibleSnapshot(c, store, id);
    }
    latest := LatestExists(c, store, selected);
    LatestOfNewest(c, store, keepLast, selected, latest);
  }

  // Where every visible snapshot is sound, a prune is never refused.
  lemma {:induction false} SoundStoreCanBePruned(c: Codec, store: Store, listing: seq<string>, keepLast: nat)
    requires Sound(c, store, Snapshots(store)) && Lists(listing, store, SNAPSHOTS_PREFIX)
    ensures PlanPrune(c, store, listing, keepLast).Ok?
  {
    var selected := PruneRetainsNewestChains(c, store, listing, keepLast);
    forall id | id in selected ensures LoadChain(c, store, id).Ok? {
      assert SoundSnapshot(c, store, id);
    }
  }

  // What a finished prune reports is so: how many snapshots are visible afterwards, how many no longer are, and how
  // many blobs are gone.
  lemma {:induction false} PruneReportIsTrue(c: Codec, before: Store, listing: seq<string>, keepLast: nat,
      r: PruneResult, after: Store)
    requires Legible(c, before) && Lists(listing, before, SNAPSHOTS_PREFIX)
    requires Pruned(c, before, listing, keepLast, r, after)
    ensures Snapshots(after) <= Snapshots(before) && r.retainedSnapshots == |Snapshots(after)|
    ensures r.deletedSnapshots == |Snapshots(before) - Snapshots(after)|
    ensures r.deletedBlobs == |before| - |after| && after.Keys <= before.Keys
  {
    var selected := PruneRetainsNewestChains(c, before, listing, keepLast);
    var plan := PlanPrune(c, before, listing, keepLast).value;
    VisibleAfterSweep(c, before, plan);
    assert Snapshots(before) - plan.retained == plan.expired;
  }

  lemma {:induction false} DeleteReportIsTrue(c: Codec, before: Store, listing: seq<string>, id: Uuid,
      r: DeleteSnapshotResult, after: Store)
    requires Legible(c, before) && Lists(listing, before, SNAPSHOTS_PREFIX) && Deleted(c, before, listing, id, r, after)
    ensures Snapshots(after) == Snapshots(before) - {id} && r.retainedSnapshots == |Snapshots(after)|
    ensures r.deletedBlobs == |before| - |after| && after.Keys <= before.Keys
  {
    DeleteIsRefusedIff(c, before, listing, id);
    VisibleAfterSweep(c, before, PlanDelete(c, before, listing, id).value);
    ReportedCountsAddUp(c, before, listing, 0);
    assert Snapshots(before) == (Snapshots(before) - {id}) + {id};
  }

  // The reported counts add up: what prune retains and deletes, and what delete leaves behind plus the one
  // it removed, are the snapshots that were visible.
  lemma {:induction false} ReportedCountsAddUp(c: Codec, store: Store, listing: seq<string>, keepLast: nat)
    requires Legible(c, store) && Lists(listing, store, SNAPSHOTS_PREFIX)
    ensures LoadAll(c, store, listing).Ok? && |LoadAll(c, store, listing).value| == |Snapshots(store)|
    ensures PlanPrune(c, store, listing, keepLast).Ok? ==>
              var plan := PlanPrune(c, store, listing, keepLast).value;
              |plan.retained| + |plan.expired| == |Snapshots(store)|
  {
    ListingLoadsAll(c, store, listing);
    DistinctIdsCount(LoadAll(c, store, listing).value);
    var selected := PruneRetainsNewestChains(c, store, listing, keepLast);
  }
}
