// What a repository written by this code always is: every visible snapshot is complete and can be restored.
module Soundness {
  import opened Types
  import opened Keys
  import opened Manifests
  import opened Verification
  import opened Objects
  import opened Restoring

  // The snapshots visible in a store.
  ghost function Snapshots(store: Store): set<Uuid> {
    set k | k in store && SnapshotIdOf(k).Some? :: SnapshotIdOf(k).value
  }

  // Manifest keys are spelled the way the builder spells them.
  ghost predicate Canonical(store: Store) {
    forall k :: k in store && SnapshotIdOf(k).Some? ==> k == ManifestKey(SnapshotIdOf(k).value)
  }

  lemma {:induction false} VisibleIffStored(store: Store, id: Uuid)
    requires Canonical(store)
    ensures id in Snapshots(store) <==> ManifestKey(id) in store
  {
    ManifestKeyRoundTrip(id);
  }

  // A manifest references payloads below its own snapshot and objects by their hash.
  ghost predicate Tidy(m: Manifest) {
    && (forall i :: 0 <= i < |m.database.tables| ==> UnderSnapshot(m.snapshotId, m.database.tables[i].contentKey))
    && (forall i :: 0 <= i < |m.database.changes| ==> UnderSnapshot(m.snapshotId, m.database.changes[i].contentKey))
    && (forall i :: 0 <= i < |m.objects| ==> m.objects[i].contentKey == ObjectKey(m.objects[i].sha))
    && (m.kind == Incremental <==> m.parent.Some?)
    && (m.kind == Incremental ==> m.database.tables == [])
    && (m.kind != Incremental ==> m.database.changes == [])
  }

  lemma {:induction false} TidyRef(m: Manifest, i: nat)
    requires Tidy(m) && i < |Refs(m)|
    ensures Refs(m)[i].key == ObjectKey(Refs(m)[i].sha) || UnderSnapshot(m.snapshotId, Refs(m)[i].key)
  {
    var o, t := |m.objects|, |m.database.tables|;
    if i < o {
      assert Refs(m)[i] == BlobRef(m.objects[i].contentKey, m.objects[i].sha);
    } else if i < o + t {
      assert Refs(m)[i].key == m.database.tables[i - o].contentKey;
    } else {
      assert Refs(m)[i].key == m.database.changes[i - o - t].contentKey;
    }
  }

  // The payloads parse and hold as many entries as the manifest says.
  ghost predicate Readable(c: Codec, store: Store, m: Manifest) {
    var tables, changes := TablesOf(c, store, m), ChangesOf(c, store, m);
    && tables.Ok? && changes.Ok?
    && RowTotal(tables.value) + |changes.value| == m.database.rowCount
    && |tables.value| == m.database.tableCount
  }

  ghost predicate SoundManifest(c: Codec, store: Store, m: Manifest) {
    Tidy(m) && Complete(c, store, m) && Readable(c, store, m)
  }

  // The manifest visible under an id loads and names that id.
  ghost predicate LegibleSnapshot(c: Codec, store: Store, id: Uuid) {
    var m := LoadManifest(c, store, id);
    m.Ok? && m.value.snapshotId == id && Tidy(m.value)
  }

  // Every visible manifest is legible; its payloads may be gone.
  ghost predicate Legible(c: Codec, store: Store) {
    && Canonical(store)
    && forall id :: id in Snapshots(store) ==> LegibleSnapshot(c, store, id)
  }

  function ManifestAt(c: Codec, store: Store, id: Uuid): Manifest
    requires LoadManifest(c, store, id).Ok?
  {
    LoadManifest(c, store, id).value
  }

  // A set of snapshots that holds the parent of each of its members.
  ghost predicate ParentClosed(c: Codec, store: Store, ids: set<Uuid>) {
    forall id :: id in ids ==>
      LoadManifest(c, store, id).Ok? &&
      (ManifestAt(c, store, id).parent.Some? ==> ManifestAt(c, store, id).parent.value in ids)
  }

  ghost predicate SoundSnapshot(c: Codec, store: Store, id: Uuid) {
    && LegibleSnapshot(c, store, id)
    && SoundManifest(c, store, ManifestAt(c, store, id))
    && LoadChain(c, store, id).Ok?
  }

  // The store is legible, and these snapshots of it can be relied on, each together with its parents. In a
  // repository in which no sweep was cut short they are all the visible ones.
  ghost predicate Sound(c: Codec, store: Store, ids: set<Uuid>) {
    && Legible(c, store)
    && ids <= Snapshots(store)
    && ParentClosed(c, store, ids)
    && forall id :: id in ids ==> SoundSnapshot(c, store, id)
  }

  lemma {:induction false} ChainStaysInside(c: Codec, store: Store, ids: set<Uuid>, id: Uuid, chain: seq<Manifest>,
      i: nat)
    requires ParentClosed(c, store, ids) && id in ids && IsChainOf(c, store, id, chain)
    requires chain[|chain| - 1].snapshotId == id && i < |chain|
    ensures chain[i].snapshotId in ids && LoadManifest(c, store, chain[i].snapshotId) == Ok(chain[i])
    decreases |chain| - i
  {
    if i == |chain| - 1 {
    } else {
      ChainStaysInside(c, store, ids, id, chain, i + 1);
      assert chain[i + 1].parent == Some(chain[i + 1 - 1].snapshotId);
      assert ManifestAt(c, store, chain[i + 1].snapshotId) == chain[i + 1];
      assert LoadManifest(c, store, chain[i].snapshotId) == Ok(chain[i]);
    }
  }

  // In a legible store a loaded chain consists of visible manifests, each stored under its own id.
  lemma {:induction false} LegibleChain(c: Codec, store: Store, id: Uuid, chain: seq<Manifest>)
    requires Legible(c, store) && LoadChain(c, store, id) == Ok(chain)
    ensures IsChainOf(c, store, id, chain) && chain[|chain| - 1].snapshotId == id
    ensures forall i :: 0 <= i < |chain| ==>
              && chain[i].snapshotId in Snapshots(store)
              && LoadManifest(c, store, chain[i].snapshotId) == Ok(chain[i])
              && Tidy(chain[i])
  {
    LoadChainIff(c, store, id, chain);
    VisibleIffStored(store, id);
    assert LegibleSnapshot(c, store, id);
    forall i | 0 <= i < |chain|
      ensures chain[i].snapshotId in Snapshots(store)
      ensures LoadManifest(c, store, chain[i].snapshotId) == Ok(chain[i]) && Tidy(chain[i])
    {
      assert LoadManifest(c, store, chain[i].snapshotId) == Ok(chain[i]);
      VisibleIffStored(store, chain[i].snapshotId);
      assert LegibleSnapshot(c, store, chain[i].snapshotId);
    }
  }

  lemma {:induction false} SoundChain(c: Codec, store: Store, ids: set<Uuid>, id: Uuid, chain: seq<Manifest>)
    requires Sound(c, store, ids) && id in ids && LoadChain(c, store, id) == Ok(chain)
    ensures IsChainOf(c, store, id, chain)
    ensures chain[|chain| - 1].snapshotId == id
    ensures forall i :: 0 <= i < |chain| ==>
              && chain[i].snapshotId in ids
              && LoadManifest(c, store, chain[i].snapshotId) == Ok(chain[i])
              && SoundManifest(c, store, chain[i])
  {
    LegibleChain(c, store, id, chain);
    forall i | 0 <= i < |chain| ensures chain[i].snapshotId in ids && SoundManifest(c, store, chain[i]) {
      ChainStaysInside(c, store, ids, id, chain, i);
      assert SoundSnapshot(c, store, chain[i].snapshotId);
    }
  }

  lemma {:induction false} ReadableChangeLists(c: Codec, store: Store, ms: seq<Manifest>)
    requires forall i :: 0 <= i < |ms| ==> Readable(c, store, ms[i])
    ensures ChangeLists(c, store, ms).Ok?
  {
    if ms == [] {
    } else {
      assert Readable(c, store, ms[0]);
      ReadableChangeLists(c, store, ms[1..]);
    }
  }

  // Every sound snapshot can be restored.
  lemma {:induction false} SoundSnapshotRestores(c: Codec, store: Store, ids: set<Uuid>, id: Uuid)
    requires Sound(c, store, ids) && id in ids
    ensures LoadChain(c, store, id).Ok? && Restored(c, store, id).Some?
  {
    assert SoundSnapshot(c, store, id);
    var chain := LoadChain(c, store, id).value;
    SoundChain(c, store, ids, id, chain);
    assert SoundManifest(c, store, chain[0]);
    ReadableChangeLists(c, store, chain[1..]);
  }

  // A sound snapshot can be restored into any empty target of its schema: only a call of the adapter can fail.
  lemma {:induction false} SoundIsRestorableIff(c: Codec, store: Store, ids: set<Uuid>, id: Uuid, schema: Schema)
    requires Sound(c, store, ids) && id in ids && LoadManifest(c, store, id).Ok?
    ensures var m := ManifestAt(c, store, id);
            Restorable(c, store, schema, id) <==> m.backend == schema.backend && m.schemaHash == schema.schemaHash
  {
    SoundSnapshotRestores(c, store, ids, id);
    var chain := LoadChain(c, store, id).value;
    LoadChainIff(c, store, id, chain);
    assert SameSource(chain[0], chain[|chain| - 1]);
  }

  function RowCounts(ms: seq<Manifest>): nat {
    if ms == [] then 0 else ms[0].database.rowCount + RowCounts(ms[1..])
  }

  lemma {:induction false} ChangeTotalIsRowCounts(c: Codec, store: Store, ms: seq<Manifest>)
    requires forall i :: 0 <= i < |ms| ==> SoundManifest(c, store, ms[i]) && ms[i].kind == Incremental
    ensures ChangeLists(c, store, ms).Ok?
    ensures ChangeTotal(ChangeLists(c, store, ms).value) == RowCounts(ms)
  {
    if ms == [] {
    } else {
      assert SoundManifest(c, store, ms[0]);
      ChangeTotalIsRowCounts(c, store, ms[1..]);
    }
  }

  // The report of a restore agrees with the counts the manifests carry.
  lemma {:induction false} ReportAgreesWithManifests(c: Codec, store: Store, ids: set<Uuid>, id: Uuid,
      chain: seq<Manifest>)
    requires Sound(c, store, ids) && id in ids && LoadChain(c, store, id) == Ok(chain)
    ensures Parses(c, store, chain)
    ensures Report(c, store, chain) ==
              RestoreResult(|chain|, chain[0].database.tableCount, chain[0].database.rowCount, RowCounts(chain[1..]))
  {
    SoundChain(c, store, ids, id, chain);
    assert SoundManifest(c, store, chain[0]);
    forall i | 0 <= i < |chain[1..]|
      ensures SoundManifest(c, store, chain[1..][i]) && chain[1..][i].kind == Incremental
    {
      assert SoundManifest(c, store, chain[i + 1]);
      assert chain[i + 1].parent == Some(chain[i + 1 - 1].snapshotId);
    }
    ChangeTotalIsRowCounts(c, store, chain[1..]);
  }

  // ----- steps that keep a snapshot -----

  lemma {:induction false} KeptManifestStaysSound(c: Codec, before: Store, after: Store, m: Manifest)
    requires SoundManifest(c, before, m) && KeptRefs(before, after, m)
    ensures SoundManifest(c, after, m)
  {
    KeptStaysComplete(c, before, after, m);
    PayloadKeysAreRefs(before, after, m);
    LoadTablesKept(c, before, after, m.database, m.database.tables);
    LoadChangesKept(c, before, after, m.database, m.database.changes);
  }

  // While everything its chain reads is kept, a snapshot stays sound and restores to the same database.
  lemma {:induction false} KeptSnapshotStaysSound(c: Codec, before: Store, after: Store, ids: set<Uuid>, id: Uuid)
    requires Sound(c, before, ids) && id in ids
    requires KeptChain(before, after, LoadChain(c, before, id).value)
    ensures SoundSnapshot(c, after, id)
    ensures LoadChain(c, after, id) == LoadChain(c, before, id)
    ensures LoadManifest(c, after, id) == LoadManifest(c, before, id)
    ensures Restored(c, after, id) == Restored(c, before, id) && Restored(c, before, id).Some?
  {
    assert SoundSnapshot(c, before, id);
    var chain := LoadChain(c, before, id).value;
    SoundChain(c, before, ids, id, chain);
    SoundSnapshotRestores(c, before, ids, id);
    KeptChainRestoresSame(c, before, after, id, chain);
    LoadChainIff(c, after, id, chain);
    KeptManifestStaysSound(c, before, after, chain[|chain| - 1]);
  }

  // Every one of these snapshots has the manifest and the chain it had, and restores as before.
  ghost predicate SameSnapshots(c: Codec, before: Store, after: Store, ids: set<Uuid>) {
    forall id :: id in ids ==>
      && LoadManifest(c, after, id) == LoadManifest(c, before, id)
      && LoadChain(c, after, id) == LoadChain(c, before, id)
      && Restored(c, after, id) == Restored(c, before, id)
  }

  // Everything the restore of these snapshots reads is kept.
  ghost predicate ChainsAreKept(c: Codec, before: Store, after: Store, ids: set<Uuid>) {
    forall id :: id in ids ==>
      LoadChain(c, before, id).Ok? && KeptChain(before, after, LoadChain(c, before, id).value)
  }

  // The snapshots among the sound ones whose chains are kept stay sound, if the rest stays legible.
  lemma {:induction false} KeptChainsStaySound(c: Codec, before: Store, after: Store, ids: set<Uuid>, kept: set<Uuid>)
    requires Sound(c, before, ids) && kept <= ids && ParentClosed(c, before, kept)
    requires ChainsAreKept(c, before, after, kept) && Legible(c, after)
    ensures Sound(c, after, kept) && SameSnapshots(c, before, after, kept)
  {
    forall id | id in kept
      ensures SoundSnapshot(c, after, id) && Restored(c, after, id) == Restored(c, before, id)
      ensures LoadManifest(c, after, id) == LoadManifest(c, before, id) && id in Snapshots(after)
      ensures LoadChain(c, after, id) == LoadChain(c, before, id)
    {
      KeptSnapshotStaysSound(c, before, after, ids, id);
      VisibleIffStored(after, id);
    }
  }

  lemma {:induction false} UnchangedKeepsChains(c: Codec, before: Store, after: Store, ids: set<Uuid>)
    requires Sound(c, before, ids) && Unchanged(before, after)
    ensures ChainsAreKept(c, before, after, ids)
  {
    forall id | id in ids ensures LoadChain(c, before, id).Ok? {
      assert SoundSnapshot(c, before, id);
    }
  }

  lemma {:induction false} UnchangedSnapshotStaysSound(c: Codec, before: Store, after: Store, ids: set<Uuid>, id: Uuid)
    requires Sound(c, before, ids) && Unchanged(before, after) && id in ids
    ensures SoundSnapshot(c, after, id)
    ensures LoadChain(c, after, id) == LoadChain(c, before, id)
    ensures Restored(c, before, id).Some? && Restored(c, after, id) == Restored(c, before, id)
  {
    assert SoundSnapshot(c, before, id);
    KeptSnapshotStaysSound(c, before, after, ids, id);
  }

  lemma {:induction false} KeptManifestStaysLegible(c: Codec, before: Store, after: Store, id: Uuid)
    requires LegibleSnapshot(c, before, id) && Kept(before, after, ManifestKey(id))
    ensures LegibleSnapshot(c, after, id) && LoadManifest(c, after, id) == LoadManifest(c, before, id)
  {
  }

  lemma {:induction false} SameManifestsVisible(before: Store, after: Store)
    requires Canonical(before) && forall k :: SnapshotIdOf(k).Some? ==> (k in after <==> k in before)
    ensures Canonical(after) && Snapshots(after) == Snapshots(before)
  {
  }

  lemma {:induction false} AddedStaysLegible(c: Codec, before: Store, after: Store)
    requires Legible(c, before) && Unchanged(before, after)
    requires forall k :: k in after && k !in before ==> SnapshotIdOf(k) == None
    ensures Legible(c, after) && Snapshots(after) == Snapshots(before)
  {
    SameManifestsVisible(before, after);
    forall id | id in Snapshots(before) ensures LegibleSnapshot(c, after, id) {
      KeptManifestStaysLegible(c, before, after, id);
    }
  }

  // Adding blobs that are not manifests keeps the store sound and every snapshot as it was.
  lemma {:induction false} AddingKeepsSound(c: Codec, before: Store, after: Store, ids: set<Uuid>)
    requires Sound(c, before, ids) && Unchanged(before, after)
    requires forall k :: k in after && k !in before ==> SnapshotIdOf(k) == None
    ensures Sound(c, after, ids) && Snapshots(after) == Snapshots(before)
    ensures SameSnapshots(c, before, after, ids)
  {
    AddedStaysLegible(c, before, after);
    UnchangedKeepsChains(c, before, after, ids);
    KeptChainsStaySound(c, before, after, ids, ids);
  }

  lemma {:induction false} PublishedIsVisible(before: Store, id: Uuid, body: Bytes, after: Store)
    requires Canonical(before) && after == before[ManifestKey(id) := body]
    ensures Canonical(after) && Snapshots(after) == Snapshots(before) + {id}
  {
    ManifestKeyRoundTrip(id);
    forall x ensures x in Snapshots(after) <==> x in Snapshots(before) || x == id {
      VisibleIffStored(before, x);
      VisibleIffStored(after, x);
      if ManifestKey(x) == ManifestKey(id) {
        ManifestKeyIsInjective(x, id);
      }
    }
  }

  lemma {:induction false} PublishedStaysLegible(c: Codec, before: Store, m: Manifest, after: Store)
    requires c.Lawful() && Legible(c, before) && ManifestKey(m.snapshotId) !in before
    requires VerifyChecksum(c, m).Ok? && Tidy(m)
    requires after == before[ManifestKey(m.snapshotId) := c.prettyManifest(m)]
    ensures Legible(c, after) && Snapshots(after) == Snapshots(before) + {m.snapshotId}
    ensures m.snapshotId !in Snapshots(before) && LoadManifest(c, after, m.snapshotId) == Ok(m)
  {
    PublishedIsVisible(before, m.snapshotId, c.prettyManifest(m), after);
    VisibleIffStored(before, m.snapshotId);
    assert c.parseManifest(c.prettyManifest(m)) == Some(m);
    forall id | id in Snapshots(after) ensures LegibleSnapshot(c, after, id) {
      if id != m.snapshotId {
        KeptManifestStaysLegible(c, before, after, id);
      }
    }
  }

  // Publishing a sealed manifest under a new id, whatever it depends on, leaves the sound snapshots alone.
  lemma {:induction false} PublishingKeepsOthers(c: Codec, before: Store, ids: set<Uuid>, m: Manifest, after: Store)
    requires c.Lawful() && Sound(c, before, ids) && ManifestKey(m.snapshotId) !in before
    requires VerifyChecksum(c, m).Ok? && Tidy(m)
    requires after == before[ManifestKey(m.snapshotId) := c.prettyManifest(m)]
    ensures Sound(c, after, ids) && Snapshots(after) == Snapshots(before) + {m.snapshotId}
    ensures m.snapshotId !in Snapshots(before) && LoadManifest(c, after, m.snapshotId) == Ok(m)
    ensures SameSnapshots(c, before, after, ids)
  {
    PublishedStaysLegible(c, before, m, after);
    UnchangedKeepsChains(c, before, after, ids);
    KeptChainsStaySound(c, before, after, ids, ids);
  }

  lemma {:induction false} PublishedManifestIsSound(c: Codec, before: Store, m: Manifest, after: Store)
    requires SoundManifest(c, before, m) && Unchanged(before, after)
    requires LoadManifest(c, after, m.snapshotId) == Ok(m) && LoadChain(c, after, m.snapshotId).Ok?
    ensures SoundSnapshot(c, after, m.snapshotId)
  {
    KeptManifestStaysSound(c, before, after, m);
  }

  lemma {:induction false} OneMoreIsSound(c: Codec, store: Store, ids: set<Uuid>, id: Uuid)
    requires Sound(c, store, ids) && SoundSnapshot(c, store, id) && id in Snapshots(store)
    requires ManifestAt(c, store, id).parent.Some? ==> ManifestAt(c, store, id).parent.value in ids
    ensures Sound(c, store, ids + {id})
  {
    assert ParentClosed(c, store, ids + {id}) by {
      forall x | x in ids + {id}
        ensures LoadManifest(c, store, x).Ok?
        ensures ManifestAt(c, store, x).parent.Some? ==> ManifestAt(c, store, x).parent.value in ids + {id}
      {
        assert x == id || x in ids;
      }
    }
  }

  // Publishing a sound manifest under a new id, on a sound parent if any, adds that snapshot.
  lemma {:induction false} PublishingKeepsSound(c: Codec, before: Store, ids: set<Uuid>, m: Manifest, after: Store)
    requires c.Lawful() && Sound(c, before, ids) && ManifestKey(m.snapshotId) !in before
    requires SoundManifest(c, before, m)
    requires after == before[ManifestKey(m.snapshotId) := c.prettyManifest(m)]
    requires LoadChain(c, after, m.snapshotId).Ok? && (m.parent.Some? ==> m.parent.value in ids)
    ensures Sound(c, after, ids + {m.snapshotId})
    ensures Snapshots(after) == Snapshots(before) + {m.snapshotId}
    ensures LoadManifest(c, after, m.snapshotId) == Ok(m)
    ensures SameSnapshots(c, before, after, ids)
  {
    PublishingKeepsOthers(c, before, ids, m, after);
    PublishedManifestIsSound(c, before, m, after);
    OneMoreIsSound(c, after, ids, m.snapshotId);
  }
}
