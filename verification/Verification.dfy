// The decision procedure for "this manifest is complete in this store".
module Verification {
  import opened Types
  import opened Keys
  import opened Repositories
  import opened Manifests

  function ObjectRefs(objects: seq<ObjectEntry>): seq<BlobRef> {
    seq(|objects|, i requires 0 <= i < |objects| => BlobRef(objects[i].contentKey, objects[i].sha))
  }

  function EntryRefs(entries: seq<TableEntry>): seq<BlobRef> {
    seq(|entries|, i requires 0 <= i < |entries| => BlobRef(entries[i].contentKey, entries[i].sha))
  }

  // The blobs a manifest depends on: objects, then table and change payloads.
  function Refs(m: Manifest): seq<BlobRef> {
    ObjectRefs(m.objects) + EntryRefs(m.database.tables + m.database.changes)
  }

  function VerifyBlob(c: Codec, store: Store, ref: BlobRef): Result<()> {
    var bytes :- Get(store, ref.key);
    if c.hash(bytes) == ref.sha then Ok(()) else Err(ChecksumMismatch(ref.key, ref.sha, c.hash(bytes)))
  }

  // The ways in which a referenced blob can fail its check.
  ghost predicate FailsCheck(c: Codec, store: Store, ref: BlobRef, e: Error) {
    if ref.key in store
    then c.hash(store[ref.key]) != ref.sha && e == ChecksumMismatch(ref.key, ref.sha, c.hash(store[ref.key]))
    else e == MissingBlob(ref.key)
  }

  // Every referenced blob is present with the named hash, and the manifest is sealed.
  ghost predicate Complete(c: Codec, store: Store, m: Manifest) {
    && VerifyChecksum(c, m).Ok?
    && forall i :: 0 <= i < |Refs(m)| ==> VerifyBlob(c, store, Refs(m)[i]).Ok?
  }

  // The concurrent checks only read, so they are run here in list order; which of several
  // failures is reported is the only thing their completion order could change.
  method VerifyBlobs(c: Codec, repository: Repository, checks: seq<BlobRef>) returns (r: Result<()>)
    ensures r.Ok? <==> forall i :: 0 <= i < |checks| ==> VerifyBlob(c, repository.blobs, checks[i]).Ok?
    ensures r.Err? ==> exists i :: 0 <= i < |checks| && FailsCheck(c, repository.blobs, checks[i], r.error)
  {
    for i := 0 to |checks|
      invariant forall j :: 0 <= j < i ==> VerifyBlob(c, repository.blobs, checks[j]).Ok?
    {
      var ref := checks[i];
      var body :- repository.GetBlob(ref.key);
      var actual := c.hash(body);
      if actual != ref.sha {
        return Err(ChecksumMismatch(ref.key, ref.sha, actual));
      }
    }
    r := Ok(());
  }

  // verify_manifest_and_objects
  method VerifyManifestAndObjects(c: Codec, repository: Repository, m: Manifest) returns (r: Result<()>)
    ensures r.Ok? <==> Complete(c, repository.blobs, m)
    ensures r.Err? ==>
              || (!IsSealed(c, m) && r.error.ChecksumMismatch?)
              || exists i :: 0 <= i < |Refs(m)| && FailsCheck(c, repository.blobs, Refs(m)[i], r.error)
  {
    var _ :- VerifyChecksum(c, m);
    var objectChecks: seq<BlobRef> := [];
    for i := 0 to |m.objects|
      invariant objectChecks == ObjectRefs(m.objects)[..i]
    {
      objectChecks := objectChecks + [BlobRef(m.objects[i].contentKey, m.objects[i].sha)];
    }
    assert objectChecks == ObjectRefs(m.objects);
    assert forall i :: 0 <= i < |objectChecks| ==> Refs(m)[i] == objectChecks[i];
    var objectsOk := VerifyBlobs(c, repository, objectChecks);
    if objectsOk.Err? {
      ghost var i :| 0 <= i < |objectChecks| && FailsCheck(c, repository.blobs, objectChecks[i], objectsOk.error);
      assert Refs(m)[i] == objectChecks[i];
      assert VerifyBlob(c, repository.blobs, Refs(m)[i]).Err?;
      return objectsOk;
    }
    var entries := m.database.tables + m.database.changes;
    var entryChecks: seq<BlobRef> := [];
    for i := 0 to |entries|
      invariant entryChecks == EntryRefs(entries)[..i]
    {
      entryChecks := entryChecks + [BlobRef(entries[i].contentKey, entries[i].sha)];
    }
    assert entryChecks == EntryRefs(entries);
    assert Refs(m) == objectChecks + entryChecks;
    r := VerifyBlobs(c, repository, entryChecks);
    if r.Err? {
      ghost var j :| 0 <= j < |entryChecks| && FailsCheck(c, repository.blobs, entryChecks[j], r.error);
      assert Refs(m)[|objectChecks| + j] == entryChecks[j];
    }
  }

  // `after` still holds a blob that `before` held.
  ghost predicate Kept(before: Store, after: Store, key: string) {
    key in before ==> key in after && after[key] == before[key]
  }

  ghost predicate KeptRefs(before: Store, after: Store, m: Manifest) {
    forall i :: 0 <= i < |Refs(m)| ==> Kept(before, after, Refs(m)[i].key)
  }

  // Everything a snapshot's restore reads: the manifests of its chain and their blobs.
  ghost predicate KeptChain(before: Store, after: Store, chain: seq<Manifest>) {
    forall i :: 0 <= i < |chain| ==>
      Kept(before, after, ManifestKey(chain[i].snapshotId)) && KeptRefs(before, after, chain[i])
  }

  lemma {:induction false} KeptStaysComplete(c: Codec, before: Store, after: Store, m: Manifest)
    requires Complete(c, before, m) && KeptRefs(before, after, m)
    ensures Complete(c, after, m)
  {
    forall i | 0 <= i < |Refs(m)| ensures VerifyBlob(c, after, Refs(m)[i]).Ok? {
      assert VerifyBlob(c, before, Refs(m)[i]).Ok?;
      assert Kept(before, after, Refs(m)[i].key);
    }
  }

  // A snapshot's chain does not change while the blobs it reads are kept.
  lemma {:induction false} KeptChainStillLoads(c: Codec, before: Store, after: Store, id: Uuid, chain: seq<Manifest>)
    requires LoadChain(c, before, id) == Ok(chain) && chain[|chain| - 1].snapshotId == id
    requires KeptChain(before, after, chain)
    ensures LoadChain(c, after, id) == Ok(chain)
  {
    LoadChainIff(c, before, id, chain);
    assert Kept(before, after, ManifestKey(chain[|chain| - 1].snapshotId));
    forall i | 0 <= i < |chain| - 1 ensures LoadManifest(c, after, chain[i].snapshotId) == Ok(chain[i]) {
      assert Kept(before, after, ManifestKey(chain[i].snapshotId));
    }
    LoadChainIff(c, after, id, chain);
  }
}
