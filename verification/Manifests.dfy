// Loading one manifest, walking a parent chain, and validating it.
module Manifests {
  import opened Types
  import opened Keys
  import opened Repositories

  // manifest_checksum: the hash of the manifest with its checksum field cleared.
  function Checksum(c: Codec, m: Manifest): string {
    c.hash(c.compactManifest(m.(checksum := "")))
  }

  function WithChecksum(c: Codec, m: Manifest): Manifest {
    m.(checksum := Checksum(c, m))
  }

  function VerifyChecksum(c: Codec, m: Manifest): Result<()> {
    var actual := Checksum(c, m);
    if actual == m.checksum then Ok(())
    else Err(ChecksumMismatch(ManifestKey(m.snapshotId), m.checksum, actual))
  }

  lemma {:induction false} SealedManifestVerifies(c: Codec, m: Manifest)
    ensures VerifyChecksum(c, WithChecksum(c, m)) == Ok(())
  {
    assert WithChecksum(c, m).(checksum := "") == m.(checksum := "");
  }

  // The checksum a manifest carries is the hash of all the rest of it.
  ghost predicate IsSealed(c: Codec, m: Manifest) {
    m.checksum == c.hash(c.compactManifest(m.(checksum := "")))
  }

  // Neither the hash nor the written form of a manifest has collisions.
  ghost predicate CollisionFree(c: Codec) {
    && (forall a, b :: c.hash(a) == c.hash(b) ==> a == b)
    && forall m, n :: c.compactManifest(m) == c.compactManifest(n) ==> m == n
  }

  // Then the checksum covers every other field: two manifests have one checksum exactly when they differ in
  // nothing but the checksum they carry, and a sealed manifest with another field changed is not sealed.
  lemma {:induction false} ChecksumCoversAllIff(c: Codec, m: Manifest, n: Manifest)
    requires CollisionFree(c)
    ensures Checksum(c, m) == Checksum(c, n) <==> m.(checksum := "") == n.(checksum := "")
    ensures IsSealed(c, m) && n != m && n.checksum == m.checksum ==> VerifyChecksum(c, n).Err?
  {
    assert n.checksum == m.checksum && n.(checksum := "") == m.(checksum := "") ==> n == m;
  }

  // load_manifest: the stored manifest is not compared with the id it was asked for.
  function LoadManifest(c: Codec, store: Store, id: Uuid): Result<Manifest> {
    var bytes :- Get(store, ManifestKey(id));
    match c.parseManifest(bytes)
    case None => Err(Serialization)
    case Some(m) =>
      var _ :- VerifyChecksum(c, m);
      Ok(m)
  }

  // The outcome of loading what is stored under one id: absent, not a manifest, altered, or the sealed manifest.
  ghost predicate LoadsAs(c: Codec, store: Store, id: Uuid, r: Result<Manifest>) {
    var key := "snapshots/" + id + "/manifest.json";
    if key !in store then r == Err(MissingBlob(key))
    else
      match c.parseManifest(store[key])
      case None => r == Err(Serialization)
      case Some(m) =>
        if IsSealed(c, m) then r == Ok(m)
        else r == Err(ChecksumMismatch("snapshots/" + m.snapshotId + "/manifest.json", m.checksum,
                                       c.hash(c.compactManifest(m.(checksum := "")))))
  }

  lemma {:induction false} LoadManifestLoads(c: Codec, store: Store, id: Uuid)
    ensures LoadsAs(c, store, id, LoadManifest(c, store, id))
    ensures forall r :: LoadsAs(c, store, id, r) <==> r == LoadManifest(c, store, id)
  {
  }

  method ReadManifest(c: Codec, repository: Repository, id: Uuid) returns (r: Result<Manifest>)
    ensures r == LoadManifest(c, repository.blobs, id) && LoadsAs(c, repository.blobs, id, r)
  {
    var bytes :- repository.GetBlob(ManifestKey(id));
    var parsed := c.parseManifest(bytes);
    if parsed == None {
      return Err(Serialization);
    }
    var _ :- VerifyChecksum(c, parsed.value);
    r := Ok(parsed.value);
  }

  function SeenKeys(seen: set<Uuid>): set<string> {
    set id | id in seen :: ManifestKey(id)
  }

  lemma {:induction false} WalkErrors(c: Codec, store: Store, id: Uuid, seen: set<Uuid>)
    ensures Walk(c, store, id, seen).Err? ==> IsDataError(Walk(c, store, id, seen).error)
    decreases store.Keys - SeenKeys(seen)
  {
    LoadManifestLoads(c, store, id);
    if id in seen || LoadManifest(c, store, id).Err? || LoadManifest(c, store, id).value.parent == None {
    } else {
      VisitingShrinks(store, id, seen);
      WalkErrors(c, store, LoadManifest(c, store, id).value.parent.value, seen + {id});
    }
  }

  // The manifests from the root down to `id`; `seen` are the ids already visited below it.
  function Walk(c: Codec, store: Store, id: Uuid, seen: set<Uuid>): Result<seq<Manifest>>
    decreases store.Keys - SeenKeys(seen)
  {
    if id in seen then Err(InvalidManifestChain)
    else
      var m :- LoadManifest(c, store, id);
      match m.parent
      case None => Ok([m])
      case Some(p) =>
        VisitingShrinks(store, id, seen);
        var above :- Walk(c, store, p, seen + {id});
        Ok(above + [m])
  }

  lemma {:induction false} VisitingShrinks(store: Store, id: Uuid, seen: set<Uuid>)
    requires id !in seen && ManifestKey(id) in store
    ensures store.Keys - SeenKeys(seen + {id}) < store.Keys - SeenKeys(seen)
  {
    assert ManifestKey(id) in SeenKeys(seen + {id});
    assert ManifestKey(id) !in SeenKeys(seen) by {
      forall x | x in seen ensures ManifestKey(x) != ManifestKey(id) {
        if ManifestKey(x) == ManifestKey(id) { ManifestKeyIsInjective(x, id); }
      }
    }
    forall x | x in seen ensures ManifestKey(x) in SeenKeys(seen + {id}) {
      assert x in seen + {id};
    }
  }

  predicate IsRoot(m: Manifest) {
    m.kind != Incremental && m.parent == None
  }

  predicate SameSource(a: Manifest, b: Manifest) {
    a.appId == b.appId && a.backend == b.backend && a.schemaHash == b.schemaHash
  }

  // The checks of validate_manifest_chain on the pairs from `i` on; `seen` are the ids before.
  function ValidatePairs(chain: seq<Manifest>, i: nat, seen: set<Uuid>): bool
    requires 0 < i <= |chain|
    decreases |chain| - i
  {
    i == |chain| ||
    (&& chain[i].snapshotId !in seen
     && chain[i].parent == Some(chain[i - 1].snapshotId)
     && SameSource(chain[i], chain[i - 1])
     && ValidatePairs(chain, i + 1, seen + {chain[i].snapshotId}))
  }

  function ValidateChain(chain: seq<Manifest>): Result<()> {
    if chain != [] && IsRoot(chain[0]) && ValidatePairs(chain, 1, {chain[0].snapshotId})
    then Ok(()) else Err(InvalidManifestChain)
  }

  // The chains that validation accepts, field by field.
  lemma {:induction false} ValidChainIff(chain: seq<Manifest>)
    ensures ValidateChain(chain).Ok?
       <==> && chain != []
            && chain[0].kind in {Full, SyntheticFull} && chain[0].parent == None
            && (forall i :: 0 < i < |chain| ==> chain[i].parent == Some(chain[i - 1].snapshotId))
            && (forall i, j :: 0 <= i < j < |chain| ==> chain[i].snapshotId != chain[j].snapshotId)
            && forall i, j :: 0 <= i < |chain| && 0 <= j < |chain| ==>
                 && chain[i].appId == chain[j].appId
                 && chain[i].backend == chain[j].backend
                 && chain[i].schemaHash == chain[j].schemaHash
    ensures ValidateChain(chain).Err? ==> ValidateChain(chain).error == InvalidManifestChain
  {
    ValidateChainIff(chain);
  }

  method ValidateManifestChain(chain: seq<Manifest>) returns (r: Result<()>)
    ensures r == ValidateChain(chain)
  {
    if chain == [] || chain[0].kind == Incremental || chain[0].parent != None {
      return Err(InvalidManifestChain);
    }
    var seen := {chain[0].snapshotId};
    for i := 1 to |chain|
      invariant ValidatePairs(chain, i, seen) == ValidatePairs(chain, 1, {chain[0].snapshotId})
    {
      var parent, child := chain[i - 1], chain[i];
      if child.snapshotId in seen {
        return Err(InvalidManifestChain);
      }
      seen := seen + {child.snapshotId};
      if child.parent != Some(parent.snapshotId) || child.appId != parent.appId
         || child.backend != parent.backend || child.schemaHash != parent.schemaHash
      {
        return Err(InvalidManifestChain);
      }
    }
    r := Ok(());
  }

  // A chain in restore order: facts about the whole of it, not only about neighbours.
  ghost predicate ValidChain(chain: seq<Manifest>) {
    && chain != []
    && IsRoot(chain[0])
    && (forall i :: 0 < i < |chain| ==> chain[i].parent == Some(chain[i - 1].snapshotId))
    && (forall i, j :: 0 <= i < j < |chain| ==> chain[i].snapshotId != chain[j].snapshotId)
    && (forall i, j :: 0 <= i < |chain| && 0 <= j < |chain| ==> SameSource(chain[i], chain[j]))
  }

  ghost function IdsBefore(chain: seq<Manifest>, n: nat): set<Uuid>
    requires n <= |chain|
  {
    set i | 0 <= i < n :: chain[i].snapshotId
  }

  // What is checked about the pair that ends at k.
  ghost predicate PairOk(chain: seq<Manifest>, k: int)
    requires 0 < k < |chain|
  {
    && chain[k].snapshotId !in IdsBefore(chain, k)
    && chain[k].parent == Some(chain[k - 1].snapshotId)
    && SameSource(chain[k], chain[k - 1])
  }

  lemma {:induction false} ValidatesEveryPair(chain: seq<Manifest>, i: nat)
    requires 0 < i <= |chain|
    ensures ValidatePairs(chain, i, IdsBefore(chain, i)) <==> forall k :: i <= k < |chain| ==> PairOk(chain, k)
    decreases |chain| - i
  {
    if i == |chain| {
    } else {
      assert IdsBefore(chain, i + 1) == IdsBefore(chain, i) + {chain[i].snapshotId};
      ValidatesEveryPair(chain, i + 1);
      assert (forall k :: i <= k < |chain| ==> PairOk(chain, k))
        <==> PairOk(chain, i) && forall k :: i + 1 <= k < |chain| ==> PairOk(chain, k);
    }
  }

  lemma {:induction false} SourcesAgree(chain: seq<Manifest>, n: nat)
    requires n < |chain| && forall k :: 0 < k < |chain| ==> SameSource(chain[k], chain[k - 1])
    ensures SameSource(chain[n], chain[0])
  {
    if n == 0 {
    } else {
      SourcesAgree(chain, n - 1);
    }
  }

  lemma {:induction false} PairsMakeAChain(chain: seq<Manifest>)
    requires chain != [] && IsRoot(chain[0]) && forall k :: 0 < k < |chain| ==> PairOk(chain, k)
    ensures ValidChain(chain)
  {
    forall i, j | 0 <= i < j < |chain| ensures chain[i].snapshotId != chain[j].snapshotId {
      assert PairOk(chain, j);
      assert chain[i].snapshotId in IdsBefore(chain, j);
    }
    forall k | 0 < k < |chain|
      ensures chain[k].parent == Some(chain[k - 1].snapshotId) && SameSource(chain[k], chain[k - 1])
    {
      assert PairOk(chain, k);
    }
    forall i | 0 <= i < |chain| ensures SameSource(chain[i], chain[0]) {
      SourcesAgree(chain, i);
    }
  }

  lemma {:induction false} ChainHasGoodPairs(chain: seq<Manifest>)
    requires ValidChain(chain)
    ensures forall k :: 0 < k < |chain| ==> PairOk(chain, k)
  {
  }

  // Checking neighbours is enough: validation accepts exactly the valid chains.
  lemma {:induction false} ValidateChainIff(chain: seq<Manifest>)
    ensures ValidateChain(chain).Ok? <==> ValidChain(chain)
  {
    if chain != [] {
      assert IdsBefore(chain, 1) == {chain[0].snapshotId};
      ValidatesEveryPair(chain, 1);
      if ValidateChain(chain).Ok? {
        PairsMakeAChain(chain);
      }
      if ValidChain(chain) {
        ChainHasGoodPairs(chain);
      }
    }
  }

  function LoadChain(c: Codec, store: Store, id: Uuid): Result<seq<Manifest>> {
    var chain :- Walk(c, store, id, {});
    var _ :- ValidateChain(chain);
    Ok(chain)
  }

  function Reversed(s: seq<Manifest>): seq<Manifest> {
    if s == [] then [] else Reversed(s[1..]) + [s[0]]
  }

  lemma {:induction false} ReversedSnoc(s: seq<Manifest>, m: Manifest)
    ensures Reversed(s + [m]) == [m] + Reversed(s)
  {
    if s == [] {
      assert [m][1..] == [];
    } else {
      assert (s + [m])[1..] == s[1..] + [m];
      ReversedSnoc(s[1..], m);
    }
  }

  // What the walk returns once the manifests `below` hang under the outcome of the rest.
  function Above(rest: Result<seq<Manifest>>, below: seq<Manifest>): Result<seq<Manifest>> {
    match rest
    case Ok(above) => Ok(above + below)
    case Err(e) => Err(e)
  }

  // load_manifest_chain: terminates on every store, however the parents loop.
  method LoadManifestChain(c: Codec, repository: Repository, id: Uuid) returns (r: Result<seq<Manifest>>)
    ensures r == LoadChain(c, repository.blobs, id)
    ensures r.Ok? ==> forall i :: 0 <= i < |r.value| ==> IsSealed(c, r.value[i])
    ensures r.Err? ==> IsDataError(r.error)
  {
    WalkErrors(c, repository.blobs, id, {});
    var store := repository.blobs;
    var chain: seq<Manifest> := [];
    var seen: set<Uuid> := {};
    var next: Option<Uuid> := Some(id);
    assert Above(Walk(c, store, id, {}), []) == Walk(c, store, id, {}) by {
      var w := Walk(c, store, id, {});
      assert w.Ok? ==> w.value + [] == w.value;
    }
    while next != None
      invariant Walk(c, store, id, {}) ==
                Above(if next == None then Ok([]) else Walk(c, store, next.value, seen), Reversed(chain))
      invariant next == None ==> chain != []
      decreases store.Keys - SeenKeys(seen), next != None
    {
      var current := next.value;
      if current in seen {
        return Err(InvalidManifestChain);
      }
      var manifest :- ReadManifest(c, repository, current);
      VisitingShrinks(store, current, seen);
      ReversedSnoc(chain, manifest);
      assert forall above: seq<Manifest> ::
          (above + [manifest]) + Reversed(chain) == above + ([manifest] + Reversed(chain));
      assert [] + ([manifest] + Reversed(chain)) == [manifest] + Reversed(chain);
      seen := seen + {current};
      next := manifest.parent;
      chain := chain + [manifest];
    }
    assert [] + Reversed(chain) == Reversed(chain);
    var ordered := Reversed(chain);
    var valid := ValidateManifestChain(ordered);
    var _ :- valid;
    r := Ok(ordered);
    LoadedChainIsSealed(c, store, id, ordered);
  }

  lemma {:induction false} LoadedChainIsSealed(c: Codec, store: Store, id: Uuid, chain: seq<Manifest>)
    requires LoadChain(c, store, id) == Ok(chain)
    ensures forall i :: 0 <= i < |chain| ==> IsSealed(c, chain[i])
  {
    LoadChainIff(c, store, id, chain);
    LoadManifestLoads(c, store, id);
    forall i | 0 <= i < |chain| ensures IsSealed(c, chain[i]) {
      if i < |chain| - 1 {
        assert LoadManifest(c, store, chain[i].snapshotId) == Ok(chain[i]);
        LoadManifestLoads(c, store, chain[i].snapshotId);
      }
    }
  }

  // A walk from the first id upwards to the last: what is stored under each id before the last is a sealed manifest
  // and names the next one as its parent.
  ghost predicate ParentPath(c: Codec, store: Store, ids: seq<Uuid>, ms: seq<Manifest>) {
    && ids != [] && |ms| == |ids| - 1
    && (forall i :: 0 <= i < |ms| ==> LoadsAs(c, store, ids[i], Ok(ms[i])) && ms[i].parent == Some(ids[i + 1]))
    && forall i, j :: 0 <= i < j < |ids| ==> ids[i] != ids[j]
  }

  lemma {:induction false} PathContinues(c: Codec, store: Store, ids: seq<Uuid>, ms: seq<Manifest>)
    requires ParentPath(c, store, ids, ms) && |ids| > 1
    ensures ParentPath(c, store, ids[1..], ms[1..]) && LoadManifest(c, store, ids[0]) == Ok(ms[0])
    ensures ms[0].parent == Some(ids[1])
  {
    var up, above := ids[1..], ms[1..];
    assert LoadsAs(c, store, ids[0], Ok(ms[0])) && ms[0].parent == Some(ids[0 + 1]);
    forall i | 0 <= i < |above| ensures LoadsAs(c, store, up[i], Ok(above[i])) && above[i].parent == Some(up[i + 1]) {
      assert LoadsAs(c, store, ids[i + 1], Ok(ms[i + 1])) && ms[i + 1].parent == Some(ids[i + 1 + 1]);
    }
  }

  lemma {:induction false} BrokenPathStopsWalk(c: Codec, store: Store, ids: seq<Uuid>, ms: seq<Manifest>, e: Error,
      seen: set<Uuid>)
    requires ParentPath(c, store, ids, ms) && forall i :: 0 <= i < |ids| ==> ids[i] !in seen
    requires LoadsAs(c, store, ids[|ids| - 1], Err(e))
    ensures Walk(c, store, ids[0], seen) == Err(e)
    decreases |ids|
  {
    if |ids| == 1 {
    } else {
      PathContinues(c, store, ids, ms);
      BrokenPathStopsWalk(c, store, ids[1..], ms[1..], e, seen + {ids[0]});
    }
  }

  // A chain with an absent, unreadable or altered manifest does not load: the first one met on the way up is
  // reported, as what it is.
  lemma {:induction false} BrokenChainIsRefused(c: Codec, store: Store, ids: seq<Uuid>, ms: seq<Manifest>, e: Error)
    requires ParentPath(c, store, ids, ms) && LoadsAs(c, store, ids[|ids| - 1], Err(e))
    ensures LoadChain(c, store, ids[0]) == Err(e)
  {
    BrokenPathStopsWalk(c, store, ids, ms, e, {});
  }

  // The declarative meaning of loading a chain. Only the tip may be stored under a foreign id.
  ghost predicate IsChainOf(c: Codec, store: Store, id: Uuid, chain: seq<Manifest>) {
    && ValidChain(chain)
    && LoadManifest(c, store, id) == Ok(chain[|chain| - 1])
    && forall i :: 0 <= i < |chain| - 1 ==> LoadManifest(c, store, chain[i].snapshotId) == Ok(chain[i])
  }

  // What a walk collects, before validation: linked by the ids it asked for.
  ghost predicate Linked(c: Codec, store: Store, id: Uuid, chain: seq<Manifest>) {
    && chain != []
    && chain[0].parent == None
    && LoadManifest(c, store, id) == Ok(chain[|chain| - 1])
    && forall i :: 0 < i < |chain| ==>
         chain[i].parent.Some? && LoadManifest(c, store, chain[i].parent.value) == Ok(chain[i - 1])
  }

  lemma {:induction false} WalkIsLinked(c: Codec, store: Store, id: Uuid, seen: set<Uuid>)
    requires Walk(c, store, id, seen).Ok?
    ensures Linked(c, store, id, Walk(c, store, id, seen).value)
    decreases store.Keys - SeenKeys(seen)
  {
    var m := LoadManifest(c, store, id).value;
    if m.parent == None {
    } else {
      VisitingShrinks(store, id, seen);
      WalkIsLinked(c, store, m.parent.value, seen + {id});
      var above := Walk(c, store, m.parent.value, seen + {id}).value;
      var chain := above + [m];
      forall i | 0 < i < |chain|
        ensures chain[i].parent.Some? && LoadManifest(c, store, chain[i].parent.value) == Ok(chain[i - 1])
      {
        if i < |above| {
          assert chain[i] == above[i] && chain[i - 1] == above[i - 1];
        }
      }
    }
  }

  lemma {:induction false} WalkFollows(c: Codec, store: Store, id: Uuid, seen: set<Uuid>, chain: seq<Manifest>)
    requires chain != [] && chain[0].parent == None
    requires LoadManifest(c, store, id) == Ok(chain[|chain| - 1])
    requires forall i :: 0 < i < |chain| ==> chain[i].parent == Some(chain[i - 1].snapshotId)
    requires forall i :: 0 <= i < |chain| - 1 ==> LoadManifest(c, store, chain[i].snapshotId) == Ok(chain[i])
    requires forall i, j :: 0 <= i < j < |chain| - 1 ==> chain[i].snapshotId != chain[j].snapshotId
    requires id !in seen && forall i :: 0 <= i < |chain| - 1 ==> chain[i].snapshotId !in seen + {id}
    ensures Walk(c, store, id, seen) == Ok(chain)
    decreases |chain|
  {
    var n := |chain| - 1;
    if n == 0 {
      assert chain == [chain[0]];
    } else {
      assert chain[n].parent == Some(chain[n - 1].snapshotId);
      VisitingShrinks(store, id, seen);
      var above := chain[..n];
      assert above[n - 1] == chain[n - 1];
      WalkFollows(c, store, chain[n - 1].snapshotId, seen + {id}, above);
      assert chain == above + [chain[n]];
    }
  }

  // Loading succeeds exactly when the parent path is a valid chain, and then returns that path.
  lemma {:induction false} LoadChainIff(c: Codec, store: Store, id: Uuid, chain: seq<Manifest>)
    ensures LoadChain(c, store, id) == Ok(chain) <==> IsChainOf(c, store, id, chain)
  {
    ValidateChainIff(chain);
    if LoadChain(c, store, id) == Ok(chain) {
      LoadedChainIsChain(c, store, id, chain);
    }
    if IsChainOf(c, store, id, chain) {
      assert id !in {} && forall i :: 0 <= i < |chain| - 1 ==> chain[i].snapshotId !in {id} by {
        forall i | 0 <= i < |chain| - 1 ensures chain[i].snapshotId != id {
          assert chain[i].snapshotId != chain[|chain| - 1].snapshotId;
        }
      }
      WalkFollows(c, store, id, {}, chain);
    }
  }

  lemma {:induction false} LoadedChainIsChain(c: Codec, store: Store, id: Uuid, chain: seq<Manifest>)
    requires Walk(c, store, id, {}) == Ok(chain) && ValidChain(chain)
    ensures IsChainOf(c, store, id, chain)
  {
    WalkIsLinked(c, store, id, {});
    forall i | 0 <= i < |chain| - 1 ensures LoadManifest(c, store, chain[i].snapshotId) == Ok(chain[i]) {
      assert chain[i + 1].parent == Some(chain[i + 1 - 1].snapshotId);
    }
  }

  // A parent path that stays among manifests with parents, as one that loops does, is refused.
  lemma {:induction false} TrappedPathIsRefused(c: Codec, store: Store, id: Uuid, seen: set<Uuid>, trap: set<Uuid>)
    requires id in trap
    requires forall x :: x in trap && LoadManifest(c, store, x).Ok? ==>
               LoadManifest(c, store, x).value.parent.Some? && LoadManifest(c, store, x).value.parent.value in trap
    ensures Walk(c, store, id, seen).Err?
    ensures (forall x :: x in trap ==> LoadManifest(c, store, x).Ok?) ==>
              Walk(c, store, id, seen) == Err(InvalidManifestChain)
    decreases store.Keys - SeenKeys(seen)
  {
    if id in seen || LoadManifest(c, store, id).Err? {
    } else {
      VisitingShrinks(store, id, seen);
      TrappedPathIsRefused(c, store, LoadManifest(c, store, id).value.parent.value, seen + {id}, trap);
    }
  }
}
