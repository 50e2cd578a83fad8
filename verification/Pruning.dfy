// Garbage collection: pruning to the newest chains, and deleting one snapshot.
module Pruning {
  import opened Types
  import opened Payload
  import opened Ordering
  import opened Keys
  import opened Repositories
  import opened Manifests
  import opened Verification

  // ----- loading and ordering manifests -----

  function LoadAll(c: Codec, store: Store, listing: seq<string>): Result<seq<Manifest>> {
    if listing == [] then Ok([])
    else
      match SnapshotIdOf(listing[0])
      case None => LoadAll(c, store, listing[1..])
      case Some(id) =>
        var m :- LoadManifest(c, store, id);
        var rest :- LoadAll(c, store, listing[1..]);
        Ok([m] + rest)
  }

  // Some manifest that a listing shows parses and is not sealed.
  ghost predicate HasAlteredManifest(c: Codec, store: Store) {
    exists key, m :: IsAlteredAt(c, store, key, m)
  }

  ghost predicate IsAlteredAt(c: Codec, store: Store, key: string, m: Manifest) {
    && key in store && SnapshotIdOf(key).Some? && ManifestKey(SnapshotIdOf(key).value) in store
    && c.parseManifest(store[ManifestKey(SnapshotIdOf(key).value)]) == Some(m) && !IsSealed(c, m)
  }

  lemma {:induction false} AlteredIsRefused(c: Codec, store: Store, listing: seq<string>, key: string, m: Manifest)
    requires key in listing && IsAlteredAt(c, store, key, m)
    ensures LoadAll(c, store, listing).Err?
  {
    if listing[0] == key {
      LoadManifestLoads(c, store, SnapshotIdOf(key).value);
    } else {
      assert listing == [listing[0]] + listing[1..];
      AlteredIsRefused(c, store, listing[1..], key, m);
    }
  }

  lemma {:induction false} AlteredListingIsRefused(c: Codec, store: Store, listing: seq<string>)
    requires Lists(listing, store, SNAPSHOTS_PREFIX) && HasAlteredManifest(c, store)
    ensures LoadAll(c, store, listing).Err?
  {
    var key, m :| IsAlteredAt(c, store, key, m);
    assert Under(SNAPSHOTS_PREFIX, key) by {
      assert "snapshots/"[..9] == "snapshots" == key[..10][..9];
    }
    AlteredIsRefused(c, store, listing, key, m);
  }

  // load_all_manifests, in the order the backend happened to list.
  method LoadAllManifests(c: Codec, repository: Repository) returns (r: Result<seq<Manifest>>,
        ghost listing: seq<string>)
    ensures Lists(listing, repository.blobs, SNAPSHOTS_PREFIX)
    ensures r == LoadAll(c, repository.blobs, listing)
    ensures r.Err? ==> IsDataError(r.error)
  {
    var keys := repository.ListBlobs(SNAPSHOTS_PREFIX);
    listing := keys;
    var manifests: seq<Manifest> := [];
    assert keys[0..] == keys;
    OntoUnit([], LoadAll(c, repository.blobs, keys));
    for i := 0 to |keys|
      invariant Onto(manifests, LoadAll(c, repository.blobs, keys[i..])) == LoadAll(c, repository.blobs, keys)
    {
      assert keys[i..][1..] == keys[i + 1..];
      var id := SnapshotIdOf(keys[i]);
      if id == None {
        continue;
      }
      LoadManifestLoads(c, repository.blobs, id.value);
      var m := ReadManifest(c, repository, id.value);
      if m.Err? {
        return Err(m.error), listing;
      }
      ghost var rest := LoadAll(c, repository.blobs, keys[i + 1..]);
      assert rest.Ok? ==> manifests + ([m.value] + rest.value) == manifests + [m.value] + rest.value;
      manifests := manifests + [m.value];
    }
    assert manifests + [] == manifests;
    r := Ok(manifests);
  }

  // Newest first; equal times by descending id.
  predicate Newer(a: Manifest, b: Manifest) {
    a.createdAt > b.createdAt || (a.createdAt == b.createdAt && Less(b.snapshotId, a.snapshotId))
  }

  function InsertNewest(m: Manifest, ms: seq<Manifest>): seq<Manifest> {
    if ms == [] || Newer(m, ms[0]) then [m] + ms else [ms[0]] + InsertNewest(m, ms[1..])
  }

  // Manifests sorted newest first; ties keep their order.
  function NewestFirst(ms: seq<Manifest>): seq<Manifest> {
    if ms == [] then [] else InsertNewest(ms[|ms| - 1], NewestFirst(ms[..|ms| - 1]))
  }

  // Later creation first; among equal times the textually greater id first.
  ghost predicate NewestOrder(ms: seq<Manifest>) {
    forall i, j :: 0 <= i < j < |ms| ==>
      || ms[j].createdAt < ms[i].createdAt
      || (ms[j].createdAt == ms[i].createdAt && Less(ms[j].snapshotId, ms[i].snapshotId))
  }

  ghost predicate DistinctIds(ms: seq<Manifest>) {
    forall i, j :: 0 <= i < j < |ms| ==> ms[i].snapshotId != ms[j].snapshotId
  }

  lemma {:induction false} NewerIsTotal(a: Manifest, b: Manifest)
    requires a.snapshotId != b.snapshotId
    ensures Newer(a, b) || Newer(b, a)
  {
    LessIsTotal(a.snapshotId, b.snapshotId);
  }

  lemma {:induction false} NewerIsTransitive(a: Manifest, b: Manifest, d: Manifest)
    requires Newer(a, b) && Newer(b, d)
    ensures Newer(a, d)
  {
    if a.createdAt == d.createdAt {
      LessIsTransitive(d.snapshotId, b.snapshotId, a.snapshotId);
    }
  }

  lemma {:induction false} InsertNewestMembers(m: Manifest, ms: seq<Manifest>, x: Manifest)
    ensures x in InsertNewest(m, ms) <==> x == m || x in ms
    ensures |InsertNewest(m, ms)| == |ms| + 1
  {
    if ms == [] || Newer(m, ms[0]) {
    } else {
      InsertNewestMembers(m, ms[1..], x);
      assert ms == [ms[0]] + ms[1..];
    }
  }

  lemma {:induction false} InsertNewestKeepsOrder(m: Manifest, ms: seq<Manifest>)
    requires NewestOrder(ms) && forall x :: x in ms ==> x.snapshotId != m.snapshotId
    ensures NewestOrder(InsertNewest(m, ms))
  {
    if ms == [] {
    } else if Newer(m, ms[0]) {
      forall j | 0 < j < |ms| ensures Newer(m, ms[j]) {
        NewerIsTransitive(m, ms[0], ms[j]);
      }
    } else {
      var rest := InsertNewest(m, ms[1..]);
      InsertNewestKeepsOrder(m, ms[1..]);
      assert ms[0] in ms;
      NewerIsTotal(m, ms[0]);
      forall j | 0 <= j < |rest| ensures Newer(ms[0], rest[j]) {
        InsertNewestMembers(m, ms[1..], rest[j]);
        assert rest[j] in rest;
      }
    }
  }

  lemma {:induction false} NewestFirstSorts(ms: seq<Manifest>)
    requires DistinctIds(ms)
    ensures NewestOrder(NewestFirst(ms)) && |NewestFirst(ms)| == |ms|
    ensures forall x :: x in NewestFirst(ms) <==> x in ms
  {
    if ms == [] {
    } else {
      var n := |ms| - 1;
      NewestFirstSorts(ms[..n]);
      assert ms == ms[..n] + [ms[n]];
      InsertNewestKeepsOrder(ms[n], NewestFirst(ms[..n]));
      forall x ensures x in NewestFirst(ms) <==> x in ms {
        InsertNewestMembers(ms[n], NewestFirst(ms[..n]), x);
      }
      InsertNewestMembers(ms[n], NewestFirst(ms[..n]), ms[n]);
    }
  }

  function IdsOf(ms: seq<Manifest>): set<Uuid> {
    set i | 0 <= i < |ms| :: ms[i].snapshotId
  }

  function Take(ms: seq<Manifest>, n: nat): seq<Manifest> {
    if |ms| <= n then ms else ms[..n]
  }

  // ----- what to keep -----

  function EntryKeys(entries: seq<TableEntry>): set<string> {
    set e | e in entries :: e.contentKey
  }

  function ObjectKeys(entries: seq<ObjectEntry>): set<string> {
    set e | e in entries :: e.contentKey
  }

  // The keys of the blobs a manifest depends on.
  function RefKeys(m: Manifest): set<string> {
    EntryKeys(m.database.tables) + EntryKeys(m.database.changes) + ObjectKeys(m.objects)
  }

  // Collecting keys visits exactly the blobs that verification reads.
  lemma {:induction false} RefKeysAreRefs(m: Manifest)
    ensures forall i :: 0 <= i < |Refs(m)| ==> Refs(m)[i].key in RefKeys(m)
    ensures forall k :: k in RefKeys(m) ==> exists i :: 0 <= i < |Refs(m)| && Refs(m)[i].key == k
  {
    var o, t := |m.objects|, |m.database.tables|;
    forall i | 0 <= i < |Refs(m)| ensures Refs(m)[i].key in RefKeys(m) {
      if i < o {
        assert m.objects[i] in m.objects;
      } else if i < o + t {
        assert m.database.tables[i - o] in m.database.tables;
      } else {
        assert m.database.changes[i - o - t] in m.database.changes;
      }
    }
    forall k | k in RefKeys(m) ensures exists i :: 0 <= i < |Refs(m)| && Refs(m)[i].key == k {
      if k in ObjectKeys(m.objects) {
        var i :| 0 <= i < o && m.objects[i].contentKey == k;
        assert Refs(m)[i].key == k;
      } else if k in EntryKeys(m.database.tables) {
        var i :| 0 <= i < t && m.database.tables[i].contentKey == k;
        assert Refs(m)[o + i].key == k;
      } else {
        var i :| 0 <= i < |m.database.changes| && m.database.changes[i].contentKey == k;
        assert Refs(m)[o + t + i].key == k;
      }
    }
  }

  lemma {:induction false} EntryKeysSnoc(entries: seq<TableEntry>, i: nat)
    requires i < |entries|
    ensures EntryKeys(entries[..i + 1]) == EntryKeys(entries[..i]) + {entries[i].contentKey}
  {
    assert entries[..i + 1] == entries[..i] + [entries[i]];
  }

  lemma {:induction false} ObjectKeysSnoc(entries: seq<ObjectEntry>, i: nat)
    requires i < |entries|
    ensures ObjectKeys(entries[..i + 1]) == ObjectKeys(entries[..i]) + {entries[i].contentKey}
  {
    assert entries[..i + 1] == entries[..i] + [entries[i]];
  }

  // collect_reachable_keys
  method CollectReachableKeys(m: Manifest, reachable: set<string>) returns (keys: set<string>)
    ensures keys == reachable + RefKeys(m)
  {
    keys := reachable;
    for i := 0 to |m.database.tables|
      invariant keys == reachable + EntryKeys(m.database.tables[..i])
    {
      EntryKeysSnoc(m.database.tables, i);
      keys := keys + {m.database.tables[i].contentKey};
    }
    assert m.database.tables[..|m.database.tables|] == m.database.tables;
    ghost var mid := keys;
    assert mid == reachable + EntryKeys(m.database.tables);
    for i := 0 to |m.database.changes|
      invariant keys == mid + EntryKeys(m.database.changes[..i])
    {
      EntryKeysSnoc(m.database.changes, i);
      keys := keys + {m.database.changes[i].contentKey};
    }
    assert m.database.changes[..|m.database.changes|] == m.database.changes;
    ghost var last := keys;
    assert last == mid + EntryKeys(m.database.changes);
    for i := 0 to |m.objects|
      invariant keys == last + ObjectKeys(m.objects[..i])
    {
      ObjectKeysSnoc(m.objects, i);
      keys := keys + {m.objects[i].contentKey};
    }
    assert m.objects[..|m.objects|] == m.objects;
  }

  function RefKeysOf(ms: seq<Manifest>): set<string> {
    if ms == [] then {} else RefKeys(ms[0]) + RefKeysOf(ms[1..])
  }

  // The manifests on the chains of the selected ids.
  function ChainsOf(c: Codec, store: Store, selected: seq<Manifest>): Result<seq<Manifest>> {
    if selected == [] then Ok([])
    else
      var chain :- LoadChain(c, store, selected[0].snapshotId);
      var rest :- ChainsOf(c, store, selected[1..]);
      Ok(chain + rest)
  }

  // What a sweep removes: everything below the expired snapshots, and objects nobody reaches.
  datatype Plan = Plan(retained: set<Uuid>, expired: set<Uuid>, reachable: set<string>)

  function PlanPrune(c: Codec, store: Store, listing: seq<string>, keepLast: nat): Result<Plan> {
    var manifests :- LoadAll(c, store, listing);
    var kept :- ChainsOf(c, store, Take(NewestFirst(manifests), keepLast));
    Ok(Plan(IdsOf(kept), IdsOf(manifests) - IdsOf(kept), RefKeysOf(kept)))
  }

  lemma {:induction false} RefKeysConcat(a: seq<Manifest>, b: seq<Manifest>)
    ensures RefKeysOf(a + b) == RefKeysOf(a) + RefKeysOf(b)
    ensures IdsOf(a + b) == IdsOf(a) + IdsOf(b)
  {
    if a == [] {
      assert a + b == b;
    } else {
      assert (a + b)[1..] == a[1..] + b;
      RefKeysConcat(a[1..], b);
    }
    forall id | id in IdsOf(a) + IdsOf(b) ensures id in IdsOf(a + b) {
      if id in IdsOf(a) {
        var i :| 0 <= i < |a| && a[i].snapshotId == id;
        assert (a + b)[i].snapshotId == id;
      } else {
        var i :| 0 <= i < |b| && b[i].snapshotId == id;
        assert (a + b)[|a| + i].snapshotId == id;
      }
    }
  }

  // ----- sweeping -----

  predicate UnderAny(ids: set<Uuid>, key: string) {
    exists id :: id in ids && UnderSnapshot(id, key)
  }

  predicate Doomed(expired: set<Uuid>, reachable: set<string>, key: string) {
    UnderAny(expired, key) || (Under(OBJECTS_PREFIX, key) && key !in reachable)
  }

  function Swept(store: Store, expired: set<Uuid>, reachable: set<string>): Store {
    map k | k in store && !Doomed(expired, reachable, k) :: store[k]
  }

  function WithoutSnapshots(store: Store, ids: set<Uuid>): Store {
    map k | k in store && !UnderAny(ids, k) :: store[k]
  }

  // `after` is `before` with some of the targets gone and nothing else different.
  ghost predicate Trimmed(before: Store, after: Store, targets: iset<string>) {
    && (forall k :: k in after ==> k in before && after[k] == before[k])
    && (forall k :: k in before && k !in targets ==> k in after)
  }

  ghost function DoomedKeys(expired: set<Uuid>, reachable: set<string>): iset<string> {
    iset k | Doomed(expired, reachable, k)
  }

  // Every store of a history from `start` on is a partial sweep of these targets.
  ghost predicate TrimmedSince(before: Store, history: seq<Store>, start: nat, targets: iset<string>) {
    forall i :: start <= i < |history| ==> Trimmed(before, history[i], targets)
  }

  lemma {:induction false} OneMoreTrim(before: Store, history: seq<Store>, start: nat, targets: iset<string>,
      store: Store)
    requires TrimmedSince(before, history, start, targets) && Trimmed(before, store, targets)
    ensures TrimmedSince(before, history + [store], start, targets)
  {
  }

  function Without(store: Store, keys: seq<string>, spared: set<string>): Store {
    map k | k in store && (k !in keys || k in spared) :: store[k]
  }

  ghost function Targets(keys: seq<string>, spared: set<string>): iset<string> {
    iset k | k in keys && k !in spared
  }

  lemma {:induction false} WithoutOneMore(store: Store, keys: seq<string>, spared: set<string>, i: nat)
    requires i < |keys| && forall j, k :: 0 <= j < k < |keys| ==> keys[j] != keys[k]
    requires keys[i] in store
    ensures var current, next := Without(store, keys[..i], spared), Without(store, keys[..i + 1], spared);
            if keys[i] in spared then next == current
            else next == current - {keys[i]} && |next| == |current| - 1
  {
    var current, next := Without(store, keys[..i], spared), Without(store, keys[..i + 1], spared);
    assert forall k :: k in keys[..i + 1] <==> k in keys[..i] || k == keys[i];
    assert keys[i] !in keys[..i];
    if keys[i] !in spared {
      assert next.Keys == current.Keys - {keys[i]};
      assert |next| == |next.Keys| && |current| == |current.Keys|;
    }
  }

  lemma {:induction false} WithoutIsTrimmed(store: Store, keys: seq<string>, spared: set<string>, i: nat)
    requires i <= |keys|
    ensures Trimmed(store, Without(store, keys[..i], spared), Targets(keys, spared))
  {
  }

  // Deletes the listed keys that are not spared, one blob at a time, and counts them.
  method DeleteKeys(repository: Repository, keys: seq<string>, spared: set<string>) returns (r: Result<nat>)
    requires repository.Valid()
    requires forall i, j :: 0 <= i < j < |keys| ==> keys[i] != keys[j]
    requires forall k :: k in keys ==> k in repository.blobs
    modifies repository
    ensures repository.Valid() && old(repository.history) <= repository.history
    ensures Trimmed(old(repository.blobs), repository.blobs, Targets(keys, spared))
    ensures TrimmedSince(old(repository.blobs), repository.history, |old(repository.history)|, Targets(keys, spared))
    ensures r.Ok? ==> repository.blobs == Without(old(repository.blobs), keys, spared)
    ensures r.Ok? ==> r.value == |old(repository.blobs)| - |repository.blobs|
    ensures repository.failures >= old(repository.failures)
    ensures r.Err? ==> r.error == Storage && repository.failures > old(repository.failures)
  {
    ghost var before, targets := repository.blobs, Targets(keys, spared);
    var deleted := 0;
    assert Without(before, keys[..0], spared) == before;
    for i := 0 to |keys|
      invariant repository.Valid() && old(repository.history) <= repository.history
      invariant repository.failures >= old(repository.failures)
      invariant repository.blobs == Without(before, keys[..i], spared)
      invariant TrimmedSince(before, repository.history, |old(repository.history)|, targets)
      invariant deleted == |before| - |repository.blobs|
    {
      WithoutIsTrimmed(before, keys, spared, i);
      WithoutOneMore(before, keys, spared, i);
      if keys[i] !in spared {
        ghost var history := repository.history;
        var _ :- repository.DeleteBlob(keys[i]);
        WithoutIsTrimmed(before, keys, spared, i + 1);
        OneMoreTrim(before, history, |old(repository.history)|, targets, repository.blobs);
        deleted := deleted + 1;
      }
    }
    assert keys[..|keys|] == keys;
    WithoutIsTrimmed(before, keys, spared, |keys|);
    r := Ok(deleted);
  }

  lemma {:induction false} UnderAnyMore(done: set<Uuid>, id: Uuid, key: string)
    ensures UnderAny(done + {id}, key) <==> UnderAny(done, key) || UnderSnapshot(id, key)
  {
    if UnderSnapshot(id, key) {
      assert id in done + {id};
    }
    if UnderAny(done, key) {
      var x :| x in done && UnderSnapshot(x, key);
      assert x in done + {id};
    }
  }

  lemma {:induction false} TrimmedFurther(before: Store, mid: Store, after: Store, inner: iset<string>,
        outer: iset<string>)
    requires Trimmed(before, mid, outer) && Trimmed(mid, after, inner) && inner <= outer
    ensures Trimmed(before, after, outer)
  {
  }

  lemma {:induction false} TrimmedSinceFurther(before: Store, mid: Store, history: seq<Store>, start: nat,
        inner: iset<string>, outer: iset<string>)
    requires Trimmed(before, mid, outer) && inner <= outer
    requires TrimmedSince(mid, history, start, inner)
    ensures TrimmedSince(before, history, start, outer)
  {
    forall i | start <= i < |history| ensures Trimmed(before, history[i], outer) {
      TrimmedFurther(before, mid, history[i], inner, outer);
    }
  }

  // Deletes every blob below one snapshot.
  method DeleteBelow(repository: Repository, id: Uuid) returns (r: Result<nat>)
    requires repository.Valid()
    modifies repository
    ensures repository.Valid() && old(repository.history) <= repository.history
    ensures var targets := iset k | UnderSnapshot(id, k);
            && Trimmed(old(repository.blobs), repository.blobs, targets)
            && TrimmedSince(old(repository.blobs), repository.history, |old(repository.history)|, targets)
    ensures r.Ok? ==>
              repository.blobs ==
              map k | k in old(repository.blobs) && !UnderSnapshot(id, k) :: old(repository.blobs)[k]
    ensures r.Ok? ==> r.value == |old(repository.blobs)| - |repository.blobs|
    ensures repository.failures >= old(repository.failures)
    ensures r.Err? ==> r.error == Storage && repository.failures > old(repository.failures)
  {
    ghost var before := repository.blobs;
    var keys := repository.ListBlobs(SnapshotPrefix(id));
    r := DeleteKeys(repository, keys, {});
    ghost var inner, outer := Targets(keys, {}), iset k | UnderSnapshot(id, k);
    assert inner <= outer;
    TrimmedSinceFurther(before, before, repository.history, |old(repository.history)|, inner, outer);
    TrimmedFurther(before, before, repository.blobs, inner, outer);
  }

  // Deletes every blob below the given snapshots, in any order.
  method DeleteSnapshots(repository: Repository, expired: set<Uuid>) returns (r: Result<nat>)
    requires repository.Valid()
    modifies repository
    ensures repository.Valid() && old(repository.history) <= repository.history
    ensures var targets := iset k | UnderAny(expired, k);
            && Trimmed(old(repository.blobs), repository.blobs, targets)
            && TrimmedSince(old(repository.blobs), repository.history, |old(repository.history)|, targets)
    ensures r.Ok? ==> repository.blobs == WithoutSnapshots(old(repository.blobs), expired)
    ensures r.Ok? ==> r.value == |old(repository.blobs)| - |repository.blobs|
    ensures repository.failures >= old(repository.failures)
    ensures r.Err? ==> r.error == Storage && repository.failures > old(repository.failures)
  {
    ghost var before := repository.blobs;
    ghost var targets := iset k | UnderAny(expired, k);
    var todo, deleted := expired, 0;
    while todo != {}
      invariant repository.Valid() && old(repository.history) <= repository.history
      invariant repository.failures >= old(repository.failures)
      invariant todo <= expired
      invariant repository.blobs == WithoutSnapshots(before, expired - todo)
      invariant Trimmed(before, repository.blobs, targets)
      invariant TrimmedSince(before, repository.history, |old(repository.history)|, targets)
      invariant deleted == |before| - |repository.blobs|
    {
      var id :| id in todo;
      ghost var current, history := repository.blobs, repository.history;
      var count := DeleteBelow(repository, id);
      ghost var inner := iset k | UnderSnapshot(id, k);
      assert id in expired;
      assert inner <= targets;
      TrimmedFurther(before, current, repository.blobs, inner, targets);
      TrimmedSinceFurther(before, current, repository.history, |history|, inner, targets);
      var n :- count;
      forall k ensures UnderAny(expired - (todo - {id}), k) <==> UnderAny(expired - todo, k) || UnderSnapshot(id, k) {
        assert expired - (todo - {id}) == (expired - todo) + {id};
        UnderAnyMore(expired - todo, id, k);
      }
      deleted := deleted + n;
      todo := todo - {id};
    }
    assert expired - {} == expired;
    r := Ok(deleted);
  }

  // The two deletion loops shared by prune and delete_snapshot: expired snapshots, then unreached objects.
  method Sweep(repository: Repository, expired: set<Uuid>, reachable: set<string>) returns (r: Result<nat>)
    requires repository.Valid()
    modifies repository
    ensures repository.Valid() && old(repository.history) <= repository.history
    ensures Trimmed(old(repository.blobs), repository.blobs, DoomedKeys(expired, reachable))
    ensures TrimmedSince(old(repository.blobs), repository.history, |old(repository.history)|,
                         DoomedKeys(expired, reachable))
    ensures r.Ok? ==> repository.blobs == Swept(old(repository.blobs), expired, reachable)
    ensures r.Ok? ==> r.value == |old(repository.blobs)| - |repository.blobs|
    ensures repository.failures >= old(repository.failures)
    ensures r.Err? ==> r.error == Storage && repository.failures > old(repository.failures)
  {
    ghost var before, doomed := repository.blobs, DoomedKeys(expired, reachable);
    var snapshots := DeleteSnapshots(repository, expired);
    ghost var mid, start := repository.blobs, |repository.history|;
    ghost var below := iset k | UnderAny(expired, k);
    assert below <= doomed;
    TrimmedFurther(before, before, mid, below, doomed);
    TrimmedSinceFurther(before, before, repository.history, |old(repository.history)|, below, doomed);
    var deleted :- snapshots;
    var keys := repository.ListBlobs(OBJECTS_PREFIX);
    var objects := DeleteKeys(repository, keys, reachable);
    ghost var inner := Targets(keys, reachable);
    assert inner <= doomed;
    TrimmedFurther(before, mid, repository.blobs, inner, doomed);
    TrimmedSinceFurther(before, mid, repository.history, start, inner, doomed);
    var n :- objects;
    r := Ok(deleted + n);
  }

  // A finished sweep by this plan.
  ghost predicate SweptBy(store: Store, plan: Result<Plan>, after: Store) {
    plan.Ok? && after == Swept(store, plan.value.expired, plan.value.reachable)
  }

  // A sweep by this plan that stopped anywhere; without a plan nothing is deleted.
  ghost predicate TrimmedBy(store: Store, plan: Result<Plan>, after: Store) {
    match plan
    case Err(_) => after == store
    case Ok(p) => Trimmed(store, after, DoomedKeys(p.expired, p.reachable))
  }

  // ----- prune -----

  datatype PruneResult = PruneResult(retainedSnapshots: nat, deletedSnapshots: nat, deletedBlobs: nat)

  method RetainChain(chain: seq<Manifest>, retained: set<Uuid>, reachable: set<string>)
    returns (ids: set<Uuid>, keys: set<string>)
    ensures ids == retained + IdsOf(chain) && keys == reachable + RefKeysOf(chain)
  {
    ids, keys := retained, reachable;
    for k := 0 to |chain|
      invariant ids == retained + IdsOf(chain[..k])
      invariant keys == reachable + RefKeysOf(chain[..k])
    {
      RefKeysConcat(chain[..k], [chain[k]]);
      assert chain[..k + 1] == chain[..k] + [chain[k]];
      SingletonKeys(chain[k]);
      ids := ids + {chain[k].snapshotId};
      keys := CollectReachableKeys(chain[k], keys);
    }
    assert chain[..|chain|] == chain;
  }

  method PlanRetention(c: Codec, repository: Repository, keepLast: nat)
    returns (r: Result<Plan>, ghost listing: seq<string>)
    ensures Lists(listing, repository.blobs, SNAPSHOTS_PREFIX)
    ensures r == PlanPrune(c, repository.blobs, listing, keepLast)
    ensures r.Err? ==> IsDataError(r.error)
  {
    var store := repository.blobs;
    var loaded;
    loaded, listing := LoadAllManifests(c, repository);
    if loaded.Err? {
      return Err(loaded.error), listing;
    }
    var manifests := NewestFirst(loaded.value);
    var selected := Take(manifests, keepLast);
    var retained: set<Uuid> := {};
    var reachable: set<string> := {};
    ghost var kept: seq<Manifest> := [];
    assert selected[0..] == selected;
    OntoUnit([], ChainsOf(c, store, selected));
    for i := 0 to |selected|
      invariant retained == IdsOf(kept) && reachable == RefKeysOf(kept)
      invariant Onto(kept, ChainsOf(c, store, selected[i..])) == ChainsOf(c, store, selected)
    {
      assert selected[i..][1..] == selected[i + 1..];
      var chain := LoadManifestChain(c, repository, selected[i].snapshotId);
      if chain.Err? {
        return Err(chain.error), listing;
      }
      OntoConcat(kept, chain.value, ChainsOf(c, store, selected[i + 1..]));
      RefKeysConcat(kept, chain.value);
      retained, reachable := RetainChain(chain.value, retained, reachable);
      kept := kept + chain.value;
    }
    OntoUnit(kept, Ok([]));
    r := Ok(Plan(retained, IdsOf(loaded.value) - retained, reachable));
  }

  lemma {:induction false} SingletonKeys(m: Manifest)
    ensures IdsOf([m]) == {m.snapshotId} && RefKeysOf([m]) == RefKeys(m)
  {
    assert [m][1..] == [];
    assert [m][0].snapshotId in IdsOf([m]);
  }

  // A finished prune and what it reports.
  ghost predicate Pruned(c: Codec, before: Store, listing: seq<string>, keepLast: nat, r: PruneResult, after: Store) {
    var plan := PlanPrune(c, before, listing, keepLast);
    && SweptBy(before, plan, after)
    && r.retainedSnapshots == |plan.value.retained|
    && r.deletedSnapshots == |plan.value.expired|
    && r.deletedBlobs == |before| - |after|
  }

  // prune_inner. Everything is loaded and decided before the first delete.
  method Prune(c: Codec, repository: Repository, keepLast: nat)
    returns (r: Result<PruneResult>, ghost listing: seq<string>)
    requires repository.Valid()
    modifies repository
    ensures repository.failures >= old(repository.failures)
    ensures repository.Valid() && old(repository.history) <= repository.history
    ensures r.Err? ==> IsDataError(r.error) || (r.error == Storage && repository.failures > old(repository.failures))
    ensures Lists(listing, old(repository.blobs), SNAPSHOTS_PREFIX)
    ensures var plan := PlanPrune(c, old(repository.blobs), listing, keepLast);
            && (plan.Err? ==> r == Err(plan.error) && repository.history == old(repository.history))
            && (plan.Ok? && r.Err? ==> r.error == Storage && repository.failures > old(repository.failures))
            && TrimmedBy(old(repository.blobs), plan, repository.blobs)
            && (forall i :: |old(repository.history)| <= i < |repository.history| ==>
                  TrimmedBy(old(repository.blobs), plan, repository.history[i]))
    ensures r.Ok? ==> Pruned(c, old(repository.blobs), listing, keepLast, r.value, repository.blobs)
    ensures HasAlteredManifest(c, old(repository.blobs)) ==> r.Err? && repository.history == old(repository.history)
  {
    var planned;
    planned, listing := PlanRetention(c, repository, keepLast);
    if HasAlteredManifest(c, repository.blobs) {
      AlteredListingIsRefused(c, repository.blobs, listing);
    }
    if planned.Err? {
      return Err(planned.error), listing;
    }
    var plan := planned.value;
    var deleted := Sweep(repository, plan.expired, plan.reachable);
    if deleted.Err? {
      return Err(deleted.error), listing;
    }
    r := Ok(PruneResult(|plan.retained|, |plan.expired|, deleted.value));
  }

  // ----- delete_snapshot -----

  datatype DeleteSnapshotResult = DeleteSnapshotResult(deletedBlobs: nat, retainedSnapshots: nat)

  function Others(ms: seq<Manifest>, id: Uuid): seq<Manifest> {
    if ms == [] then []
    else (if ms[0].snapshotId != id then [ms[0]] else []) + Others(ms[1..], id)
  }

  predicate HasId(ms: seq<Manifest>, id: Uuid) {
    exists i :: 0 <= i < |ms| && ms[i].snapshotId == id
  }

  predicate HasChild(ms: seq<Manifest>, id: Uuid) {
    exists i :: 0 <= i < |ms| && ms[i].parent == Some(id)
  }

  // Refused when the snapshot is missing or some manifest names it as parent.
  function PlanDelete(c: Codec, store: Store, listing: seq<string>, id: Uuid): Result<Plan> {
    var manifests :- LoadAll(c, store, listing);
    if !HasId(manifests, id) then Err(MissingBlob(ManifestKey(id)))
    else if HasChild(manifests, id) then Err(InvalidManifestChain)
    else Ok(Plan(IdsOf(Others(manifests, id)), {id}, RefKeysOf(Others(manifests, id))))
  }

  method CollectOthers(manifests: seq<Manifest>, id: Uuid) returns (reachable: set<string>)
    ensures reachable == RefKeysOf(Others(manifests, id))
  {
    reachable := {};
    assert manifests[0..] == manifests;
    for i := 0 to |manifests|
      invariant reachable + RefKeysOf(Others(manifests[i..], id)) == RefKeysOf(Others(manifests, id))
    {
      assert manifests[i..][1..] == manifests[i + 1..];
      var head := if manifests[i].snapshotId != id then [manifests[i]] else [];
      RefKeysConcat(head, Others(manifests[i + 1..], id));
      SingletonKeys(manifests[i]);
      if manifests[i].snapshotId != id {
        reachable := CollectReachableKeys(manifests[i], reachable);
      }
    }
  }

  // A finished delete and what it reports.
  ghost predicate Deleted(c: Codec, before: Store, listing: seq<string>, id: Uuid, r: DeleteSnapshotResult,
      after: Store)
  {
    && SweptBy(before, PlanDelete(c, before, listing, id), after)
    && r.deletedBlobs == |before| - |after|
    && r.retainedSnapshots == |LoadAll(c, before, listing).value| - 1
  }

  // delete_snapshot_inner. Reachability depends on the manifests already loaded, so collecting it before
  // the first delete or after the snapshot's own blobs are gone is the same.
  method DeleteSnapshot(c: Codec, repository: Repository, id: Uuid)
    returns (r: Result<DeleteSnapshotResult>, ghost listing: seq<string>)
    requires repository.Valid()
    modifies repository
    ensures repository.failures >= old(repository.failures)
    ensures repository.Valid() && old(repository.history) <= repository.history
    ensures r.Err? ==> IsDataError(r.error) || (r.error == Storage && repository.failures > old(repository.failures))
    ensures Lists(listing, old(repository.blobs), SNAPSHOTS_PREFIX)
    ensures var plan := PlanDelete(c, old(repository.blobs), listing, id);
            && (plan.Err? ==> r == Err(plan.error) && repository.history == old(repository.history))
            && (plan.Ok? && r.Err? ==> r.error == Storage && repository.failures > old(repository.failures))
            && TrimmedBy(old(repository.blobs), plan, repository.blobs)
            && (forall i :: |old(repository.history)| <= i < |repository.history| ==>
                  TrimmedBy(old(repository.blobs), plan, repository.history[i]))
    ensures r.Ok? ==> Deleted(c, old(repository.blobs), listing, id, r.value, repository.blobs)
    ensures HasAlteredManifest(c, old(repository.blobs)) ==> r.Err? && repository.history == old(repository.history)
  {
    var loaded;
    loaded, listing := LoadAllManifests(c, repository);
    if HasAlteredManifest(c, repository.blobs) {
      AlteredListingIsRefused(c, repository.blobs, listing);
    }
    if loaded.Err? {
      return Err(loaded.error), listing;
    }
    var manifests := loaded.value;
    if !HasId(manifests, id) {
      return Err(MissingBlob(ManifestKey(id))), listing;
    }
    if HasChild(manifests, id) {
      return Err(InvalidManifestChain), listing;
    }
    var reachable := CollectOthers(manifests, id);
    var deleted := Sweep(repository, {id}, reachable);
    if deleted.Err? {
      return Err(deleted.error), listing;
    }
    r := Ok(DeleteSnapshotResult(deleted.value, |manifests| - 1));
  }
}
