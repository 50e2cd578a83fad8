// A backup repository: atomic operations on a map of blobs, and the prefixing adapter over a shared blob store.
module Repositories {
  import opened Types
  import opened Keys

  function Get(store: Store, key: string): Result<Bytes> {
    if key in store then Ok(store[key]) else Err(MissingBlob(key))
  }

  // A listing of the keys under a prefix, each once, in whatever order the backend returns them.
  ghost predicate Lists(keys: seq<string>, store: Store, prefix: string) {
    && (forall i, j :: 0 <= i < j < |keys| ==> keys[i] != keys[j])
    && (forall k :: k in keys <==> k in store && Under(prefix, k))
  }

  // Writes and deletes may fail without effect; the caller then stops.
  class Repository {
    var blobs: Store
    // Every store this repository has held, oldest first.
    ghost var history: seq<Store>
    // How many calls have failed.
    ghost var failures: nat

    ghost predicate Valid()
      reads this
    {
      history != [] && history[|history| - 1] == blobs
    }

    constructor (blobs: Store)
      ensures Valid() && this.blobs == blobs && history == [blobs] && failures == 0
    {
      this.blobs := blobs;
      history := [blobs];
      failures := 0;
    }

    method PutBlob(key: string, body: Bytes) returns (r: Result<()>)
      requires Valid()
      modifies this
      ensures Valid()
      ensures r.Ok? ==> blobs == old(blobs)[key := body] && history == old(history) + [blobs]
      ensures r.Err? ==> r == Err(Storage) && blobs == old(blobs) && history == old(history)
      ensures failures == if r.Ok? then old(failures) else old(failures) + 1
    {
      if * {
        failures := failures + 1;
        return Err(Storage);
      }
      blobs := blobs[key := body];
      history := history + [blobs];
      r := Ok(());
    }

    // Atomic, as in the blob-store adapter.
    method PutBlobIfAbsent(key: string, body: Bytes) returns (r: Result<bool>)
      requires Valid()
      modifies this
      ensures Valid()
      ensures r.Ok? ==> r.value == (key !in old(blobs))
      ensures failures == if r.Ok? then old(failures) else old(failures) + 1
      ensures if r == Ok(true) then blobs == old(blobs)[key := body] && history == old(history) + [blobs]
              else blobs == old(blobs) && history == old(history)
      ensures r.Err? ==> r == Err(Storage)
    {
      if * {
        failures := failures + 1;
        return Err(Storage);
      }
      if key in blobs {
        return Ok(false);
      }
      blobs := blobs[key := body];
      history := history + [blobs];
      r := Ok(true);
    }

    method GetBlob(key: string) returns (r: Result<Bytes>)
      ensures r == Get(blobs, key)
    {
      r := Get(blobs, key);
    }

    method ListBlobs(prefix: string) returns (keys: seq<string>)
      ensures Lists(keys, blobs, prefix)
    {
      keys := [];
      var todo := set k | k in blobs && Under(prefix, k);
      while todo != {}
        invariant forall k :: k in blobs && Under(prefix, k) <==> k in todo || k in keys
        invariant forall k :: k in keys ==> k !in todo
        invariant forall i, j :: 0 <= i < j < |keys| ==> keys[i] != keys[j]
      {
        var k :| k in todo;
        todo := todo - {k};
        keys := keys + [k];
      }
    }

    // Deletes the blob if it exists.
    method DeleteBlob(key: string) returns (r: Result<()>)
      requires Valid()
      modifies this
      ensures Valid()
      ensures r.Ok? ==> blobs == old(blobs) - {key} && history == old(history) + [blobs]
      ensures r.Err? ==> r == Err(Storage) && blobs == old(blobs) && history == old(history)
      ensures failures == if r.Ok? then old(failures) else old(failures) + 1
    {
      if * {
        failures := failures + 1;
        return Err(Storage);
      }
      blobs := blobs - {key};
      history := history + [blobs];
      r := Ok(());
    }
  }

  // ----- BlobStoreBackupRepository -----

  function ApplyPrefix(prefix: Option<string>, key: string): string {
    match prefix
    case Some(p) => p + "/" + key
    case None => key
  }

  function ApplyPrefixToList(prefix: Option<string>, list: string): string {
    match prefix
    case Some(p) => if list == "" then p else p + "/" + list
    case None => list
  }

  function StripPrefix(prefix: Option<string>, key: string): string {
    match prefix
    case None => key
    case Some(p) => if p <= key && "/" <= key[|p|..] then key[|p| + 1..] else key
  }

  // The keys of the shared store that belong to this repository.
  predicate Owns(prefix: Option<string>, full: string) {
    match prefix
    case Some(p) => p + "/" <= full
    case None => true
  }

  // Keys of a prefixed repository lie below the prefix and a slash; without a prefix they are as they are.
  lemma {:induction false} PrefixLayout(key: string)
    ensures ApplyPrefix(Some("backups"), "a/b") == "backups/a/b" && ApplyPrefix(None, key) == key
    ensures Owns(Some("backups"), "backups/a") && !Owns(Some("backups"), "backups2/a") && Owns(None, key)
  {
    assert "backups/a/b" == "backups" + "/" + "a/b";
    assert "backups2/a"[7] == '2';
  }

  // The repository a prefix carves out of a shared blob store.
  ghost function View(prefix: Option<string>, store: Store): Store {
    map key | key in (set full | full in store && Owns(prefix, full) :: StripPrefix(prefix, full)) ::
      (ViewKey(prefix, store, key); store[ApplyPrefix(prefix, key)])
  }

  lemma {:induction false} PrefixRoundTrip(prefix: Option<string>, key: string)
    ensures Owns(prefix, ApplyPrefix(prefix, key))
    ensures StripPrefix(prefix, ApplyPrefix(prefix, key)) == key
    ensures Owns(prefix, key) ==> ApplyPrefix(prefix, StripPrefix(prefix, key)) == key
  {
    if prefix.Some? {
      var full := ApplyPrefix(prefix, key);
      assert full[..|prefix.value|] == prefix.value && full[|prefix.value|..] == "/" + key;
      assert full[..|prefix.value| + 1] == prefix.value + "/";
      if Owns(prefix, key) {
        assert key == key[..|prefix.value| + 1] + key[|prefix.value| + 1..];
        assert key[|prefix.value|] == (prefix.value + "/")[|prefix.value|];
        assert key[..|prefix.value|] == prefix.value;
      }
    }
  }

  lemma {:induction false} ViewKey(prefix: Option<string>, store: Store, key: string)
    ensures key in (set full | full in store && Owns(prefix, full) :: StripPrefix(prefix, full))
        <==> ApplyPrefix(prefix, key) in store
  {
    PrefixRoundTrip(prefix, key);
    forall full | full in store && Owns(prefix, full) && StripPrefix(prefix, full) == key
      ensures full == ApplyPrefix(prefix, key)
    {
      PrefixRoundTrip(prefix, full);
    }
  }

  lemma {:induction false} ViewHas(prefix: Option<string>, store: Store, key: string)
    ensures Get(View(prefix, store), key).Ok? == Get(store, ApplyPrefix(prefix, key)).Ok?
    ensures key in View(prefix, store) ==> View(prefix, store)[key] == store[ApplyPrefix(prefix, key)]
  {
    ViewKey(prefix, store, key);
  }

  // Writing through the prefix is writing to the view, and touches no foreign key.
  lemma {:induction false} ViewOfPut(prefix: Option<string>, store: Store, key: string, body: Bytes)
    ensures View(prefix, store[ApplyPrefix(prefix, key) := body]) == View(prefix, store)[key := body]
  {
    var after := store[ApplyPrefix(prefix, key) := body];
    forall k
      ensures k in View(prefix, after) <==> k in View(prefix, store)[key := body]
      ensures k in View(prefix, after) ==> View(prefix, after)[k] == View(prefix, store)[key := body][k]
    {
      ViewKey(prefix, after, k);
      ViewKey(prefix, store, k);
      PrefixRoundTrip(prefix, k);
      PrefixRoundTrip(prefix, key);
    }
  }

  lemma {:induction false} ViewOfDelete(prefix: Option<string>, store: Store, key: string)
    ensures View(prefix, store - {ApplyPrefix(prefix, key)}) == View(prefix, store) - {key}
  {
    var after := store - {ApplyPrefix(prefix, key)};
    forall k
      ensures k in View(prefix, after) <==> k in View(prefix, store) - {key}
      ensures k in View(prefix, after) ==> View(prefix, after)[k] == (View(prefix, store) - {key})[k]
    {
      ViewKey(prefix, after, k);
      ViewKey(prefix, store, k);
      PrefixRoundTrip(prefix, k);
      PrefixRoundTrip(prefix, key);
    }
  }

  // What the adapter's list_blobs returns, as a set.
  ghost function Listed(prefix: Option<string>, store: Store, list: string): set<string> {
    set full | full in store && Under(ApplyPrefixToList(prefix, list), full) :: StripPrefix(prefix, full)
  }

  // Listing a non-empty prefix through the adapter is listing it in the view.
  lemma {:induction false} ListingIsViewListing(prefix: Option<string>, store: Store, list: string)
    requires list != ""
    ensures Listed(prefix, store, list) == set k | k in View(prefix, store) && Under(list, k)
  {
    forall full | full in store && Under(ApplyPrefixToList(prefix, list), full)
      ensures StripPrefix(prefix, full) in View(prefix, store) && Under(list, StripPrefix(prefix, full))
    {
      if prefix.Some? {
        var p := prefix.value;
        assert full[..|p| + 1] == (p + "/" + list)[..|p| + 1] == p + "/";
        assert full[..|p| + 1 + |list|][|p| + 1..] == list == full[|p| + 1..][..|list|];
      }
      PrefixRoundTrip(prefix, full);
      ViewKey(prefix, store, StripPrefix(prefix, full));
    }
    forall k | k in View(prefix, store) && Under(list, k)
      ensures k in Listed(prefix, store, list)
    {
      ViewKey(prefix, store, k);
      PrefixRoundTrip(prefix, k);
      var full := ApplyPrefix(prefix, k);
      if prefix.Some? {
        assert full[..|prefix.value| + 1 + |list|] == prefix.value + "/" + list;
      }
      assert full in store && Under(ApplyPrefixToList(prefix, list), full);
    }
  }

  lemma {:induction false} StrippedListing(prefix: Option<string>, store: Store, list: string, fulls: seq<string>,
      keys: seq<string>)
    requires forall full :: full in fulls <==> full in store && Under(ApplyPrefixToList(prefix, list), full)
    requires forall i, j :: 0 <= i < j < |fulls| ==> fulls[i] != fulls[j]
    requires |keys| == |fulls| && forall i :: 0 <= i < |fulls| ==> keys[i] == StripPrefix(prefix, fulls[i])
    ensures forall k :: k in keys <==> k in Listed(prefix, store, list)
    ensures list != "" ==> Lists(keys, View(prefix, store), list)
  {
    forall k | k in Listed(prefix, store, list) ensures k in keys {
      var full :| full in store && Under(ApplyPrefixToList(prefix, list), full) && StripPrefix(prefix, full) == k;
      var i :| 0 <= i < |fulls| && fulls[i] == full;
      assert keys[i] == k;
    }
    forall k | k in keys ensures k in Listed(prefix, store, list) {
      var i :| 0 <= i < |keys| && keys[i] == k;
      assert fulls[i] in fulls;
    }
    if list != "" {
      ListingIsViewListing(prefix, store, list);
      forall i, j | 0 <= i < j < |keys| ensures keys[i] != keys[j] {
        OwnedIsRestored(prefix, list, fulls[i]);
        OwnedIsRestored(prefix, list, fulls[j]);
      }
    }
  }

  lemma {:induction false} OwnedIsRestored(prefix: Option<string>, list: string, full: string)
    requires list != "" && Under(ApplyPrefixToList(prefix, list), full)
    ensures Owns(prefix, full) && ApplyPrefix(prefix, StripPrefix(prefix, full)) == full
  {
    if prefix.Some? {
      var p := prefix.value;
      assert full[..|p| + 1] == (p + "/" + list)[..|p| + 1] == p + "/";
    }
    PrefixRoundTrip(prefix, full);
  }

  // Listing everything leaks sibling keys: it is the view exactly when no key of the shared store
  // starts with the bare prefix without being owned, unless that very name is also a key of the view.
  lemma {:induction false} ListingAllIsViewIff(p: string, store: Store)
    ensures Listed(Some(p), store, "") == View(Some(p), store).Keys
       <==> forall full :: full in store && Under(p, full) && !Owns(Some(p), full) ==> full in View(Some(p), store)
  {
    var prefix := Some(p);
    var listed, keys := Listed(prefix, store, ""), View(prefix, store).Keys;
    forall k | k in keys ensures k in listed {
      ViewKey(prefix, store, k);
      PrefixRoundTrip(prefix, k);
      var full := ApplyPrefix(prefix, k);
      assert full[..|p|] == p;
      assert StripPrefix(prefix, full) in listed;
    }
    forall full | full in store && Under(p, full)
      ensures StripPrefix(prefix, full) in listed
      ensures Owns(prefix, full) ==> StripPrefix(prefix, full) in keys
      ensures !Owns(prefix, full) ==> StripPrefix(prefix, full) == full
    {
      if "/" <= full[|p|..] {
        assert full[..|p| + 1] == p + "/";
      }
    }
  }

  // A sibling repository whose prefix continues this one shows up in it.
  lemma {:induction false} SiblingIsListed(body: Bytes)
    ensures var store := map["repository/x" := body];
            Listed(Some("repo"), store, "") != View(Some("repo"), store).Keys
  {
    var store, full := map["repository/x" := body], "repository/x";
    assert full[..4] == "repo" && full[4] == 's';
    assert full in store && Under("repo", full) && !Owns(Some("repo"), full);
    ViewKey(Some("repo"), store, full);
    assert ApplyPrefix(Some("repo"), full)[4] == '/';
    ListingAllIsViewIff("repo", store);
  }

  class BlobStoreRepository {
    const prefix: Option<string>
    var store: Store

    constructor (prefix: Option<string>, store: Store)
      ensures this.prefix == prefix && this.store == store
    {
      this.prefix := prefix;
      this.store := store;
    }

    method PutBlob(key: string, body: Bytes)
      modifies this
      ensures View(prefix, store) == View(prefix, old(store))[key := body]
      ensures forall full :: !Owns(prefix, full) ==> Get(store, full) == Get(old(store), full)
    {
      ViewOfPut(prefix, store, key, body);
      PrefixRoundTrip(prefix, key);
      store := store[ApplyPrefix(prefix, key) := body];
    }

    method PutBlobIfAbsent(key: string, body: Bytes) returns (written: bool)
      modifies this
      ensures written == (key !in View(prefix, old(store)))
      ensures View(prefix, store) ==
              if written then View(prefix, old(store))[key := body] else View(prefix, old(store))
      ensures forall full :: !Owns(prefix, full) ==> Get(store, full) == Get(old(store), full)
    {
      ViewKey(prefix, store, key);
      ViewOfPut(prefix, store, key, body);
      PrefixRoundTrip(prefix, key);
      written := ApplyPrefix(prefix, key) !in store;
      if written {
        store := store[ApplyPrefix(prefix, key) := body];
      }
    }

    method GetBlob(key: string) returns (r: Option<Bytes>)
      ensures r == if key in View(prefix, store) then Some(View(prefix, store)[key]) else None
    {
      ViewHas(prefix, store, key);
      var full := ApplyPrefix(prefix, key);
      r := if full in store then Some(store[full]) else None;
    }

    // For a non-empty prefix this is a listing of the view; for the empty one see ListingAllIsViewIff.
    method ListBlobs(list: string) returns (keys: seq<string>)
      ensures forall k :: k in keys <==> k in Listed(prefix, store, list)
      ensures list != "" ==> Lists(keys, View(prefix, store), list)
    {
      keys := [];
      ghost var done: seq<string> := [];
      var todo := set full | full in store && Under(ApplyPrefixToList(prefix, list), full);
      ghost var all := todo;
      while todo != {}
        invariant todo <= all
        invariant |keys| == |done| && forall i :: 0 <= i < |done| ==> keys[i] == StripPrefix(prefix, done[i])
        invariant forall full :: full in done <==> full in all && full !in todo
        invariant forall i, j :: 0 <= i < j < |done| ==> done[i] != done[j]
      {
        var full :| full in todo;
        todo := todo - {full};
        assert forall i :: 0 <= i < |done| ==> done[i] in done;
        done := done + [full];
        keys := keys + [StripPrefix(prefix, full)];
      }
      StrippedListing(prefix, store, list, done, keys);
    }

    method DeleteBlob(key: string)
      modifies this
      ensures View(prefix, store) == View(prefix, old(store)) - {key}
      ensures forall full :: !Owns(prefix, full) ==> Get(store, full) == Get(old(store), full)
    {
      ViewOfDelete(prefix, store, key);
      PrefixRoundTrip(prefix, key);
      store := store - {ApplyPrefix(prefix, key)};
    }
  }
}
