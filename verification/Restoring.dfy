// Restoring a snapshot chain into a database, or only checking that it could be restored.
module Restoring {
  import opened Types
  import opened Payload
  import opened Repositories
  import opened Manifests
  import opened Verification
  import opened Database

  // ----- loading payloads -----

  function DecodePayload(c: Codec, bytes: Bytes, compression: Compression): Result<Bytes> {
    match compression
    case Uncompressed => Ok(bytes)
    case Zstd =>
      match c.decompress(bytes)
      case Some(payload) => Ok(payload)
      case None => Err(Error.Compression)
  }

  function LoadEntries<T(!new)>(c: Codec, k: EntryCodec<T>, store: Store, db: DatabaseManifest,
        key: string): Result<seq<T>> {
    if db.exportFormat != EXPORT_FORMAT then Err(UnsupportedOperation)
    else
      var stored :- Get(store, key);
      var payload :- DecodePayload(c, stored, db.compression);
      ParseLines(k, Lines(payload))
  }

  function LoadTables(c: Codec, store: Store, db: DatabaseManifest,
        entries: seq<TableEntry>): Result<seq<TableExport>> {
    if entries == [] then Ok([])
    else
      var rows :- LoadEntries(c, c.rows, store, db, entries[0].contentKey);
      var rest :- LoadTables(c, store, db, entries[1..]);
      Ok([TableExport(entries[0].tableName, rows)] + rest)
  }

  function LoadChanges(c: Codec, store: Store, db: DatabaseManifest, entries: seq<TableEntry>): Result<seq<Change>> {
    if entries == [] then Ok([])
    else
      var changes :- LoadEntries(c, c.changes, store, db, entries[0].contentKey);
      var rest :- LoadChanges(c, store, db, entries[1..]);
      Ok(changes + rest)
  }

  function TablesOf(c: Codec, store: Store, m: Manifest): Result<seq<TableExport>> {
    LoadTables(c, store, m.database, m.database.tables)
  }

  function ChangesOf(c: Codec, store: Store, m: Manifest): Result<seq<Change>> {
    LoadChanges(c, store, m.database, m.database.changes)
  }

  // The outcome of reading one payload: a foreign format is refused before anything is read; otherwise the stored
  // bytes are taken as they are or decompressed, as the manifest says, and parsed line by line.
  ghost predicate ReadsPayload<T(!new)>(c: Codec, k: EntryCodec<T>, store: Store, db: DatabaseManifest, key: string,
      r: Result<seq<T>>)
  {
    if db.exportFormat != "jsonl" then r == Err(UnsupportedOperation)
    else if key !in store then r == Err(MissingBlob(key))
    else
      var text := if db.compression == Uncompressed then Some(store[key]) else c.decompress(store[key]);
      match text
      case None => r == Err(Error.Compression)
      case Some(payload) => r == ParseLines(k, Lines(payload))
  }

  lemma {:induction false} LoadEntriesReads<T(!new)>(c: Codec, k: EntryCodec<T>, store: Store, db: DatabaseManifest,
      key: string)
    ensures ReadsPayload(c, k, store, db, key, LoadEntries(c, k, store, db, key))
  {
  }

  method LoadJsonlEntries<T(!new)>(c: Codec, k: EntryCodec<T>, repository: Repository, m: Manifest, entry: TableEntry)
    returns (r: Result<seq<T>>)
    ensures r == LoadEntries(c, k, repository.blobs, m.database, entry.contentKey)
    ensures ReadsPayload(c, k, repository.blobs, m.database, entry.contentKey, r)
  {
    if m.database.exportFormat != EXPORT_FORMAT {
      return Err(UnsupportedOperation);
    }
    var stored :- repository.GetBlob(entry.contentKey);
    var payload :- DecodePayload(c, stored, m.database.compression);
    r := ParseJsonl(k, payload);
  }

  method LoadTableExports(c: Codec, repository: Repository, m: Manifest) returns (r: Result<seq<TableExport>>)
    ensures r == TablesOf(c, repository.blobs, m)
  {
    var entries := m.database.tables;
    var exports: seq<TableExport> := [];
    assert entries[0..] == entries;
    OntoUnit([], TablesOf(c, repository.blobs, m));
    for i := 0 to |entries|
      invariant Onto(exports, LoadTables(c, repository.blobs, m.database, entries[i..]))
                == TablesOf(c, repository.blobs, m)
    {
      assert entries[i..][1..] == entries[i + 1..];
      var rows :- LoadJsonlEntries(c, c.rows, repository, m, entries[i]);
      var table := TableExport(entries[i].tableName, rows);
      ghost var rest := LoadTables(c, repository.blobs, m.database, entries[i + 1..]);
      assert rest.Ok? ==> exports + ([table] + rest.value) == exports + [table] + rest.value;
      exports := exports + [table];
    }
    OntoUnit(exports, Ok([]));
    r := Ok(exports);
  }

  method LoadChangeExports(c: Codec, repository: Repository, m: Manifest) returns (r: Result<seq<Change>>)
    ensures r == ChangesOf(c, repository.blobs, m)
  {
    var entries := m.database.changes;
    var changes: seq<Change> := [];
    assert entries[0..] == entries;
    OntoUnit([], ChangesOf(c, repository.blobs, m));
    for i := 0 to |entries|
      invariant Onto(changes, LoadChanges(c, repository.blobs, m.database, entries[i..]))
                == ChangesOf(c, repository.blobs, m)
    {
      assert entries[i..][1..] == entries[i + 1..];
      var more :- LoadJsonlEntries(c, c.changes, repository, m, entries[i]);
      ghost var rest := LoadChanges(c, repository.blobs, m.database, entries[i + 1..]);
      assert rest.Ok? ==> changes + (more + rest.value) == changes + more + rest.value;
      changes := changes + more;
    }
    OntoUnit(changes, Ok([]));
    r := Ok(changes);
  }

  lemma {:induction false} LoadTablesErrors(c: Codec, store: Store, db: DatabaseManifest, entries: seq<TableEntry>)
    ensures LoadTables(c, store, db, entries).Err? ==> IsDataError(LoadTables(c, store, db, entries).error)
  {
    if entries == [] {
    } else {
      PayloadErrors(c, c.rows, store, db, entries[0].contentKey);
      LoadTablesErrors(c, store, db, entries[1..]);
    }
  }

  lemma {:induction false} LoadChangesErrors(c: Codec, store: Store, db: DatabaseManifest, entries: seq<TableEntry>)
    ensures LoadChanges(c, store, db, entries).Err? ==> IsDataError(LoadChanges(c, store, db, entries).error)
  {
    if entries == [] {
    } else {
      PayloadErrors(c, c.changes, store, db, entries[0].contentKey);
      LoadChangesErrors(c, store, db, entries[1..]);
    }
  }

  lemma {:induction false} PayloadErrors<T(!new)>(c: Codec, k: EntryCodec<T>, store: Store, db: DatabaseManifest,
      key: string)
    ensures LoadEntries(c, k, store, db, key).Err? ==> IsDataError(LoadEntries(c, k, store, db, key).error)
  {
    if key in store {
      var text := DecodePayload(c, store[key], db.compression);
      if text.Ok? {
        ParsesIff(k, Lines(text.value));
      }
    }
  }

  // ----- what a snapshot restores to -----

  // The change lists of the manifests, one list per manifest, in chain order.
  function ChangeLists(c: Codec, store: Store, ms: seq<Manifest>): Result<seq<seq<Change>>> {
    if ms == [] then Ok([])
    else
      var changes :- ChangesOf(c, store, ms[0]);
      var rest :- ChangeLists(c, store, ms[1..]);
      Ok([changes] + rest)
  }

  function ApplyLists(db: Db, lists: seq<seq<Change>>): Db
    decreases |lists|
  {
    if lists == [] then db else ApplyLists(ApplyChanges(db, lists[0]), lists[1..])
  }

  ghost predicate AllComplete(c: Codec, store: Store, chain: seq<Manifest>) {
    forall i :: 0 <= i < |chain| ==> Complete(c, store, chain[i])
  }

  // The database a snapshot stands for, when it can be restored at all.
  ghost function Restored(c: Codec, store: Store, id: Uuid): Option<Db> {
    match LoadChain(c, store, id)
    case Err(_) => None
    case Ok(chain) =>
      if !AllComplete(c, store, chain) then None
      else
        match (TablesOf(c, store, chain[0]), ChangeLists(c, store, chain[1..]))
        case (Ok(tables), Ok(lists)) => Some(ApplyLists(InsertTables(map[], tables), lists))
        case _ => None
  }

  // All the changes of some lists, in order.
  function Flattened(lists: seq<seq<Change>>): seq<Change> {
    if lists == [] then [] else lists[0] + Flattened(lists[1..])
  }

  lemma {:induction false} ApplyConcat(db: Db, a: seq<Change>, b: seq<Change>)
    ensures ApplyChanges(db, a + b) == ApplyChanges(ApplyChanges(db, a), b)
    decreases |a|
  {
    if a == [] {
      assert a + b == b;
    } else {
      assert (a + b)[1..] == a[1..] + b;
      ApplyConcat(ApplyChange(db, a[0]), a[1..], b);
    }
  }

  lemma {:induction false} ApplyFlattened(db: Db, lists: seq<seq<Change>>)
    ensures ApplyLists(db, lists) == ApplyChanges(db, Flattened(lists))
    decreases |lists|
  {
    if lists == [] {
    } else {
      ApplyFlattened(ApplyChanges(db, lists[0]), lists[1..]);
      ApplyConcat(db, lists[0], Flattened(lists[1..]));
    }
  }

  // The row under a key after an export and some change lists: that of the last change of the key that does
  // something, or else the one exported last.
  function FinalRow(tables: seq<TableExport>, lists: seq<seq<Change>>, name: string, pk: string): Option<Row> {
    match LastEffect(Flattened(lists), name, pk)
    case Some(row) => row
    case None => LastExported(tables, name, pk)
  }

  // What a snapshot restores to, key by key.
  lemma {:induction false} RestoredRow(c: Codec, store: Store, id: Uuid, chain: seq<Manifest>, name: string, pk: string)
    requires LoadChain(c, store, id) == Ok(chain) && Restored(c, store, id).Some?
    ensures TablesOf(c, store, chain[0]).Ok? && ChangeLists(c, store, chain[1..]).Ok?
    ensures Find(Restored(c, store, id).value, name, pk)
         == FinalRow(TablesOf(c, store, chain[0]).value, ChangeLists(c, store, chain[1..]).value, name, pk)
  {
    var tables, lists := TablesOf(c, store, chain[0]).value, ChangeLists(c, store, chain[1..]).value;
    ApplyFlattened(InsertTables(map[], tables), lists);
    ChangedRow(InsertTables(map[], tables), Flattened(lists), name, pk);
    InsertedExport(map[], tables, name, pk);
  }

  // ----- restore_snapshot -----

  datatype RestoreMode = EmptyDatabase | DryRun

  datatype RestoreResult = RestoreResult(chainLength: nat, tableCount: nat, rowCount: nat, changeCount: nat)

  function RowTotal(tables: seq<TableExport>): nat {
    if tables == [] then 0 else |tables[0].rows| + RowTotal(tables[1..])
  }

  function ChangeTotal(lists: seq<seq<Change>>): nat {
    if lists == [] then 0 else |lists[0]| + ChangeTotal(lists[1..])
  }

  // All the rows of some tables, in order.
  function AllRows(tables: seq<TableExport>): seq<Row> {
    if tables == [] then [] else tables[0].rows + AllRows(tables[1..])
  }

  lemma {:induction false} RowTotalCounts(tables: seq<TableExport>)
    ensures RowTotal(tables) == |AllRows(tables)|
  {
    if tables == [] {
    } else {
      RowTotalCounts(tables[1..]);
    }
  }

  lemma {:induction false} ChangeTotalCounts(lists: seq<seq<Change>>)
    ensures ChangeTotal(lists) == |Flattened(lists)|
  {
    if lists == [] {
    } else {
      ChangeTotalCounts(lists[1..]);
    }
  }

  // Chain, checksums and schema are in order for a target of this schema.
  ghost predicate Admitted(c: Codec, store: Store, schema: Schema, id: Uuid) {
    var chain := LoadChain(c, store, id);
    && chain.Ok?
    && AllComplete(c, store, chain.value)
    && chain.value[0].backend == schema.backend
    && chain.value[0].schemaHash == schema.schemaHash
  }

  ghost predicate Parses(c: Codec, store: Store, chain: seq<Manifest>)
    requires chain != []
  {
    TablesOf(c, store, chain[0]).Ok? && ChangeLists(c, store, chain[1..]).Ok?
  }

  // The gates are open and every payload parses: nothing but the adapter can fail a restore into an empty target.
  ghost predicate Restorable(c: Codec, store: Store, schema: Schema, id: Uuid) {
    Admitted(c, store, schema, id) && Parses(c, store, LoadChain(c, store, id).value)
  }

  // The report of a successful run, dry or not: it depends on the repository alone.
  function Report(c: Codec, store: Store, chain: seq<Manifest>): RestoreResult
    requires chain != [] && TablesOf(c, store, chain[0]).Ok? && ChangeLists(c, store, chain[1..]).Ok?
  {
    var tables := TablesOf(c, store, chain[0]).value;
    RestoreResult(|chain|, |tables|, RowTotal(tables), ChangeTotal(ChangeLists(c, store, chain[1..]).value))
  }

  // The report counts the snapshots of the chain, and the tables, rows and changes that were read.
  lemma {:induction false} ReportCounts(c: Codec, store: Store, chain: seq<Manifest>)
    requires chain != [] && Parses(c, store, chain)
    ensures var report := Report(c, store, chain);
            var tables, lists := TablesOf(c, store, chain[0]).value, ChangeLists(c, store, chain[1..]).value;
            && report.chainLength == |chain| && report.tableCount == |tables|
            && report.rowCount == |AllRows(tables)| && report.changeCount == |Flattened(lists)|
  {
    RowTotalCounts(TablesOf(c, store, chain[0]).value);
    ChangeTotalCounts(ChangeLists(c, store, chain[1..]).value);
  }

  // Incrementals are applied until the first that does not load.
  function AppliedUntilFailure(c: Codec, store: Store, db: Db, ms: seq<Manifest>): Db
    decreases |ms|
  {
    if ms == [] then db
    else
      match ChangesOf(c, store, ms[0])
      case Err(_) => db
      case Ok(changes) => AppliedUntilFailure(c, store, ApplyChanges(db, changes), ms[1..])
  }

  // What a run leaves in an empty target if the adapter does not fail.
  function LeftBehind(c: Codec, store: Store, chain: seq<Manifest>): Db
    requires chain != []
  {
    match TablesOf(c, store, chain[0])
    case Err(_) => map[]
    case Ok(tables) => AppliedUntilFailure(c, store, InsertTables(map[], tables), chain[1..])
  }

  // Application stops at the first change list that does not load.
  lemma {:induction false} AppliedUntil(c: Codec, store: Store, db: Db, ms: seq<Manifest>) returns (k: nat)
    ensures k <= |ms| && ChangeLists(c, store, ms[..k]).Ok?
    ensures k < |ms| ==> ChangesOf(c, store, ms[k]).Err?
    ensures AppliedUntilFailure(c, store, db, ms) == ApplyLists(db, ChangeLists(c, store, ms[..k]).value)
    decreases |ms|
  {
    if ms == [] || ChangesOf(c, store, ms[0]).Err? {
      k := 0;
    } else {
      var changes := ChangesOf(c, store, ms[0]).value;
      var n := AppliedUntil(c, store, ApplyChanges(db, changes), ms[1..]);
      k := n + 1;
      assert ms[..k][1..] == ms[1..][..n];
      assert ([changes] + ChangeLists(c, store, ms[1..][..n]).value)[1..] == ChangeLists(c, store, ms[1..][..n]).value;
    }
  }

  lemma {:induction false} PrefixIsChain(c: Codec, store: Store, id: Uuid, chain: seq<Manifest>, k: nat)
    requires LoadChain(c, store, id) == Ok(chain) && k < |chain| - 1
    ensures LoadChain(c, store, chain[k].snapshotId) == Ok(chain[..k + 1])
  {
    LoadChainIff(c, store, id, chain);
    PrefixIsValid(chain, k);
    assert LoadManifest(c, store, chain[k].snapshotId) == Ok(chain[k]);
    LoadChainIff(c, store, chain[k].snapshotId, chain[..k + 1]);
  }

  lemma {:induction false} PrefixIsValid(chain: seq<Manifest>, k: nat)
    requires ValidChain(chain) && k < |chain|
    ensures ValidChain(chain[..k + 1])
  {
    var prefix := chain[..k + 1];
    forall i | 0 < i < |prefix| ensures prefix[i].parent == Some(prefix[i - 1].snapshotId) {
      assert chain[i].parent == Some(chain[i - 1].snapshotId);
    }
  }

  // A restore that a payload stops leaves exactly what an ancestor stands for: the last one whose own payloads and
  // those above it all parse.
  lemma {:induction false} FailedRestoreLeavesAncestor(c: Codec, store: Store, id: Uuid, chain: seq<Manifest>)
    returns (k: nat)
    requires LoadChain(c, store, id) == Ok(chain) && AllComplete(c, store, chain)
    requires TablesOf(c, store, chain[0]).Ok? && !Parses(c, store, chain)
    ensures k < |chain| - 1 && ChangesOf(c, store, chain[k + 1]).Err?
    ensures Restored(c, store, chain[k].snapshotId) == Some(LeftBehind(c, store, chain))
  {
    var tables := TablesOf(c, store, chain[0]).value;
    k := AppliedUntil(c, store, InsertTables(map[], tables), chain[1..]);
    assert chain[1..][..|chain| - 1] == chain[1..];
    assert k < |chain| - 1;
    var prefix := chain[..k + 1];
    PrefixIsChain(c, store, id, chain, k);
    assert prefix[0] == chain[0] && prefix[1..] == chain[1..][..k];
    assert AllComplete(c, store, prefix);
  }

  // Such an ancestor, with an incremental on it that does not parse.
  ghost predicate StopsAfter(c: Codec, store: Store, chain: seq<Manifest>, k: nat, db: Db) {
    k + 1 < |chain| && ChangesOf(c, store, chain[k + 1]).Err? && Restored(c, store, chain[k].snapshotId) == Some(db)
  }

  // A failed restore is all or nothing exactly when the root does not parse or the ancestor it stops after stands
  // for the empty database.
  lemma {:induction false} FailedRestoreIsAllOrNothingIff(c: Codec, store: Store, id: Uuid, chain: seq<Manifest>)
    requires LoadChain(c, store, id) == Ok(chain) && AllComplete(c, store, chain) && !Parses(c, store, chain)
    ensures LeftBehind(c, store, chain) == map[]
       <==> TablesOf(c, store, chain[0]).Err? || exists k: nat :: StopsAfter(c, store, chain, k, map[])
  {
    if TablesOf(c, store, chain[0]).Ok? {
      var k := FailedRestoreLeavesAncestor(c, store, id, chain);
      assert StopsAfter(c, store, chain, k, LeftBehind(c, store, chain));
      forall j: nat | StopsAfter(c, store, chain, j, map[]) ensures j == k {
        OnlyOneStop(c, store, id, chain, j, k);
      }
    }
  }

  lemma {:induction false} StopsOnce(c: Codec, store: Store, ms: seq<Manifest>, k: nat)
    requires k < |ms| && ChangesOf(c, store, ms[k]).Err?
    ensures ChangeLists(c, store, ms).Err?
  {
    if k == 0 {
    } else {
      StopsOnce(c, store, ms[1..], k - 1);
    }
  }

  lemma {:induction false} OnlyOneStop(c: Codec, store: Store, id: Uuid, chain: seq<Manifest>, j: nat, k: nat)
    requires LoadChain(c, store, id) == Ok(chain) && j + 1 < |chain| && k + 1 < |chain|
    requires ChangesOf(c, store, chain[j + 1]).Err? && ChangesOf(c, store, chain[k + 1]).Err?
    requires Restored(c, store, chain[j].snapshotId).Some? && Restored(c, store, chain[k].snapshotId).Some?
    ensures j == k
  {
    PrefixIsChain(c, store, id, chain, j);
    PrefixIsChain(c, store, id, chain, k);
    if j < k {
      assert chain[..k + 1][1..][j] == chain[j + 1];
      StopsOnce(c, store, chain[..k + 1][1..], j);
    } else if k < j {
      assert chain[..j + 1][1..][k] == chain[k + 1];
      StopsOnce(c, store, chain[..j + 1][1..], k);
    }
  }

  lemma {:induction false} AppliedCompletely(c: Codec, store: Store, db: Db, ms: seq<Manifest>)
    requires ChangeLists(c, store, ms).Ok?
    ensures AppliedUntilFailure(c, store, db, ms) == ApplyLists(db, ChangeLists(c, store, ms).value)
    decreases |ms|
  {
    if ms == [] {
    } else {
      AppliedCompletely(c, store, ApplyChanges(db, ChangesOf(c, store, ms[0]).value), ms[1..]);
    }
  }

  // The database adapter as a restore target. Each of its calls may fail; what a failed import leaves behind is
  // up to the adapter.
  class RestoreTarget {
    var db: Db
    const schema: Schema
    // How many of its calls have failed.
    ghost var failures: nat

    constructor (schema: Schema, db: Db)
      ensures this.schema == schema && this.db == db && failures == 0
    {
      this.schema := schema;
      this.db := db;
      failures := 0;
    }

    method SchemaSnapshot() returns (r: Result<Schema>)
      modifies this`failures
      ensures r == Ok(schema) || r == Err(Adapter)
      ensures failures == if r.Ok? then old(failures) else old(failures) + 1
    {
      if * {
        failures := failures + 1;
        return Err(Adapter);
      }
      r := Ok(schema);
    }

    method IsEmpty() returns (r: Result<bool>)
      modifies this`failures
      ensures r == Ok(db == map[]) || r == Err(Adapter)
      ensures failures == if r.Ok? then old(failures) else old(failures) + 1
    {
      if * {
        failures := failures + 1;
        return Err(Adapter);
      }
      r := Ok(db == map[]);
    }

    method RestoreFull(tables: seq<TableExport>) returns (r: Result<()>)
      modifies this
      ensures r.Ok? ==> db == InsertTables(old(db), tables)
      ensures r.Err? ==> r == Err(Adapter)
      ensures failures == if r.Ok? then old(failures) else old(failures) + 1
    {
      if * {
        failures := failures + 1;
        db := *;
        return Err(Adapter);
      }
      db := InsertTables(db, tables);
      r := Ok(());
    }

    method RestoreIncremental(changes: seq<Change>) returns (r: Result<()>)
      modifies this
      ensures r.Ok? ==> db == ApplyChanges(old(db), changes)
      ensures r.Err? ==> r == Err(Adapter)
      ensures failures == if r.Ok? then old(failures) else old(failures) + 1
    {
      if * {
        failures := failures + 1;
        db := *;
        return Err(Adapter);
      }
      db := ApplyChanges(db, changes);
      r := Ok(());
    }
  }

  // Loads the incrementals of a chain one after the other, applying each before the next is loaded.
  method RestoreIncrementals(c: Codec, repository: Repository, target: RestoreTarget, chain: seq<Manifest>,
      mode: RestoreMode) returns (r: Result<nat>)
    requires chain != []
    modifies target
    ensures target.failures >= old(target.failures) && (r == Err(Adapter) ==> target.failures > old(target.failures))
    ensures r.Err? ==> IsDataError(r.error) || r.error == Adapter
    ensures r.Ok? ==> ChangeLists(c, repository.blobs, chain[1..]).Ok?
    ensures ChangeLists(c, repository.blobs, chain[1..]).Ok? && r.Err? ==> mode == EmptyDatabase && r.error == Adapter
    ensures r.Ok? ==> r.value == ChangeTotal(ChangeLists(c, repository.blobs, chain[1..]).value)
    ensures mode == DryRun ==> target.db == old(target.db)
    ensures mode == EmptyDatabase && r != Err(Adapter) ==>
              target.db == AppliedUntilFailure(c, repository.blobs, old(target.db), chain[1..])
  {
    ghost var store := repository.blobs;
    var changeCount := 0;
    for i := 1 to |chain|
      invariant ChangeLists(c, store, chain[1..]).Ok? <==> ChangeLists(c, store, chain[i..]).Ok?
      invariant ChangeLists(c, store, chain[i..]).Ok? ==>
                  changeCount + ChangeTotal(ChangeLists(c, store, chain[i..]).value) ==
                  ChangeTotal(ChangeLists(c, store, chain[1..]).value)
      invariant target.failures >= old(target.failures)
      invariant mode == DryRun ==> target.db == old(target.db)
      invariant mode == EmptyDatabase ==>
                  AppliedUntilFailure(c, store, target.db, chain[i..])
                  == AppliedUntilFailure(c, store, old(target.db), chain[1..])
    {
      assert chain[i..][1..] == chain[i + 1..];
      LoadChangesErrors(c, store, chain[i].database, chain[i].database.changes);
      var changes :- LoadChangeExports(c, repository, chain[i]);
      changeCount := changeCount + |changes|;
      if mode != DryRun {
        var _ :- target.RestoreIncremental(changes);
      }
    }
    assert chain[|chain|..] == [];
    r := Ok(changeCount);
  }

  // Verifies each manifest of a chain with everything it references, as restore and compaction do first.
  method VerifyChain(c: Codec, repository: Repository, chain: seq<Manifest>) returns (r: Result<()>)
    ensures r.Ok? <==> AllComplete(c, repository.blobs, chain)
    ensures r.Err? ==> IsDataError(r.error)
  {
    for i := 0 to |chain|
      invariant forall j :: 0 <= j < i ==> Complete(c, repository.blobs, chain[j])
    {
      var _ :- VerifyManifestAndObjects(c, repository, chain[i]);
    }
    r := Ok(());
  }

  // verify_restore_schema
  method VerifyRestoreSchema(target: RestoreTarget, root: Manifest) returns (r: Result<()>)
    modifies target`failures
    ensures r.Ok? ==> target.failures == old(target.failures)
    ensures r.Ok? ==> root.backend == target.schema.backend && root.schemaHash == target.schema.schemaHash
    ensures r.Err? ==>
              || (r.error == Adapter && target.failures > old(target.failures))
              || (&& r.error == RestoreSchemaMismatch && target.failures == old(target.failures)
                  && (root.backend != target.schema.backend || root.schemaHash != target.schema.schemaHash))
  {
    var schema :- target.SchemaSnapshot();
    if root.backend != schema.backend || root.schemaHash != schema.schemaHash {
      return Err(RestoreSchemaMismatch);
    }
    r := Ok(());
  }

  // A dry run does not ask whether the target is empty.
  method EnsureEmptyTarget(target: RestoreTarget, mode: RestoreMode) returns (r: Result<()>)
    modifies target`failures
    ensures r.Ok? ==> target.failures == old(target.failures) && (mode == DryRun || target.db == map[])
    ensures r.Err? ==> mode == EmptyDatabase
    ensures r.Err? ==>
              || (r.error == Adapter && target.failures > old(target.failures))
              || (r.error == RestoreTargetNotEmpty && target.failures == old(target.failures) && target.db != map[])
  {
    if mode == EmptyDatabase {
      var empty :- target.IsEmpty();
      if !empty {
        return Err(RestoreTargetNotEmpty);
      }
    }
    r := Ok(());
  }

  // The import behind the gates: the root, then the incrementals.
  method ImportChain(c: Codec, repository: Repository, target: RestoreTarget, chain: seq<Manifest>, mode: RestoreMode)
    returns (r: Result<RestoreResult>)
    requires chain != []
    modifies target
    ensures target.failures >= old(target.failures) && (r == Err(Adapter) ==> target.failures > old(target.failures))
    ensures r.Err? ==> IsDataError(r.error) || r.error == Adapter
    ensures r.Ok? ==> Parses(c, repository.blobs, chain) && r.value == Report(c, repository.blobs, chain)
    ensures Parses(c, repository.blobs, chain) ==> r.Ok? || r.error == Adapter
    ensures mode == DryRun ==> target.db == old(target.db)
    ensures mode == EmptyDatabase && old(target.db) == map[] && r != Err(Adapter) ==>
              target.db == LeftBehind(c, repository.blobs, chain)
  {
    LoadTablesErrors(c, repository.blobs, chain[0].database, chain[0].database.tables);
    var tables :- LoadTableExports(c, repository, chain[0]);
    var rowCount := CountRows(tables);
    if mode != DryRun {
      var _ :- target.RestoreFull(tables);
    }
    var changeCount :- RestoreIncrementals(c, repository, target, chain, mode);
    r := Ok(RestoreResult(|chain|, |tables|, rowCount, changeCount));
  }

  method CountRows(tables: seq<TableExport>) returns (n: nat)
    ensures n == RowTotal(tables)
  {
    n := 0;
    assert tables[0..] == tables;
    for i := 0 to |tables|
      invariant n + RowTotal(tables[i..]) == RowTotal(tables)
    {
      assert tables[i..][1..] == tables[i + 1..];
      n := n + |tables[i].rows|;
    }
  }

  method RestoreSnapshot(c: Codec, repository: Repository, target: RestoreTarget, id: Uuid, mode: RestoreMode)
    returns (r: Result<RestoreResult>)
    modifies target
    // A failure of the adapter is one that happened.
    ensures target.failures >= old(target.failures) && (r == Err(Adapter) ==> target.failures > old(target.failures))
    // Success takes the gates, an empty target unless dry, and payloads that parse; then only the adapter can fail.
    ensures r.Ok? ==>
              Restorable(c, repository.blobs, target.schema, id) && (mode == EmptyDatabase ==> old(target.db) == map[])
    ensures Restorable(c, repository.blobs, target.schema, id) && (mode == DryRun || old(target.db) == map[]) ==>
              r.Ok? || r.error == Adapter
    // The report does not depend on the mode: a dry run foretells the report of an applying run.
    ensures r.Ok? ==> r.value == Report(c, repository.blobs, LoadChain(c, repository.blobs, id).value)
    // What is refused, in the order of the gates.
    ensures var chain := LoadChain(c, repository.blobs, id);
            && (chain.Err? ==> r == Err(chain.error))
            && (chain.Ok? && AllComplete(c, repository.blobs, chain.value) ==>
                  Admitted(c, repository.blobs, target.schema, id)
                  || r == Err(RestoreSchemaMismatch) || r == Err(Adapter))
    ensures Admitted(c, repository.blobs, target.schema, id) && mode == EmptyDatabase && old(target.db) != map[] ==>
              r == Err(RestoreTargetNotEmpty) || r == Err(Adapter)
    ensures r.Ok? && mode == EmptyDatabase ==> Some(target.db) == Restored(c, repository.blobs, id)
    // Each refusal has its reason.
    ensures r == Err(RestoreSchemaMismatch) ==> !Admitted(c, repository.blobs, target.schema, id)
    ensures r == Err(RestoreTargetNotEmpty) ==> mode == EmptyDatabase && old(target.db) != map[]
    ensures r.Err? ==>
              IsDataError(r.error) || r.error == RestoreSchemaMismatch || r.error == RestoreTargetNotEmpty
              || r.error == Adapter
    // The target is touched only behind the gates, and never by a dry run.
    ensures mode == DryRun || !Admitted(c, repository.blobs, target.schema, id) || old(target.db) != map[]
            ==> target.db == old(target.db)
    // A run that fails later, not in the adapter, leaves exactly the root and the incrementals before the one
    // that failed.
    ensures mode == EmptyDatabase && Admitted(c, repository.blobs, target.schema, id) && old(target.db) == map[]
            && r != Err(Adapter) ==>
              target.db == LeftBehind(c, repository.blobs, LoadChain(c, repository.blobs, id).value)
  {
    var store := repository.blobs;
    var chain :- LoadManifestChain(c, repository, id);
    var _ :- VerifyChain(c, repository, chain);
    var root := chain[0];
    var _ :- VerifyRestoreSchema(target, root);
    var _ :- EnsureEmptyTarget(target, mode);
    r := ImportChain(c, repository, target, chain, mode);
    if r.Ok? {
      AllIsApplied(c, store, chain);
    }
  }

  lemma {:induction false} AllIsApplied(c: Codec, store: Store, chain: seq<Manifest>)
    requires chain != [] && Parses(c, store, chain)
    ensures var tables, lists := TablesOf(c, store, chain[0]).value, ChangeLists(c, store, chain[1..]).value;
            LeftBehind(c, store, chain) == ApplyLists(InsertTables(map[], tables), lists)
  {
    AppliedCompletely(c, store, InsertTables(map[], TablesOf(c, store, chain[0]).value), chain[1..]);
  }

  // ----- what restoring reads -----

  lemma {:induction false} LoadTablesKept(c: Codec, before: Store, after: Store, db: DatabaseManifest,
        entries: seq<TableEntry>)
    requires LoadTables(c, before, db, entries).Ok?
    requires forall i :: 0 <= i < |entries| ==> Kept(before, after, entries[i].contentKey)
    ensures LoadTables(c, after, db, entries) == LoadTables(c, before, db, entries)
  {
    if entries == [] {
    } else {
      assert Kept(before, after, entries[0].contentKey);
      LoadTablesKept(c, before, after, db, entries[1..]);
    }
  }

  lemma {:induction false} LoadChangesKept(c: Codec, before: Store, after: Store, db: DatabaseManifest,
        entries: seq<TableEntry>)
    requires LoadChanges(c, before, db, entries).Ok?
    requires forall i :: 0 <= i < |entries| ==> Kept(before, after, entries[i].contentKey)
    ensures LoadChanges(c, after, db, entries) == LoadChanges(c, before, db, entries)
  {
    if entries == [] {
    } else {
      assert Kept(before, after, entries[0].contentKey);
      LoadChangesKept(c, before, after, db, entries[1..]);
    }
  }

  lemma {:induction false} PayloadKeysAreRefs(before: Store, after: Store, m: Manifest)
    requires KeptRefs(before, after, m)
    ensures forall i :: 0 <= i < |m.database.tables| ==> Kept(before, after, m.database.tables[i].contentKey)
    ensures forall i :: 0 <= i < |m.database.changes| ==> Kept(before, after, m.database.changes[i].contentKey)
  {
    var n := |m.objects|;
    forall i | 0 <= i < |m.database.tables| ensures Kept(before, after, m.database.tables[i].contentKey) {
      assert Refs(m)[n + i].key == m.database.tables[i].contentKey;
    }
    forall i | 0 <= i < |m.database.changes| ensures Kept(before, after, m.database.changes[i].contentKey) {
      assert Refs(m)[n + |m.database.tables| + i].key == m.database.changes[i].contentKey;
    }
  }

  lemma {:induction false} ChangeListsKept(c: Codec, before: Store, after: Store, ms: seq<Manifest>)
    requires ChangeLists(c, before, ms).Ok?
    requires forall i :: 0 <= i < |ms| ==> KeptRefs(before, after, ms[i])
    ensures ChangeLists(c, after, ms) == ChangeLists(c, before, ms)
  {
    if ms == [] {
    } else {
      PayloadKeysAreRefs(before, after, ms[0]);
      LoadChangesKept(c, before, after, ms[0].database, ms[0].database.changes);
      ChangeListsKept(c, before, after, ms[1..]);
    }
  }

  // While the blobs of its chain are kept, a snapshot stands for the same database.
  lemma {:induction false} KeptChainRestoresSame(c: Codec, before: Store, after: Store, id: Uuid, chain: seq<Manifest>)
    requires Restored(c, before, id).Some?
    requires LoadChain(c, before, id) == Ok(chain) && chain[|chain| - 1].snapshotId == id
    requires KeptChain(before, after, chain)
    ensures LoadChain(c, after, id) == Ok(chain)
    ensures Restored(c, after, id) == Restored(c, before, id)
  {
    KeptChainStillLoads(c, before, after, id, chain);
    forall i | 0 <= i < |chain| ensures Complete(c, after, chain[i]) {
      KeptStaysComplete(c, before, after, chain[i]);
    }
    assert KeptRefs(before, after, chain[0]);
    PayloadKeysAreRefs(before, after, chain[0]);
    LoadTablesKept(c, before, after, chain[0].database, chain[0].database.tables);
    ChangeListsKept(c, before, after, chain[1..]);
  }
}
