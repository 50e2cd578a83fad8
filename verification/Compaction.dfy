// Compaction: replaying a chain into ordered maps and writing the result as one synthetic full snapshot.
module Compaction {
  import opened Types
  import opened Ordering
  import opened Repositories
  import opened Manifests
  import opened Database
  import opened Objects
  import opened Restoring
  import opened Backups

  datatype CompactChainRequest = CompactChainRequest(
    snapshotId: Uuid, sourceId: Uuid, createdAt: int, appId: string, appVersion: string)

  // ----- replaying rows -----

  // Rows by primary key, by table name; a table that was ever touched is present, if empty.
  type Tables = map<string, map<string, Row>>

  function RowsOf(tables: Tables, name: string): map<string, Row> {
    if name in tables then tables[name] else map[]
  }

  function AddRows(rows: map<string, Row>, more: seq<Row>): map<string, Row>
    decreases |more|
  {
    if more == [] then rows else AddRows(rows[more[0].primaryKey := more[0]], more[1..])
  }

  function ReplayTables(tables: Tables, exports: seq<TableExport>): Tables
    decreases |exports|
  {
    if exports == [] then tables
    else
      var name := exports[0].tableName;
      ReplayTables(tables[name := AddRows(RowsOf(tables, name), exports[0].rows)], exports[1..])
  }

  function ReplayChange(tables: Tables, change: Change): Tables {
    var rows := RowsOf(tables, change.tableName);
    tables[change.tableName :=
      if change.action == Delete then rows - {change.primaryKey}
      else if change.row.Some? then rows[change.primaryKey := change.row.value]
      else rows]
  }

  function ReplayChanges(tables: Tables, changes: seq<Change>): Tables
    decreases |changes|
  {
    if changes == [] then tables else ReplayChanges(ReplayChange(tables, changes[0]), changes[1..])
  }

  function ReplayLists(tables: Tables, lists: seq<seq<Change>>): Tables
    decreases |lists|
  {
    if lists == [] then tables else ReplayLists(ReplayChanges(tables, lists[0]), lists[1..])
  }

  // ----- the maps and the database they stand for -----

  function Lookup(tables: Tables, name: string, pk: string): Option<Row> {
    var rows := RowsOf(tables, name);
    if pk in rows then Some(rows[pk]) else None
  }

  ghost predicate Represents(tables: Tables, db: Db) {
    forall name, pk :: Lookup(tables, name, pk) == Find(db, name, pk)
  }

  lemma {:induction false} RepresentsOneDatabase(tables: Tables, a: Db, b: Db)
    requires Represents(tables, a) && Represents(tables, b)
    ensures a == b
  {
    forall k: (string, string) ensures k in a <==> k in b ensures k in a && k in b ==> a[k] == b[k] {
      assert Find(a, k.0, k.1) == Lookup(tables, k.0, k.1) == Find(b, k.0, k.1);
    }
  }

  lemma {:induction false} ReplayRowsRepresents(tables: Tables, db: Db, name: string, rows: map<string, Row>,
        more: seq<Row>)
    requires Represents(tables[name := rows], db)
    ensures Represents(tables[name := AddRows(rows, more)], InsertRows(db, name, more))
    decreases |more|
  {
    if more == [] {
    } else {
      var pk := more[0].primaryKey;
      var rows', db' := rows[pk := more[0]], db[(name, pk) := more[0]];
      forall n, k ensures Lookup(tables[name := rows'], n, k) == Find(db', n, k) {
        assert Lookup(tables[name := rows], n, k) == Find(db, n, k);
      }
      ReplayRowsRepresents(tables, db', name, rows', more[1..]);
    }
  }

  lemma {:induction false} ReplayTablesRepresents(tables: Tables, db: Db, exports: seq<TableExport>)
    requires Represents(tables, db)
    ensures Represents(ReplayTables(tables, exports), InsertTables(db, exports))
    decreases |exports|
  {
    if exports == [] {
    } else {
      var name, more := exports[0].tableName, exports[0].rows;
      var rows := RowsOf(tables, name);
      forall n, k ensures Lookup(tables[name := rows], n, k) == Find(db, n, k) {
        assert Lookup(tables, n, k) == Find(db, n, k);
      }
      ReplayRowsRepresents(tables, db, name, rows, more);
      ReplayTablesRepresents(tables[name := AddRows(rows, more)], InsertRows(db, name, more), exports[1..]);
    }
  }

  lemma {:induction false} ReplayChangesRepresents(tables: Tables, db: Db, changes: seq<Change>)
    requires Represents(tables, db)
    ensures Represents(ReplayChanges(tables, changes), ApplyChanges(db, changes))
    decreases |changes|
  {
    if changes == [] {
    } else {
      var tables', db' := ReplayChange(tables, changes[0]), ApplyChange(db, changes[0]);
      forall n, k ensures Lookup(tables', n, k) == Find(db', n, k) {
        assert Lookup(tables, n, k) == Find(db, n, k);
      }
      ReplayChangesRepresents(tables', db', changes[1..]);
    }
  }

  // Replaying into ordered maps computes the database that restoring the chain would.
  lemma {:induction false} ReplayListsRepresents(tables: Tables, db: Db, lists: seq<seq<Change>>)
    requires Represents(tables, db)
    ensures Represents(ReplayLists(tables, lists), ApplyLists(db, lists))
    decreases |lists|
  {
    if lists == [] {
    } else {
      ReplayChangesRepresents(tables, db, lists[0]);
      ReplayListsRepresents(ReplayChanges(tables, lists[0]), ApplyChanges(db, lists[0]), lists[1..]);
    }
  }

  // ----- listing the maps in key order -----

  function Picked(rows: map<string, Row>, keys: seq<string>): seq<Row>
    requires forall k :: k in keys ==> k in rows
  {
    seq(|keys|, i requires 0 <= i < |keys| => assert keys[i] in keys; rows[keys[i]])
  }

  function RowsInOrder(rows: map<string, Row>): seq<Row> {
    Picked(rows, Sorted(rows.Keys))
  }

  function Exports(tables: Tables, names: seq<string>): seq<TableExport>
    requires forall n :: n in names ==> n in tables
  {
    seq(|names|, i requires 0 <= i < |names| =>
      assert names[i] in names; TableExport(names[i], RowsInOrder(tables[names[i]])))
  }

  // Tables by name, each with its rows by primary key: the order in which nested BTreeMaps yield them.
  function Listing(tables: Tables): seq<TableExport> {
    Exports(tables, Sorted(tables.Keys))
  }

  ghost predicate RowsWellKeyed(rows: map<string, Row>) {
    forall pk :: pk in rows ==> rows[pk].primaryKey == pk
  }

  ghost predicate TablesWellKeyed(tables: Tables) {
    forall name :: name in tables ==> RowsWellKeyed(tables[name])
  }

  // The maps that reading a listing back gives: the same tables, each row under its own primary key, the last
  // one winning.
  function Rekeyed(tables: Tables): Tables {
    map n | n in tables :: AddRows(map[], RowsInOrder(tables[n]))
  }

  lemma {:induction false} AddOneTable(start: Tables, tables: Tables, names: seq<string>)
    requires names != [] && forall n :: n in names ==> n in tables
    ensures start[names[0] := tables[names[0]]] + (map n | n in names[1..] :: tables[n])
         == start + (map n | n in names :: tables[n])
  {
    assert names[0] in names;
    assert forall n :: n in names <==> n == names[0] || n in names[1..];
  }

  lemma {:induction false} OthersAreLater(names: seq<string>)
    requires names != [] && Ascending(names)
    ensures Ascending(names[1..]) && forall n :: n in names[1..] ==> n in names && n != names[0]
  {
    AscendingIsInjective(names);
  }

  lemma {:induction false} FirstTableReloads(start: Tables, tables: Tables, names: seq<string>)
    requires names != [] && forall n :: n in names ==> n in tables && n !in start
    ensures names[0] in Rekeyed(tables)
    ensures ReplayTables(start, Exports(tables, names))
         == ReplayTables(start[names[0] := Rekeyed(tables)[names[0]]], Exports(tables, names[1..]))
  {
    assert names[0] in names;
    assert Exports(tables, names)[1..] == Exports(tables, names[1..]);
    assert RowsOf(start, names[0]) == map[];
  }

  lemma {:induction false} ReloadedTables(start: Tables, tables: Tables, names: seq<string>)
    requires Ascending(names) && forall n :: n in names ==> n in tables && n !in start
    ensures ReplayTables(start, Exports(tables, names)) == start + (map n | n in names :: Rekeyed(tables)[n])
    decreases |names|
  {
    if names == [] {
    } else {
      OthersAreLater(names);
      FirstTableReloads(start, tables, names);
      ReloadedTables(start[names[0] := Rekeyed(tables)[names[0]]], tables, names[1..]);
      AddOneTable(start, Rekeyed(tables), names);
    }
  }

  lemma {:induction false} ListedInFull(tables: Tables, names: seq<string>)
    requires forall n :: n in names <==> n in tables
    ensures map[] + (map n | n in names :: tables[n]) == tables
  {
  }

  // Reading a listing back, empty tables included.
  lemma {:induction false} ListingRekeys(tables: Tables)
    ensures ReplayTables(map[], Listing(tables)) == Rekeyed(tables)
  {
    ReloadedTables(map[], tables, Sorted(tables.Keys));
    ListedInFull(Rekeyed(tables), Sorted(tables.Keys));
  }

  lemma {:induction false} AddedRowsAreWellKeyed(rows: map<string, Row>, more: seq<Row>)
    requires RowsWellKeyed(rows)
    ensures RowsWellKeyed(AddRows(rows, more))
    decreases |more|
  {
    if more == [] {
    } else {
      AddedRowsAreWellKeyed(rows[more[0].primaryKey := more[0]], more[1..]);
    }
  }

  // Rows of strictly ascending keys, one after the other.
  ghost predicate KeyOrdered(rows: seq<Row>) {
    forall i, j :: 0 <= i < j < |rows| ==> Less(rows[i].primaryKey, rows[j].primaryKey)
  }

  lemma {:induction false} AddedInOrder(rows: map<string, Row>, more: seq<Row>, pks: seq<string>)
    requires |pks| == |more| && forall i :: 0 <= i < |more| ==> more[i].primaryKey == pks[i]
    requires Ascending(pks)
    ensures AddRows(rows, more).Keys == rows.Keys + set pk | pk in pks
    ensures forall i :: 0 <= i < |more| ==> AddRows(rows, more)[pks[i]] == more[i]
    ensures forall pk :: pk in rows && pk !in pks ==> AddRows(rows, more)[pk] == rows[pk]
    decreases |more|
  {
    if more == [] {
    } else {
      var next := rows[pks[0] := more[0]];
      assert forall pk :: pk in pks <==> pk == pks[0] || pk in pks[1..];
      OthersAreLater(pks);
      AddedInOrder(next, more[1..], pks[1..]);
      forall i | 0 <= i < |more| ensures AddRows(rows, more)[pks[i]] == more[i] {
        assert i > 0 ==> pks[i] == pks[1..][i - 1] && more[i] == more[1..][i - 1];
      }
    }
  }

  // Rows that are listed by their own keys already come back in the same order.
  lemma {:induction false} OrderedRowsAreRelisted(rows: seq<Row>)
    requires KeyOrdered(rows)
    ensures RowsInOrder(AddRows(map[], rows)) == rows
  {
    var pks := seq(|rows|, i requires 0 <= i < |rows| => rows[i].primaryKey);
    AddedInOrder(map[], rows, pks);
    AscendingIsUnique(Sorted(AddRows(map[], rows).Keys), pks);
  }

  lemma {:induction false} RowsAreInOrder(rows: map<string, Row>)
    requires RowsWellKeyed(rows)
    ensures KeyOrdered(RowsInOrder(rows))
  {
    var pks := Sorted(rows.Keys);
    forall i | 0 <= i < |pks| ensures RowsInOrder(rows)[i].primaryKey == pks[i] {
      assert pks[i] in pks;
    }
  }

  lemma {:induction false} RelistedRowsIff(rows: seq<Row>)
    ensures RowsInOrder(AddRows(map[], rows)) == rows <==> KeyOrdered(rows)
  {
    AddedRowsAreWellKeyed(map[], rows);
    RowsAreInOrder(AddRows(map[], rows));
    if KeyOrdered(rows) {
      OrderedRowsAreRelisted(rows);
    }
  }

  lemma {:induction false} RelistedTable(tables: Tables, i: nat)
    requires i < |Listing(tables)| == |Listing(Rekeyed(tables))|
    ensures var table, again := Listing(tables)[i], Listing(Rekeyed(tables))[i];
            again.tableName == table.tableName && again.rows == RowsInOrder(AddRows(map[], table.rows))
  {
    RekeyedNames(tables);
    assert Sorted(tables.Keys)[i] in Sorted(tables.Keys);
  }

  lemma {:induction false} RekeyedNames(tables: Tables)
    ensures Rekeyed(tables).Keys == tables.Keys
    ensures |Listing(Rekeyed(tables))| == |Listing(tables)| == |Sorted(tables.Keys)|
  {
    assert Rekeyed(tables).Keys == tables.Keys;
  }

  lemma {:induction false} WellKeyedRowAt(rows: map<string, Row>, i: nat)
    requires RowsWellKeyed(rows) && i < |Sorted(rows.Keys)|
    ensures var pk := Sorted(rows.Keys)[i];
            pk in rows && RowsInOrder(rows)[i] == rows[pk] && rows[pk].primaryKey == pk
  {
    assert Sorted(rows.Keys)[i] in Sorted(rows.Keys);
  }

  lemma {:induction false} TableReloads(rows: map<string, Row>)
    requires RowsWellKeyed(rows)
    ensures AddRows(map[], RowsInOrder(rows)) == rows
  {
    var pks := Sorted(rows.Keys);
    forall i | 0 <= i < |pks| ensures RowsInOrder(rows)[i].primaryKey == pks[i] {
      WellKeyedRowAt(rows, i);
    }
    AddedInOrder(map[], RowsInOrder(rows), pks);
    forall pk | pk in rows ensures AddRows(map[], RowsInOrder(rows))[pk] == rows[pk] {
      assert pk in pks;
      var i :| 0 <= i < |pks| && pks[i] == pk;
      WellKeyedRowAt(rows, i);
    }
  }

  lemma {:induction false} TableReloadsIff(rows: map<string, Row>)
    ensures RowsWellKeyed(AddRows(map[], RowsInOrder(rows)))
    ensures AddRows(map[], RowsInOrder(rows)) == rows <==> RowsWellKeyed(rows)
  {
    AddedRowsAreWellKeyed(map[], RowsInOrder(rows));
    if RowsWellKeyed(rows) {
      TableReloads(rows);
    }
  }

  // Reading a listing back gives the same maps exactly when every row sits under its own primary key; and what
  // is read back always does.
  lemma {:induction false} ListingReloadsIff(tables: Tables)
    ensures TablesWellKeyed(ReplayTables(map[], Listing(tables)))
    ensures ReplayTables(map[], Listing(tables)) == tables <==> TablesWellKeyed(tables)
  {
    ListingRekeys(tables);
    forall n | n in tables
      ensures RowsWellKeyed(Rekeyed(tables)[n])
      ensures Rekeyed(tables)[n] == tables[n] <==> RowsWellKeyed(tables[n])
    {
      TableReloadsIff(tables[n]);
    }
    SameTablesIff(tables);
  }

  lemma {:induction false} SameTablesIff(tables: Tables)
    ensures Rekeyed(tables) == tables <==> forall n :: n in tables ==> Rekeyed(tables)[n] == tables[n]
  {
    RekeyedNames(tables);
  }

  // Reading a listing back and listing it again gives the same listing exactly when its rows are in the order of
  // their own keys.
  lemma {:induction false} RelistingIff(tables: Tables)
    ensures Listing(Rekeyed(tables)) == Listing(tables)
       <==> forall i :: 0 <= i < |Listing(tables)| ==> KeyOrdered(Listing(tables)[i].rows)
  {
    RekeyedNames(tables);
    forall i | 0 <= i < |Listing(tables)|
      ensures Listing(Rekeyed(tables))[i] == Listing(tables)[i] <==> KeyOrdered(Listing(tables)[i].rows)
    {
      RelistedTable(tables, i);
      RelistedRowsIff(Listing(tables)[i].rows);
    }
  }

  lemma {:induction false} RepresentedRowIsFound(tables: Tables, db: Db, name: string, pk: string)
    requires Represents(tables, db) && name in tables && pk in tables[name]
    ensures (name, pk) in db && db[(name, pk)] == tables[name][pk]
  {
    assert Lookup(tables, name, pk) == Find(db, name, pk);
  }

  // ----- what a listing restores to -----

  // The keys under which a table files rows that carry this primary key.
  function FiledUnder(db: Db, name: string, pk: string): set<string> {
    set k | k in db && k.0 == name && db[k].primaryKey == pk :: k.1
  }

  function Greatest(s: set<string>): (m: string)
    requires s != {}
    ensures m in s && forall x :: x in s ==> x == m || Less(x, m)
  {
    var sorted := Sorted(s);
    assert |sorted| > 0 by {
      var x :| x in s;
      assert x in sorted;
    }
    var m := sorted[|sorted| - 1];
    assert m in sorted;
    m
  }

  lemma {:induction false} GreatestIsUnique(s: set<string>, m: string)
    requires m in s && forall x :: x in s ==> x == m || Less(x, m)
    ensures Greatest(s) == m
  {
    LessIsTotal(Greatest(s), m);
  }

  // A database with every row filed under its own primary key; of several, the one whose old key is greatest.
  function Refiled(db: Db): Db {
    map k | k in (set x | x in db :: (x.0, db[x].primaryKey)) ::
      (OwnerIsFiled(db, k); db[(k.0, Greatest(FiledUnder(db, k.0, k.1)))])
  }

  lemma {:induction false} OwnerIsFiled(db: Db, k: (string, string))
    ensures k in (set x | x in db :: (x.0, db[x].primaryKey)) <==> FiledUnder(db, k.0, k.1) != {}
    ensures forall pk :: pk in FiledUnder(db, k.0, k.1) <==> (k.0, pk) in db && db[(k.0, pk)].primaryKey == k.1
  {
    forall pk ensures pk in FiledUnder(db, k.0, k.1) <==> (k.0, pk) in db && db[(k.0, pk)].primaryKey == k.1 {
      if (k.0, pk) in db && db[(k.0, pk)].primaryKey == k.1 {
        assert (k.0, pk).1 in FiledUnder(db, k.0, k.1);
      }
    }
    if k in (set x | x in db :: (x.0, db[x].primaryKey)) {
      var x :| x in db && k == (x.0, db[x].primaryKey);
      assert x == (k.0, x.1);
      assert x.1 in FiledUnder(db, k.0, k.1);
    }
    if FiledUnder(db, k.0, k.1) != {} {
      var pk :| pk in FiledUnder(db, k.0, k.1);
      assert (k.0, pk) in db;
    }
  }

  lemma {:induction false} RefiledAt(db: Db, name: string, pk: string)
    ensures var keys := FiledUnder(db, name, pk);
            && (keys == {} ==> Find(Refiled(db), name, pk) == None)
            && (keys != {} ==> Find(Refiled(db), name, pk) == Find(db, name, Greatest(keys))
                               && Find(Refiled(db), name, pk).Some?)
  {
    OwnerIsFiled(db, (name, pk));
  }

  // Refiling changes nothing exactly when every row is filed under its own primary key already.
  lemma {:induction false} RefiledIsSameIff(db: Db)
    ensures WellKeyed(Refiled(db)) && (Refiled(db) == db <==> WellKeyed(db))
  {
    forall k | k in Refiled(db) ensures Refiled(db)[k].primaryKey == k.1 {
      OwnerIsFiled(db, k);
    }
    if WellKeyed(db) {
      forall name, pk ensures Find(Refiled(db), name, pk) == Find(db, name, pk) {
        RefiledAt(db, name, pk);
        OwnerIsFiled(db, (name, pk));
        if FiledUnder(db, name, pk) != {} {
          GreatestIsUnique(FiledUnder(db, name, pk), pk);
        }
      }
      SameFindings(Refiled(db), db);
    }
  }

  // Those of the keys under which the rows carry this primary key.
  function KeysOf(rows: map<string, Row>, keys: seq<string>, pk: string): set<string> {
    set k | k in keys && k in rows && rows[k].primaryKey == pk
  }

  lemma {:induction false} LastIsGreatest(keys: seq<string>, x: string)
    requires Ascending(keys) && x in keys
    ensures x == keys[|keys| - 1] || Less(x, keys[|keys| - 1])
  {
    var i :| 0 <= i < |keys| && keys[i] == x;
    assert i < |keys| - 1 ==> Less(keys[i], keys[|keys| - 1]);
  }

  lemma {:induction false} KeysOfSnoc(rows: map<string, Row>, keys: seq<string>, last: string, pk: string)
    requires last in rows && rows[last].primaryKey != pk
    ensures KeysOf(rows, keys + [last], pk) == KeysOf(rows, keys, pk)
  {
  }

  lemma {:induction false} LastKeyIsGreatest(rows: map<string, Row>, keys: seq<string>, pk: string)
    requires Ascending(keys) && keys != [] && keys[|keys| - 1] in KeysOf(rows, keys, pk)
    ensures Greatest(KeysOf(rows, keys, pk)) == keys[|keys| - 1]
  {
    forall x | x in KeysOf(rows, keys, pk) ensures x == keys[|keys| - 1] || Less(x, keys[|keys| - 1]) {
      LastIsGreatest(keys, x);
    }
    GreatestIsUnique(KeysOf(rows, keys, pk), keys[|keys| - 1]);
  }

  // The last of the picked rows with this primary key is the one under the greatest key.
  lemma {:induction false} LastPicked(rows: map<string, Row>, keys: seq<string>, pk: string)
    requires Ascending(keys) && forall k :: k in keys ==> k in rows
    ensures var filed := KeysOf(rows, keys, pk);
            LastRow(Picked(rows, keys), pk) == if filed == {} then None else Some(rows[Greatest(filed)])
    decreases |keys|
  {
    if keys == [] {
    } else {
      var n := |keys| - 1;
      var before, last := keys[..n], keys[n];
      assert last in keys && Picked(rows, keys)[n] == rows[last];
      if rows[last].primaryKey == pk {
        LastKeyIsGreatest(rows, keys, pk);
      } else {
        assert Picked(rows, keys)[..n] == Picked(rows, before);
        LastPicked(rows, before, pk);
        assert keys == before + [last];
        KeysOfSnoc(rows, before, last, pk);
      }
    }
  }

  lemma {:induction false} LastListed(tables: Tables, names: seq<string>, name: string, pk: string)
    requires Ascending(names) && forall n :: n in names ==> n in tables
    ensures LastExported(Exports(tables, names), name, pk)
         == if name in names then LastRow(RowsInOrder(tables[name]), pk) else None
    decreases |names|
  {
    if names == [] {
    } else {
      var n := |names| - 1;
      assert names[n] in names;
      assert Exports(tables, names)[..n] == Exports(tables, names[..n]);
      LastListed(tables, names[..n], name, pk);
      if name == names[n] {
        AscendingIsInjective(names);
        assert name !in names[..n];
      }
    }
  }

  lemma {:induction false} FiledRows(tables: Tables, db: Db, name: string, pk: string)
    requires Represents(tables, db)
    ensures var rows := RowsOf(tables, name);
            FiledUnder(db, name, pk) == KeysOf(rows, Sorted(rows.Keys), pk)
  {
    var rows := RowsOf(tables, name);
    forall k ensures k in FiledUnder(db, name, pk) <==> k in rows && rows[k].primaryKey == pk {
      assert Lookup(tables, name, k) == Find(db, name, k);
      OwnerIsFiled(db, (name, pk));
    }
  }

  lemma {:induction false} ListedRow(tables: Tables, db: Db, name: string, pk: string)
    requires Represents(tables, db) && name in tables
    ensures LastRow(RowsInOrder(tables[name]), pk) == Find(Refiled(db), name, pk)
  {
    var filed := FiledUnder(db, name, pk);
    FiledRows(tables, db, name, pk);
    LastPicked(tables[name], Sorted(tables[name].Keys), pk);
    RefiledAt(db, name, pk);
    if filed != {} {
      assert Lookup(tables, name, Greatest(filed)) == Find(db, name, Greatest(filed));
    }
  }

  lemma {:induction false} UnlistedRow(tables: Tables, db: Db, name: string, pk: string)
    requires Represents(tables, db) && name !in tables
    ensures Find(Refiled(db), name, pk) == None
  {
    FiledRows(tables, db, name, pk);
    RefiledAt(db, name, pk);
  }

  // Writing the maps out and restoring them refiles every row under its own primary key.
  lemma {:induction false} ListingRefiles(tables: Tables, db: Db)
    requires Represents(tables, db)
    ensures InsertTables(map[], Listing(tables)) == Refiled(db)
  {
    var out := InsertTables(map[], Listing(tables));
    forall name, pk ensures Find(out, name, pk) == Find(Refiled(db), name, pk) {
      assert Find(out, name, pk) == if name in tables then LastRow(RowsInOrder(tables[name]), pk) else None by {
        InsertedExport(map[], Listing(tables), name, pk);
        LastListed(tables, Sorted(tables.Keys), name, pk);
      }
      if name in tables {
        ListedRow(tables, db, name, pk);
      } else {
        UnlistedRow(tables, db, name, pk);
      }
    }
    SameFindings(out, Refiled(db));
  }

  // So the database stays the same exactly when every row sits under its own primary key: rows are filed by
  // the key of their change but reloaded by their own.
  lemma {:induction false} ListingKeepsMeaningIff(tables: Tables, db: Db)
    requires Represents(tables, db)
    ensures InsertTables(map[], Listing(tables)) == db <==> WellKeyed(db)
  {
    ListingRefiles(tables, db);
    RefiledIsSameIff(db);
  }

  // ----- objects -----

  function TombstonedIn(tombstones: seq<Tombstone>): set<Uuid> {
    if tombstones == [] then {}
    else (if tombstones[0].objectId.Some? then {tombstones[0].objectId.value} else {}) + TombstonedIn(tombstones[1..])
  }

  function Tombstoned(chain: seq<Manifest>): set<Uuid> {
    if chain == [] then {} else TombstonedIn(chain[0].tombstones) + Tombstoned(chain[1..])
  }

  // Every object entry of the chain, in chain order.
  function AllObjects(chain: seq<Manifest>): seq<ObjectEntry> {
    if chain == [] then [] else chain[0].objects + AllObjects(chain[1..])
  }

  function LatestById(byId: map<Uuid, ObjectEntry>, objects: seq<ObjectEntry>, dead: set<Uuid>): map<Uuid, ObjectEntry>
    decreases |objects|
  {
    if objects == [] then byId
    else
      var next := if objects[0].objectId in dead then byId else byId[objects[0].objectId := objects[0]];
      LatestById(next, objects[1..], dead)
  }

  function SortedIds(ids: set<Uuid>): (r: seq<Uuid>)
    ensures r == Sorted(ids)
  {
    var r: seq<string> := Sorted(ids);
    assert forall i :: 0 <= i < |r| ==> r[i] in r;
    r
  }

  function InIdOrder(byId: map<Uuid, ObjectEntry>): seq<ObjectEntry> {
    var ids := SortedIds(byId.Keys);
    seq(|ids|, i requires 0 <= i < |ids| => assert ids[i] in ids; byId[ids[i]])
  }

  function CompactObjects(chain: seq<Manifest>): seq<ObjectEntry> {
    InIdOrder(LatestById(map[], AllObjects(chain), Tombstoned(chain)))
  }

  lemma {:induction false} LatestConcat(byId: map<Uuid, ObjectEntry>, a: seq<ObjectEntry>, b: seq<ObjectEntry>,
        dead: set<Uuid>)
    ensures LatestById(byId, a + b, dead) == LatestById(LatestById(byId, a, dead), b, dead)
    decreases |a|
  {
    if a == [] {
      assert a + b == b;
    } else {
      assert (a + b)[1..] == a[1..] + b;
      LatestConcat(if a[0].objectId in dead then byId else byId[a[0].objectId := a[0]], a[1..], b, dead);
    }
  }

  // The last entry of an id in chain order.
  ghost predicate IsLastEntry(objects: seq<ObjectEntry>, entry: ObjectEntry) {
    exists i :: 0 <= i < |objects| && objects[i] == entry
      && forall j :: i < j < |objects| ==> objects[j].objectId != entry.objectId
  }

  ghost predicate Occurs(objects: seq<ObjectEntry>, id: Uuid) {
    exists i :: 0 <= i < |objects| && objects[i].objectId == id
  }

  lemma {:induction false} LatestIsLast(objects: seq<ObjectEntry>, dead: set<Uuid>, id: Uuid)
    ensures var latest := LatestById(map[], objects, dead);
            && (id in latest <==> Occurs(objects, id) && id !in dead)
            && (id in latest ==> latest[id].objectId == id && IsLastEntry(objects, latest[id]))
  {
    if objects == [] {
    } else {
      var n := |objects| - 1;
      var before, last := objects[..n], objects[n];
      LatestIsLast(before, dead, id);
      assert objects == before + [last];
      LatestConcat(map[], before, [last], dead);
      var earlier, latest := LatestById(map[], before, dead), LatestById(map[], objects, dead);
      assert [last][1..] == [];
      assert latest == if last.objectId in dead then earlier else earlier[last.objectId := last];
      if last.objectId == id {
        assert Occurs(objects, id);
        if id !in dead {
          assert objects[n] == last;
          assert IsLastEntry(objects, last);
        }
      } else {
        if Occurs(before, id) {
          var i :| 0 <= i < n && before[i].objectId == id;
          assert objects[i].objectId == id;
        }
        if id in earlier {
          var i :| 0 <= i < n && before[i] == earlier[id] && forall j :: i < j < n ==> before[j].objectId != id;
          assert objects[i] == earlier[id];
        }
      }
    }
  }

  // Carried forward, by ascending id without repeats: exactly the ids that some manifest of the chain
  // names and none of its tombstones does, each with its last entry in chain order.
  lemma {:induction false} CompactObjectsAreLastUntombstoned(chain: seq<Manifest>)
    ensures var out := CompactObjects(chain);
            && (forall i, j :: 0 <= i < j < |out| ==> Less(out[i].objectId, out[j].objectId))
            && (forall i :: 0 <= i < |out| ==> IsLastEntry(AllObjects(chain), out[i]))
            && (forall id: Uuid :: Occurs(out, id) <==> Occurs(AllObjects(chain), id) && id !in Tombstoned(chain))
  {
    var latest := LatestById(map[], AllObjects(chain), Tombstoned(chain));
    var ids, out := SortedIds(latest.Keys), CompactObjects(chain);
    forall i | 0 <= i < |out| ensures out[i].objectId == ids[i] && IsLastEntry(AllObjects(chain), out[i]) {
      assert ids[i] in ids;
      LatestIsLast(AllObjects(chain), Tombstoned(chain), ids[i]);
    }
    forall id: Uuid ensures Occurs(out, id) <==> id in latest {
      if id in latest {
        assert id in ids;
        var i :| 0 <= i < |ids| && ids[i] == id;
        assert out[i].objectId == id;
      }
      if Occurs(out, id) {
        var i :| 0 <= i < |out| && out[i].objectId == id;
        assert ids[i] in ids;
      }
    }
    forall id: Uuid ensures Occurs(out, id) <==> Occurs(AllObjects(chain), id) && id !in Tombstoned(chain) {
      LatestIsLast(AllObjects(chain), Tombstoned(chain), id);
    }
  }

  function InsertById(x: ObjectEntry, xs: seq<ObjectEntry>): seq<ObjectEntry> {
    if xs == [] || Less(x.objectId, xs[0].objectId) then [x] + xs else [xs[0]] + InsertById(x, xs[1..])
  }

  // Entries sorted by object id; equal ids keep their order.
  function SortById(xs: seq<ObjectEntry>): seq<ObjectEntry> {
    if xs == [] then [] else InsertById(xs[|xs| - 1], SortById(xs[..|xs| - 1]))
  }

  function Ids(xs: seq<ObjectEntry>): seq<string> {
    seq(|xs|, i requires 0 <= i < |xs| => xs[i].objectId)
  }

  lemma {:induction false} InsertByIdMembers(x: ObjectEntry, xs: seq<ObjectEntry>, y: ObjectEntry)
    ensures y in InsertById(x, xs) <==> y == x || y in xs
  {
    if xs == [] || Less(x.objectId, xs[0].objectId) {
    } else {
      InsertByIdMembers(x, xs[1..], y);
      assert xs == [xs[0]] + xs[1..];
    }
  }

  lemma {:induction false} LessThanAll(id: string, ids: seq<string>)
    requires Ascending(ids) && ids != [] && Less(id, ids[0])
    ensures forall other :: other in ids ==> Less(id, other)
  {
    forall i | 0 < i < |ids| ensures Less(id, ids[i]) {
      LessIsTransitive(id, ids[0], ids[i]);
    }
  }

  // Inserting an id that comes later keeps the first one first.
  lemma {:induction false} FirstStaysFirst(x: ObjectEntry, xs: seq<ObjectEntry>)
    requires xs != [] && Ascending(Ids(xs)) && Less(xs[0].objectId, x.objectId)
    ensures forall id :: id in Ids(InsertById(x, xs[1..])) ==> Less(xs[0].objectId, id)
  {
    var rest := InsertById(x, xs[1..]);
    forall i | 0 <= i < |rest| ensures Less(xs[0].objectId, rest[i].objectId) {
      InsertByIdMembers(x, xs[1..], rest[i]);
      if rest[i] != x {
        var j :| 0 <= j < |xs[1..]| && xs[1..][j] == rest[i];
        assert Less(Ids(xs)[0], Ids(xs)[j + 1]);
      }
    }
  }

  lemma {:induction false} InsertByIdKeepsAscending(x: ObjectEntry, xs: seq<ObjectEntry>)
    requires Ascending(Ids(xs)) && forall y :: y in xs ==> y.objectId != x.objectId
    ensures Ascending(Ids(InsertById(x, xs)))
  {
    if xs == [] {
    } else if Less(x.objectId, xs[0].objectId) {
      LessThanAll(x.objectId, Ids(xs));
      ConsAscending(x.objectId, Ids(xs));
      assert Ids([x] + xs) == [x.objectId] + Ids(xs);
    } else {
      var rest := InsertById(x, xs[1..]);
      assert Ids(xs[1..]) == Ids(xs)[1..];
      InsertByIdKeepsAscending(x, xs[1..]);
      assert Less(xs[0].objectId, x.objectId) by {
        assert xs[0] in xs;
        LessIsTotal(x.objectId, xs[0].objectId);
      }
      FirstStaysFirst(x, xs);
      ConsAscending(xs[0].objectId, Ids(rest));
      assert Ids([xs[0]] + rest) == [xs[0].objectId] + Ids(rest);
    }
  }

  lemma {:induction false} SortByIdSorts(xs: seq<ObjectEntry>)
    requires forall i, j :: 0 <= i < j < |xs| ==> xs[i].objectId != xs[j].objectId
    ensures Ascending(Ids(SortById(xs)))
    ensures forall y :: y in SortById(xs) <==> y in xs
  {
    if xs == [] {
    } else {
      var n := |xs| - 1;
      SortByIdSorts(xs[..n]);
      assert xs == xs[..n] + [xs[n]];
      InsertByIdKeepsAscending(xs[n], SortById(xs[..n]));
      forall y ensures y in SortById(xs) <==> y in xs {
        InsertByIdMembers(xs[n], SortById(xs[..n]), y);
      }
    }
  }

  // All the values of a map, each once, in some order.
  ghost predicate ValuesOf(byId: map<Uuid, ObjectEntry>, values: seq<ObjectEntry>) {
    && (forall id :: id in byId ==> byId[id].objectId == id)
    && (forall y :: y in values <==> y.objectId in byId && byId[y.objectId] == y)
    && (forall i, j :: 0 <= i < j < |values| ==> values[i].objectId != values[j].objectId)
  }

  lemma {:induction false} SortedIdsOfValues(byId: map<Uuid, ObjectEntry>, values: seq<ObjectEntry>)
    requires ValuesOf(byId, values)
    ensures Ids(SortById(values)) == Sorted(byId.Keys)
    ensures forall y :: y in SortById(values) <==> y in values
  {
    var out, ids := SortById(values), Sorted(byId.Keys);
    SortByIdSorts(values);
    forall id ensures id in Ids(out) <==> id in ids {
      if id in Ids(out) {
        var i :| 0 <= i < |out| && Ids(out)[i] == id;
        assert out[i] in values;
      }
      if id in ids {
        assert id in byId.Keys;
        assert byId[id] in out;
        var i :| 0 <= i < |out| && out[i] == byId[id];
        assert Ids(out)[i] == id;
      }
    }
    AscendingIsUnique(Ids(out), ids);
  }

  // Sorting the values of a map by id gives the same list whatever order the map yields them in.
  lemma {:induction false} SortedValuesAreInIdOrder(byId: map<Uuid, ObjectEntry>, values: seq<ObjectEntry>)
    requires ValuesOf(byId, values)
    ensures SortById(values) == InIdOrder(byId)
  {
    var out, ids := SortById(values), SortedIds(byId.Keys);
    SortedIdsOfValues(byId, values);
    assert |out| == |Ids(out)| == |InIdOrder(byId)|;
    forall i | 0 <= i < |out| ensures out[i] == InIdOrder(byId)[i] {
      assert out[i] in values;
      assert Ids(out)[i] == out[i].objectId;
    }
  }

  // compact_object_entries
  method CompactObjectEntries(chain: seq<Manifest>) returns (out: seq<ObjectEntry>)
    ensures out == CompactObjects(chain)
  {
    var dead: set<Uuid> := {};
    assert chain[0..] == chain;
    for i := 0 to |chain|
      invariant dead + Tombstoned(chain[i..]) == Tombstoned(chain)
    {
      assert chain[i..][1..] == chain[i + 1..];
      dead := dead + TombstonedIn(chain[i].tombstones);
    }
    var byId: map<Uuid, ObjectEntry> := map[];
    for i := 0 to |chain|
      invariant forall id :: id in byId ==> byId[id].objectId == id
      invariant LatestById(byId, AllObjects(chain[i..]), dead) == LatestById(map[], AllObjects(chain), dead)
    {
      assert chain[i..][1..] == chain[i + 1..];
      var objects := chain[i].objects;
      LatestConcat(byId, objects, AllObjects(chain[i + 1..]), dead);
      ghost var target := LatestById(byId, objects, dead);
      assert objects[0..] == objects;
      for k := 0 to |objects|
        invariant forall id :: id in byId ==> byId[id].objectId == id
        invariant LatestById(byId, objects[k..], dead) == target
      {
        assert objects[k..][1..] == objects[k + 1..];
        if objects[k].objectId !in dead {
          byId := byId[objects[k].objectId := objects[k]];
        }
      }
    }
    assert byId == LatestById(map[], AllObjects(chain), dead);
    // A hash map yields its values in any order.
    var todo, values: seq<ObjectEntry> := byId.Keys, [];
    while todo != {}
      invariant todo <= byId.Keys
      invariant forall y :: y in values <==> y.objectId in byId && byId[y.objectId] == y && y.objectId !in todo
      invariant forall i, j :: 0 <= i < j < |values| ==> values[i].objectId != values[j].objectId
    {
      var id :| id in todo;
      todo := todo - {id};
      assert forall i :: 0 <= i < |values| ==> values[i] in values;
      values := values + [byId[id]];
    }
    SortedValuesAreInIdOrder(byId, values);
    out := SortById(values);
  }

  // ----- compact_chain_inner -----

  // The rows of a chain, replayed.
  function CompactedTables(c: Codec, store: Store, chain: seq<Manifest>): Tables
    requires chain != [] && TablesOf(c, store, chain[0]).Ok? && ChangeLists(c, store, chain[1..]).Ok?
  {
    ReplayLists(ReplayTables(map[], TablesOf(c, store, chain[0]).value), ChangeLists(c, store, chain[1..]).value)
  }

  function CompactedManifest(c: Codec, req: CompactChainRequest, chain: seq<Manifest>, tables: Tables): Manifest
    requires chain != []
  {
    var latest, exports := chain[|chain| - 1], Listing(tables);
    WithChecksum(c, Manifest(
      FORMAT_VERSION, req.snapshotId, None, req.createdAt, req.appId, req.appVersion,
      latest.schemaVersion, latest.schemaHash, latest.backend, SyntheticFull,
      DatabaseManifest(EXPORT_FORMAT, Zstd, RowTotal(exports), |exports|,
                       EntriesOf(TableBlobs(c, req.snapshotId, exports)), []),
      CompactObjects(chain), [], ""))
  }

  // The source chain loads, verifies and parses.
  ghost predicate Compactable(c: Codec, store: Store, id: Uuid) {
    var chain := LoadChain(c, store, id);
    chain.Ok? && AllComplete(c, store, chain.value) && Parses(c, store, chain.value)
  }

  method ReplayChain(c: Codec, repository: Repository, chain: seq<Manifest>) returns (r: Result<Tables>)
    requires chain != []
    ensures r.Ok? <==> Parses(c, repository.blobs, chain)
    ensures r.Ok? ==> r.value == CompactedTables(c, repository.blobs, chain)
    ensures r.Err? ==> IsDataError(r.error)
  {
    var store := repository.blobs;
    LoadTablesErrors(c, store, chain[0].database, chain[0].database.tables);
    var exports :- LoadTableExports(c, repository, chain[0]);
    var tableRows: Tables := map[];
    assert exports[0..] == exports;
    for i := 0 to |exports|
      invariant ReplayTables(tableRows, exports[i..]) == ReplayTables(map[], exports)
    {
      assert exports[i..][1..] == exports[i + 1..];
      var rows, more := RowsOf(tableRows, exports[i].tableName), exports[i].rows;
      ghost var start := rows;
      assert more[0..] == more;
      for k := 0 to |more|
        invariant AddRows(rows, more[k..]) == AddRows(start, more)
      {
        assert more[k..][1..] == more[k + 1..];
        rows := rows[more[k].primaryKey := more[k]];
      }
      tableRows := tableRows[exports[i].tableName := rows];
    }
    ghost var full := tableRows;
    for i := 1 to |chain|
      invariant ChangeLists(c, store, chain[1..]).Ok? <==> ChangeLists(c, store, chain[i..]).Ok?
      invariant ChangeLists(c, store, chain[1..]).Ok? ==>
                  ReplayLists(tableRows, ChangeLists(c, store, chain[i..]).value)
                  == ReplayLists(full, ChangeLists(c, store, chain[1..]).value)
    {
      assert chain[i..][1..] == chain[i + 1..];
      LoadChangesErrors(c, store, chain[i].database, chain[i].database.changes);
      var changes :- LoadChangeExports(c, repository, chain[i]);
      ghost var target := ReplayChanges(tableRows, changes);
      assert changes[0..] == changes;
      for k := 0 to |changes|
        invariant ReplayChanges(tableRows, changes[k..]) == target
      {
        assert changes[k..][1..] == changes[k + 1..];
        var change := changes[k];
        var rows := RowsOf(tableRows, change.tableName);
        match change.action {
          case Delete =>
            rows := rows - {change.primaryKey};
          case _ =>
            if change.row.Some? {
              rows := rows[change.primaryKey := change.row.value];
            }
        }
        tableRows := tableRows[change.tableName := rows];
      }
    }
    r := Ok(tableRows);
  }

  // Loads, verifies and replays the source chain without writing anything.
  method LoadSource(c: Codec, repository: Repository, id: Uuid) returns (r: Result<(seq<Manifest>, Tables)>)
    ensures r.Ok? <==> Compactable(c, repository.blobs, id)
    ensures r.Ok? ==>
              var chain := LoadChain(c, repository.blobs, id).value;
              r.value == (chain, CompactedTables(c, repository.blobs, chain))
    ensures r.Err? ==> IsDataError(r.error)
  {
    var chain :- LoadManifestChain(c, repository, id);
    var _ :- VerifyChain(c, repository, chain);
    var tableRows :- ReplayChain(c, repository, chain);
    r := Ok((chain, tableRows));
  }

  method CompactChain(c: Codec, repository: Repository, req: CompactChainRequest) returns (r: Result<Manifest>)
    requires repository.Valid()
    modifies repository
    ensures repository.failures >= old(repository.failures)
    ensures repository.Valid() && old(repository.history) <= repository.history
    ensures forall i :: |old(repository.history)| <= i < |repository.history| - (if r.Ok? then 1 else 0) ==>
              Staged(req.snapshotId, old(repository.blobs), repository.history[i])
    ensures r.Err? ==> Staged(req.snapshotId, old(repository.blobs), repository.blobs)
    ensures r.Err? ==>
              if Compactable(c, old(repository.blobs), req.sourceId)
              then r.error == Storage && repository.failures > old(repository.failures)
              else IsDataError(r.error) && repository.blobs == old(repository.blobs)
    ensures r.Ok? ==> Compacted(c, old(repository.blobs), req, r.value, repository.blobs)
  {
    var source :- LoadSource(c, repository, req.sourceId);
    var chain, tableRows := source.0, source.1;
    var written :- WriteTables(c, repository, req.snapshotId, Listing(tableRows));
    NothingWritten(c, repository.blobs);
    var objects := CompactObjectEntries(chain);
    var latest := chain[|chain| - 1];
    r := WriteManifest(c, repository, Manifest(
      FORMAT_VERSION, req.snapshotId, None, req.createdAt, req.appId, req.appVersion,
      latest.schemaVersion, latest.schemaHash, latest.backend, SyntheticFull,
      DatabaseManifest(EXPORT_FORMAT, Zstd, written.1, |written.0|, written.0, []),
      objects, [], ""));
  }

  // A finished compaction: the synthetic full of the replayed source chain has been written.
  ghost predicate Compacted(c: Codec, before: Store, req: CompactChainRequest, m: Manifest, after: Store) {
    Compactable(c, before, req.sourceId) &&
    var chain := LoadChain(c, before, req.sourceId).value;
    var tables := CompactedTables(c, before, chain);
    && m == CompactedManifest(c, req, chain, tables)
    && Written(c, before, m, TableBlobs(c, req.snapshotId, Listing(tables)), [], after)
  }

  // Compaction writes no object.
  lemma {:induction false} NothingWritten(c: Codec, store: Store)
    ensures ObjectsWritten(c, Jobs([]), store, store)
  {
  }
}
