// What exports and change lists mean: a database state, and how grouping by table keeps the meaning.
module Database {
  import opened Types

  // A row per table name and primary key.
  type Db = map<(string, string), Row>

  function InsertRows(db: Db, table: string, rows: seq<Row>): Db
    decreases |rows|
  {
    if rows == [] then db
    else InsertRows(db[(table, rows[0].primaryKey) := rows[0]], table, rows[1..])
  }

  function InsertTables(db: Db, tables: seq<TableExport>): Db
    decreases |tables|
  {
    if tables == [] then db
    else InsertTables(InsertRows(db, tables[0].tableName, tables[0].rows), tables[1..])
  }

  function ApplyChange(db: Db, change: Change): Db {
    var key := (change.tableName, change.primaryKey);
    match change.action
    case Delete => db - {key}
    case Create => if change.row.Some? then db[key := change.row.value] else db
    case Update => if change.row.Some? then db[key := change.row.value] else db
  }

  function ApplyChanges(db: Db, changes: seq<Change>): Db
    decreases |changes|
  {
    if changes == [] then db else ApplyChanges(ApplyChange(db, changes[0]), changes[1..])
  }

  // ----- what exports and change lists do, key by key -----

  function Find(db: Db, name: string, pk: string): Option<Row> {
    if (name, pk) in db then Some(db[(name, pk)]) else None
  }

  lemma {:induction false} SameFindings(a: Db, b: Db)
    requires forall name, pk :: Find(a, name, pk) == Find(b, name, pk)
    ensures a == b
  {
    forall k: (string, string) ensures k in a <==> k in b ensures k in a && k in b ==> a[k] == b[k] {
      assert Find(a, k.0, k.1) == Find(b, k.0, k.1);
    }
  }

  // The row of a primary key that is inserted last.
  function LastRow(rows: seq<Row>, pk: string): Option<Row> {
    if rows == [] then None
    else
      var n := |rows| - 1;
      if rows[n].primaryKey == pk then Some(rows[n]) else LastRow(rows[..n], pk)
  }

  function LastExported(exports: seq<TableExport>, name: string, pk: string): Option<Row> {
    if exports == [] then None
    else
      var n := |exports| - 1;
      if exports[n].tableName == name && LastRow(exports[n].rows, pk).Some? then LastRow(exports[n].rows, pk)
      else LastExported(exports[..n], name, pk)
  }

  function OrElse(first: Option<Row>, second: Option<Row>): Option<Row> {
    if first.Some? then first else second
  }

  lemma {:induction false} LastRowCons(row: Row, rest: seq<Row>, pk: string)
    ensures LastRow([row] + rest, pk)
         == OrElse(LastRow(rest, pk), if row.primaryKey == pk then Some(row) else None)
  {
    if rest == [] {
      assert [row] + rest == [row] && [row][..0] == [];
    } else {
      var n := |rest| - 1;
      assert ([row] + rest)[..n + 1] == [row] + rest[..n];
      LastRowCons(row, rest[..n], pk);
    }
  }

  lemma {:induction false} InsertedRow(db: Db, table: string, rows: seq<Row>, name: string, pk: string)
    ensures Find(InsertRows(db, table, rows), name, pk)
         == OrElse(if table == name then LastRow(rows, pk) else None, Find(db, name, pk))
    decreases |rows|
  {
    if rows == [] {
    } else {
      InsertedRow(db[(table, rows[0].primaryKey) := rows[0]], table, rows[1..], name, pk);
      LastRowCons(rows[0], rows[1..], pk);
      assert rows == [rows[0]] + rows[1..];
    }
  }

  lemma {:induction false} LastExportedCons(table: TableExport, rest: seq<TableExport>, name: string, pk: string)
    ensures LastExported([table] + rest, name, pk)
         == OrElse(LastExported(rest, name, pk), if table.tableName == name then LastRow(table.rows, pk) else None)
  {
    if rest == [] {
      assert [table] + rest == [table] && [table][..0] == [];
    } else {
      var n := |rest| - 1;
      assert ([table] + rest)[..n + 1] == [table] + rest[..n];
      LastExportedCons(table, rest[..n], name, pk);
    }
  }

  // Restoring an export finds, for each key, the row that was exported last.
  lemma {:induction false} InsertedExport(db: Db, exports: seq<TableExport>, name: string, pk: string)
    ensures Find(InsertTables(db, exports), name, pk) == OrElse(LastExported(exports, name, pk), Find(db, name, pk))
    decreases |exports|
  {
    if exports == [] {
    } else {
      var first := exports[0];
      InsertedExport(InsertRows(db, first.tableName, first.rows), exports[1..], name, pk);
      InsertedRow(db, first.tableName, first.rows, name, pk);
      LastExportedCons(first, exports[1..], name, pk);
      assert exports == [first] + exports[1..];
    }
  }

  // The last change of this table and key that does something: None if there is none, Some(None) if it deletes the
  // row, Some(Some(row)) if it stores one. A create or update without a row does nothing.
  function LastEffect(changes: seq<Change>, name: string, pk: string): Option<Option<Row>> {
    if changes == [] then None
    else
      var n := |changes| - 1;
      var last := changes[n];
      if last.tableName != name || last.primaryKey != pk then LastEffect(changes[..n], name, pk)
      else if last.action == Delete then Some(None)
      else if last.row.Some? then Some(last.row)
      else LastEffect(changes[..n], name, pk)
  }

  lemma {:induction false} ApplyChangesSnoc(db: Db, changes: seq<Change>, last: Change)
    ensures ApplyChanges(db, changes + [last]) == ApplyChange(ApplyChanges(db, changes), last)
    decreases |changes|
  {
    if changes == [] {
      assert ([] + [last])[1..] == [];
    } else {
      assert (changes + [last])[1..] == changes[1..] + [last];
      ApplyChangesSnoc(ApplyChange(db, changes[0]), changes[1..], last);
    }
  }

  // Applying a change list decides each key by the last change of it that does something; other keys stay as they
  // were.
  lemma {:induction false} ChangedRow(db: Db, changes: seq<Change>, name: string, pk: string)
    ensures Find(ApplyChanges(db, changes), name, pk)
         == match LastEffect(changes, name, pk)
            case None => Find(db, name, pk)
            case Some(row) => row
    decreases |changes|
  {
    if changes == [] {
    } else {
      var n := |changes| - 1;
      ChangedRow(db, changes[..n], name, pk);
      assert changes == changes[..n] + [changes[n]];
      ApplyChangesSnoc(db, changes[..n], changes[n]);
    }
  }

  // ----- group_changes_by_table -----

  datatype ChangeGroup = ChangeGroup(tableName: string, changes: seq<Change>)

  // The first group of a table, or the number of groups.
  function FindGroup(groups: seq<ChangeGroup>, table: string): (i: nat)
    ensures i <= |groups| && (i < |groups| ==> groups[i].tableName == table)
    ensures forall j :: 0 <= j < i ==> groups[j].tableName != table
  {
    if groups == [] || groups[0].tableName == table then 0 else 1 + FindGroup(groups[1..], table)
  }

  function AddToGroups(groups: seq<ChangeGroup>, change: Change): seq<ChangeGroup> {
    var i := FindGroup(groups, change.tableName);
    if i < |groups|
    then groups[i := groups[i].(changes := groups[i].changes + [change])]
    else groups + [ChangeGroup(change.tableName, [change])]
  }

  function Grouped(changes: seq<Change>): seq<ChangeGroup> {
    if changes == [] then []
    else AddToGroups(Grouped(changes[..|changes| - 1]), changes[|changes| - 1])
  }

  method GroupChangesByTable(changes: seq<Change>) returns (groups: seq<ChangeGroup>)
    ensures groups == Grouped(changes)
  {
    groups := [];
    for i := 0 to |changes|
      invariant groups == Grouped(changes[..i])
    {
      var change := changes[i];
      assert changes[..i + 1][..i] == changes[..i];
      var g := 0;
      while g < |groups| && groups[g].tableName != change.tableName
        invariant g <= FindGroup(groups, change.tableName)
      {
        g := g + 1;
      }
      if g < |groups| {
        groups := groups[g := groups[g].(changes := groups[g].changes + [change])];
      } else {
        groups := groups + [ChangeGroup(change.tableName, [change])];
      }
    }
    assert changes[..|changes|] == changes;
  }

  function OfTable(changes: seq<Change>, table: string): seq<Change> {
    if changes == [] then []
    else (if changes[0].tableName == table then [changes[0]] else []) + OfTable(changes[1..], table)
  }

  lemma {:induction false} OfTableConcat(a: seq<Change>, b: seq<Change>, table: string)
    ensures OfTable(a + b, table) == OfTable(a, table) + OfTable(b, table)
  {
    if a == [] {
      assert a + b == b;
    } else {
      assert (a + b)[1..] == a[1..] + b && (a + b)[0] == a[0];
      OfTableConcat(a[1..], b, table);
      var head := if a[0].tableName == table then [a[0]] else [];
      assert head + (OfTable(a[1..], table) + OfTable(b, table)) == head + OfTable(a[1..], table) + OfTable(b, table);
    }
  }

  // Table names in order of first appearance.
  function Appearances(changes: seq<Change>): seq<string> {
    if changes == [] then []
    else
      var before := Appearances(changes[..|changes| - 1]);
      var table := changes[|changes| - 1].tableName;
      if table in before then before else before + [table]
  }

  function Names(groups: seq<ChangeGroup>): seq<string> {
    seq(|groups|, i requires 0 <= i < |groups| => groups[i].tableName)
  }

  // The groups in stored order, one change list again: what load_change_exports gives back.
  function Ungrouped(groups: seq<ChangeGroup>): seq<Change> {
    if groups == [] then [] else groups[0].changes + Ungrouped(groups[1..])
  }

  // Grouping is a stable partition.
  ghost predicate StablePartition(changes: seq<Change>, groups: seq<ChangeGroup>) {
    && Names(groups) == Appearances(changes)
    && (forall i, j :: 0 <= i < j < |groups| ==> groups[i].tableName != groups[j].tableName)
    && (forall i :: 0 <= i < |groups| ==> groups[i].changes != [])
    && (forall i :: 0 <= i < |groups| ==> groups[i].changes == OfTable(changes, groups[i].tableName))
  }

  lemma {:induction false} OfAbsentTable(changes: seq<Change>, table: string)
    ensures OfTable(changes, table) == [] <==> forall k :: 0 <= k < |changes| ==> changes[k].tableName != table
  {
    if changes == [] {
    } else {
      OfAbsentTable(changes[1..], table);
      assert forall k :: 1 <= k < |changes| ==> changes[k] == changes[1..][k - 1];
    }
  }

  lemma {:induction false} OfTableSnoc(before: seq<Change>, change: Change, table: string)
    ensures OfTable(before + [change], table)
         == OfTable(before, table) + if change.tableName == table then [change] else []
  {
    OfTableConcat(before, [change], table);
    assert [change][1..] == [];
    assert OfTable([change], table) == if change.tableName == table then [change] else [];
  }

  lemma {:induction false} AppearancesSnoc(before: seq<Change>, change: Change)
    ensures Appearances(before + [change])
         == if change.tableName in Appearances(before) then Appearances(before)
            else Appearances(before) + [change.tableName]
  {
    assert (before + [change])[..|before|] == before;
  }

  lemma {:induction false} EveryTableAppears(changes: seq<Change>, k: nat)
    requires k < |changes|
    ensures changes[k].tableName in Appearances(changes)
  {
    var n := |changes| - 1;
    if k == n {
    } else {
      EveryTableAppears(changes[..n], k);
      assert changes[..n][k] == changes[k];
    }
  }

  lemma {:induction false} NameIndex(groups: seq<ChangeGroup>, i: nat)
    requires i < |groups|
    ensures groups[i].tableName in Names(groups)
  {
    assert Names(groups)[i] == groups[i].tableName;
  }

  lemma {:induction false} PushToGroup(before: seq<Change>, groups: seq<ChangeGroup>, change: Change, i: nat)
    requires StablePartition(before, groups) && i < |groups| && groups[i].tableName == change.tableName
    ensures StablePartition(before + [change],
                            groups[i := groups[i].(changes := groups[i].changes + [change])])
  {
    var after := groups[i := groups[i].(changes := groups[i].changes + [change])];
    assert Names(after) == Names(groups);
    AppearancesSnoc(before, change);
    NameIndex(groups, i);
    forall j | 0 <= j < |after|
      ensures after[j].changes == OfTable(before + [change], after[j].tableName) && after[j].changes != []
    {
      OfTableSnoc(before, change, after[j].tableName);
    }
  }

  lemma {:induction false} PushGroup(before: seq<Change>, groups: seq<ChangeGroup>, change: Change)
    requires StablePartition(before, groups)
    requires forall j :: 0 <= j < |groups| ==> groups[j].tableName != change.tableName
    ensures StablePartition(before + [change], groups + [ChangeGroup(change.tableName, [change])])
  {
    var after := groups + [ChangeGroup(change.tableName, [change])];
    assert Names(after) == Names(groups) + [change.tableName];
    assert change.tableName !in Names(groups);
    AppearancesSnoc(before, change);
    forall k | 0 <= k < |before| ensures before[k].tableName != change.tableName {
      EveryTableAppears(before, k);
    }
    OfAbsentTable(before, change.tableName);
    forall j | 0 <= j < |after|
      ensures after[j].changes == OfTable(before + [change], after[j].tableName) && after[j].changes != []
    {
      OfTableSnoc(before, change, after[j].tableName);
    }
  }

  lemma {:induction false} GroupingIsStablePartition(changes: seq<Change>)
    ensures StablePartition(changes, Grouped(changes))
    ensures forall k :: 0 <= k < |changes| ==> changes[k].tableName in Names(Grouped(changes))
  {
    if changes == [] {
    } else {
      var n := |changes| - 1;
      var groups := Grouped(changes[..n]);
      GroupingIsStablePartition(changes[..n]);
      assert changes == changes[..n] + [changes[n]];
      var i := FindGroup(groups, changes[n].tableName);
      if i < |groups| {
        PushToGroup(changes[..n], groups, changes[n], i);
      } else {
        PushGroup(changes[..n], groups, changes[n]);
      }
      forall k | 0 <= k < |changes| ensures changes[k].tableName in Appearances(changes) {
        EveryTableAppears(changes, k);
      }
    }
  }

  // Regrouping keeps every table's own subsequence.
  lemma {:induction false} UngroupedOfTable(changes: seq<Change>, groups: seq<ChangeGroup>, table: string)
    requires forall i, j :: 0 <= i < j < |groups| ==> groups[i].tableName != groups[j].tableName
    requires forall i :: 0 <= i < |groups| ==> groups[i].changes == OfTable(changes, groups[i].tableName)
    ensures OfTable(Ungrouped(groups), table) == if table in Names(groups) then OfTable(changes, table) else []
  {
    if groups == [] {
    } else {
      var first, rest := groups[0], groups[1..];
      OfTableConcat(first.changes, Ungrouped(rest), table);
      UngroupedOfTable(changes, rest, table);
      OfTableTwice(changes, first.tableName, table);
      assert Names(groups) == [first.tableName] + Names(rest);
      assert first.tableName !in Names(rest);
    }
  }

  lemma {:induction false} OfTableTwice(changes: seq<Change>, a: string, b: string)
    ensures OfTable(OfTable(changes, a), b) == if a == b then OfTable(changes, a) else []
  {
    if changes == [] {
    } else {
      var head := if changes[0].tableName == a then [changes[0]] else [];
      OfTableConcat(head, OfTable(changes[1..], a), b);
      OfTableTwice(changes[1..], a, b);
      assert [changes[0]][1..] == [];
      assert OfTable([changes[0]], b) == if changes[0].tableName == b then [changes[0]] else [];
    }
  }

  // A table's rows depend on that table's changes only.
  lemma {:induction false} TablesAreIndependent(a: Db, b: Db, xs: seq<Change>, ys: seq<Change>, table: string,
        pk: string)
    requires forall k :: k in a && (k.0 == table) ==> k in b && a[k] == b[k]
    requires forall k :: k in b && (k.0 == table) ==> k in a
    requires OfTable(xs, table) == OfTable(ys, table)
    ensures var k := (table, pk);
            && (k in ApplyChanges(a, xs) <==> k in ApplyChanges(b, ys))
            && (k in ApplyChanges(a, xs) ==> ApplyChanges(a, xs)[k] == ApplyChanges(b, ys)[k])
    decreases |xs| + |ys|
  {
    if xs != [] && xs[0].tableName != table {
      TablesAreIndependent(ApplyChange(a, xs[0]), b, xs[1..], ys, table, pk);
    } else if ys != [] && ys[0].tableName != table {
      TablesAreIndependent(a, ApplyChange(b, ys[0]), xs, ys[1..], table, pk);
    } else if xs != [] && ys != [] {
      assert OfTable(xs, table) == [xs[0]] + OfTable(xs[1..], table);
      assert OfTable(ys, table) == [ys[0]] + OfTable(ys[1..], table);
      assert xs[0] == OfTable(xs, table)[0] == ys[0];
      assert OfTable(xs[1..], table) == OfTable(xs, table)[1..] == OfTable(ys[1..], table);
      TablesAreIndependent(ApplyChange(a, xs[0]), ApplyChange(b, ys[0]), xs[1..], ys[1..], table, pk);
    }
  }

  // Storing a change list grouped by table does not change what it does to a database.
  lemma {:induction false} GroupingKeepsMeaning(db: Db, changes: seq<Change>)
    ensures ApplyChanges(db, Ungrouped(Grouped(changes))) == ApplyChanges(db, changes)
  {
    var groups := Grouped(changes);
    GroupingIsStablePartition(changes);
    forall k: (string, string)
      ensures k in ApplyChanges(db, Ungrouped(groups)) <==> k in ApplyChanges(db, changes)
      ensures k in ApplyChanges(db, changes) ==>
                ApplyChanges(db, Ungrouped(groups))[k] == ApplyChanges(db, changes)[k]
    {
      UngroupedOfTable(changes, groups, k.0);
      OfAbsentTable(changes, k.0);
      TablesAreIndependent(db, db, Ungrouped(groups), changes, k.0, k.1);
    }
  }

  // ----- primary keys -----

  // Every row is stored under its own primary key.
  ghost predicate WellKeyed(db: Db) {
    forall k :: k in db ==> db[k].primaryKey == k.1
  }

  // A create or update carries a row with the change's own primary key.
  predicate KeyedByRow(change: Change) {
    change.row.Some? && change.action != Delete ==> change.row.value.primaryKey == change.primaryKey
  }

  lemma {:induction false} InsertRowsIsWellKeyed(db: Db, table: string, rows: seq<Row>)
    requires WellKeyed(db)
    ensures WellKeyed(InsertRows(db, table, rows))
    decreases |rows|
  {
    if rows == [] {
    } else {
      InsertRowsIsWellKeyed(db[(table, rows[0].primaryKey) := rows[0]], table, rows[1..]);
    }
  }

  lemma {:induction false} InsertTablesIsWellKeyed(db: Db, tables: seq<TableExport>)
    requires WellKeyed(db)
    ensures WellKeyed(InsertTables(db, tables))
    decreases |tables|
  {
    if tables == [] {
    } else {
      InsertRowsIsWellKeyed(db, tables[0].tableName, tables[0].rows);
      InsertTablesIsWellKeyed(InsertRows(db, tables[0].tableName, tables[0].rows), tables[1..]);
    }
  }

  lemma {:induction false} ApplyChangesIsWellKeyed(db: Db, changes: seq<Change>)
    requires WellKeyed(db)
    requires forall i :: 0 <= i < |changes| ==> KeyedByRow(changes[i])
    ensures WellKeyed(ApplyChanges(db, changes))
    decreases |changes|
  {
    if changes == [] {
    } else {
      ApplyChangesIsWellKeyed(ApplyChange(db, changes[0]), changes[1..]);
    }
  }
}
