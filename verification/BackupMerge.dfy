// Merge-importing the same backup twice (src/db/backup.ts, mode "merge").
module BackupMerge {
  import opened Common
  import opened BackupSchema
  import opened Backup
  import opened BackupTheorems
  import opened BackupRoundTrip

  ghost predicate FullKey(key: seq<Column>, row: Row) {
    forall c :: c in key ==> Get(row, c) != Null
  }

  // Some PRIMARY KEY or UNIQUE constraint applies to the row.
  ghost predicate Keyed(t: Table, row: Row) {
    exists key :: key in UniqueKeys(t) && FullKey(key, row)
  }

  ghost predicate Settled(t: Table, row: Row) {
    Keyed(t, row) || Malformed(t, row)
  }

  // INSERT OR IGNORE passes over the row.
  ghost predicate Ignored(db: Database, t: Table, row: Row) {
    !BadId(t, row) && (Malformed(t, row) || Conflicts(t, RowsOf(db, t), row))
  }

  lemma AssignedHasKey(db: Database, t: Table, row: Row)
    requires Keyed(t, row)
    ensures SameKey(t, Assigned(db, t, row), row)
  {
  }

  lemma GrowsKeepsRows(a: Database, b: Database)
    requires Grows(a, b)
    ensures KeepsRows(a, b)
  {
    hide RowsOf;
    forall t: Table, r | r in RowsOf(a, t) ensures r in RowsOf(b, t) {
      assert r in multiset(RowsOf(a, t));
      assert r in multiset(RowsOf(b, t));
    }
  }

  lemma IgnoredPersists(a: Database, b: Database, t: Table, row: Row)
    requires KeepsRows(a, b) && Ignored(a, t, row)
    ensures Ignored(b, t, row)
  {
  }

  // After a settled row has been loaded, it would be passed over.
  lemma LoadedIsIgnored(db: Database, t: Table, row: Row)
    requires LoadRow(db, t, row, Merge).Some? && Settled(t, Restored(t, row))
    ensures Ignored(LoadRow(db, t, row, Merge).value, t, Restored(t, row))
  {
    hide Columns, Unlisted, NotNull, ChecksHold, UniqueKeys, ForeignKeys, NextId;
    var given, values := Restored(t, row), Normalized(row, Columns(t));
    assert given == Completed(t, values) && !BadId(t, given);
    var db' := LoadRow(db, t, row, Merge).value;
    if InsertRow(db, t, values, Merge).Inserted? {
      assert !Malformed(t, given);
      assert db' == InsertRow(db, t, values, Merge).db;
      hide InsertRow, LoadRow, Malformed, RowsOf, Restored, Completed, Placed, Columns, Assigned, SameKey;
      InsertedRows(db, t, values, Merge);
      PlacedAdds(t, RowsOf(db, t), Assigned(db, t, given));
      AssignedHasKey(db, t, given);
    } else {
      assert Malformed(t, given) || Conflicts(t, RowsOf(db, t), given);
      assert db' == db;
      hide InsertRow, LoadRow, Malformed, Conflicts, Restored, Settled;
    }
  }

  lemma {:induction false} LoadedRowsAreIgnored(db: Database, t: Table, rows: seq<Row>)
    requires LoadRows(db, t, rows, Merge).Some? && forall row :: row in rows ==> Settled(t, Restored(t, row))
    ensures forall row :: row in rows ==> Ignored(LoadRows(db, t, rows, Merge).value, t, Restored(t, row))
  {
    hide LoadRow, Ignored, Settled, Restored;
    if rows != [] {
      var front, last := rows[..|rows| - 1], rows[|rows| - 1];
      assert rows == front + [last] && last in rows;
      var before, after := LoadRows(db, t, front, Merge).value, LoadRows(db, t, rows, Merge).value;
      LoadedRowsAreIgnored(db, t, front);
      LoadedIsIgnored(before, t, last);
      LoadRowGrows(before, t, last, Merge);
      GrowsKeepsRows(before, after);
      forall row | row in front ensures Ignored(after, t, Restored(t, row)) {
        IgnoredPersists(before, after, t, Restored(t, row));
      }
    }
  }

  ghost predicate AllSettled(backup: DatabaseBackup, tables: seq<Table>) {
    forall t, row :: t in tables && row in TableOf(backup, t) ==> Settled(t, Restored(t, row))
  }

  ghost predicate AllIgnored(db: Database, backup: DatabaseBackup, tables: seq<Table>) {
    forall t, row :: t in tables && row in TableOf(backup, t) ==> Ignored(db, t, Restored(t, row))
  }

  lemma {:induction false} LoadedTablesAreIgnored(db: Database, backup: DatabaseBackup, tables: seq<Table>)
    requires LoadTables(db, backup, tables, Merge).Some? && AllSettled(backup, tables)
    ensures AllIgnored(LoadTables(db, backup, tables, Merge).value, backup, tables)
  {
    hide LoadRows, Ignored, Settled, Restored, TableOf;
    if tables != [] {
      var front, t := tables[..|tables| - 1], tables[|tables| - 1];
      assert tables == front + [t];
      assert t in tables && forall u :: u in front ==> u in tables;
      var before, after := LoadTables(db, backup, front, Merge).value, LoadTables(db, backup, tables, Merge).value;
      LoadedTablesAreIgnored(db, backup, front);
      LoadedRowsAreIgnored(before, t, TableOf(backup, t));
      LoadRowsGrows(before, t, TableOf(backup, t), Merge);
      GrowsKeepsRows(before, after);
      forall u, row | u in front && row in TableOf(backup, u) ensures Ignored(after, u, Restored(u, row)) {
        IgnoredPersists(before, after, u, Restored(u, row));
      }
    }
  }

  lemma {:induction false} IgnoredRowsLoad(db: Database, t: Table, rows: seq<Row>)
    requires forall row :: row in rows ==> Ignored(db, t, Restored(t, row))
    ensures LoadRows(db, t, rows, Merge) == Some(db)
  {
    hide Conflicts, Malformed, BadId;
    if rows != [] {
      var front, last := rows[..|rows| - 1], rows[|rows| - 1];
      assert rows == front + [last] && last in rows;
      IgnoredRowsLoad(db, t, front);
      assert LoadRow(db, t, last, Merge) == Some(db);
    }
  }

  lemma {:induction false} IgnoredTablesLoad(db: Database, backup: DatabaseBackup, tables: seq<Table>)
    requires AllIgnored(db, backup, tables)
    ensures LoadTables(db, backup, tables, Merge) == Some(db)
  {
    hide LoadRows, Ignored, Restored, TableOf;
    if tables != [] {
      var front, t := tables[..|tables| - 1], tables[|tables| - 1];
      assert tables == front + [t] && t in tables;
      IgnoredTablesLoad(db, backup, front);
      IgnoredRowsLoad(db, t, TableOf(backup, t));
    }
  }

  // ---------------------------------------------------------------- rows no constraint recognizes

  ghost predicate NoShorter(a: Database, b: Database) {
    forall t: Table :: |RowsOf(a, t)| <= |RowsOf(b, t)|
  }

  lemma GrowsIsNoShorter(a: Database, b: Database)
    requires Grows(a, b)
    ensures NoShorter(a, b)
  {
    hide RowsOf;
    forall t: Table ensures |RowsOf(a, t)| <= |RowsOf(b, t)| {
      var x, y := multiset(RowsOf(a, t)), multiset(RowsOf(b, t));
      assert x <= y && y == x + (y - x);
      assert |x| == |RowsOf(a, t)| && |y| == |RowsOf(b, t)|;
    }
  }

  lemma UnkeyedNeverConflicts(t: Table, rows: seq<Row>, row: Row)
    requires !Keyed(t, row)
    ensures !Conflicts(t, rows, row)
  {
  }

  lemma {:induction false} PlacedIsLonger(t: Table, rows: seq<Row>, row: Row)
    ensures |Placed(t, rows, row)| == |rows| + 1
  {
    if rows != [] {
      PlacedIsLonger(t, rows[..|rows| - 1], row);
    }
  }

  // Such a row is inserted every time.
  lemma UnsettledIsInserted(db: Database, t: Table, row: Row)
    requires LoadRow(db, t, row, Merge).Some? && !Settled(t, Restored(t, row))
    ensures |RowsOf(LoadRow(db, t, row, Merge).value, t)| == |RowsOf(db, t)| + 1
  {
    var given, values := Restored(t, row), Normalized(row, Columns(t));
    UnkeyedNeverConflicts(t, RowsOf(db, t), given);
    hide RowsOf, Placed, Assigned, Conflicts, ParentsExist, Malformed, Keyed, BadId, Columns;
    assert given == Completed(t, values);
    assert InsertRow(db, t, values, Merge).Inserted?;
    InsertedRows(db, t, values, Merge);
    PlacedIsLonger(t, RowsOf(db, t), Assigned(db, t, given));
    hide InsertRow;
  }

  lemma {:induction false} UnsettledRowsGrow(db: Database, t: Table, rows: seq<Row>, row: Row)
    requires LoadRows(db, t, rows, Merge).Some? && row in rows && !Settled(t, Restored(t, row))
    ensures |RowsOf(LoadRows(db, t, rows, Merge).value, t)| > |RowsOf(db, t)|
  {
    hide LoadRow, Settled, Restored, RowsOf, Grows;
    var front, last := rows[..|rows| - 1], rows[|rows| - 1];
    assert rows == front + [last];
    var before, after := LoadRows(db, t, front, Merge).value, LoadRows(db, t, rows, Merge).value;
    LoadRowsGrows(db, t, front, Merge);
    LoadRowGrows(before, t, last, Merge);
    GrowsIsNoShorter(db, before);
    GrowsIsNoShorter(before, after);
    if row in front {
      UnsettledRowsGrow(db, t, front, row);
    } else {
      UnsettledIsInserted(before, t, last);
    }
  }

  lemma {:induction false} UnsettledTablesGrow(db: Database, backup: DatabaseBackup, tables: seq<Table>, t: Table, row: Row)
    requires LoadTables(db, backup, tables, Merge).Some? && t in tables
    requires row in TableOf(backup, t) && !Settled(t, Restored(t, row))
    ensures |RowsOf(LoadTables(db, backup, tables, Merge).value, t)| > |RowsOf(db, t)|
  {
    hide LoadRows, Settled, Restored, RowsOf, TableOf, Grows;
    var front, last := tables[..|tables| - 1], tables[|tables| - 1];
    assert tables == front + [last];
    var before, after := LoadTables(db, backup, front, Merge).value, LoadTables(db, backup, tables, Merge).value;
    LoadTablesGrows(db, backup, front, Merge);
    LoadRowsGrows(before, last, TableOf(backup, last), Merge);
    GrowsIsNoShorter(db, before);
    GrowsIsNoShorter(before, after);
    if t in front {
      UnsettledTablesGrow(db, backup, front, t, row);
    } else {
      UnsettledRowsGrow(before, t, TableOf(backup, t), row);
    }
  }

  // ---------------------------------------------------------------- merging twice

  // A second merge of the same backup changes nothing exactly when every row of the backup
  // carries a key (its id, or all columns of another unique key) or is malformed.
  lemma MergeTwiceIff(db: Database, backup: DatabaseBackup)
    requires Imported(db, backup, Merge).1.None?
    ensures var once := Imported(db, backup, Merge).0;
      Imported(once, backup, Merge) == (once, None)
      <==> forall t: Table, row :: row in TableOf(backup, t) ==> Settled(t, Restored(t, row))
  {
    var tables := EXPORT_TABLES;
    forall t: Table ensures t in tables {
      OrdersAreOpposite(t, 0);
    }
    var once := Imported(db, backup, Merge).0;
    assert LoadTables(db, backup, tables, Merge) == Some(once) && Refusal(db, backup).None?;
    LoadTablesGrows(db, backup, tables, Merge);
    assert Refusal(once, backup).None?;
    assert Imported(once, backup, Merge) == (once, None) <==> LoadTables(once, backup, tables, Merge) == Some(once);
    hide LoadTables, Settled, Restored, TableOf, RowsOf, Imported, Refusal, Ignored, Grows;
    if AllSettled(backup, tables) {
      LoadedTablesAreIgnored(db, backup, tables);
      IgnoredTablesLoad(once, backup, tables);
    } else {
      var t, row :| t in tables && row in TableOf(backup, t) && !Settled(t, Restored(t, row));
      if LoadTables(once, backup, tables, Merge).Some? {
        UnsettledTablesGrow(once, backup, tables, t, row);
      }
    }
  }

  lemma RowHasId(src: Database, t: Table, row: Row)
    requires WellFormed(src) && row in RowsOf(src, t)
    ensures Get(row, "id") != Null && !BadId(t, row)
  {
    hide RowsOf, Malformed, ParentsExist, OrderedKeys;
    assert WellFormedRow(src, t, row);
  }

  lemma ConflictsWith(t: Table, rows: seq<Row>, r: Row, row: Row)
    requires r in rows && SameKey(t, r, row)
    ensures Conflicts(t, rows, row)
  {
    hide SameKey;
  }

  lemma ExportedRowIsKeyed(src: Database, t: Table, row: Row)
    requires WellFormed(src) && row in RowsOf(src, t)
    ensures Settled(t, Restored(t, row)) && Ignored(src, t, Restored(t, row))
  {
    hide *;
    RowHasId(src, t, row);
    RestoredAgrees(t, row);
    var given := Restored(t, row);
    SameIdSameKey(t, row, given);
    ConflictsWith(t, RowsOf(src, t), row, given);
    KeyedAndConflicting(src, t, given);
    SameBadId(t, row, given);
  }

  lemma SameBadId(t: Table, a: Row, b: Row)
    requires Get(a, "id") == Get(b, "id")
    ensures BadId(t, a) == BadId(t, b)
  {
  }

  lemma KeyedAndConflicting(db: Database, t: Table, row: Row)
    requires Keyed(t, row) && Conflicts(t, RowsOf(db, t), row)
    ensures Settled(t, row) && (!BadId(t, row) ==> Ignored(db, t, row))
  {
    hide RowsOf, Keyed, Conflicts, BadId, Malformed;
  }

  lemma SameIdSameKey(t: Table, a: Row, b: Row)
    requires Get(a, "id") != Null && Get(a, "id") == Get(b, "id")
    ensures SameKey(t, a, b) && Keyed(t, b)
  {
    KeysAreListed(t);
    hide UniqueKeys, Columns;
    var key: seq<Column> := ["id"];
    assert key in UniqueKeys(t) && FullKey(key, b) && Matches(key, a, b);
  }

  // Merging an export back into the database it came from changes nothing at all.
  lemma MergeOfOwnExport(src: Database)
    requires WellFormed(src)
    ensures Imported(src, Exported(src), Merge) == (src, None)
  {
    var tables := EXPORT_TABLES;
    ExportIsAccepted(src, src);
    forall t, row | t in tables && row in TableOf(Exported(src), t) ensures Ignored(src, t, Restored(t, row)) {
      ExportedTable(src, t);
      ExportedRowIsKeyed(src, t, row);
    }
    hide Ignored, Restored, WellFormed, LoadTables, Refusal, Exported;
    IgnoredTablesLoad(src, Exported(src), tables);
  }

  // An export can be merged into another database any number of times.
  lemma ExportMergesOnce(src: Database, db: Database)
    requires WellFormed(src) && Imported(db, Exported(src), Merge).1.None?
    ensures var once := Imported(db, Exported(src), Merge).0; Imported(once, Exported(src), Merge) == (once, None)
  {
    forall t: Table, row | row in TableOf(Exported(src), t) ensures Settled(t, Restored(t, row)) {
      ExportedTable(src, t);
      ExportedRowIsKeyed(src, t, row);
    }
    hide Settled, Restored, WellFormed, Imported, Exported;
    MergeTwiceIff(db, Exported(src));
  }

  // A group without an id is one that a second merge duplicates.
  lemma GroupWithoutIdIsNotSettled()
    ensures !Settled(ContractGroups, Restored(ContractGroups, map["name" := Text("fleet"), "created_at" := Text("now")]))
  {
    var row: Row := map["name" := Text("fleet"), "created_at" := Text("now")];
    RestoredAgrees(ContractGroups, row);
    var given := Restored(ContractGroups, row);
    assert Columns(ContractGroups) == ["id", "name", "created_at"];
    assert Columns(ContractGroups)[1] == "name" && Columns(ContractGroups)[2] == "created_at";
    assert "id" !in row;
    assert Get(given, "id") == Null && Get(given, "name") != Null && Get(given, "created_at") != Null;
    hide Restored, Columns;
    assert UniqueKeys(ContractGroups) == [["id"]];
    assert "id" in ["id"];
    assert !Keyed(ContractGroups, given);
  }
}
