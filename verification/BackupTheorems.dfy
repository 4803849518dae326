// What export and import (src/db/backup.ts) promise together.
module BackupTheorems {
  import opened Common
  import opened BackupSchema
  import opened Backup

  // Every row's parents exist.
  ghost predicate Integrity(db: Database) {
    forall t: Table, row :: row in RowsOf(db, t) ==> ParentsExist(db, t, row)
  }

  // ---------------------------------------------------------------- one row in, one table out

  lemma {:induction false} PlacedAdds(t: Table, rows: seq<Row>, row: Row)
    ensures multiset(Placed(t, rows, row)) == multiset(rows) + multiset{row}
    ensures forall r :: r in Placed(t, rows, row) <==> r in rows || r == row
  {
    if rows == [] || t == Contracts || IdOf(rows[|rows| - 1]) < IdOf(row) {
    } else {
      var front, last := rows[..|rows| - 1], rows[|rows| - 1];
      PlacedAdds(t, front, row);
      assert rows == front + [last];
    }
  }

  // What an INSERT that succeeds does to the rows.
  lemma InsertedRows(db: Database, t: Table, values: Row, mode: Mode)
    requires InsertRow(db, t, values, mode).Inserted?
    ensures var db', row := InsertRow(db, t, values, mode).db, Assigned(db, t, Completed(t, values));
      && RowsOf(db', t) == Placed(t, RowsOf(db, t), row)
      && (forall u :: u != t ==> RowsOf(db', u) == RowsOf(db, u))
      && db'.version == db.version && db'.side == db.side
  {
  }

  lemma IdIsNoForeignKey(t: Table, fk: ForeignKey)
    requires fk in ForeignKeys(t)
    ensures fk.column != "id"
  {
  }

  ghost predicate KeepsRows(a: Database, b: Database) {
    forall u: Table, r :: r in RowsOf(a, u) ==> r in RowsOf(b, u)
  }

  lemma ParentsPersist(a: Database, b: Database, t: Table, row: Row)
    requires KeepsRows(a, b) && ParentsExist(a, t, row)
    ensures ParentsExist(b, t, row)
  {
  }

  lemma AssignedKeepsParents(db: Database, t: Table, row: Row)
    requires ParentsExist(db, t, row)
    ensures ParentsExist(db, t, Assigned(db, t, row))
  {
    hide RowsOf, ForeignKeys, NextId;
    forall fk | fk in ForeignKeys(t) ensures HasParent(db, fk, Assigned(db, t, row)) {
      IdIsNoForeignKey(t, fk);
      assert HasParent(db, fk, row);
    }
  }

  lemma InsertKeepsIntegrity(db: Database, t: Table, values: Row, mode: Mode)
    requires Integrity(db) && InsertRow(db, t, values, mode).Inserted?
    ensures Integrity(InsertRow(db, t, values, mode).db)
  {
    hide Columns, Unlisted, NotNull, ChecksHold, UniqueKeys, ForeignKeys, NextId;
    var db', given := InsertRow(db, t, values, mode).db, Completed(t, values);
    var row := Assigned(db, t, given);
    assert ParentsExist(db, t, given);
    InsertedRows(db, t, values, mode);
    hide InsertRow, RowsOf, Placed, Completed, ParentsExist, Assigned;
    PlacedAdds(t, RowsOf(db, t), row);
    AssignedKeepsParents(db, t, given);
    assert KeepsRows(db, db');
    hide KeepsRows;
    forall u: Table, r | r in RowsOf(db', u) ensures ParentsExist(db', u, r) {
      assert ParentsExist(db, u, r);
      ParentsPersist(db, db', u, r);
    }
  }

  lemma Unrelated(u: Table, row: Row, t: Table)
    requires forall fk :: fk in ForeignKeys(u) ==> fk.parent != t
    ensures Detached(u, row, t) == row && !RefersTo(u, row, t, false)
  {
    hide ForeignKeys;
    assert forall c :: ForeignKey(c, t, true) !in ForeignKeys(u);
  }

  lemma {:induction false} NothingToCascade(u: Table, rows: seq<Row>, t: Table)
    requires rows == [] || forall fk :: fk in ForeignKeys(u) ==> fk.parent != t
    ensures Survivors(u, rows, t) == rows
  {
    hide ForeignKeys;
    if rows != [] {
      NothingToCascade(u, rows[..|rows| - 1], t);
      Unrelated(u, rows[|rows| - 1], t);
      hide RefersTo, Detached;
    }
  }

  lemma {:induction false} ClearedPrefix(db: Database, tables: seq<Table>, n: nat)
    requires |tables| <= n && forall j :: 0 <= j < |tables| ==> Rank(tables[j]) == n - 1 - j
    requires forall t: Table :: Rank(t) < n
    requires forall t: Table, u: Table :: Rank(t) == Rank(u) ==> t == u
    ensures var c := Cleared(db, tables);
      && c.version == db.version && c.side.Keys == db.side.Keys
      && forall t: Table :: RowsOf(c, t) == if Rank(t) + |tables| >= n then [] else RowsOf(db, t)
  {
    hide ForeignKeys, Rank, RowsOf;
    if tables != [] {
      var before, t := Cleared(db, tables[..|tables| - 1]), tables[|tables| - 1];
      ClearedPrefix(db, tables[..|tables| - 1], n);
      forall u: Table ensures RowsOf(DeleteAll(before, t), u) == if u == t then [] else RowsOf(before, u) {
        ClearedTable(before, t, u);
      }
    }
  }

  lemma RanksDiffer(t: Table, u: Table)
    requires Rank(t) == Rank(u)
    ensures t == u
  {
  }

  // Clearing in the order of CLEAR_TABLES: after i steps the last i tables of the export order
  // are empty and no other exported table has lost or changed a row, so nothing cascades there.
  lemma ClearingStep(db: Database, i: nat)
    requires i <= |CLEAR_TABLES|
    ensures var c := Cleared(db, CLEAR_TABLES[..i]);
      && c.version == db.version && c.side.Keys == db.side.Keys
      && forall t: Table :: RowsOf(c, t) == if Rank(t) + i >= |EXPORT_TABLES| then [] else RowsOf(db, t)
  {
    var tables, n := CLEAR_TABLES[..i], |EXPORT_TABLES|;
    forall j | 0 <= j < i ensures Rank(tables[j]) == n - 1 - j {
      OrdersAreOpposite(Contracts, j);
      OrdersAreOpposite(Contracts, n - 1 - j);
    }
    forall t: Table, u: Table | Rank(t) == Rank(u) ensures t == u {
      RanksDiffer(t, u);
    }
    hide Cleared, RowsOf, Rank;
    ClearedPrefix(db, tables, n);
  }

  lemma ClearedTable(db: Database, t: Table, u: Table)
    requires Rank(u) > Rank(t) ==> RowsOf(db, u) == []
    ensures RowsOf(DeleteAll(db, t), u) == if u == t then [] else RowsOf(db, u)
  {
    if Rank(u) <= Rank(t) {
      forall fk | fk in ForeignKeys(u) ensures fk.parent != t {
        ParentsComeFirst(u, fk);
      }
    }
    NothingToCascade(u, RowsOf(db, u), t);
    assert Survivors(u, [], t) == [];
    hide Survivors;
  }

  // Foreign keys hold after each step of clearing.
  lemma ClearingKeepsIntegrity(db: Database, i: nat)
    requires Integrity(db) && i <= |CLEAR_TABLES|
    ensures Integrity(Cleared(db, CLEAR_TABLES[..i]))
  {
    ClearingStep(db, i);
    var c := Cleared(db, CLEAR_TABLES[..i]);
    hide Cleared, RowsOf, ForeignKeys, Rank;
    forall t: Table, row | row in RowsOf(c, t) ensures ParentsExist(c, t, row) {
      assert ParentsExist(db, t, row);
      forall fk | fk in ForeignKeys(t) ensures HasParent(c, fk, row) {
        ParentsComeFirst(t, fk);
        assert HasParent(db, fk, row);
      }
    }
  }

  // When a table is deleted, no row of another exported table refers to it.
  lemma ChildrenAreGoneFirst(db: Database, i: nat, u: Table, fk: ForeignKey)
    requires i < |CLEAR_TABLES| && fk in ForeignKeys(u) && fk.parent == CLEAR_TABLES[i]
    ensures RowsOf(Cleared(db, CLEAR_TABLES[..i]), u) == []
  {
    ParentsComeFirst(u, fk);
    OrdersAreOpposite(fk.parent, i);
    OrdersAreOpposite(fk.parent, |EXPORT_TABLES| - 1 - i);
    assert Rank(fk.parent) == |EXPORT_TABLES| - 1 - i;
    ClearingStep(db, i);
    hide Cleared, RowsOf, Rank, ForeignKeys;
  }

  // ---------------------------------------------------------------- loading never loses rows

  ghost predicate Grows(a: Database, b: Database) {
    && a.version == b.version && a.side == b.side
    && forall t: Table :: multiset(RowsOf(a, t)) <= multiset(RowsOf(b, t))
  }

  lemma LoadRowGrows(db: Database, t: Table, row: Row, mode: Mode)
    requires LoadRow(db, t, row, mode).Some?
    ensures Grows(db, LoadRow(db, t, row, mode).value)
    ensures Integrity(db) ==> Integrity(LoadRow(db, t, row, mode).value)
  {
    hide Columns, Unlisted, NotNull, ChecksHold, UniqueKeys, ForeignKeys, NextId, InsertRow, RowsOf, Placed, Assigned,
         Completed, Integrity;
    var values := Normalized(row, Columns(t));
    if InsertRow(db, t, values, mode).Inserted? {
      InsertedRows(db, t, values, mode);
      PlacedAdds(t, RowsOf(db, t), Assigned(db, t, Completed(t, values)));
      if Integrity(db) {
        InsertKeepsIntegrity(db, t, values, mode);
      }
    }
  }

  lemma {:induction false} LoadRowsGrows(db: Database, t: Table, rows: seq<Row>, mode: Mode)
    requires LoadRows(db, t, rows, mode).Some?
    ensures Grows(db, LoadRows(db, t, rows, mode).value)
    ensures Integrity(db) ==> Integrity(LoadRows(db, t, rows, mode).value)
  {
    hide LoadRow, Integrity, RowsOf;
    if rows != [] {
      var before := LoadRows(db, t, rows[..|rows| - 1], mode).value;
      LoadRowsGrows(db, t, rows[..|rows| - 1], mode);
      LoadRowGrows(before, t, rows[|rows| - 1], mode);
    }
  }

  lemma {:induction false} LoadTablesGrows(db: Database, backup: DatabaseBackup, tables: seq<Table>, mode: Mode)
    requires LoadTables(db, backup, tables, mode).Some?
    ensures Grows(db, LoadTables(db, backup, tables, mode).value)
    ensures Integrity(db) ==> Integrity(LoadTables(db, backup, tables, mode).value)
  {
    hide LoadRows, Integrity, RowsOf;
    if tables != [] {
      var n := |tables| - 1;
      var before := LoadTables(db, backup, tables[..n], mode).value;
      LoadTablesGrows(db, backup, tables[..n], mode);
      LoadRowsGrows(before, tables[n], TableOf(backup, tables[n]), mode);
    }
  }

  // Merging never alters, moves to another table or removes a row that is there.
  lemma MergeKeepsRows(db: Database, backup: DatabaseBackup)
    ensures Grows(db, Imported(db, backup, Merge).0)
  {
    hide LoadTables, Refusal;
    if Imported(db, backup, Merge).1.None? {
      LoadTablesGrows(db, backup, EXPORT_TABLES, Merge);
    }
  }

  // Foreign keys hold after every import, of whatever backup.
  lemma ImportKeepsIntegrity(db: Database, backup: DatabaseBackup, mode: Mode)
    requires Integrity(db)
    ensures Integrity(Imported(db, backup, mode).0)
  {
    hide LoadTables, Refusal, Integrity, Cleared;
    assert CLEAR_TABLES[..|CLEAR_TABLES|] == CLEAR_TABLES;
    ClearingKeepsIntegrity(db, |CLEAR_TABLES|);
    var start := if mode == Merge then db else Cleared(db, CLEAR_TABLES);
    if LoadTables(start, backup, EXPORT_TABLES, mode).Some? {
      LoadTablesGrows(start, backup, EXPORT_TABLES, mode);
    }
  }

  // ---------------------------------------------------------------- failures

  lemma {:induction false} NoneMissingIff(backup: DatabaseBackup, tables: seq<Table>)
    ensures FirstMissing(backup, tables).None? <==> forall t :: t in tables ==> t in backup.tables
  {
    if tables != [] {
      NoneMissingIff(backup, tables[1..]);
      assert tables == [tables[0]] + tables[1..];
    }
  }

  ghost predicate IsFirstMissing(backup: DatabaseBackup, tables: seq<Table>, i: nat) {
    i < |tables| && tables[i] !in backup.tables && forall j :: 0 <= j < i ==> tables[j] in backup.tables
  }

  lemma {:induction false} TheFirstIsMissing(backup: DatabaseBackup, tables: seq<Table>) returns (i: nat)
    requires FirstMissing(backup, tables).Some?
    ensures IsFirstMissing(backup, tables, i) && FirstMissing(backup, tables).value == tables[i]
  {
    if tables[0] !in backup.tables {
      i := 0;
    } else {
      var k := TheFirstIsMissing(backup, tables[1..]);
      i := k + 1;
      assert forall j :: 0 < j < i ==> tables[j] == tables[1..][j - 1];
    }
  }

  lemma FirstByRank(backup: DatabaseBackup)
    requires FirstMissing(backup, EXPORT_TABLES).Some?
    ensures var t := FirstMissing(backup, EXPORT_TABLES).value;
      t !in backup.tables && forall u: Table :: Rank(u) < Rank(t) ==> u in backup.tables
  {
    hide Rank, FirstMissing;
    var tables := EXPORT_TABLES;
    var i := TheFirstIsMissing(backup, tables);
    OrdersAreOpposite(Contracts, i);
    forall u: Table | Rank(u) < i ensures u in backup.tables {
      OrdersAreOpposite(u, i);
      assert tables[Rank(u)] == u;
    }
  }

  // A failed import changes nothing; a backup is refused unread exactly when a table is missing
  // or its version is not the database's, and the error says which: the first missing table comes
  // before an absent version, and that before a different one.
  lemma FailureChangesNothing(db: Database, backup: DatabaseBackup, mode: Mode)
    ensures Imported(db, backup, mode).1.Some? ==> Imported(db, backup, mode).0 == db
    ensures Refusal(db, backup).None?
       <==> (forall t: Table :: t in backup.tables) && backup.schemaVersion == Some(db.version)
    ensures match Refusal(db, backup)
      case Some(MissingTable(t)) => t !in backup.tables && forall u: Table :: Rank(u) < Rank(t) ==> u in backup.tables
      case Some(UnknownVersion) => backup.schemaVersion == None
      case Some(MismatchedVersion) => backup.schemaVersion.Some? && backup.schemaVersion != Some(db.version)
      case Some(StatementFailed) => false
      case None => true
  {
    hide Rank;
    if FirstMissing(backup, EXPORT_TABLES).Some? {
      FirstByRank(backup);
    }
    NoneMissingIff(backup, EXPORT_TABLES);
    forall t: Table ensures t in EXPORT_TABLES {
      OrdersAreOpposite(t, 0);
    }
    hide FirstMissing, LoadTables, Cleared;
  }
}
