// What an import of any backup leaves behind, in both modes (src/db/backup.ts): the constraints
// hold, every row of the backup is accounted for, and nothing is invented.
module BackupImport {
  import opened Common
  import opened BackupSchema
  import opened Backup
  import opened BackupTheorems
  import opened BackupRoundTrip
  import opened BackupMerge

  // What SQLite enforces of one row: no NOT NULL or CHECK is violated, and ids are numbers, but
  // for the text ids of contracts.
  ghost predicate LawfulRow(t: Table, row: Row) {
    !Malformed(t, row) && !BadId(t, row) && (t != Contracts ==> Get(row, "id").Number?)
  }

  ghost predicate LawfulRows(t: Table, rows: seq<Row>) {
    (forall row :: row in rows ==> LawfulRow(t, row)) && OrderedKeys(t, rows)
  }

  // And of the database: parents exist, no two rows share a key, rows are in rowid order.
  ghost predicate Lawful(db: Database) {
    Integrity(db) && forall t: Table :: LawfulRows(t, RowsOf(db, t))
  }

  // ---------------------------------------------------------------- the id of a new row

  lemma IdIsFree(t: Table, row: Row, id: Value)
    ensures Malformed(t, row["id" := id]) == Malformed(t, row)
  {
    IdIsNoColumnOf(t);
    ChecksPassOverId(t, row, id);
    assert forall c :: c != "id" ==> Get(row["id" := id], c) == Get(row, c);
    hide NotNull, ChecksHold;
  }

  lemma IdIsNoColumnOf(t: Table)
    ensures "id" !in NotNull(t)
  {
  }

  lemma ChecksPassOverId(t: Table, row: Row, id: Value)
    ensures ChecksHold(t, row["id" := id]) == ChecksHold(t, row)
  {
  }

  lemma OtherKeysHaveNoId(t: Table, key: seq<Column>)
    requires key in UniqueKeys(t) && key != ["id"]
    ensures "id" !in key
  {
  }

  lemma SameKeyBothWays(t: Table, a: Row, b: Row)
    ensures SameKey(t, a, b) == SameKey(t, b, a)
  {
    hide UniqueKeys;
    assert forall key :: Matches(key, a, b) == Matches(key, b, a);
  }

  lemma {:induction false} IdsAreAtMostMax(rows: seq<Row>, row: Row)
    requires row in rows
    ensures IdOf(row) <= MaxId(rows)
  {
    var front, last := rows[..|rows| - 1], rows[|rows| - 1];
    assert rows == front + [last];
    if row in front {
      IdsAreAtMostMax(front, row);
    }
  }

  // An id that is handed out is no other row's.
  lemma NewIdDiffers(db: Database, t: Table, given: Row, r: Row)
    requires LawfulRows(t, RowsOf(db, t)) && r in RowsOf(db, t) && !SameKey(t, r, given)
    ensures !Matches(["id"], r, Assigned(db, t, given))
  {
    IdsAreAtMostMax(RowsOf(db, t), r);
    assert LawfulRow(t, r);
    IdIsAKey(t);
    var key: seq<Column> := ["id"];
    assert key in UniqueKeys(t) && key[0] == "id";
    hide UniqueKeys, RowsOf, Malformed, OrderedKeys;
  }

  lemma OtherKeysAreAlike(db: Database, t: Table, given: Row, r: Row, key: seq<Column>)
    requires "id" !in key
    ensures Matches(key, r, Assigned(db, t, given)) == Matches(key, r, given)
  {
    assert forall c :: c != "id" ==> Get(Assigned(db, t, given), c) == Get(given, c);
    hide NextId, Assigned;
  }

  lemma AssignedIsNew(db: Database, t: Table, given: Row, r: Row)
    requires LawfulRows(t, RowsOf(db, t)) && r in RowsOf(db, t) && !SameKey(t, r, given)
    ensures !SameKey(t, r, Assigned(db, t, given))
  {
    hide UniqueKeys, RowsOf, LawfulRows, Assigned, Matches;
    forall key | key in UniqueKeys(t) ensures !Matches(key, r, Assigned(db, t, given)) {
      if key == ["id"] {
        NewIdDiffers(db, t, given, r);
      } else {
        OtherKeysHaveNoId(t, key);
        OtherKeysAreAlike(db, t, given, r, key);
      }
    }
  }

  // ---------------------------------------------------------------- one statement

  lemma {:induction false} PlacedKeepsOrder(t: Table, rows: seq<Row>, row: Row)
    requires OrderedKeys(t, rows) && forall r :: r in rows ==> !SameKey(t, r, row)
    requires t != Contracts ==> forall r :: r in rows ==> IdOf(r) != IdOf(row)
    ensures OrderedKeys(t, Placed(t, rows, row))
  {
    hide SameKey;
    if rows == [] || t == Contracts || IdOf(rows[|rows| - 1]) < IdOf(row) {
      AppendKeepsOrder(t, rows, row);
    } else {
      var front, last := rows[..|rows| - 1], rows[|rows| - 1];
      assert rows == front + [last];
      LastIsLast(t, front, last);
      PlacedKeepsOrder(t, front, row);
      PlacedAdds(t, front, row);
      SameKeyBothWays(t, row, last);
      AppendOne(t, Placed(t, front, row), last);
      hide Placed, OrderedKeys;
    }
  }

  lemma FrontKeepsOrder(t: Table, front: seq<Row>, last: Row)
    requires OrderedKeys(t, front + [last])
    ensures OrderedKeys(t, front)
  {
    hide SameKey, IdOf;
    var rows := front + [last];
    forall i, j | 0 <= i < j < |front|
      ensures !SameKey(t, front[i], front[j]) && (t != Contracts ==> IdOf(front[i]) < IdOf(front[j]))
    {
      assert front[i] == rows[i] && front[j] == rows[j];
    }
  }

  lemma LastIsLast(t: Table, front: seq<Row>, last: Row)
    requires OrderedKeys(t, front + [last])
    ensures OrderedKeys(t, front)
    ensures forall r :: r in front ==> !SameKey(t, r, last) && (t != Contracts ==> IdOf(r) < IdOf(last))
  {
    FrontKeepsOrder(t, front, last);
    hide SameKey, IdOf;
    var rows := front + [last];
    forall i | 0 <= i < |front|
      ensures !SameKey(t, front[i], last) && (t != Contracts ==> IdOf(front[i]) < IdOf(last))
    {
      assert front[i] == rows[i] && last == rows[|front|];
    }
    hide OrderedKeys;
  }

  lemma AppendOne(t: Table, rows: seq<Row>, row: Row)
    requires OrderedKeys(t, rows)
    requires forall r :: r in rows ==> !SameKey(t, r, row) && (t != Contracts ==> IdOf(r) < IdOf(row))
    ensures OrderedKeys(t, rows + [row])
  {
    hide SameKey;
  }

  lemma AppendKeepsOrder(t: Table, rows: seq<Row>, row: Row)
    requires OrderedKeys(t, rows) && forall r :: r in rows ==> !SameKey(t, r, row)
    requires rows == [] || t == Contracts || IdOf(rows[|rows| - 1]) < IdOf(row)
    ensures OrderedKeys(t, rows + [row])
  {
    hide SameKey;
    forall r | r in rows ensures t != Contracts ==> IdOf(r) < IdOf(row) {
      var i :| 0 <= i < |rows| && rows[i] == r;
      assert i < |rows| - 1 ==> (t != Contracts ==> IdOf(rows[i]) < IdOf(rows[|rows| - 1]));
    }
    AppendOne(t, rows, row);
  }

  lemma NewRowIsLawful(db: Database, t: Table, values: Row, mode: Mode)
    requires InsertRow(db, t, values, mode).Inserted? && LawfulRows(t, RowsOf(db, t))
    ensures var row := Assigned(db, t, Completed(t, values));
      && LawfulRow(t, row)
      && forall r :: r in RowsOf(db, t) ==> !SameKey(t, r, row) && (t != Contracts ==> IdOf(r) != IdOf(row))
  {
    var given := Completed(t, values);
    var row := Assigned(db, t, given);
    assert !BadId(t, given) && !Malformed(t, given) && !Conflicts(t, RowsOf(db, t), given);
    IdIsFree(t, given, Number(NextId(db, t)));
    hide InsertRow, Completed, RowsOf, NextId, Malformed, OrderedKeys;
    forall r | r in RowsOf(db, t) ensures !SameKey(t, r, row) && (t != Contracts ==> IdOf(r) != IdOf(row)) {
      assert LawfulRow(t, r);
      AssignedIsNew(db, t, given, r);
      if t != Contracts && IdOf(r) == IdOf(row) {
        SameIdSameKey(t, r, row);
      }
    }
  }

  lemma InsertIsLawful(db: Database, t: Table, values: Row, mode: Mode)
    requires Lawful(db) && InsertRow(db, t, values, mode).Inserted?
    ensures Lawful(InsertRow(db, t, values, mode).db)
  {
    var db', row := InsertRow(db, t, values, mode).db, Assigned(db, t, Completed(t, values));
    InsertedRows(db, t, values, mode);
    InsertKeepsIntegrity(db, t, values, mode);
    assert LawfulRows(t, RowsOf(db, t));
    NewRowIsLawful(db, t, values, mode);
    hide InsertRow, RowsOf, Completed, Assigned, Integrity, SameKey, Placed, LawfulRow;
    PlacedKeepsOrder(t, RowsOf(db, t), row);
    PlacedAdds(t, RowsOf(db, t), row);
    forall u: Table ensures LawfulRows(u, RowsOf(db', u)) {
      assert LawfulRows(u, RowsOf(db, u));
    }
  }

  // ---------------------------------------------------------------- loading

  lemma LoadRowIsLawful(db: Database, t: Table, row: Row, mode: Mode)
    requires Lawful(db) && LoadRow(db, t, row, mode).Some?
    ensures Lawful(LoadRow(db, t, row, mode).value)
  {
    hide Lawful, InsertRow, Columns;
    if InsertRow(db, t, Normalized(row, Columns(t)), mode).Inserted? {
      InsertIsLawful(db, t, Normalized(row, Columns(t)), mode);
    }
  }

  lemma {:induction false} LoadRowsAreLawful(db: Database, t: Table, rows: seq<Row>, mode: Mode)
    requires Lawful(db) && LoadRows(db, t, rows, mode).Some?
    ensures Lawful(LoadRows(db, t, rows, mode).value)
  {
    hide Lawful, LoadRow;
    if rows != [] {
      LoadRowsAreLawful(db, t, rows[..|rows| - 1], mode);
      LoadRowIsLawful(LoadRows(db, t, rows[..|rows| - 1], mode).value, t, rows[|rows| - 1], mode);
    }
  }

  lemma {:induction false} LoadTablesAreLawful(db: Database, backup: DatabaseBackup, tables: seq<Table>, mode: Mode)
    requires Lawful(db) && LoadTables(db, backup, tables, mode).Some?
    ensures Lawful(LoadTables(db, backup, tables, mode).value)
  {
    hide Lawful, LoadRows;
    if tables != [] {
      var n := |tables| - 1;
      LoadTablesAreLawful(db, backup, tables[..n], mode);
      LoadRowsAreLawful(LoadTables(db, backup, tables[..n], mode).value, tables[n], TableOf(backup, tables[n]), mode);
    }
  }

  lemma ClearedIsLawful(db: Database)
    requires Lawful(db)
    ensures Lawful(Cleared(db, CLEAR_TABLES))
  {
    assert CLEAR_TABLES[..|CLEAR_TABLES|] == CLEAR_TABLES;
    ClearingKeepsIntegrity(db, |CLEAR_TABLES|);
    ClearingStep(db, |CLEAR_TABLES|);
    var c := Cleared(db, CLEAR_TABLES);
    hide Integrity, Cleared, RowsOf, LawfulRow, SameKey, Rank;
    forall t: Table ensures LawfulRows(t, RowsOf(c, t)) {
      assert LawfulRows(t, RowsOf(db, t));
    }
  }

  // Every import, of whatever backup and in both modes, keeps every constraint.
  lemma ImportIsLawful(db: Database, backup: DatabaseBackup, mode: Mode)
    requires Lawful(db)
    ensures Lawful(Imported(db, backup, mode).0)
  {
    hide Lawful, LoadTables, Cleared, Refusal;
    ClearedIsLawful(db);
    var start := if mode == Merge then db else Cleared(db, CLEAR_TABLES);
    if LoadTables(start, backup, EXPORT_TABLES, mode).Some? {
      LoadTablesAreLawful(start, backup, EXPORT_TABLES, mode);
    }
  }

  // ---------------------------------------------------------------- every row is accounted for

  // r is what loading the backup's row puts in: restored, and with an id of its own if it had none.
  ghost predicate From(t: Table, row: Row, r: Row) {
    r == Restored(t, row) ||
    (t != Contracts && Get(row, "id") == Null && r == Restored(t, row)["id" := Get(r, "id")])
  }

  lemma InsertedIsFrom(db: Database, t: Table, row: Row)
    ensures From(t, row, Assigned(db, t, Completed(t, Normalized(row, Columns(t)))))
  {
    RestoredAgrees(t, row);
    hide Columns, NextId, Completed;
    assert Restored(t, row) == Completed(t, Normalized(row, Columns(t)));
    var given := Restored(t, row);
    var r := Assigned(db, t, given);
    assert r != given ==> Get(r, "id") == Number(NextId(db, t));
  }

  // What loading one row does to the rows of its table: its row is added, or, in a merge, it is
  // passed over because it is malformed or shares a key with a row that is there.
  ghost predicate RowStep(t: Table, was: seq<Row>, now: seq<Row>, row: Row, mode: Mode) {
    || (exists r :: From(t, row, r) && multiset(now) == multiset(was) + multiset{r})
    || (mode == Merge && now == was && (Malformed(t, Restored(t, row)) || Conflicts(t, was, Restored(t, row))))
  }

  lemma SkippedWhy(db: Database, t: Table, values: Row, mode: Mode)
    requires InsertRow(db, t, values, mode).Skipped?
    ensures mode == Merge && (Malformed(t, Completed(t, values)) || Conflicts(t, RowsOf(db, t), Completed(t, values)))
  {
    hide Malformed, Conflicts, RowsOf, BadId, ParentsExist, Completed;
  }

  lemma LoadRowStep(db: Database, t: Table, row: Row, mode: Mode)
    requires LoadRow(db, t, row, mode).Some?
    ensures var now := LoadRow(db, t, row, mode).value;
      RowStep(t, RowsOf(db, t), RowsOf(now, t), row, mode) && forall u :: u != t ==> RowsOf(now, u) == RowsOf(db, u)
  {
    hide InsertRow, RowsOf, Columns, Malformed, Conflicts, From, Assigned, Completed, Placed, Normalized;
    var values := Normalized(row, Columns(t));
    assert Restored(t, row) == Completed(t, values);
    hide Restored;
    if InsertRow(db, t, values, mode).Inserted? {
      InsertedRows(db, t, values, mode);
      InsertedIsFrom(db, t, row);
      PlacedAdds(t, RowsOf(db, t), Assigned(db, t, Completed(t, values)));
    } else {
      SkippedWhy(db, t, values, mode);
    }
  }

  // The backup's row is in the table, or, in a merge, it may not stand there.
  ghost predicate Represented(t: Table, now: seq<Row>, row: Row, mode: Mode) {
    || (exists r :: r in now && From(t, row, r))
    || (mode == Merge && (Malformed(t, Restored(t, row)) || Conflicts(t, now, Restored(t, row))))
  }

  ghost predicate AllRepresented(t: Table, now: seq<Row>, rows: seq<Row>, mode: Mode) {
    forall row :: row in rows ==> Represented(t, now, row, mode)
  }

  // Every row of the table was there before, or comes from a row of the backup.
  ghost predicate NoneInvented(t: Table, was: seq<Row>, now: seq<Row>, rows: seq<Row>) {
    forall r :: r in now ==> r in was || exists row :: row in rows && From(t, row, r)
  }

  // All three, and a replace import has one row more for each of the backup's.
  ghost predicate Accounted(t: Table, was: seq<Row>, now: seq<Row>, rows: seq<Row>, mode: Mode) {
    && (forall r :: r in was ==> r in now)
    && AllRepresented(t, now, rows, mode) && NoneInvented(t, was, now, rows)
    && (mode == Replace ==> |now| == |was| + |rows|)
  }

  lemma RepresentedStays(t: Table, mid: seq<Row>, now: seq<Row>, row: Row, mode: Mode)
    requires Represented(t, mid, row, mode) && forall r :: r in mid ==> r in now
    ensures Represented(t, now, row, mode)
  {
    hide From, Malformed, Restored, SameKey;
  }

  lemma OneMoreRepresented(t: Table, mid: seq<Row>, now: seq<Row>, front: seq<Row>, row: Row, mode: Mode)
    requires AllRepresented(t, mid, front, mode) && Represented(t, now, row, mode) && forall r :: r in mid ==> r in now
    ensures AllRepresented(t, now, front + [row], mode)
  {
    forall x | x in front ensures Represented(t, now, x, mode) {
      RepresentedStays(t, mid, now, x, mode);
    }
    hide Represented;
  }

  lemma OneMoreInvented(t: Table, was: seq<Row>, mid: seq<Row>, now: seq<Row>, front: seq<Row>, row: Row)
    requires NoneInvented(t, was, mid, front)
    requires forall r :: r in now ==> r in mid || From(t, row, r)
    ensures NoneInvented(t, was, now, front + [row])
  {
    hide From;
    var rows := front + [row];
    assert row in rows && forall x :: x in front ==> x in rows;
  }

  // A step keeps what is there and puts its own row in, or finds it represented.
  lemma StepAdds(t: Table, was: seq<Row>, now: seq<Row>, row: Row, mode: Mode)
    requires RowStep(t, was, now, row, mode)
    ensures Represented(t, now, row, mode) && forall r :: r in was ==> r in now
    ensures forall r :: r in now ==> r in was || From(t, row, r)
    ensures mode == Replace ==> |now| == |was| + 1
  {
    hide From, Malformed, Restored, Conflicts;
    if r :| From(t, row, r) && multiset(now) == multiset(was) + multiset{r} {
      AddedRow(was, now, r);
    }
  }

  lemma AddedRow(was: seq<Row>, now: seq<Row>, r: Row)
    requires multiset(now) == multiset(was) + multiset{r}
    ensures |now| == |was| + 1 && r in now
    ensures forall x :: x in was ==> x in now
    ensures forall x :: x in now ==> x in was || x == r
  {
    assert |now| == |multiset(now)|;
    forall x ensures x in now <==> x in was || x == r {
      assert x in now <==> x in multiset(now);
      assert x in was <==> x in multiset(was);
    }
  }

  lemma OneMoreAccounted(t: Table, was: seq<Row>, mid: seq<Row>, now: seq<Row>, front: seq<Row>, row: Row, mode: Mode)
    requires Accounted(t, was, mid, front, mode) && RowStep(t, mid, now, row, mode)
    ensures Accounted(t, was, now, front + [row], mode)
  {
    hide From, Represented, RowStep, AllRepresented, NoneInvented;
    StepAdds(t, mid, now, row, mode);
    OneMoreRepresented(t, mid, now, front, row, mode);
    OneMoreInvented(t, was, mid, now, front, row);
  }

  lemma {:induction false} LoadRowsAccount(db: Database, t: Table, rows: seq<Row>, mode: Mode)
    requires LoadRows(db, t, rows, mode).Some?
    ensures var now := LoadRows(db, t, rows, mode).value;
      Accounted(t, RowsOf(db, t), RowsOf(now, t), rows, mode) && forall u :: u != t ==> RowsOf(now, u) == RowsOf(db, u)
  {
    hide LoadRow, RowsOf, RowStep, From, Represented;
    if rows != [] {
      var front, last := rows[..|rows| - 1], rows[|rows| - 1];
      assert rows == front + [last];
      LoadRowsAccount(db, t, front, mode);
      var mid, now := LoadRows(db, t, front, mode).value, LoadRows(db, t, rows, mode).value;
      LoadRowStep(mid, t, last, mode);
      hide Accounted;
      OneMoreAccounted(t, RowsOf(db, t), RowsOf(mid, t), RowsOf(now, t), front, last, mode);
    }
  }

  lemma {:induction false} LoadTablesAccount(db: Database, backup: DatabaseBackup, tables: seq<Table>, mode: Mode)
    requires LoadTables(db, backup, tables, mode).Some?
    requires forall i, j :: 0 <= i < j < |tables| ==> tables[i] != tables[j]
    ensures var now := LoadTables(db, backup, tables, mode).value;
      forall t: Table :: if t in tables then Accounted(t, RowsOf(db, t), RowsOf(now, t), TableOf(backup, t), mode)
                         else RowsOf(now, t) == RowsOf(db, t)
  {
    hide LoadRows, RowsOf, Accounted, TableOf;
    if tables != [] {
      var n := |tables| - 1;
      var front, t := tables[..n], tables[n];
      assert tables == front + [t] && t !in front;
      LoadTablesAccount(db, backup, front, mode);
      LoadRowsAccount(LoadTables(db, backup, front, mode).value, t, TableOf(backup, t), mode);
    }
  }

  // A replace import that succeeds leaves exactly the backup's rows, as many as there are, each
  // restored, with an id of its own if it had none: a row that violates a constraint fails it.
  lemma ReplaceLoadsEveryRow(db: Database, backup: DatabaseBackup, t: Table)
    requires Imported(db, backup, Replace).1.None?
    ensures var rows, now := TableOf(backup, t), RowsOf(Imported(db, backup, Replace).0, t);
      && |now| == |rows|
      && (forall row :: row in rows ==> exists r :: r in now && From(t, row, r))
      && forall r :: r in now ==> exists row :: row in rows && From(t, row, r)
  {
    hide LoadTables, Cleared, Refusal, RowsOf, From, Rank, TableOf;
    var start := Cleared(db, CLEAR_TABLES);
    NothingLeft(db, t);
    assert LoadTables(start, backup, EXPORT_TABLES, Replace) == Some(Imported(db, backup, Replace).0);
    ExportedOnce(t);
    hide Imported;
    LoadTablesAccount(start, backup, EXPORT_TABLES, Replace);
  }

  lemma NothingLeft(db: Database, t: Table)
    ensures RowsOf(Cleared(db, CLEAR_TABLES), t) == []
  {
    EmptyStart(db, db);
    hide Cleared, RowsOf, Rank;
  }

  // After a merge that succeeds, each row of the backup is there, unless it is malformed or there
  // is one that shares a key with it; and no row is there that was neither before nor comes from
  // the backup.
  lemma MergeAccountsForEveryRow(db: Database, backup: DatabaseBackup, t: Table)
    requires Imported(db, backup, Merge).1.None?
    ensures var rows, was, now := TableOf(backup, t), RowsOf(db, t), RowsOf(Imported(db, backup, Merge).0, t);
      && (forall row :: row in rows ==>
            || (exists r :: r in now && From(t, row, r))
            || Malformed(t, Restored(t, row)) || Conflicts(t, now, Restored(t, row)))
      && forall r :: r in now ==> r in was || exists row :: row in rows && From(t, row, r)
  {
    hide LoadTables, Refusal, RowsOf, From, Rank, TableOf, Malformed, Conflicts, Restored;
    assert LoadTables(db, backup, EXPORT_TABLES, Merge) == Some(Imported(db, backup, Merge).0);
    ExportedOnce(t);
    hide Imported;
    LoadTablesAccount(db, backup, EXPORT_TABLES, Merge);
  }

  lemma ExportedOnce(t: Table)
    ensures t in EXPORT_TABLES
    ensures forall i, j :: 0 <= i < j < |EXPORT_TABLES| ==> EXPORT_TABLES[i] != EXPORT_TABLES[j]
  {
    OrdersAreOpposite(t, 0);
    forall i, j | 0 <= i < j < |EXPORT_TABLES| ensures EXPORT_TABLES[i] != EXPORT_TABLES[j] {
      OrdersAreOpposite(Contracts, i);
      OrdersAreOpposite(Contracts, j);
    }
  }

  // ---------------------------------------------------------------- merges that succeed

  // The row's references are all to rows that are there.
  ghost predicate Attached(db: Database, t: Table, row: Row) {
    !BadId(t, Restored(t, row)) && ParentsExist(db, t, Restored(t, row))
  }

  lemma AttachedRowLoads(was: Database, db: Database, t: Table, row: Row)
    requires Attached(was, t, row) && KeepsRows(was, db)
    ensures LoadRow(db, t, row, Merge).Some?
  {
    var values := Normalized(row, Columns(t));
    assert Restored(t, row) == Completed(t, values);
    ParentsPersist(was, db, t, Restored(t, row));
    hide Columns, Completed, Malformed, Conflicts, ParentsExist, RowsOf, BadId, Placed;
  }

  lemma {:induction false} AttachedRowsLoad(was: Database, db: Database, t: Table, rows: seq<Row>)
    requires KeepsRows(was, db) && forall row :: row in rows ==> Attached(was, t, row)
    ensures LoadRows(db, t, rows, Merge).Some? && KeepsRows(was, LoadRows(db, t, rows, Merge).value)
  {
    hide LoadRow, Attached, RowsOf;
    if rows != [] {
      var front, last := rows[..|rows| - 1], rows[|rows| - 1];
      assert rows == front + [last] && last in rows;
      AttachedRowsLoad(was, db, t, front);
      var mid := LoadRows(db, t, front, Merge).value;
      AttachedRowLoads(was, mid, t, last);
      LoadRowGrows(mid, t, last, Merge);
      GrowsKeepsRows(mid, LoadRow(mid, t, last, Merge).value);
    }
  }

  lemma {:induction false} AttachedTablesLoad(was: Database, db: Database, backup: DatabaseBackup, tables: seq<Table>)
    requires KeepsRows(was, db)
    requires forall t: Table, row :: t in tables && row in TableOf(backup, t) ==> Attached(was, t, row)
    ensures LoadTables(db, backup, tables, Merge).Some? && KeepsRows(was, LoadTables(db, backup, tables, Merge).value)
  {
    hide LoadRows, Attached, RowsOf, TableOf;
    if tables != [] {
      var front, t := tables[..|tables| - 1], tables[|tables| - 1];
      assert tables == front + [t] && t in tables && forall u :: u in front ==> u in tables;
      AttachedTablesLoad(was, db, backup, front);
      AttachedRowsLoad(was, LoadTables(db, backup, front, Merge).value, t, TableOf(backup, t));
    }
  }

  // A merge passes over malformed and conflicting rows: it succeeds whenever the rows of an
  // accepted backup refer to rows that are there already, whatever else is wrong with them.
  lemma AttachedBackupMerges(db: Database, backup: DatabaseBackup)
    requires Refusal(db, backup).None?
    requires forall t: Table, row :: row in TableOf(backup, t) ==> Attached(db, t, row)
    ensures Imported(db, backup, Merge).1.None?
  {
    hide LoadTables, Refusal, Attached, TableOf, RowsOf;
    AttachedTablesLoad(db, db, backup, EXPORT_TABLES);
  }

  // ---------------------------------------------------------------- ids are not used again

  // The table's counter, of the greatest id it ever had.
  function Counter(db: Database, t: Table): int {
    if t in db.sequence then db.sequence[t] else 0
  }

  ghost predicate CountersHold(db: Database) {
    forall t: Table :: t != Contracts ==> MaxId(RowsOf(db, t)) <= Counter(db, t)
  }

  ghost predicate CountersRise(a: Database, b: Database) {
    forall t: Table :: t != Contracts ==> NextId(a, t) <= NextId(b, t)
  }

  lemma {:induction false} PlacedMax(t: Table, rows: seq<Row>, row: Row)
    ensures MaxId(Placed(t, rows, row)) == if IdOf(row) > MaxId(rows) then IdOf(row) else MaxId(rows)
  {
    hide IdOf;
    if rows != [] && t != Contracts && IdOf(rows[|rows| - 1]) >= IdOf(row) {
      var front, last := rows[..|rows| - 1], rows[|rows| - 1];
      PlacedMax(t, front, row);
      assert (Placed(t, front, row) + [last])[..|Placed(t, front, row)|] == Placed(t, front, row);
    } else {
      assert (rows + [row])[..|rows|] == rows;
    }
  }

  lemma InsertedCounter(db: Database, t: Table, values: Row, mode: Mode)
    requires InsertRow(db, t, values, mode).Inserted?
    ensures var db', id := InsertRow(db, t, values, mode).db, IdOf(Assigned(db, t, Completed(t, values)));
      && Counter(db', t) == (if id >= NextId(db, t) then id else NextId(db, t) - 1)
      && forall u :: u != t ==> Counter(db', u) == Counter(db, u)
  {
    hide Malformed, Conflicts, RowsOf, BadId, ParentsExist, Completed, NextId, IdOf, Assigned, Placed;
  }

  lemma NextIdIs(db: Database, t: Table)
    ensures NextId(db, t) == 1 + if Counter(db, t) > MaxId(RowsOf(db, t)) then Counter(db, t) else MaxId(RowsOf(db, t))
  {
    hide RowsOf, MaxId;
  }

  lemma InsertCounts(db: Database, t: Table, values: Row, mode: Mode)
    requires CountersHold(db) && InsertRow(db, t, values, mode).Inserted?
    ensures CountersHold(InsertRow(db, t, values, mode).db) && CountersRise(db, InsertRow(db, t, values, mode).db)
  {
    hide InsertRow, RowsOf, Completed, Assigned, IdOf, MaxId, Placed, NextId, Counter;
    var db', row := InsertRow(db, t, values, mode).db, Assigned(db, t, Completed(t, values));
    InsertedRows(db, t, values, mode);
    InsertedCounter(db, t, values, mode);
    PlacedMax(t, RowsOf(db, t), row);
    forall u: Table | u != Contracts ensures MaxId(RowsOf(db', u)) <= Counter(db', u) && NextId(db, u) <= NextId(db', u) {
      NextIdIs(db, u);
      NextIdIs(db', u);
    }
  }

  lemma LoadRowCounts(db: Database, t: Table, row: Row, mode: Mode)
    requires CountersHold(db) && LoadRow(db, t, row, mode).Some?
    ensures CountersHold(LoadRow(db, t, row, mode).value) && CountersRise(db, LoadRow(db, t, row, mode).value)
  {
    hide CountersHold, InsertRow, Columns;
    if InsertRow(db, t, Normalized(row, Columns(t)), mode).Inserted? {
      InsertCounts(db, t, Normalized(row, Columns(t)), mode);
    }
  }

  lemma {:induction false} LoadRowsCount(db: Database, t: Table, rows: seq<Row>, mode: Mode)
    requires CountersHold(db) && LoadRows(db, t, rows, mode).Some?
    ensures CountersHold(LoadRows(db, t, rows, mode).value) && CountersRise(db, LoadRows(db, t, rows, mode).value)
  {
    hide CountersHold, LoadRow, NextId;
    if rows != [] {
      LoadRowsCount(db, t, rows[..|rows| - 1], mode);
      LoadRowCounts(LoadRows(db, t, rows[..|rows| - 1], mode).value, t, rows[|rows| - 1], mode);
    }
  }

  lemma {:induction false} LoadTablesCount(db: Database, backup: DatabaseBackup, tables: seq<Table>, mode: Mode)
    requires CountersHold(db) && LoadTables(db, backup, tables, mode).Some?
    ensures var now := LoadTables(db, backup, tables, mode).value; CountersHold(now) && CountersRise(db, now)
  {
    hide CountersHold, LoadRows, NextId;
    if tables != [] {
      var n := |tables| - 1;
      LoadTablesCount(db, backup, tables[..n], mode);
      LoadRowsCount(LoadTables(db, backup, tables[..n], mode).value, tables[n], TableOf(backup, tables[n]), mode);
    }
  }

  lemma {:induction false} ClearingKeepsCounters(db: Database, tables: seq<Table>)
    ensures Cleared(db, tables).sequence == db.sequence
  {
    if tables != [] {
      ClearingKeepsCounters(db, tables[..|tables| - 1]);
    }
  }

  lemma ClearedCounts(db: Database)
    requires CountersHold(db)
    ensures CountersHold(Cleared(db, CLEAR_TABLES)) && CountersRise(db, Cleared(db, CLEAR_TABLES))
  {
    ClearingKeepsCounters(db, CLEAR_TABLES);
    var c := Cleared(db, CLEAR_TABLES);
    forall t: Table ensures RowsOf(c, t) == [] && (t != Contracts ==> Counter(c, t) >= 0) {
      NothingLeft(db, t);
      NoNegativeMax(RowsOf(db, t));
    }
    hide Cleared, RowsOf;
  }

  lemma {:induction false} NoNegativeMax(rows: seq<Row>)
    ensures MaxId(rows) >= 0
  {
    if rows != [] {
      NoNegativeMax(rows[..|rows| - 1]);
    }
  }

  // No import, in either mode, lets a table hand out an id that it has had before.
  lemma IdsAreNotUsedAgain(db: Database, backup: DatabaseBackup, mode: Mode)
    requires CountersHold(db)
    ensures CountersHold(Imported(db, backup, mode).0) && CountersRise(db, Imported(db, backup, mode).0)
  {
    hide CountersHold, LoadTables, Cleared, Refusal, NextId;
    ClearedCounts(db);
    var start := if mode == Merge then db else Cleared(db, CLEAR_TABLES);
    if LoadTables(start, backup, EXPORT_TABLES, mode).Some? {
      LoadTablesCount(start, backup, EXPORT_TABLES, mode);
    }
  }

  // ---------------------------------------------------------------- deleting with references

  ghost predicate SameRow(a: Row, b: Row) {
    forall c :: Get(a, c) == Get(b, c)
  }

  // When all rows of t are deleted, what is left of another table refers to t no more; rows that
  // did not refer to it stay as they are; and the rows that go are those that a cascade reaches.
  lemma {:induction false} DeleteFollowsReferences(u: Table, rows: seq<Row>, t: Table)
    ensures forall r :: r in Survivors(u, rows, t) ==> !RefersTo(u, r, t, false) && !RefersTo(u, r, t, true)
    ensures forall row :: row in rows && !RefersTo(u, row, t, false) && !RefersTo(u, row, t, true) ==>
      exists r :: r in Survivors(u, rows, t) && SameRow(r, row)
    ensures |Survivors(u, rows, t)| == |rows| - CascadedRows(u, rows, t)
  {
    if rows != [] {
      var front, row := rows[..|rows| - 1], rows[|rows| - 1];
      assert rows == front + [row];
      DeleteFollowsReferences(u, front, t);
      OneMoreSurvivor(u, rows, t);
      LeftBehind(u, row, t);
      hide Survivors, RefersTo, SameRow, Detached;
      assert !RefersTo(u, row, t, false) ==> Detached(u, row, t) in Survivors(u, rows, t);
    }
  }

  lemma OneMoreSurvivor(u: Table, rows: seq<Row>, t: Table)
    requires rows != []
    ensures var front, row := rows[..|rows| - 1], rows[|rows| - 1];
      Survivors(u, rows, t) == Survivors(u, front, t) + if RefersTo(u, row, t, false) then [] else [Detached(u, row, t)]
  {
    hide ForeignKeys;
  }

  ghost function CascadedRows(u: Table, rows: seq<Row>, t: Table): nat {
    if rows == [] then 0
    else CascadedRows(u, rows[..|rows| - 1], t) + if RefersTo(u, rows[|rows| - 1], t, false) then 1 else 0
  }

  lemma LeftBehind(u: Table, row: Row, t: Table)
    ensures !RefersTo(u, Detached(u, row, t), t, true)
    ensures RefersTo(u, Detached(u, row, t), t, false) ==> RefersTo(u, row, t, false)
    ensures !RefersTo(u, row, t, true) ==> SameRow(Detached(u, row, t), row)
  {
    hide ForeignKeys;
    var r := Detached(u, row, t);
    forall fk | fk in ForeignKeys(u) && fk.parent == t && fk.setNull ensures Get(r, fk.column) == Null {
      assert fk == ForeignKey(fk.column, t, true);
    }
    if !RefersTo(u, row, t, true) {
      forall c ensures Get(r, c) == Get(row, c) {
        var fk := ForeignKey(c, t, true);
        assert fk in ForeignKeys(u) ==> Get(row, fk.column) == Null;
      }
    }
  }
}
