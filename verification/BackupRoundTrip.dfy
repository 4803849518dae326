// Restoring an export, and merging a backup twice (src/db/backup.ts).
module BackupRoundTrip {
  import opened Common
  import opened BackupSchema
  import opened Backup
  import opened BackupTheorems

  // The row that comes back: the listed columns, and defaults for the others.
  function Restored(t: Table, row: Row): Row {
    Completed(t, Normalized(row, Columns(t)))
  }

  function RestoredRows(t: Table, rows: seq<Row>): (r: seq<Row>)
    ensures |r| == |rows|
  {
    seq(|rows|, i requires 0 <= i < |rows| => Restored(t, rows[i]))
  }

  lemma RestoredColumns(t: Table, row: Row, c: Column)
    ensures c in Columns(t) ==> Get(Restored(t, row), c) == Get(row, c)
    ensures c in Unlisted(t) ==> Get(Restored(t, row), c) == Unlisted(t)[c]
    ensures c in Restored(t, row) <==> c in Columns(t) || c in Unlisted(t)
  {
    hide Columns, Unlisted;
    if c in Unlisted(t) {
      UnlistedAreNotListed(t, c);
    }
  }

  // A row comes back unchanged exactly when its unlisted columns hold their defaults.
  lemma RestoredUnchangedIff(t: Table, row: Row)
    requires forall c :: c in row <==> c in Columns(t) || c in Unlisted(t)
    ensures Restored(t, row) == row <==> forall c :: c in Unlisted(t) ==> row[c] == Unlisted(t)[c]
  {
    hide Restored, Columns, Unlisted;
    var back := Restored(t, row);
    forall c ensures c in back <==> c in row {
      RestoredColumns(t, row, c);
    }
    forall c | c in Columns(t) ensures c in row && back[c] == row[c] {
      RestoredColumns(t, row, c);
    }
    forall c | c in Unlisted(t) ensures c in row && back[c] == Unlisted(t)[c] {
      RestoredColumns(t, row, c);
    }
  }

  // So a policy's fee ceiling and predictive cycles do not survive, among others.
  lemma PolicySettingsAreReset(row: Row)
    ensures Get(Restored(ExtensionPolicies, row), "max_fee_stroops") == Null
    ensures Get(Restored(ExtensionPolicies, row), "predictive_cycles") == Number(0)
  {
    RestoredColumns(ExtensionPolicies, row, "max_fee_stroops");
    RestoredColumns(ExtensionPolicies, row, "predictive_cycles");
    assert Unlisted(ExtensionPolicies)["max_fee_stroops"] == Null;
    assert Unlisted(ExtensionPolicies)["predictive_cycles"] == Number(0);
    hide Restored;
  }

  // ---------------------------------------------------------------- databases as SQLite keeps them

  ghost predicate WellFormedRow(db: Database, t: Table, row: Row) {
    && !Malformed(t, row) && ParentsExist(db, t, row)
    && Get(row, "id") != Null && !BadId(t, row)
  }

  ghost predicate OrderedKeys(t: Table, rows: seq<Row>) {
    forall i, j :: 0 <= i < j < |rows| ==>
      !SameKey(t, rows[i], rows[j]) && (t != Contracts ==> IdOf(rows[i]) < IdOf(rows[j]))
  }

  ghost predicate WellFormed(db: Database) {
    && (forall t: Table, row :: row in RowsOf(db, t) ==> WellFormedRow(db, t, row))
    && forall t: Table :: OrderedKeys(t, RowsOf(db, t))
  }

  // ---------------------------------------------------------------- constraints survive the trip

  lemma ChecksSeeListedColumns(t: Table, a: Row, b: Row)
    requires forall c :: c in Columns(t) ==> Get(a, c) == Get(b, c)
    ensures ChecksHold(t, a) == ChecksHold(t, b)
  {
    match t
    case ContractEntries => assert Columns(t)[3] == "entry_type" && Columns(t)[7] == "discovery_source";
    case AlertConfigs => assert Columns(t)[2] == "channel_type";
    case ResourceAlertConfigs => assert Columns(t)[2] == "channel_type";
    case StateChanges => assert Columns(t)[4] == "diff_type";
    case ResourceAlertsFired => assert Columns(t)[2] == "resource_type";
    case _ =>
  }

  lemma RestoredAgrees(t: Table, row: Row)
    ensures forall c :: c in Columns(t) ==> Get(Restored(t, row), c) == Get(row, c)
    ensures Get(Restored(t, row), "id") == Get(row, "id")
  {
    forall c | c in Columns(t) ensures Get(Restored(t, row), c) == Get(row, c) {
      RestoredColumns(t, row, c);
    }
    KeysAreListed(t);
    hide Restored, Columns, UniqueKeys;
  }

  lemma RestoredIsWellFormed(t: Table, row: Row)
    requires !Malformed(t, row)
    ensures !Malformed(t, Restored(t, row))
  {
    RestoredAgrees(t, row);
    ChecksSeeListedColumns(t, row, Restored(t, row));
    hide Columns, NotNull, Unlisted, ChecksHold;
    forall c | c in NotNull(t) ensures Get(Restored(t, row), c) != Null {
      NotNullIsCovered(t, c);
      RestoredColumns(t, row, c);
    }
    hide Restored;
  }

  lemma RestoredKeys(t: Table, a: Row, b: Row)
    ensures SameKey(t, Restored(t, a), Restored(t, b)) == SameKey(t, a, b)
  {
    RestoredAgrees(t, a);
    RestoredAgrees(t, b);
    KeysAreListed(t);
    hide Restored, Columns, UniqueKeys;
    var a', b' := Restored(t, a), Restored(t, b);
    forall key | key in UniqueKeys(t) ensures Matches(key, a', b') == Matches(key, a, b) {
      assert forall c :: c in key ==> Get(a', c) == Get(a, c) && Get(b', c) == Get(b, c);
    }
  }

  // The parents of a row, restored, are the parents of the row restored.
  lemma RestoredParents(src: Database, db: Database, t: Table, row: Row)
    requires ParentsExist(src, t, row)
    requires forall fk :: fk in ForeignKeys(t) ==> RowsOf(db, fk.parent) == RestoredRows(fk.parent, RowsOf(src, fk.parent))
    ensures ParentsExist(db, t, Restored(t, row))
  {
    RestoredAgrees(t, row);
    ForeignKeysAreListed(t);
    hide Restored, Columns, ForeignKeys, RowsOf, RestoredRows;
    forall fk | fk in ForeignKeys(t) ensures HasParent(db, fk, Restored(t, row)) {
      assert HasParent(src, fk, row);
      if Get(row, fk.column) != Null {
        ParentRestored(src, db, fk, row);
      }
    }
  }

  lemma ParentRestored(src: Database, db: Database, fk: ForeignKey, row: Row)
    requires HasParent(src, fk, row) && Get(row, fk.column) != Null
    requires RowsOf(db, fk.parent) == RestoredRows(fk.parent, RowsOf(src, fk.parent))
    ensures exists q :: q in RowsOf(db, fk.parent) && Get(q, "id") == Get(row, fk.column)
  {
    var parents := RowsOf(src, fk.parent);
    var p :| p in parents && Get(p, "id") == Get(row, fk.column);
    var i :| 0 <= i < |parents| && parents[i] == p;
    RestoredAgrees(fk.parent, p);
    var q := RestoredRows(fk.parent, parents)[i];
    assert q == Restored(fk.parent, p);
    hide RowsOf, Restored;
    assert q in RowsOf(db, fk.parent);
  }

  // ---------------------------------------------------------------- restoring one table

  ghost predicate ParentsRestored(src: Database, db: Database, t: Table) {
    forall fk :: fk in ForeignKeys(t) ==> RowsOf(db, fk.parent) == RestoredRows(fk.parent, RowsOf(src, fk.parent))
  }

  // Row k goes in without complaint, at the end.
  lemma RestoreRow(src: Database, db: Database, t: Table, k: nat)
    requires WellFormed(src) && k < |RowsOf(src, t)| && ParentsRestored(src, db, t)
    requires RowsOf(db, t) == RestoredRows(t, RowsOf(src, t)[..k])
    ensures var loaded := LoadRow(db, t, RowsOf(src, t)[k], Replace);
      && loaded.Some? && RowsOf(loaded.value, t) == RestoredRows(t, RowsOf(src, t)[..k + 1])
      && (forall u :: u != t ==> RowsOf(loaded.value, u) == RowsOf(db, u))
      && loaded.value.version == db.version && loaded.value.side == db.side
  {
    var rows := RowsOf(src, t);
    var row, values := rows[k], Normalized(rows[k], Columns(t));
    var given := Restored(t, row);
    assert given == Completed(t, values);
    assert WellFormedRow(src, t, row);
    RestoredIsWellFormed(t, row);
    RestoredParents(src, db, t, row);
    RestoredAgrees(t, row);
    assert !BadId(t, given) && Assigned(db, t, given) == given;
    NoConflict(src, t, k);
    PlacedLast(src, t, k);
    hide Malformed, Conflicts, ParentsExist, Restored, Completed, Columns, WellFormed, ForeignKeys, Placed, BadId, Assigned;
    InsertedRows(db, t, values, Replace);
  }

  lemma NoConflict(src: Database, t: Table, k: nat)
    requires WellFormed(src) && k < |RowsOf(src, t)|
    ensures !Conflicts(t, RestoredRows(t, RowsOf(src, t)[..k]), Restored(t, RowsOf(src, t)[k]))
  {
    hide RowsOf, Restored, SameKey, WellFormedRow, Columns;
    var rows := RowsOf(src, t);
    var done := RestoredRows(t, rows[..k]);
    assert OrderedKeys(t, rows);
    hide WellFormed;
    forall r | r in done ensures !SameKey(t, r, Restored(t, rows[k])) {
      var i :| 0 <= i < k && done[i] == r;
      RestoredKeys(t, rows[i], rows[k]);
    }
  }

  lemma PlacedAtEnd(t: Table, rows: seq<Row>, row: Row)
    requires rows == [] || t == Contracts || IdOf(rows[|rows| - 1]) < IdOf(row)
    ensures Placed(t, rows, row) == rows + [row]
  {
  }

  lemma RestoredOneMore(t: Table, rows: seq<Row>, k: nat)
    requires k < |rows|
    ensures RestoredRows(t, rows[..k]) + [Restored(t, rows[k])] == RestoredRows(t, rows[..k + 1])
    ensures k > 0 ==> RestoredRows(t, rows[..k])[k - 1] == Restored(t, rows[k - 1])
  {
    hide Restored;
  }

  lemma PlacedLast(src: Database, t: Table, k: nat)
    requires WellFormed(src) && k < |RowsOf(src, t)|
    ensures var rows := RowsOf(src, t);
      Placed(t, RestoredRows(t, rows[..k]), Restored(t, rows[k])) == RestoredRows(t, rows[..k + 1])
  {
    hide RestoredRows, Restored, RowsOf, WellFormedRow, SameKey, Placed, Columns;
    var rows := RowsOf(src, t);
    assert OrderedKeys(t, rows);
    hide WellFormed;
    RestoredOneMore(t, rows, k);
    RestoredAgrees(t, rows[k]);
    if k > 0 {
      RestoredAgrees(t, rows[k - 1]);
      assert t != Contracts ==> IdOf(rows[k - 1]) < IdOf(rows[k]);
    }
    hide OrderedKeys;
    PlacedAtEnd(t, RestoredRows(t, rows[..k]), Restored(t, rows[k]));
  }

  // k rows of table t are in, and nothing else has changed.
  ghost predicate Loaded(src: Database, start: Database, db: Database, t: Table, k: nat) {
    && k <= |RowsOf(src, t)| && RowsOf(db, t) == RestoredRows(t, RowsOf(src, t)[..k])
    && (forall u :: u != t ==> RowsOf(db, u) == RowsOf(start, u))
    && db.version == start.version && db.side == start.side
  }

  lemma RestoreNextRow(src: Database, start: Database, db: Database, t: Table, k: nat)
    requires WellFormed(src) && ParentsRestored(src, start, t) && Loaded(src, start, db, t, k) && k < |RowsOf(src, t)|
    requires forall fk :: fk in ForeignKeys(t) ==> fk.parent != t
    ensures var loaded := LoadRow(db, t, RowsOf(src, t)[k], Replace);
      loaded.Some? && Loaded(src, start, loaded.value, t, k + 1)
  {
    hide LoadRow, RowsOf, RestoredRows, WellFormed, ForeignKeys;
    assert ParentsRestored(src, db, t);
    hide ParentsRestored;
    RestoreRow(src, db, t, k);
  }

  lemma RestoreNoRow(src: Database, db: Database, t: Table)
    requires RowsOf(db, t) == []
    ensures LoadRows(db, t, RowsOf(src, t)[..0], Replace) == Some(db) && Loaded(src, db, db, t, 0)
  {
  }

  lemma {:induction false} RestoreTable(src: Database, db: Database, t: Table, k: nat)
    requires WellFormed(src) && k <= |RowsOf(src, t)| && ParentsRestored(src, db, t) && RowsOf(db, t) == []
    requires forall fk :: fk in ForeignKeys(t) ==> fk.parent != t
    ensures var loaded := LoadRows(db, t, RowsOf(src, t)[..k], Replace);
      loaded.Some? && Loaded(src, db, loaded.value, t, k)
  {
    hide LoadRows, LoadRow, RowsOf, WellFormed, ForeignKeys, Loaded, ParentsRestored;
    if k == 0 {
      RestoreNoRow(src, db, t);
    } else {
      RestoreTable(src, db, t, k - 1);
      OneMoreRow(db, t, RowsOf(src, t), k - 1, Replace);
      RestoreNextRow(src, db, LoadRows(db, t, RowsOf(src, t)[..k - 1], Replace).value, t, k - 1);
    }
  }

  // ---------------------------------------------------------------- restoring the database

  ghost predicate RestoredUpTo(src: Database, db: Database, n: nat) {
    forall t: Table :: RowsOf(db, t) == if Rank(t) < n then RestoredRows(t, RowsOf(src, t)) else []
  }

  lemma TableIsNext(src: Database, db: Database, t: Table)
    requires RestoredUpTo(src, db, Rank(t))
    ensures RowsOf(db, t) == [] && ParentsRestored(src, db, t)
    ensures forall fk :: fk in ForeignKeys(t) ==> fk.parent != t
  {
    hide ForeignKeys, Rank, RestoredRows, RowsOf;
    forall fk | fk in ForeignKeys(t) ensures Rank(fk.parent) < Rank(t) {
      ParentsComeFirst(t, fk);
    }
  }

  lemma TableIsDone(src: Database, start: Database, db: Database, t: Table)
    requires RestoredUpTo(src, start, Rank(t)) && Loaded(src, start, db, t, |RowsOf(src, t)|)
    ensures RestoredUpTo(src, db, Rank(t) + 1)
  {
    hide Rank, RestoredRows, RowsOf;
    assert RowsOf(src, t)[..|RowsOf(src, t)|] == RowsOf(src, t);
    forall u: Table | Rank(u) == Rank(t) ensures u == t {
      RanksDiffer(u, t);
    }
  }

  lemma RestoreNext(src: Database, db: Database, t: Table)
    requires WellFormed(src) && RestoredUpTo(src, db, Rank(t))
    ensures var loaded := LoadRows(db, t, RowsOf(src, t), Replace);
      && loaded.Some? && RestoredUpTo(src, loaded.value, Rank(t) + 1)
      && loaded.value.version == db.version && loaded.value.side == db.side
  {
    hide ForeignKeys, Rank, WellFormed, LoadRows, RowsOf, RestoredUpTo, ParentsRestored;
    TableIsNext(src, db, t);
    RestoreTable(src, db, t, |RowsOf(src, t)|);
    assert RowsOf(src, t)[..|RowsOf(src, t)|] == RowsOf(src, t);
    TableIsDone(src, db, LoadRows(db, t, RowsOf(src, t), Replace).value, t);
    hide RestoredRows;
  }

  lemma {:induction false} RestoreTables(src: Database, db: Database, tables: seq<Table>)
    requires WellFormed(src) && RestoredUpTo(src, db, 0)
    requires forall i :: 0 <= i < |tables| ==> Rank(tables[i]) == i
    ensures var loaded := LoadTables(db, Exported(src), tables, Replace);
      && loaded.Some? && RestoredUpTo(src, loaded.value, |tables|)
      && loaded.value.version == db.version && loaded.value.side == db.side
  {
    hide WellFormed, LoadRows, RestoredUpTo, Rank, RowsOf;
    if tables != [] {
      var n := |tables| - 1;
      RestoreTables(src, db, tables[..n]);
      var before := LoadTables(db, Exported(src), tables[..n], Replace).value;
      RestoreNext(src, before, tables[n]);
      ExportedTable(src, tables[n]);
    }
  }

  lemma ExportedTable(src: Database, t: Table)
    ensures t in Exported(src).tables && TableOf(Exported(src), t) == RowsOf(src, t)
  {
  }

  lemma {:induction false} SideTablesCleared(db: Database, tables: seq<Table>, s: SideTable)
    requires s in db.side && SideParent(s) in tables
    ensures s in Cleared(db, tables).side && Cleared(db, tables).side[s] == []
  {
    hide SideParent;
    var n := |tables| - 1;
    var before := Cleared(db, tables[..n]);
    if SideParent(s) in tables[..n] {
      SideTablesCleared(db, tables[..n], s);
    } else {
      SidesStay(db, tables[..n]);
    }
  }

  lemma {:induction false} SidesStay(db: Database, tables: seq<Table>)
    ensures Cleared(db, tables).side.Keys == db.side.Keys
  {
    if tables != [] {
      SidesStay(db, tables[..|tables| - 1]);
    }
  }

  lemma LoadExport(src: Database, start: Database)
    requires WellFormed(src) && RestoredUpTo(src, start, 0)
    ensures var loaded := LoadTables(start, Exported(src), EXPORT_TABLES, Replace);
      && loaded.Some? && loaded.value.version == start.version && loaded.value.side == start.side
      && forall t: Table :: RowsOf(loaded.value, t) == RestoredRows(t, RowsOf(src, t))
  {
    var tables := EXPORT_TABLES;
    forall i | 0 <= i < |tables| ensures Rank(tables[i]) == i {
      OrdersAreOpposite(Contracts, i);
    }
    assert forall t: Table :: Rank(t) < |tables|;
    hide WellFormed, LoadTables, Rank, RestoredRows, RowsOf, Exported;
    RestoreTables(src, start, tables);
  }

  // Replace-importing an export always succeeds, into any database of the same version: every
  // table holds the exported rows again, in order, with defaults in the unlisted columns; the
  // side tables of the target are empty afterwards.
  lemma RoundTrip(src: Database, dst: Database)
    requires WellFormed(src) && src.version == dst.version
    ensures var (db, error) := Imported(dst, Exported(src), Replace);
      && error.None? && db.version == src.version
      && (forall t: Table :: RowsOf(db, t) == RestoredRows(t, RowsOf(src, t)))
      && forall s :: s in dst.side ==> s in db.side && db.side[s] == []
  {
    hide WellFormed, LoadTables, Cleared, RestoredRows, RowsOf, Refusal, Exported, RestoredUpTo;
    EmptyStart(src, dst);
    ExportIsAccepted(src, dst);
    LoadExport(src, Cleared(dst, CLEAR_TABLES));
  }

  lemma ExportIsAccepted(src: Database, dst: Database)
    requires src.version == dst.version
    ensures Refusal(dst, Exported(src)).None?
  {
    FailureChangesNothing(dst, Exported(src), Replace);
    forall t: Table ensures t in Exported(src).tables {
      ExportedTable(src, t);
    }
    assert Exported(src).schemaVersion == Some(src.version);
    hide Refusal, RowsOf, Exported, Imported;
  }

  // After clearing, nothing is left in the exported and in the side tables.
  lemma EmptyStart(src: Database, dst: Database)
    ensures var start := Cleared(dst, CLEAR_TABLES);
      && RestoredUpTo(src, start, 0) && start.version == dst.version
      && forall s :: s in dst.side ==> s in start.side && start.side[s] == []
  {
    assert CLEAR_TABLES[..|CLEAR_TABLES|] == CLEAR_TABLES;
    ClearingStep(dst, |CLEAR_TABLES|);
    hide Cleared, RowsOf, Rank, RestoredRows;
    forall s | s in dst.side ensures s in Cleared(dst, CLEAR_TABLES).side && Cleared(dst, CLEAR_TABLES).side[s] == [] {
      EveryTableIsCleared(SideParent(s));
      SideTablesCleared(dst, CLEAR_TABLES, s);
    }
  }

  lemma EveryTableIsCleared(t: Table)
    ensures t in CLEAR_TABLES
  {
  }

  // A second trip changes nothing more.
  lemma RestoredTwice(t: Table, row: Row)
    ensures Restored(t, Restored(t, row)) == Restored(t, row)
  {
    var once := Restored(t, row);
    forall c ensures c in once <==> c in Columns(t) || c in Unlisted(t)
             ensures c in Unlisted(t) ==> Get(once, c) == Unlisted(t)[c] {
      RestoredColumns(t, row, c);
    }
    RestoredUnchangedIff(t, once);
  }
}
