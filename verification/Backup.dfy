// Export and import of the database (src/db/backup.ts). A table is its rows in rowid order; one
// SQL statement, and one db.transaction, is one step.
module Backup {
  import opened Common
  import opened BackupSchema

  datatype Database = Database(
    version: int, rows: map<Table, seq<Row>>, sequence: map<Table, int>, side: map<SideTable, seq<Row>>)

  datatype DatabaseBackup = DatabaseBackup(schemaVersion: Option<int>, tables: map<Table, seq<Row>>)

  datatype Mode = Replace | Merge

  datatype Error = MissingTable(t: Table) | UnknownVersion | MismatchedVersion | StatementFailed

  function RowsOf(db: Database, t: Table): seq<Row> {
    if t in db.rows then db.rows[t] else []
  }

  // ---------------------------------------------------------------- one INSERT

  // The columns not mentioned by the statement get their defaults.
  function Completed(t: Table, values: Row): Row {
    Unlisted(t) + values
  }

  predicate SameKey(t: Table, a: Row, b: Row) {
    exists key :: key in UniqueKeys(t) && Matches(key, a, b)
  }

  predicate Matches(key: seq<Column>, a: Row, b: Row) {
    forall c :: c in key ==> Get(a, c) != Null && Get(a, c) == Get(b, c)
  }

  predicate Conflicts(t: Table, rows: seq<Row>, row: Row) {
    exists r :: r in rows && SameKey(t, r, row)
  }

  // A NOT NULL or CHECK constraint is violated.
  predicate Malformed(t: Table, row: Row) {
    (exists c :: c in NotNull(t) && Get(row, c) == Null) || !ChecksHold(t, row)
  }

  // INTEGER PRIMARY KEY columns take integers only; contracts have a text key of their own.
  predicate BadId(t: Table, row: Row) {
    t != Contracts && Get(row, "id").Text?
  }

  predicate HasParent(db: Database, fk: ForeignKey, row: Row) {
    var v := Get(row, fk.column);
    v == Null || exists p :: p in RowsOf(db, fk.parent) && Get(p, "id") == v
  }

  predicate ParentsExist(db: Database, t: Table, row: Row) {
    forall fk :: fk in ForeignKeys(t) ==> HasParent(db, fk, row)
  }

  function IdOf(row: Row): int {
    var v := Get(row, "id");
    if v.Number? then v.n else 0
  }

  function MaxId(rows: seq<Row>): int {
    if rows == [] then 0 else
      var rest, id := MaxId(rows[..|rows| - 1]), IdOf(rows[|rows| - 1]);
      if id > rest then id else rest
  }

  // AUTOINCREMENT
  function NextId(db: Database, t: Table): int {
    var stored := if t in db.sequence then db.sequence[t] else 0;
    1 + if stored > MaxId(RowsOf(db, t)) then stored else MaxId(RowsOf(db, t))
  }

  function Assigned(db: Database, t: Table, row: Row): Row {
    if t != Contracts && Get(row, "id") == Null then row["id" := Number(NextId(db, t))] else row
  }

  // The place of a new row in rowid order; contracts have a rowid of their own that only grows.
  function Placed(t: Table, rows: seq<Row>, row: Row): seq<Row> {
    if rows == [] || t == Contracts || IdOf(rows[|rows| - 1]) < IdOf(row) then rows + [row]
    else Placed(t, rows[..|rows| - 1], row) + [rows[|rows| - 1]]
  }

  datatype Outcome = Inserted(db: Database) | Skipped | Failed

  // INSERT, or INSERT OR IGNORE: the latter passes over a row that violates NOT NULL, CHECK,
  // UNIQUE or PRIMARY KEY, but not over one without its parents.
  function InsertRow(db: Database, t: Table, values: Row, mode: Mode): Outcome {
    var given := Completed(t, values);
    if BadId(t, given) then Failed
    else if Malformed(t, given) || Conflicts(t, RowsOf(db, t), given) then
      if mode == Merge then Skipped else Failed
    else if !ParentsExist(db, t, given) then Failed
    else
      var row := Assigned(db, t, given);
      Inserted(db.(rows := db.rows[t := Placed(t, RowsOf(db, t), row)],
                   sequence := db.sequence[t := if IdOf(row) >= NextId(db, t) then IdOf(row) else NextId(db, t) - 1]))
  }

  // ---------------------------------------------------------------- one DELETE FROM

  // Row of table u refers to a row of t, by a reference that is set to null with it or not.
  predicate RefersTo(u: Table, row: Row, t: Table, setNull: bool) {
    exists fk :: fk in ForeignKeys(u) && fk.parent == t && fk.setNull == setNull && Get(row, fk.column) != Null
  }

  function Detached(u: Table, row: Row, t: Table): Row {
    map c | c in row :: if ForeignKey(c, t, true) in ForeignKeys(u) then Null else row[c]
  }

  // What is left of table u when every row of t is deleted: rows that refer to t go with it, or
  // lose the reference.
  function Survivors(u: Table, rows: seq<Row>, t: Table): seq<Row> {
    if rows == [] then [] else
      var rest, row := Survivors(u, rows[..|rows| - 1], t), rows[|rows| - 1];
      if RefersTo(u, row, t, false) then rest else rest + [Detached(u, row, t)]
  }

  function DeleteAll(db: Database, t: Table): Database {
    db.(rows := map u | u in db.rows :: if u == t then [] else Survivors(u, db.rows[u], t),
        side := map s | s in db.side :: if SideParent(s) == t then [] else db.side[s])
  }

  // ---------------------------------------------------------------- the whole import

  function Normalized(row: Row, columns: seq<Column>): (r: Row)
    ensures r.Keys == set c | c in columns
    ensures forall c :: c in columns ==> r[c] == Get(row, c)
  {
    map c | c in columns :: Get(row, c)
  }

  function Cleared(db: Database, tables: seq<Table>): Database {
    if tables == [] then db else DeleteAll(Cleared(db, tables[..|tables| - 1]), tables[|tables| - 1])
  }

  function LoadRow(db: Database, t: Table, row: Row, mode: Mode): Option<Database> {
    match InsertRow(db, t, Normalized(row, Columns(t)), mode)
    case Inserted(db') => Some(db')
    case Skipped => Some(db)
    case Failed => None
  }

  function LoadRows(db: Database, t: Table, rows: seq<Row>, mode: Mode): Option<Database> {
    if rows == [] then Some(db) else
      var before := LoadRows(db, t, rows[..|rows| - 1], mode);
      if before.None? then None else LoadRow(before.value, t, rows[|rows| - 1], mode)
  }

  function TableOf(backup: DatabaseBackup, t: Table): seq<Row> {
    if t in backup.tables then backup.tables[t] else []
  }

  function LoadTables(db: Database, backup: DatabaseBackup, tables: seq<Table>, mode: Mode): Option<Database> {
    if tables == [] then Some(db) else
      var t, before := tables[|tables| - 1], LoadTables(db, backup, tables[..|tables| - 1], mode);
      if before.None? then None else LoadRows(before.value, t, TableOf(backup, t), mode)
  }

  // The first exported table that the backup does not have.
  function FirstMissing(backup: DatabaseBackup, tables: seq<Table>): Option<Table> {
    if tables == [] then None
    else if tables[0] !in backup.tables then Some(tables[0])
    else FirstMissing(backup, tables[1..])
  }

  function Refusal(db: Database, backup: DatabaseBackup): Option<Error> {
    var missing := FirstMissing(backup, EXPORT_TABLES);
    if missing.Some? then Some(MissingTable(missing.value))
    else if backup.schemaVersion.None? then Some(UnknownVersion)
    else if backup.schemaVersion.value != db.version then Some(MismatchedVersion)
    else None
  }

  function Imported(db: Database, backup: DatabaseBackup, mode: Mode): (Database, Option<Error>) {
    var refusal := Refusal(db, backup);
    if refusal.Some? then (db, refusal) else
      var start := if mode == Merge then db else Cleared(db, CLEAR_TABLES);
      var loaded := LoadTables(start, backup, EXPORT_TABLES, mode);
      if loaded.Some? then (loaded.value, None) else (db, Some(StatementFailed))
  }

  function Exported(db: Database): DatabaseBackup {
    DatabaseBackup(Some(db.version), map t | t in EXPORT_TABLES :: RowsOf(db, t))
  }

  // ---------------------------------------------------------------- the program

  // One page: LIMIT PAGE_SIZE OFFSET offset.
  function Page(rows: seq<Row>, offset: nat): (page: seq<Row>) {
    if offset >= |rows| then []
    else if |rows| - offset <= PAGE_SIZE then rows[offset..]
    else rows[offset..offset + PAGE_SIZE]
  }

  lemma PagesJoin(all: seq<Row>, offset: nat)
    ensures offset <= |all| ==>
      all[..offset] + Page(all, offset) == if offset + PAGE_SIZE <= |all| then all[..offset + PAGE_SIZE] else all
  {
  }

  // Reading page by page returns the whole table, whatever its size.
  method SelectTable(db: Database, t: Table) returns (rows: seq<Row>)
    ensures rows == RowsOf(db, t)
  {
    var all := RowsOf(db, t);
    if t !in PAGED_TABLES {
      return all;
    }
    rows := [];
    var offset := 0;
    while true
      invariant offset % PAGE_SIZE == 0
      invariant rows == if offset <= |all| then all[..offset] else all
      invariant offset <= |all| + PAGE_SIZE
      decreases |all| + PAGE_SIZE - offset
    {
      var page := Page(all, offset);
      PagesJoin(all, offset);
      if |page| == 0 {
        break;
      }
      rows := rows + page;
      if |page| < PAGE_SIZE {
        break;
      }
      offset := offset + PAGE_SIZE;
    }
  }

  method NormalizeRow(row: Row, columns: seq<Column>) returns (normalized: Row)
    ensures normalized == Normalized(row, columns)
  {
    normalized := map[];
    for i := 0 to |columns|
      invariant normalized == Normalized(row, columns[..i])
    {
      assert columns[..i + 1] == columns[..i] + [columns[i]];
      normalized := normalized[columns[i] := if columns[i] in row then row[columns[i]] else Null];
    }
    assert columns[..|columns|] == columns;
  }

  class DatabaseHandle {
    var db: Database

    constructor (db: Database)
      ensures this.db == db
    {
      this.db := db;
    }

    method ExportDatabase() returns (backup: DatabaseBackup)
      ensures backup == Exported(db)
    {
      var tables: map<Table, seq<Row>> := map[];
      var order := EXPORT_TABLES;
      for i := 0 to |order|
        invariant tables == map t | t in order[..i] :: RowsOf(db, t)
      {
        var rows := SelectTable(db, order[i]);
        tables := tables[order[i] := rows];
        assert order[..i + 1] == order[..i] + [order[i]];
      }
      assert order[..|order|] == order;
      backup := DatabaseBackup(Some(db.version), tables);
    }

    // The transaction works on a copy that replaces the database only when no statement failed.
    method ImportDatabase(backup: DatabaseBackup, mode: Mode) returns (error: Option<Error>)
      modifies this
      ensures (db, error) == Imported(old(db), backup, mode)
    {
      error := Refusal(db, backup);
      if error.Some? {
        return;
      }
      var work := db;
      if mode != Merge {
        for i := 0 to |CLEAR_TABLES|
          invariant work == Cleared(db, CLEAR_TABLES[..i])
        {
          assert CLEAR_TABLES[..i + 1][..i] == CLEAR_TABLES[..i];
          work := DeleteAll(work, CLEAR_TABLES[i]);
        }
        assert CLEAR_TABLES[..|CLEAR_TABLES|] == CLEAR_TABLES;
      }
      var loaded := LoadAll(work, backup, mode);
      if loaded.None? {
        return Some(StatementFailed);
      }
      db := loaded.value;
    }
  }

  lemma OneMoreTable(start: Database, backup: DatabaseBackup, tables: seq<Table>, i: nat, mode: Mode)
    requires i < |tables|
    ensures var before := LoadTables(start, backup, tables[..i], mode);
      LoadTables(start, backup, tables[..i + 1], mode)
      == if before.None? then None else LoadRows(before.value, tables[i], TableOf(backup, tables[i]), mode)
  {
    assert tables[..i + 1][..i] == tables[..i];
    hide LoadRows;
  }

  lemma OneMoreRow(start: Database, t: Table, rows: seq<Row>, i: nat, mode: Mode)
    requires i < |rows|
    ensures var before := LoadRows(start, t, rows[..i], mode);
      LoadRows(start, t, rows[..i + 1], mode) == if before.None? then None else LoadRow(before.value, t, rows[i], mode)
  {
    assert rows[..i + 1][..i] == rows[..i];
    hide LoadRow;
  }

  method LoadAll(start: Database, backup: DatabaseBackup, mode: Mode) returns (loaded: Option<Database>)
    ensures loaded == LoadTables(start, backup, EXPORT_TABLES, mode)
  {
    hide LoadRows;
    var tables := EXPORT_TABLES;
    var work := start;
    for i := 0 to |tables|
      invariant LoadTables(start, backup, tables[..i], mode) == Some(work)
    {
      OneMoreTable(start, backup, tables, i, mode);
      hide LoadTables;
      var next := LoadTable(work, tables[i], TableOf(backup, tables[i]), mode);
      if next.None? {
        LoadingStops(start, backup, tables, i + 1, mode);
        return None;
      }
      work := next.value;
    }
    assert tables[..|tables|] == tables;
    return Some(work);
  }

  method LoadTable(start: Database, t: Table, rows: seq<Row>, mode: Mode) returns (loaded: Option<Database>)
    ensures loaded == LoadRows(start, t, rows, mode)
  {
    hide InsertRow, Columns;
    var work := start;
    for i := 0 to |rows|
      invariant LoadRows(start, t, rows[..i], mode) == Some(work)
    {
      OneMoreRow(start, t, rows, i, mode);
      hide LoadRows;
      var values := NormalizeRow(rows[i], Columns(t));
      match InsertRow(work, t, values, mode) {
        case Inserted(db') => work := db';
        case Skipped =>
        case Failed =>
          RowsStop(start, t, rows, i + 1, mode);
          return None;
      }
    }
    assert rows[..|rows|] == rows;
    return Some(work);
  }

  // Once a statement has failed, the rest does not run.
  lemma {:induction false} RowsStop(db: Database, t: Table, rows: seq<Row>, k: nat, mode: Mode)
    requires k <= |rows| && LoadRows(db, t, rows[..k], mode).None?
    ensures LoadRows(db, t, rows, mode).None?
  {
    if k < |rows| {
      assert rows[..|rows| - 1][..k] == rows[..k];
      RowsStop(db, t, rows[..|rows| - 1], k, mode);
    } else {
      assert rows[..k] == rows;
    }
  }

  lemma {:induction false} LoadingStops(db: Database, backup: DatabaseBackup, tables: seq<Table>, k: nat, mode: Mode)
    requires k <= |tables| && LoadTables(db, backup, tables[..k], mode).None?
    ensures LoadTables(db, backup, tables, mode).None?
  {
    if k < |tables| {
      assert tables[..|tables| - 1][..k] == tables[..k];
      LoadingStops(db, backup, tables[..|tables| - 1], k, mode);
    } else {
      assert tables[..k] == tables;
    }
  }
}
